/**
 Pipelined requests that arrive in pieces (http/http_connection.cc 77-120): however
 the bytes of many requests are cut, as long as each cut is one that a single request
 survives, the connection answers the same requests in the same order.
 */
module Pipelining {
  import opened Common
  import opened Text
  import opened Message
  import RoundTrip
  import D = Delivery
  import opened Connection
  import C = Connection

  /** How far the bytes have come: whole requests, then a cut of the next one;
      `InFirstLine(0)` means that nothing of it has come. */
  datatype Place = Place(done: nat, cut: D.Cut)

  function SentOf(x: Sending, blank: Req): D.Sent {
    D.Sent(x.q, x.target, x.order, blank)
  }

  predicate Begun(p: Place) {
    p.cut != D.InFirstLine(0)
  }

  ghost predicate PlaceOk(xs: seq<Sending>, blank: Req, p: Place)
    requires AllGood(xs) && NewRequest(blank)
  {
    && p.done <= |xs| && !p.cut.Whole?
    && (Begun(p) ==> p.done < |xs| && D.ValidCut(SentOf(xs[p.done], blank), p.cut))
  }

  /** The bytes that have come of the request under way. */
  ghost function Part(xs: seq<Sending>, blank: Req, p: Place): string
    requires AllGood(xs) && NewRequest(blank) && PlaceOk(xs, blank, p)
  {
    if Begun(p) then assert C.Good(xs[p.done]); D.Prefix(SentOf(xs[p.done], blank), p.cut) else ""
  }

  /** The requests in the queue and the bytes in the buffer at that point. */
  ghost function Front(xs: seq<Sending>, blank: Req, p: Place): seq<Req>
    requires AllGood(xs) && NewRequest(blank) && PlaceOk(xs, blank, p)
  {
    if Begun(p) then assert C.Good(xs[p.done]); [D.StateAt(SentOf(xs[p.done], blank), p.cut)] else []
  }

  ghost function Left(xs: seq<Sending>, blank: Req, p: Place): string
    requires AllGood(xs) && NewRequest(blank) && PlaceOk(xs, blank, p)
  {
    if Begun(p) then assert C.Good(xs[p.done]); D.LeftAt(SentOf(xs[p.done], blank), p.cut) else ""
  }

  /** The connection is where the bytes up to `p` should have brought it. */
  ghost predicate Stands(xs: seq<Sending>, blank: Req, c: Conn, p: Place)
    requires AllGood(xs) && NewRequest(blank) && PlaceOk(xs, blank, p)
  {
    c.requests == Front(xs, blank, p) && c.input == Left(xs, blank, p)
  }

  predicate Later(p: Place, p': Place) {
    p.done < p'.done || (p.done == p'.done && Begun(p') && D.Before(p.cut, p'.cut))
  }

  /** `piece` takes the bytes from one place to a later one. */
  ghost predicate Brings(xs: seq<Sending>, blank: Req, p: Place, p': Place, piece: string)
    requires AllGood(xs) && NewRequest(blank)
  {
    && PlaceOk(xs, blank, p) && PlaceOk(xs, blank, p') && Later(p, p') && piece != ""
    && Part(xs, blank, p) + piece == Wire(xs[p.done..p'.done]) + Part(xs, blank, p')
  }

  /** What the loop makes of the bytes behind the last whole request. */
  function Waiting(front: seq<Req>, left: string, hs: seq<Req>): Served {
    Served(hs, front, left, if front == [] then None else Some(NeedMore))
  }

  lemma ServePart(xs: seq<Sending>, blank: Req, p: Place)
    requires AllGood(xs) && NewRequest(blank) && PlaceOk(xs, blank, p)
    ensures Serve([], Part(xs, blank, p), blank) == Waiting(Front(xs, blank, p), Left(xs, blank, p), [])
  {
    if Begun(p) {
      assert C.Good(xs[p.done]);
      D.Stops(SentOf(xs[p.done], blank), p.cut);
      PartNonEmpty(SentOf(xs[p.done], blank), p.cut);
    }
  }

  lemma PartNonEmpty(x: D.Sent, c: D.Cut)
    requires D.Ok(x) && D.ValidCut(x, c) && c != D.InFirstLine(0)
    ensures D.Prefix(x, c) != ""
  {
  }

  /** `hs` is what a server should have made of the requests from the i-th on. */
  ghost predicate AllReceived(hs: seq<Req>, xs: seq<Sending>, i: nat) {
    i + |hs| <= |xs| && forall k :: 0 <= k < |hs| ==> RoundTrip.Received(hs[k], xs[i + k].q, xs[i + k].target)
  }

  lemma ReceivedSlice(hs: seq<Req>, xs: seq<Sending>, i: nat, j: nat)
    requires i <= j <= |xs| && |hs| == j - i
    requires forall k :: 0 <= k < |hs| ==> RoundTrip.Received(hs[k], xs[i..j][k].q, xs[i..j][k].target)
    ensures AllReceived(hs, xs, i)
  {
    forall k | 0 <= k < |hs| ensures RoundTrip.Received(hs[k], xs[i + k].q, xs[i + k].target) {
      assert xs[i..j][k] == xs[i + k];
    }
  }

  /** Whole requests, beginning afresh. */
  lemma ServeWhole(xs: seq<Sending>, blank: Req, i: nat, p': Place) returns (hs: seq<Req>)
    requires AllGood(xs) && NewRequest(blank) && PlaceOk(xs, blank, p') && i <= p'.done
    ensures |hs| == p'.done - i && AllReceived(hs, xs, i)
    ensures Serve([], Wire(xs[i..p'.done]) + Part(xs, blank, p'), blank) ==
            Waiting(Front(xs, blank, p'), Left(xs, blank, p'), hs)
  {
    hs := PipelineRoundTrip(xs[i..p'.done], Part(xs, blank, p'), blank);
    ReceivedSlice(hs, xs, i, p'.done);
    ServePart(xs, blank, p');
    assert hs + [] == hs;
  }

  /** A request under way that becomes complete: as if it had come at once. */
  lemma ServeResumed(x: Sending, blank: Req, c: D.Cut, piece: string, rest: string)
    requires C.Good(x) && NewRequest(blank) && D.ValidCut(SentOf(x, blank), c) && !c.Whole? && c != D.InFirstLine(0)
    requires D.Prefix(SentOf(x, blank), c) + piece == RoundTrip.SendTo(x.q, x.order) + rest && piece != ""
    ensures var s := SentOf(x, blank);
            Serve([D.StateAt(s, c)], D.LeftAt(s, c) + piece, blank) ==
            Serve([], RoundTrip.SendTo(x.q, x.order) + rest, blank)
  {
    var s := SentOf(x, blank);
    var wire := RoundTrip.SendTo(x.q, x.order) + rest;
    D.WholeIsSendTo(s, rest);
    D.Resumes(s, c, D.Whole(rest), piece);
    RoundTrip.RequestRoundTrip(x.q, x.target, x.order, blank, rest);
    assert wire != "" by { assert |x.q.firstline| >= 2; }
    ServeUnfold([D.StateAt(s, c)], D.LeftAt(s, c) + piece, blank);
    ServeUnfold([], wire, blank);
  }

  /** A request under way that stays so. */
  lemma ServeGoesOn(x: Sending, blank: Req, c: D.Cut, c': D.Cut, piece: string)
    requires C.Good(x) && NewRequest(blank) && D.ValidCut(SentOf(x, blank), c) && D.ValidCut(SentOf(x, blank), c')
    requires c != D.InFirstLine(0) && !c'.Whole? && D.Before(c, c') && piece != ""
    requires D.Prefix(SentOf(x, blank), c) + piece == D.Prefix(SentOf(x, blank), c')
    ensures var s := SentOf(x, blank);
            Serve([D.StateAt(s, c)], D.LeftAt(s, c) + piece, blank) == Waiting([D.StateAt(s, c')], D.LeftAt(s, c'), [])
  {
    var s := SentOf(x, blank);
    D.Resumes(s, c, c', piece);
    D.Stops(s, c');
    ServeUnfold([D.StateAt(s, c)], D.LeftAt(s, c) + piece, blank);
  }

  lemma WireFirst(xs: seq<Sending>, i: nat, j: nat, rest: string)
    requires AllGood(xs) && i < j <= |xs|
    ensures C.Good(xs[i]) && AllGood(xs[i + 1..j]) && AllGood(xs[i..j])
    ensures Wire(xs[i..j]) + rest == RoundTrip.SendTo(xs[i].q, xs[i].order) + (Wire(xs[i + 1..j]) + rest)
  {
    assert xs[i..j][0] == xs[i] && xs[i..j][1..] == xs[i + 1..j];
    WireUnfold(xs[i..j], rest);
  }

  /** One more piece: the requests it completes, and where it leaves the connection. */
  lemma ServePiece(xs: seq<Sending>, blank: Req, p: Place, p': Place, piece: string) returns (hs: seq<Req>)
    requires AllGood(xs) && NewRequest(blank) && Brings(xs, blank, p, p', piece)
    ensures |hs| == p'.done - p.done && AllReceived(hs, xs, p.done)
    ensures Serve(Front(xs, blank, p), Left(xs, blank, p) + piece, blank) ==
            Waiting(Front(xs, blank, p'), Left(xs, blank, p'), hs)
  {
    if Begun(p) && p.done == p'.done {
      ServeStays(xs, blank, p, p', piece);
      hs := [];
    } else {
      if Begun(p) {
        ServeCompletes(xs, blank, p, p', piece);
      } else {
        assert "" + piece == piece;
      }
      hs := ServeWhole(xs, blank, p.done, p');
    }
  }

  lemma ServeStays(xs: seq<Sending>, blank: Req, p: Place, p': Place, piece: string)
    requires AllGood(xs) && NewRequest(blank) && PlaceOk(xs, blank, p) && PlaceOk(xs, blank, p')
    requires Begun(p) && p.done == p'.done
    ensures Brings(xs, blank, p, p', piece) ==>
              Serve(Front(xs, blank, p), Left(xs, blank, p) + piece, blank) ==
              Waiting(Front(xs, blank, p'), Left(xs, blank, p'), [])
  {
    assert C.Good(xs[p.done]);
    assert Wire(xs[p.done..p'.done]) + Part(xs, blank, p') == Part(xs, blank, p');
    if Brings(xs, blank, p, p', piece) {
      ServeGoesOn(xs[p.done], blank, p.cut, p'.cut, piece);
    }
  }

  lemma ServeCompletes(xs: seq<Sending>, blank: Req, p: Place, p': Place, piece: string)
    requires AllGood(xs) && NewRequest(blank) && Brings(xs, blank, p, p', piece) && Begun(p) && p.done < p'.done
    ensures Serve(Front(xs, blank, p), Left(xs, blank, p) + piece, blank) ==
            Serve([], Wire(xs[p.done..p'.done]) + Part(xs, blank, p'), blank)
  {
    WireFirst(xs, p.done, p'.done, Part(xs, blank, p'));
    ServeResumed(xs[p.done], blank, p.cut, piece, Wire(xs[p.done + 1..p'.done]) + Part(xs, blank, p'));
  }

  function Data(e: Event): seq<string> {
    if e.Arrived? then [e.data] else []
  }

  /** The pieces that the events of a run bring. */
  function Datas(es: seq<Event>): seq<string> {
    if es == [] then [] else Datas(es[..|es| - 1]) + Data(es[|es| - 1])
  }

  lemma DatasNext(es: seq<Event>, k: nat)
    requires k < |es|
    ensures Datas(es[..k + 1]) == Datas(es[..k]) + Data(es[k])
  {
    assert es[..k + 1][..k] == es[..k];
  }

  lemma {:induction false} DatasPrefix(es: seq<Event>, k: nat)
    requires k <= |es|
    ensures Datas(es[..k]) <= Datas(es)
    decreases |es| - k
  {
    if k == |es| {
      assert es[..k] == es;
    } else {
      DatasNext(es, k);
      DatasPrefix(es, k + 1);
    }
  }

  /** The pieces lead from a place in the first request to the last one, each to a later
      one. */
  ghost predicate Pieces(xs: seq<Sending>, blank: Req, pieces: seq<string>, places: seq<Place>)
    requires AllGood(xs) && NewRequest(blank)
  {
    && |places| == |pieces| + 1 && places[0].done == 0 && PlaceOk(xs, blank, places[0])
    && forall k :: 0 <= k < |pieces| ==> Brings(xs, blank, places[k], places[k + 1], pieces[k])
  }

  /** One piece for the connection. */
  lemma PiecePushes(server: Server, xs: seq<Sending>, c: Conn, p: Place, p': Place, piece: string)
      returns (hs: seq<Req>)
    requires AllGood(xs) && NewRequest(server.blank) && Brings(xs, server.blank, p, p', piece) && Kept(c)
    requires Possible(c, Arrived(piece)) && Stands(xs, server.blank, c, p)
    ensures |hs| == p'.done - p.done && AllReceived(hs, xs, p.done)
    ensures var d := Handle(c, server, Arrived(piece));
            Stands(xs, server.blank, d, p') && d.pushed == c.pushed + Replies(server, hs)
  {
    hs := ServePiece(xs, server.blank, p, p', piece);
    HandlePushes(c, server, Arrived(piece));
    assert Replies(server, hs) + "" == Replies(server, hs);
  }

  lemma ReceivedBoth(xs: seq<Sending>, a: seq<Req>, b: seq<Req>)
    requires AllReceived(a, xs, 0) && AllReceived(b, xs, |a|)
    ensures AllReceived(a + b, xs, 0)
  {
    forall i | 0 <= i < |a + b| ensures RoundTrip.Received((a + b)[i], xs[0 + i].q, xs[0 + i].target) {
      if i >= |a| {
        assert (a + b)[i] == b[i - |a|] && xs[|a| + (i - |a|)] == xs[i];
      } else {
        assert xs[0 + i] == xs[i];
      }
    }
  }

  lemma BothPushed(server: Server, xs: seq<Sending>, pushed: string, a: seq<Req>, b: seq<Req>)
    requires AllReceived(a, xs, 0) && AllReceived(b, xs, |a|)
    ensures AllReceived(a + b, xs, 0)
    ensures pushed + Replies(server, a) + Replies(server, b) == pushed + Replies(server, a + b)
  {
    ReceivedBoth(xs, a, b);
    RepliesAppend(server, a, b);
    Assoc(pushed, Replies(server, a), Replies(server, b));
  }

  /** `hs` are the requests that are all there when the bytes are at `p`, and their
      replies were pushed behind `start`. */
  ghost predicate Replied(server: Server, xs: seq<Sending>, start: string, c: Conn, p: Place, hs: seq<Req>) {
    |hs| == p.done && AllReceived(hs, xs, 0) && c.pushed == start + Replies(server, hs)
  }

  /** What should have happened by then; a closed connection has no queue any more. */
  ghost predicate Answered(server: Server, xs: seq<Sending>, start: string, c: Conn, p: Place, hs: seq<Req>)
    requires AllGood(xs) && NewRequest(server.blank)
  {
    && Replied(server, xs, start, c, p, hs) && PlaceOk(xs, server.blank, p)
    && (c.life != CLOSED ==> Stands(xs, server.blank, c, p))
  }

  lemma AnsweredStart(server: Server, xs: seq<Sending>, c: Conn, p: Place)
    requires AllGood(xs) && NewRequest(server.blank) && PlaceOk(xs, server.blank, p) && p.done == 0
    requires Stands(xs, server.blank, c, p)
    ensures Answered(server, xs, c.pushed, c, p, [])
  {
    assert c.pushed + "" == c.pushed;
  }

  lemma AnsweredNext(server: Server, xs: seq<Sending>, start: string, c: Conn, p: Place, p': Place, piece: string,
                     before: seq<Req>) returns (hs: seq<Req>)
    requires AllGood(xs) && NewRequest(server.blank) && Brings(xs, server.blank, p, p', piece) && Kept(c)
    requires Possible(c, Arrived(piece)) && Answered(server, xs, start, c, p, before)
    ensures Answered(server, xs, start, Handle(c, server, Arrived(piece)), p', hs)
  {
    var more := PiecePushes(server, xs, c, p, p', piece);
    hs := before + more;
    BothPushed(server, xs, start, before, more);
  }

  /** The other events leave queue and buffer alone, until one closes. */
  lemma AnsweredStill(server: Server, xs: seq<Sending>, start: string, c: Conn, p: Place, e: Event, hs: seq<Req>)
    requires AllGood(xs) && NewRequest(server.blank) && |c.requests| <= 1 && Possible(c, e) && !e.Arrived?
    requires Answered(server, xs, start, c, p, hs)
    ensures Answered(server, xs, start, Handle(c, server, e), p, hs)
  {
    OtherEvents(c, server, e);
  }

  lemma PieceAt(xs: seq<Sending>, blank: Req, es: seq<Event>, places: seq<Place>, k: nat)
    requires AllGood(xs) && NewRequest(blank) && Pieces(xs, blank, Datas(es), places) && k < |es|
    ensures var a, b := |Datas(es[..k])|, |Datas(es[..k + 1])|;
            && b < |places|
            && (es[k].Arrived? ==> b == a + 1 && Brings(xs, blank, places[a], places[b], es[k].data))
            && (!es[k].Arrived? ==> b == a)
  {
    var a := |Datas(es[..k])|;
    DatasNext(es, k);
    DatasPrefix(es, k + 1);
    assert es[k].Arrived? ==> Datas(es[..k + 1])[a] == es[k].data == Datas(es)[a];
  }

  /** Pipelined requests in any number of pieces, each cut where a single request may
      be cut, in any run of handler calls that brings these pieces, with writes and
      errors in between, and from any place in the first request on: at each point the
      connection has completed exactly the requests that are all there, as they were
      sent and in order, and has pushed their replies. */
  lemma {:induction false} PipelineInPieces(server: Server, xs: seq<Sending>, es: seq<Event>,
                                            places: seq<Place>, cs: seq<Conn>, k: nat) returns (hs: seq<Req>)
    requires AllGood(xs) && NewRequest(server.blank) && Pieces(xs, server.blank, Datas(es), places) && k <= |es|
    requires IsRun(server, es, cs) && Stands(xs, server.blank, cs[0], places[0])
    ensures |Datas(es[..k])| < |places|
    ensures Answered(server, xs, cs[0].pushed, cs[k], places[|Datas(es[..k])|], hs)
  {
    if k == 0 {
      hs := [];
      assert es[..0] == [];
      AnsweredStart(server, xs, cs[0], places[0]);
    } else {
      var before := PipelineInPieces(server, xs, es, places, cs, k - 1);
      hs := AnsweredAfter(server, xs, es, places, cs, k - 1, cs[0].pushed, before);
    }
  }

  lemma AnsweredAfter(server: Server, xs: seq<Sending>, es: seq<Event>, places: seq<Place>, cs: seq<Conn>,
                      k: nat, start: string, before: seq<Req>) returns (hs: seq<Req>)
    requires AllGood(xs) && NewRequest(server.blank) && Pieces(xs, server.blank, Datas(es), places) && k < |es|
    requires IsRun(server, es, cs) && |Datas(es[..k])| < |places|
    requires Answered(server, xs, start, cs[k], places[|Datas(es[..k])|], before)
    ensures |Datas(es[..k + 1])| < |places|
    ensures Answered(server, xs, start, cs[k + 1], places[|Datas(es[..k + 1])|], hs)
  {
    var a, b := |Datas(es[..k])|, |Datas(es[..k + 1])|;
    PieceAt(xs, server.blank, es, places, k);
    RunStep(server, es, cs, k + 1);
    KeptAlways(server, es, cs, k);
    if es[k].Arrived? {
      hs := AnsweredNext(server, xs, start, cs[k], places[a], places[b], es[k].data, before);
    } else {
      hs := before;
      AnsweredStill(server, xs, start, cs[k], places[a], es[k], hs);
    }
  }
}
