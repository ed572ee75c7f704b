/**
 A descriptor that is used again: what the close of a connection leaves in the
 interest table (http/http_connection.cc 49-54 and 164-170, core/epoll.hh 55-108), and
 what that means for the next client with the same number.
 */
module Recycling {
  import opened Common
  import opened Text
  import opened Message
  import RoundTrip
  import D = Delivery
  import I = Interest
  import opened Connection
  import C = Connection
  import P = Pipelining

  function MaskFor(c: Conn): I.Mask {
    (if c.reading then I.RD else 0) | (if c.writing then I.WR else 0)
  }

  /** The table has the connection's interest. */
  ghost predicate Records(t: I.Table, c: Conn) {
    I.Mirror(t) && c.fd > 0 && I.MaskOf(t.events, c.fd) == MaskFor(c)
  }

  /** The table behind the write handler's `remove_write` and `close`. */
  function AfterClose(t: I.Table, fd: int): I.Table {
    I.Closed(I.Removed(t, fd, I.WR, true), fd)
  }

  /** A write handler call that closes leaves a stale entry exactly when the connection
      was still watched for reading. */
  lemma CloseLeavesStaleExactly(t: I.Table, c: Conn, server: Server, n: int, hard: bool)
    requires NewRequest(server.blank) && |c.requests| <= 1 && Records(t, c)
    requires Possible(c, Writable(n, hard)) && c.output == "" && c.life == CLOSING
    ensures Handle(c, server, Writable(n, hard)).life == CLOSED
    ensures I.Stale(AfterClose(t, c.fd), c.fd, I.RD) <==> c.reading
    ensures I.Mirror(AfterClose(t, c.fd)) <==> !c.reading
  {
    var u := I.Removed(t, c.fd, I.WR, true);
    I.RemoveMirrors(t, c.fd, I.WR, true);
    assert I.MaskOf(t.events, c.fd) == I.MaskOf(t.kernel, c.fd);
    assert I.MaskOf(u.events, c.fd) == I.MaskOf(u.kernel, c.fd);
    I.CloseBreaksMirror(u, c.fd);
  }

  /** What `make_connection` and the wake-up handler ask for. */
  function Setup(fd: int): seq<I.Op> {
    [I.Add(fd, I.RD, true), I.Remove(fd, I.RD, true), I.Add(fd, I.WR, true), I.Remove(fd, I.WR, true),
     I.Add(fd, I.RD, true)]
  }

  function AfterAll(t: I.Table, ops: seq<I.Op>): I.Table
    decreases |ops|
  {
    if ops == [] then t else AfterAll(I.After(t, ops[0]), ops[1..])
  }

  lemma {:induction false} StaleAfterAll(t: I.Table, fd: int, mask: I.Mask, ops: seq<I.Op>)
    requires I.Stale(t, fd, mask)
    ensures I.Stale(AfterAll(t, ops), fd, mask)
    decreases |ops|
  {
    if ops != [] {
      I.StaleStays(t, fd, mask, ops[0]);
      StaleAfterAll(I.After(t, ops[0]), fd, mask, ops[1..]);
    }
  }

  lemma {:induction false} MirrorAfterAll(t: I.Table, ops: seq<I.Op>)
    requires I.Mirror(t)
    ensures I.Mirror(AfterAll(t, ops))
    decreases |ops|
  {
    if ops != [] {
      I.StepMirror(t, ops[0]);
      MirrorAfterAll(I.After(t, ops[0]), ops[1..]);
    }
  }

  lemma SetupWatches(t: I.Table, fd: int)
    requires I.Mirror(t) && fd > 0 && I.MaskOf(t.events, fd) == 0
    ensures I.MaskOf(AfterAll(t, Setup(fd)).kernel, fd) == I.RD
  {
    var ops := Setup(fd);
    var t4 := AfterAll(t, ops[..4]);
    MirrorAfterAll(t, ops[..4]);
    AfterAllSnoc(t, ops[..4], ops[4]);
    assert ops == ops[..4] + [ops[4]];
    FourSteps(t, fd);
    I.StepMirror(t4, ops[4]);
  }

  lemma {:induction false} AfterAllSnoc(t: I.Table, ops: seq<I.Op>, op: I.Op)
    ensures AfterAll(t, ops + [op]) == I.After(AfterAll(t, ops), op)
    decreases |ops|
  {
    if ops == [] {
      assert ops + [op] == [op] && [op][1..] == [];
    } else {
      assert (ops + [op])[1..] == ops[1..] + [op];
      AfterAllSnoc(I.After(t, ops[0]), ops[1..], op);
    }
  }

  /** Adding and removing each side leaves no interest. */
  lemma FourSteps(t: I.Table, fd: int)
    requires I.Mirror(t) && fd > 0 && I.MaskOf(t.events, fd) == 0
    ensures I.MaskOf(AfterAll(t, Setup(fd)[..4]).kernel, fd) == 0
  {
    var a := I.Add(fd, I.RD, true);
    var b := I.Remove(fd, I.RD, true);
    var c := I.Add(fd, I.WR, true);
    var d := I.Remove(fd, I.WR, true);
    var t1 := I.After(t, a);
    var t2 := I.After(t1, b);
    var t3 := I.After(t2, c);
    assert I.MaskOf(t.events, fd) == I.MaskOf(t.kernel, fd);
    I.StepMirror(t, a);
    I.StepMirror(t1, b);
    I.StepMirror(t2, c);
    I.StepMirror(t3, d);
    AfterFour(t, a, b, c, d);
    assert Setup(fd)[..4] == [a, b, c, d];
  }

  lemma AfterFour(t: I.Table, a: I.Op, b: I.Op, c: I.Op, d: I.Op)
    ensures AfterAll(t, [a, b, c, d]) == I.After(I.After(I.After(I.After(t, a), b), c), d)
  {
    assert [a, b, c, d] == [] + [a] + [b] + [c] + [d];
    AfterAllSnoc(t, [] + [a] + [b] + [c], d);
    AfterAllSnoc(t, [] + [a] + [b], c);
    AfterAllSnoc(t, [] + [a], b);
    AfterAllSnoc(t, [], a);
  }

  /** The next client with that descriptor is watched for reading exactly when the
      connection that was closed was not. */
  lemma NextClientWatchedExactly(t: I.Table, c: Conn, server: Server, n: int, hard: bool)
    requires NewRequest(server.blank) && |c.requests| <= 1 && Records(t, c)
    requires Possible(c, Writable(n, hard)) && c.output == "" && c.life == CLOSING
    ensures I.MaskOf(AfterAll(AfterClose(t, c.fd), Setup(c.fd)).kernel, c.fd) == I.RD <==> !c.reading
  {
    var u := AfterClose(t, c.fd);
    CloseLeavesStaleExactly(t, c, server, n, hard);
    if c.reading {
      StaleAfterAll(u, c.fd, I.RD, Setup(c.fd));
    } else {
      assert I.MaskOf(u.events, c.fd) == I.MaskOf(u.kernel, c.fd) == 0;
      SetupWatches(u, c.fd);
    }
  }

  /** How a connection comes to be closed while it is watched for reading: a request that
      asks to close, with some of another one behind it. */
  lemma HalfRequestBehindClose(server: Server, x: Sending, y: Sending, k: nat, fd: int)
    requires NewRequest(server.blank) && C.Good(x) && C.Good(y) && Get(x.q.headers, CONN) == "close" && fd > 0
    requires 0 < k <= |D.TextOf(P.SentOf(y, server.blank))|
    ensures var c := NewConn(fd).(reading := true);
            var data := RoundTrip.SendTo(x.q, x.order) + D.TextOf(P.SentOf(y, server.blank))[..k];
            && Possible(c, Arrived(data))
            && var d := Handle(c, server, Arrived(data));
               d.life == CLOSING && d.reading && !d.readcb && (d.output != "" ==> d.writing)
  {
    var c := NewConn(fd).(reading := true);
    var data := RoundTrip.SendTo(x.q, x.order) + D.TextOf(P.SentOf(y, server.blank))[..k];
    var h, front, left := ServedHalf(x, y, server.blank, k);
    assert "" + data == data;
    assert [h][1..] == [];
    assert AnswerAll(c.(input := data), server, [h]) == Answer(c.(input := data), server, h);
  }

  /** The loop completes the first request and waits in the second. */
  lemma ServedHalf(x: Sending, y: Sending, blank: Req, k: nat) returns (h: Req, front: Req, left: string)
    requires NewRequest(blank) && C.Good(x) && C.Good(y) && 0 < k <= |D.TextOf(P.SentOf(y, blank))|
    ensures var data := RoundTrip.SendTo(x.q, x.order) + D.TextOf(P.SentOf(y, blank))[..k];
            && data != "" && Serve([], data, blank) == Served([h], [front], left, Some(NeedMore))
    ensures Get(h.headers, CONN) == Get(x.q.headers, CONN)
  {
    var part := D.TextOf(P.SentOf(y, blank))[..k];
    D.Stops(P.SentOf(y, blank), D.InFirstLine(k));
    ServeUnfold([], part, blank);
    front, left := D.StateAt(P.SentOf(y, blank), D.InFirstLine(k)), D.LeftAt(P.SentOf(y, blank), D.InFirstLine(k));
    h := ServeOne(x, part, blank);
    assert [h] + [] == [h];
  }

  /** Once the replies are written, the next call of the write handler closes it so. */
  lemma ClosedWhileWatched(server: Server, x: Sending, y: Sending, k: nat, fd: int) returns (c: Conn)
    requires NewRequest(server.blank) && C.Good(x) && C.Good(y) && Get(x.q.headers, CONN) == "close" && fd > 0
    requires 0 < k <= |D.TextOf(P.SentOf(y, server.blank))| && forall r :: server.reply(r) != ""
    ensures c.fd == fd && c.life == CLOSING && c.output == "" && c.reading && c.writing && !c.halted
    ensures exists es: seq<Event>, cs: seq<Conn> ::
              IsRun(server, es, cs) && cs[0] == NewConn(fd).(reading := true) && cs[|es|] == c
  {
    var c0 := NewConn(fd).(reading := true);
    var data := RoundTrip.SendTo(x.q, x.order) + D.TextOf(P.SentOf(y, server.blank))[..k];
    HalfRequestBehindClose(server, x, y, k, fd);
    RepliesWaiting(server, x, y, k, fd);
    var d := Handle(c0, server, Arrived(data));
    c := WritesAll(d, server);
    TwoEvents(server, c0, Arrived(data), Writable(|d.output|, false));
  }

  lemma WritesAll(c: Conn, server: Server) returns (d: Conn)
    requires NewRequest(server.blank) && |c.requests| <= 1 && c.life != CLOSED && !c.halted && c.output != ""
    ensures Possible(c, Writable(|c.output|, false)) && d == Handle(c, server, Writable(|c.output|, false))
    ensures d == c.(output := "", sent := d.sent)
  {
    d := Handle(c, server, Writable(|c.output|, false));
  }

  lemma TwoEvents(server: Server, c: Conn, e: Event, e': Event)
    requires Kept(c) && NewRequest(server.blank) && |c.requests| <= 1 && Possible(c, e)
    ensures var d := Handle(c, server, e);
            |d.requests| <= 1 && Possible(d, e') ==>
              exists es: seq<Event>, cs: seq<Conn> ::
                IsRun(server, es, cs) && cs[0] == c && cs[|es|] == Handle(d, server, e')
  {
    var d := Handle(c, server, e);
    if |d.requests| <= 1 && Possible(d, e') {
      var es, cs := [e, e'], [c, d, Handle(d, server, e')];
      assert IsRun(server, es, cs) && cs[0] == c && cs[|es|] == Handle(d, server, e');
    }
  }

  lemma RepliesWaiting(server: Server, x: Sending, y: Sending, k: nat, fd: int)
    requires NewRequest(server.blank) && C.Good(x) && C.Good(y) && fd > 0
    requires 0 < k <= |D.TextOf(P.SentOf(y, server.blank))| && forall r :: server.reply(r) != ""
    ensures var data := RoundTrip.SendTo(x.q, x.order) + D.TextOf(P.SentOf(y, server.blank))[..k];
            var c := NewConn(fd).(reading := true);
            && Possible(c, Arrived(data))
            && var d := Handle(c, server, Arrived(data));
               d.output != "" && d.fd == fd && !d.halted && |d.requests| <= 1
  {
    var c := NewConn(fd).(reading := true);
    var data := RoundTrip.SendTo(x.q, x.order) + D.TextOf(P.SentOf(y, server.blank))[..k];
    var h, front, left := ServedHalf(x, y, server.blank, k);
    assert "" + data == data;
    assert [h][1..] == [];
    assert AnswerAll(c.(input := data), server, [h]) == Answer(c.(input := data), server, h);
    assert server.reply(h) != "";
  }
}
