/**
 One HTTP connection (http/http_connection.cc): the loop that answers pipelined
 requests, the read and write handlers, and the graceful close.

 Requests and buffers appear as the values that the classes in Request.dfy and
 Buffer.dfy are proved to compute.
 */
module Connection {
  import opened Common
  import opened Text
  import opened Message
  import RoundTrip
  import Chunked
  import B = Buffer
  import R = Request

  datatype Life = CONNECTED | CLOSING | CLOSED

  // ---------------------------------------------------------------------------
  // The loop of `parse_request`

  /** The requests completed, the one still in the queue, the bytes left, and the
      verdict that stopped the loop (none when the bytes ran out). */
  datatype Served = Served(handled: seq<Req>, front: seq<Req>, left: string, last: Option<Outcome>)

  predicate NewRequest(r: Req) { Fresh(r) && r.kind == REQUEST }

  /** A completed request may have taken no bytes in its last call, but then it was
      in the queue already and the next one starts afresh: the pair of bytes left
      and requests queued goes down. */
  function Serve(front: seq<Req>, b: string, blank: Req): Served
    requires |front| <= 1 && NewRequest(blank)
    decreases |b|, |front|
  {
    if b == "" then Served([], front, b, None)
    else
      var r := if front == [] then blank else front[0];
      var s := Parse(r, b);
      ParseLeavesSuffix(r, b);
      if s.outcome == AllRead then
        var more := Serve([], s.left, blank);
        more.(handled := [s.req] + more.handled)
      else Served([], [s.req], s.left, Some(s.outcome))
  }

  lemma ServeUnfold(front: seq<Req>, b: string, blank: Req)
    requires |front| <= 1 && NewRequest(blank) && b != ""
    ensures var s := Parse(if front == [] then blank else front[0], b);
            Serve(front, b, blank) ==
            if s.outcome == AllRead then
              var more := Serve([], s.left, blank);
              more.(handled := [s.req] + more.handled)
            else Served([], [s.req], s.left, Some(s.outcome))
  {
  }

  /** What the loop leaves is a suffix of the input, and at most one request waits. */
  lemma {:induction false} ServeLeavesSuffix(front: seq<Req>, b: string, blank: Req)
    requires |front| <= 1 && NewRequest(blank)
    ensures SuffixOf(Serve(front, b, blank).left, b) && |Serve(front, b, blank).front| <= 1
    ensures Serve(front, b, blank).last == None ==> Serve(front, b, blank).left == ""
    decreases |b|, |front|
  {
    if b != "" {
      var r := if front == [] then blank else front[0];
      var s := Parse(r, b);
      ParseLeavesSuffix(r, b);
      if s.outcome == AllRead {
        ServeLeavesSuffix([], s.left, blank);
        SuffixTrans(Serve(front, b, blank).left, s.left, b);
      }
    }
  }

  // ---------------------------------------------------------------------------
  // Pipelined requests

  /** A client's request: its object, its target and the order of its headers. */
  datatype Sending = Sending(q: Req, target: string, order: seq<string>)

  ghost predicate Good(x: Sending) {
    RoundTrip.Sendable(x.q, x.target) && RoundTrip.Lists(x.order, x.q.headers)
  }

  ghost predicate AllGood(xs: seq<Sending>) {
    forall i :: 0 <= i < |xs| ==> Good(xs[i])
  }

  ghost function Wire(xs: seq<Sending>): string
    requires AllGood(xs)
  {
    if xs == [] then "" else RoundTrip.SendTo(xs[0].q, xs[0].order) + Wire(xs[1..])
  }

  /** One request in front of other bytes. */
  lemma ServeOne(x: Sending, rest: string, blank: Req) returns (h: Req)
    requires Good(x) && NewRequest(blank)
    ensures var after := Serve([], rest, blank);
            Serve([], RoundTrip.SendTo(x.q, x.order) + rest, blank) == after.(handled := [h] + after.handled)
    ensures RoundTrip.Received(h, x.q, x.target)
  {
    RoundTrip.RequestRoundTrip(x.q, x.target, x.order, blank, rest);
    assert |x.q.firstline| >= 2;
    h := Parse(blank, RoundTrip.SendTo(x.q, x.order) + rest).req;
  }

  lemma WireUnfold(xs: seq<Sending>, rest: string)
    requires AllGood(xs) && xs != []
    ensures Good(xs[0]) && AllGood(xs[1..])
    ensures Wire(xs) + rest == RoundTrip.SendTo(xs[0].q, xs[0].order) + (Wire(xs[1..]) + rest)
  {
    Assoc(RoundTrip.SendTo(xs[0].q, xs[0].order), Wire(xs[1..]), rest);
  }

  lemma HandledBefore(whole: Served, tail: Served, after: Served, h: Req, more: seq<Req>)
    requires whole == tail.(handled := [h] + tail.handled) && tail == after.(handled := more + after.handled)
    ensures whole == after.(handled := [h] + more + after.handled)
  {
    assert [h] + (more + after.handled) == [h] + more + after.handled;
  }

  lemma ReceivedBefore(xs: seq<Sending>, h: Req, more: seq<Req>)
    requires xs != [] && RoundTrip.Received(h, xs[0].q, xs[0].target) && |more| == |xs| - 1
    requires forall i :: 0 <= i < |more| ==> RoundTrip.Received(more[i], xs[1..][i].q, xs[1..][i].target)
    ensures forall i :: 0 <= i < |xs| ==> RoundTrip.Received(([h] + more)[i], xs[i].q, xs[i].target)
  {
    forall i | 0 <= i < |xs| ensures RoundTrip.Received(([h] + more)[i], xs[i].q, xs[i].target) {
      if i > 0 {
        assert ([h] + more)[i] == more[i - 1] && xs[i] == xs[1..][i - 1];
      }
    }
  }

  /** However many requests a client sends without waiting, the loop completes
      exactly these, in order, each as it was sent, and goes on with the bytes
      behind them as if they had come alone. */
  lemma {:induction false} PipelineRoundTrip(xs: seq<Sending>, rest: string, blank: Req) returns (hs: seq<Req>)
    requires AllGood(xs) && NewRequest(blank)
    ensures var after := Serve([], rest, blank);
            Serve([], Wire(xs) + rest, blank) == after.(handled := hs + after.handled)
    ensures |hs| == |xs| && forall i :: 0 <= i < |xs| ==> RoundTrip.Received(hs[i], xs[i].q, xs[i].target)
  {
    if xs == [] {
      hs := [];
      assert Wire(xs) + rest == rest;
    } else {
      WireUnfold(xs, rest);
      var h := ServeOne(xs[0], Wire(xs[1..]) + rest, blank);
      var more := PipelineRoundTrip(xs[1..], rest, blank);
      hs := [h] + more;
      var tail := Wire(xs[1..]) + rest;
      HandledBefore(Serve([], Wire(xs) + rest, blank), Serve([], tail, blank), Serve([], rest, blank), h, more);
      ReceivedBefore(xs, h, more);
    }
  }

  // ---------------------------------------------------------------------------
  // The handlers, on values

  /** A connection.  `reading` and `writing` are its interest in the reactor, and
      `readcb` says that the reactor has its read handler.  `pushed` and `sent` are
      history: all reply bytes, and those the peer got.  When an exception leaves a
      handler (`halted`), the thread has ended and no handler runs any more. */
  datatype Conn = Conn(
    fd: int,
    life: Life,
    requests: seq<Req>,
    input: string,
    output: string,
    reading: bool,
    writing: bool,
    readcb: bool,
    halted: bool,
    pushed: string,
    sent: string)

  /** The server around it: what its handler answers to a request, the reply to a
      bad one, and a new request object. */
  datatype Server = Server(reply: Req -> string, badRequest: string, blank: Req)

  /** A connection as its constructor leaves it. */
  function NewConn(fd: int): Conn {
    Conn(fd, CONNECTED, [], "", "", false, false, true, false, "", "")
  }

  /** A connection that waits in the pool to be used again. */
  predicate Pooled(c: Conn) {
    c.fd == -1 && c.life == CLOSED && c.requests == [] && c.input == "" && c.output == "" && !c.halted
  }

  function Send(c: Conn, reply: string): Conn {
    c.(output := c.output + reply, pushed := c.pushed + reply)
  }

  /** `add_write` when there is something to write. */
  function Arm(c: Conn): Conn {
    if c.output != "" then c.(writing := true) else c
  }

  /** `remove_read_handler`, and the life that goes with it. */
  function Deafened(c: Conn): Conn {
    c.(life := CLOSING, reading := false, readcb := false)
  }

  predicate AsksClose(r: Req) {
    Get(r.headers, CONN) == "close"
  }

  /** `handle_request` and the end of that turn of the loop. */
  function Answer(c: Conn, server: Server, r: Req): Conn {
    var c1 := if AsksClose(r) then Deafened(c) else c;
    Arm(Send(c1, server.reply(r)))
  }

  function AnswerAll(c: Conn, server: Server, rs: seq<Req>): Conn
    decreases |rs|
  {
    if rs == [] then c else AnswerAll(Answer(c, server, rs[0]), server, rs[1..])
  }

  /** What the verdict that stopped the loop does; an exception ends the thread. */
  function Conclude(c: Conn, server: Server, last: Option<Outcome>): Conn {
    match last
    case None => c
    case Some(NeedMore) => Arm(c.(reading := true))
    case Some(Corrupted) => Arm(Send(Deafened(c), server.badRequest)).(writing := true)
    case Some(_) => c.(halted := true)
  }

  /** Answers, then the end of the loop, with the queue and the bytes it leaves. */
  function Finish(c: Conn, server: Server, s: Served): Conn {
    Conclude(AnswerAll(c, server, s.handled), server, s.last).(requests := s.front, input := s.left)
  }

  function ParseRequest(c: Conn, server: Server): Conn
    requires |c.requests| <= 1 && NewRequest(server.blank)
  {
    if c.input == "" then (if c.life == CONNECTED then c.(reading := true) else c)
    else
      Finish(c, server, Serve(c.requests, c.input, server.blank))
  }

  function Close(c: Conn): Conn {
    if c.fd > 0 then c.(fd := -1, life := CLOSED, requests := [], input := "", output := "",
                            reading := false, writing := false, readcb := false)
    else c
  }

  /** What a handler meets: bytes, end of file, a read error that passes or stays;
      a socket ready for writing, and what writing to it returns (-1 is an error). */
  datatype Event =
    | Arrived(data: string) | Eof | ReadError(hard: bool)
    | Writable(n: int, hard: bool)

  predicate Possible(c: Conn, e: Event) {
    c.life != CLOSED && !c.halted && (e.Arrived? ==> e.data != "") && (e.Writable? ==> -1 <= e.n <= |c.output|)
  }

  function Handle(c: Conn, server: Server, e: Event): Conn
    requires |c.requests| <= 1 && NewRequest(server.blank) && Possible(c, e)
  {
    match e
    case Arrived(data) => ParseRequest(c.(input := c.input + data), server)
    case Eof => c.(reading := false, life := CLOSING)
    case ReadError(hard) => if hard then c.(reading := false) else c
    case Writable(n, hard) =>
      if c.output == "" then
        var c1 := c.(writing := false);
        if c.life == CLOSING then Close(c1) else c1
      else if n == 0 || (n < 0 && hard) then c.(writing := false, life := CLOSING)
      else if n < 0 then c
      else c.(output := c.output[n..], sent := c.sent + c.output[..n])
  }

  // ---------------------------------------------------------------------------
  // Every run

  /** Nothing pushed is lost or reordered on its way to the peer; after a close by
      a handler everything has been sent. */
  ghost predicate Kept(c: Conn) {
    && c.pushed == c.sent + c.output
    && |c.requests| <= 1
    && (c.fd > 0 <==> c.life != CLOSED)
    && (c.life == CLOSED ==> c.output == "" && c.input == "" && c.requests == [] && c.pushed == c.sent)
  }

  predicate NoEarlier(a: Life, b: Life) {
    a == CONNECTED || (a == CLOSING && b != CONNECTED) || b == CLOSED
  }

  function Replies(server: Server, rs: seq<Req>): string {
    if rs == [] then "" else server.reply(rs[0]) + Replies(server, rs[1..])
  }

  /** A turn of the loop per request: the replies are pushed in request order. */
  lemma {:induction false} AnswerAllKeeps(c: Conn, server: Server, rs: seq<Req>)
    requires c.pushed == c.sent + c.output
    ensures var d := AnswerAll(c, server, rs);
            && d.pushed == c.pushed + Replies(server, rs) && d.pushed == d.sent + d.output && d.sent == c.sent
            && d == c.(output := d.output, pushed := d.pushed, life := d.life, reading := d.reading,
                       writing := d.writing, readcb := d.readcb)
            && (d.life == c.life || d.life == CLOSING)
            && (d.life == CLOSING <==> c.life == CLOSING || exists i :: 0 <= i < |rs| && AsksClose(rs[i]))
    decreases |rs|
  {
    if rs == [] {
      assert c.pushed + "" == c.pushed;
    } else {
      var c1 := Answer(c, server, rs[0]);
      assert c1.pushed == c1.sent + c1.output by { Assoc(c.sent, c.output, server.reply(rs[0])); }
      AnswerAllKeeps(c1, server, rs[1..]);
      Assoc(c.pushed, server.reply(rs[0]), Replies(server, rs[1..]));
      assert rs == [rs[0]] + rs[1..];
    }
  }

  lemma ConcludeKeeps(c: Conn, server: Server, last: Option<Outcome>)
    requires Kept(c) && c.life != CLOSED
    ensures Kept(Conclude(c, server, last)) && NoEarlier(c.life, Conclude(c, server, last).life)
    ensures Conclude(c, server, last).life != CLOSED
  {
    Assoc(c.sent, c.output, server.badRequest);
  }

  lemma ParseRequestKeeps(c: Conn, server: Server)
    requires Kept(c) && NewRequest(server.blank) && c.life != CLOSED
    ensures Kept(ParseRequest(c, server)) && NoEarlier(c.life, ParseRequest(c, server).life)
    ensures ParseRequest(c, server).life != CLOSED
  {
    if c.input != "" {
      var s := Serve(c.requests, c.input, server.blank);
      ServeLeavesSuffix(c.requests, c.input, server.blank);
      AnswerAllKeeps(c, server, s.handled);
      ConcludeKeeps(AnswerAll(c, server, s.handled), server, s.last);
    }
  }

  /** One handler call: the books stay balanced and the life only moves on. */
  lemma HandleKeeps(c: Conn, server: Server, e: Event)
    requires Kept(c) && NewRequest(server.blank) && Possible(c, e)
    ensures Kept(Handle(c, server, e)) && NoEarlier(c.life, Handle(c, server, e).life)
    ensures Handle(c, server, e).life == CLOSED ==> c.life == CLOSING && c.output == "" && c.pushed == c.sent
  {
    match e
    case Arrived(data) => ParseRequestKeeps(c.(input := c.input + data), server);
    case Writable(n, _) => if n > 0 { Assoc(c.sent, c.output[..n], c.output[n..]); }
    case _ =>
  }

  ghost predicate IsRun(server: Server, es: seq<Event>, cs: seq<Conn>) {
    && |cs| == |es| + 1 && Kept(cs[0]) && NewRequest(server.blank)
    && forall k :: 0 <= k < |es| ==>
         |cs[k].requests| <= 1 && Possible(cs[k], es[k]) && cs[k + 1] == Handle(cs[k], server, es[k])
  }

  /** The requests that one event completes. */
  function Completed(c: Conn, server: Server, e: Event): seq<Req>
    requires |c.requests| <= 1 && NewRequest(server.blank)
  {
    if e.Arrived? then Serve(c.requests, c.input + e.data, server.blank).handled else []
  }

  /** The event brings bytes that are no request. */
  predicate Corrupts(c: Conn, server: Server, e: Event)
    requires |c.requests| <= 1 && NewRequest(server.blank)
  {
    e.Arrived? && Serve(c.requests, c.input + e.data, server.blank).last == Some(Corrupted)
  }

  /** The replies owed for one event, in the order of its requests. */
  function Owed(c: Conn, server: Server, e: Event): string
    requires |c.requests| <= 1 && NewRequest(server.blank)
  {
    Replies(server, Completed(c, server, e)) + if Corrupts(c, server, e) then server.badRequest else ""
  }

  /** The replies owed for the first `k` events of a run. */
  ghost function Log(server: Server, es: seq<Event>, cs: seq<Conn>, k: nat): string
    requires IsRun(server, es, cs) && k <= |es|
  {
    if k == 0 then "" else Log(server, es, cs, k - 1) + Owed(cs[k - 1], server, es[k - 1])
  }

  /** The requests completed by the first `k` events, in order. */
  ghost function AllCompleted(server: Server, es: seq<Event>, cs: seq<Conn>, k: nat): seq<Req>
    requires IsRun(server, es, cs) && k <= |es|
  {
    if k == 0 then [] else AllCompleted(server, es, cs, k - 1) + Completed(cs[k - 1], server, es[k - 1])
  }

  lemma HandlePushes(c: Conn, server: Server, e: Event)
    requires Kept(c) && NewRequest(server.blank) && Possible(c, e)
    ensures Handle(c, server, e).pushed == c.pushed + Owed(c, server, e)
  {
    if e.Arrived? {
      ParsePushes(c.(input := c.input + e.data), server);
    } else {
      assert Replies(server, []) + "" == "" && c.pushed + "" == c.pushed;
    }
  }

  lemma ParsePushes(c: Conn, server: Server)
    requires Kept(c) && NewRequest(server.blank) && c.input != ""
    ensures var s := Serve(c.requests, c.input, server.blank);
            ParseRequest(c, server).pushed ==
            c.pushed + (Replies(server, s.handled) + if s.last == Some(Corrupted) then server.badRequest else "")
  {
    var s := Serve(c.requests, c.input, server.blank);
    AnswerAllKeeps(c, server, s.handled);
    ConcludePushes(AnswerAll(c, server, s.handled), server, s.last);
    Assoc(c.pushed, Replies(server, s.handled), if s.last == Some(Corrupted) then server.badRequest else "");
  }

  lemma ConcludePushes(c: Conn, server: Server, last: Option<Outcome>)
    ensures Conclude(c, server, last).pushed == c.pushed + if last == Some(Corrupted) then server.badRequest else ""
  {
    assert c.pushed + "" == c.pushed;
  }

  lemma {:induction false} RepliesAppend(server: Server, a: seq<Req>, b: seq<Req>)
    ensures Replies(server, a + b) == Replies(server, a) + Replies(server, b)
    decreases |a|
  {
    if a == [] {
      assert a + b == b;
    } else {
      assert (a + b)[1..] == a[1..] + b;
      RepliesAppend(server, a[1..], b);
      Assoc(server.reply(a[0]), Replies(server, a[1..]), Replies(server, b));
    }
  }

  /** Unless bytes come that are no request, the replies owed are the replies to the
      requests completed, in their order. */
  lemma {:induction false} LogIsReplies(server: Server, es: seq<Event>, cs: seq<Conn>, k: nat)
    requires IsRun(server, es, cs) && k <= |es|
    requires forall j :: 0 <= j < k ==> !Corrupts(cs[j], server, es[j])
    ensures Log(server, es, cs, k) == Replies(server, AllCompleted(server, es, cs, k))
  {
    if k > 0 {
      LogIsReplies(server, es, cs, k - 1);
      RepliesAppend(server, AllCompleted(server, es, cs, k - 1), Completed(cs[k - 1], server, es[k - 1]));
      var owed := Replies(server, Completed(cs[k - 1], server, es[k - 1]));
      assert owed + "" == owed;
    }
  }

  lemma RunStep(server: Server, es: seq<Event>, cs: seq<Conn>, k: nat)
    requires IsRun(server, es, cs) && 0 < k <= |es|
    ensures |cs[k - 1].requests| <= 1 && Possible(cs[k - 1], es[k - 1]) && cs[k] == Handle(cs[k - 1], server, es[k - 1])
  {
    assert cs[k - 1 + 1] == Handle(cs[k - 1], server, es[k - 1]);
  }

  lemma LifeMovesOn(server: Server, es: seq<Event>, cs: seq<Conn>, j: nat, k: nat)
    requires IsRun(server, es, cs) && j <= k < |cs|
    ensures NoEarlier(cs[j].life, cs[k].life)
  {
    var lives := seq(|cs|, i requires 0 <= i < |cs| => cs[i].life);
    forall i | 0 <= i < |lives| - 1 ensures NoEarlier(lives[i], lives[i + 1]) {
      KeptAlways(server, es, cs, i);
      NextLife(server, es, cs, i + 1);
    }
    LivesInOrder(lives, j, k);
  }

  lemma {:induction false} LivesInOrder(lives: seq<Life>, j: nat, k: nat)
    requires j <= k < |lives| && forall i :: 0 <= i < |lives| - 1 ==> NoEarlier(lives[i], lives[i + 1])
    ensures NoEarlier(lives[j], lives[k])
  {
    if j < k {
      LivesInOrder(lives, j, k - 1);
      assert NoEarlier(lives[k - 1], lives[k - 1 + 1]);
    }
  }

  lemma NextLife(server: Server, es: seq<Event>, cs: seq<Conn>, k: nat)
    requires IsRun(server, es, cs) && 0 < k < |cs| && Kept(cs[k - 1])
    ensures Kept(cs[k]) && NoEarlier(cs[k - 1].life, cs[k].life)
  {
    RunStep(server, es, cs, k);
    HandleKeeps(cs[k - 1], server, es[k - 1]);
  }

  lemma {:induction false} KeptAlways(server: Server, es: seq<Event>, cs: seq<Conn>, k: nat)
    requires IsRun(server, es, cs) && k < |cs|
    ensures Kept(cs[k])
  {
    if k > 0 {
      KeptAlways(server, es, cs, k - 1);
      NextLife(server, es, cs, k);
    }
  }

  lemma {:induction false} PushedIsLog(server: Server, es: seq<Event>, cs: seq<Conn>, k: nat)
    requires IsRun(server, es, cs) && k < |cs|
    ensures cs[k].pushed == cs[0].pushed + Log(server, es, cs, k)
  {
    if k == 0 {
      assert cs[0].pushed + "" == cs[0].pushed;
    } else {
      PushedIsLog(server, es, cs, k - 1);
      KeptAlways(server, es, cs, k - 1);
      RunStep(server, es, cs, k);
      HandlePushes(cs[k - 1], server, es[k - 1]);
      Assoc(cs[0].pushed, Log(server, es, cs, k - 1), Owed(cs[k - 1], server, es[k - 1]));
    }
  }

  /** Over every run of handler calls with any partial writes and errors: what has been
      pushed is what is owed for the requests completed, in their order; the bytes sent
      followed by the bytes waiting are the bytes pushed; the life moves from CONNECTED
      to CLOSING to CLOSED only; and a connection that a handler closed has sent all
      that was pushed. */
  lemma GracefulClose(server: Server, es: seq<Event>, cs: seq<Conn>, j: nat, k: nat)
    requires IsRun(server, es, cs) && j <= k < |cs|
    ensures Kept(cs[j]) && Kept(cs[k]) && NoEarlier(cs[j].life, cs[k].life)
    ensures cs[k].pushed == cs[0].pushed + Log(server, es, cs, k)
    ensures cs[k].pushed == cs[k].sent + cs[k].output
    ensures cs[k].life == CLOSED ==> cs[k].sent == cs[k].pushed
  {
    KeptAlways(server, es, cs, j);
    KeptAlways(server, es, cs, k);
    LifeMovesOn(server, es, cs, j, k);
    PushedIsLog(server, es, cs, k);
  }

  // ---------------------------------------------------------------------------
  // Interest

  /** Bytes wait only while the reactor watches for writing. */
  predicate Watched(c: Conn) {
    c.output != "" ==> c.writing
  }

  /** A write that returns 0 or an error that stays: the handler gives up writing. */
  predicate WriteFails(c: Conn, e: Event) {
    e.Writable? && c.output != "" && (e.n == 0 || (e.n < 0 && e.hard))
  }

  lemma {:induction false} AnswerAllWatched(c: Conn, server: Server, rs: seq<Req>)
    requires Watched(c)
    ensures Watched(AnswerAll(c, server, rs))
    decreases |rs|
  {
    if rs != [] {
      AnswerAllWatched(Answer(c, server, rs[0]), server, rs[1..]);
    }
  }

  /** In every life, a handler strands bytes exactly when its write fails. */
  lemma HandleWatched(c: Conn, server: Server, e: Event)
    requires Watched(c) && |c.requests| <= 1 && NewRequest(server.blank) && Possible(c, e)
    ensures Watched(Handle(c, server, e)) <==> !WriteFails(c, e)
  {
    if e.Arrived? {
      ParseWatched(c.(input := c.input + e.data), server);
    }
  }

  lemma ParseWatched(c: Conn, server: Server)
    requires Watched(c) && |c.requests| <= 1 && NewRequest(server.blank)
    ensures Watched(ParseRequest(c, server))
  {
    var s := Serve(c.requests, c.input, server.blank);
    AnswerAllWatched(c, server, s.handled);
    ConcludeWatched(AnswerAll(c, server, s.handled), server, s.last);
  }

  lemma ConcludeWatched(c: Conn, server: Server, last: Option<Outcome>)
    requires Watched(c)
    ensures Watched(Conclude(c, server, last))
  {
  }

  /** Over every run without a failed write, no byte waits unwatched. */
  lemma {:induction false} WatchedAlways(server: Server, es: seq<Event>, cs: seq<Conn>, k: nat)
    requires IsRun(server, es, cs) && Watched(cs[0]) && k < |cs|
    requires forall j :: 0 <= j < k ==> !WriteFails(cs[j], es[j])
    ensures Watched(cs[k])
  {
    if k > 0 {
      WatchedAlways(server, es, cs, k - 1);
      HandleWatched(cs[k - 1], server, es[k - 1]);
    }
  }

  /** The events that bring no bytes leave the queue, the buffer and the history alone,
      until one closes. */
  lemma OtherEvents(c: Conn, server: Server, e: Event)
    requires |c.requests| <= 1 && NewRequest(server.blank) && Possible(c, e) && !e.Arrived?
    ensures var d := Handle(c, server, e);
            d.pushed == c.pushed && (d.life != CLOSED ==> d.requests == c.requests && d.input == c.input)
  {
  }

  // ---------------------------------------------------------------------------
  // The class

  lemma {:induction false} AnswerAllFrame(c: Conn, server: Server, rs: seq<Req>, requests: seq<Req>, input: string)
    ensures AnswerAll(c.(requests := requests, input := input), server, rs) ==
            AnswerAll(c, server, rs).(requests := requests, input := input)
    decreases |rs|
  {
    if rs != [] {
      AnswerAllFrame(Answer(c, server, rs[0]), server, rs[1..], requests, input);
    }
  }

  lemma AnswerAllCons(c: Conn, server: Server, r: Req, rs: seq<Req>)
    ensures AnswerAll(c, server, [r] + rs) == AnswerAll(Answer(c, server, r), server, rs)
  {
    assert ([r] + rs)[1..] == rs;
  }

  lemma ConcludeFrame(c: Conn, server: Server, last: Option<Outcome>, requests: seq<Req>, input: string)
    ensures Conclude(c.(requests := requests, input := input), server, last) ==
            Conclude(c, server, last).(requests := requests, input := input)
  {
    match last
    case Some(Corrupted) => SendFrame(Deafened(c), server.badRequest, requests, input);
    case _ =>
  }

  lemma SendFrame(c: Conn, reply: string, requests: seq<Req>, input: string)
    ensures Send(c.(requests := requests, input := input), reply) ==
            Send(c, reply).(requests := requests, input := input)
  {
  }

  /** A completed request: answer it, then finish the rest. */
  lemma FinishAnswered(c: Conn, server: Server, r: Req, more: Served, left: string)
    ensures Finish(c, server, more.(handled := [r] + more.handled)) ==
            Finish(Answer(c, server, r).(requests := [], input := left), server, more)
  {
    var c1 := Answer(c, server, r);
    AnswerAllCons(c, server, r, more.handled);
    AnswerAllFrame(c1, server, more.handled, [], left);
    ConcludeFrame(AnswerAll(c1, server, more.handled), server, more.last, [], left);
  }

  class HttpConnection {
    const server: Server
    var fd: int
    var life: Life
    var requests: seq<Req>
    var input: string
    var output: string
    var reading: bool
    var writing: bool
    var readcb: bool           // is the read handler installed
    ghost var halted: bool     // an exception has left a handler
    ghost var pushed: string
    ghost var sent: string

    ghost function Value(): Conn
      reads this
    {
      Conn(fd, life, requests, input, output, reading, writing, readcb, halted, pushed, sent)
    }

    constructor (fd: int, server: Server)
      requires fd > 0 && NewRequest(server.blank)
      ensures Value() == NewConn(fd) && this.server == server
    {
      this.fd, this.server := fd, server;
      life, requests, input, output := CONNECTED, [], "", "";
      reading, writing, readcb := false, false, true;
      halted, pushed, sent := false, "", "";
    }

    /** A closed connection taken from the pool: only what `make_connection` sets. */
    method Reopen(fd: int)
      requires fd > 0 && Pooled(Value())
      modifies this
      ensures Value() == NewConn(fd)
    {
      this.fd := fd;
      life := CONNECTED;
      SetupNewEvents();
      pushed, sent := "", "";
    }

    /** Both handlers are set, then the interest they brought is removed. */
    method SetupNewEvents()
      modifies this`reading, this`writing, this`readcb
      ensures !reading && !writing && readcb
    {
      readcb := true;
      reading := true;
      reading := false;
      writing := true;
      writing := false;
    }

    /** Puts reply bytes behind the write buffer. */
    method Push(reply: string)
      modifies this`output, this`pushed
      ensures Value() == Send(old(Value()), reply)
    {
      output := output + reply;
      pushed := pushed + reply;
    }

    method HandleRequest(r: Req)
      modifies this
      ensures Value() == Answer(old(Value()), server, r)
    {
      if Get(r.headers, CONN) == "close" {
        reading, readcb := false, false;
        life := CLOSING;
      }
      Push(server.reply(r));
      if output != "" {
        writing := true;
      }
    }

    method SendBadRequest()
      modifies this
      ensures Value() == Conclude(old(Value()), server, Some(Corrupted))
    {
      reading, readcb := false, false;
      life := CLOSING;
      Push(server.badRequest);
      writing := true;
    }

    /** The turn in which the front request is complete. */
    method Complete(r: Req, left: string)
      modifies this
      ensures Value() == Answer(old(Value()), server, r).(requests := [], input := left)
    {
      HandleRequest(r);
      requests, input := [], left;
    }

    /** The turn that ends the loop. */
    method Stop(o: Outcome, r: Req, left: string)
      requires o != AllRead
      modifies this
      ensures Value() == Conclude(old(Value()), server, Some(o)).(requests := [r], input := left)
    {
      if o == NeedMore {
        reading := true;
        if output != "" {
          writing := true;
        }
      } else if o == Corrupted {
        SendBadRequest();
      } else {
        halted := true;
      }
      requests, input := [r], left;
    }

    method RunParseRequest()
      requires |requests| <= 1 && NewRequest(server.blank)
      modifies this
      ensures Value() == ParseRequest(old(Value()), server)
    {
      if input == "" {
        if life == CONNECTED {
          reading := true;
        }
        return;
      }
      ghost var goal := Finish(Value(), server, Serve(requests, input, server.blank));
      var processing := true;
      while processing && input != ""
        invariant |requests| <= 1
        invariant goal == if processing then Finish(Value(), server, Serve(requests, input, server.blank)) else Value()
        decreases processing, |input|, |requests|
      {
        var r := if requests == [] then server.blank else requests[0];
        var s := Parse(r, input);
        ParseLeavesSuffix(r, input);
        ServeUnfold(requests, input, server.blank);
        if s.outcome == AllRead {
          FinishAnswered(Value(), server, s.req, Serve([], s.left, server.blank), s.left);
          Complete(s.req, s.left);
        } else {
          processing := false;
          Stop(s.outcome, s.req, s.left);
        }
      }
    }

    method OnReadable(data: string, eof: bool, hard: bool)
      requires |requests| <= 1 && NewRequest(server.blank) && life != CLOSED && !halted
      modifies this
      ensures var e := if data != "" then Arrived(data) else if eof then Eof else ReadError(hard);
              Value() == Handle(old(Value()), server, e)
    {
      if data != "" {
        input := input + data;
        RunParseRequest();
      } else if eof {
        reading := false;
        life := CLOSING;
      } else if hard {
        reading := false;
      }
    }

    method OnWritable(n: int, hard: bool)
      requires |requests| <= 1 && NewRequest(server.blank) && life != CLOSED && !halted && -1 <= n <= |output|
      modifies this
      ensures Value() == Handle(old(Value()), server, Writable(n, hard))
    {
      if output == "" {
        writing := false;
        if life == CLOSING {
          Shut();
        }
        return;
      }
      if n == -1 {
        if hard {
          writing := false;
          life := CLOSING;
        }
      } else if n == 0 {
        writing := false;
        life := CLOSING;
      } else {
        sent := sent + output[..n];
        output := output[n..];
      }
    }

    /** `close()` */
    method Shut()
      modifies this
      ensures Value() == Close(old(Value()))
    {
      if fd > 0 {
        fd := -1;
        output, input := "", "";
        life := CLOSED;
        requests := [];
        reading, writing, readcb := false, false, false;
      }
    }

    /** `send_chunk_start`: a response object of its own is filled, printed into a
        buffer and sent.  `verb` and `junk` are what its fields hold at first. */
    method SendChunkStart(code: nat, reason: string, date: string, verb: Method, junk: int)
        returns (order: seq<string>)
      modifies this
      ensures var q := Chunked.StartResponse(BlankResponse(verb, junk), code, reason, date);
              && RoundTrip.Lists(order, q.headers)
              && Value() == StartChunks(old(Value()), q, order)
    {
      var text;
      text, order := PrintStart(code, reason, date, verb, junk);
      Push(text);
      writing := true;
    }

    method SendChunk(c: string)
      modifies this
      ensures Value() == SendOne(old(Value()), c)
    {
      ghost var v := Value();
      Push(Hex(|c|) + CRLF);
      Push(c);
      Push(CRLF);
      writing := true;
      ThreePushes(v, Hex(|c|) + CRLF, c, CRLF);
    }

    method SendChunkEnd()
      modifies this
      ensures Value() == EndChunks(old(Value()))
    {
      Push("0" + CRLF + CRLF);
      writing := true;
    }
  }

  // ---------------------------------------------------------------------------
  // Chunked answers

  method FillStart(code: nat, reason: string, date: string, verb: Method, junk: int) returns (r: R.Request)
    ensures fresh(r) && r.Valid() && fresh(r.body) && fresh(r.body.origin)
    ensures r.Value() == Chunked.StartResponse(BlankResponse(verb, junk), code, reason, date)
  {
    r := new R.Request(RESPONSE, verb, junk);
    assert r.Value() == BlankResponse(verb, junk);
    r.SetResponsePage(code, reason, date, "");
    ghost var q, text := r.Value(), r.body.Content();
    r.headers := r.headers[TE := "chunked"];
    assert r.body.Content() == text;
    assert r.Value() == RoundTrip.SetHeader(q, TE, "chunked");
  }

  method PrintStart(code: nat, reason: string, date: string, verb: Method, junk: int)
      returns (text: string, order: seq<string>)
    ensures var q := Chunked.StartResponse(BlankResponse(verb, junk), code, reason, date);
            RoundTrip.Lists(order, q.headers) && text == RoundTrip.SendTo(q, order)
  {
    var r := FillStart(code, reason, date, verb, junk);
    order, text := Print(r);
  }

  /** Prints an object into a new buffer. */
  method Print(r: R.Request) returns (order: seq<string>, text: string)
    requires r.Valid()
    modifies r, r.body, r.body.origin
    ensures RoundTrip.Lists(order, old(r.Value()).headers) && text == RoundTrip.SendTo(old(r.Value()), order)
  {
    var buf := new B.Buffer();
    assert buf.Content() == "";
    order := r.SendTo(buf);
    ghost var all := buf.Content();
    text := buf.Pop(buf.off);
    assert text == all[..|all|] == all == "" + all;
  }

  /** A new response object; `verb` and `code` have no initial value. */
  function BlankResponse(verb: Method, code: int): (r: Req)
    ensures Fresh(r)
  {
    Req(RESPONSE, verb, FirstLine, 1, 1, "", "", code, "", map[], "", false, 0, "")
  }

  function StartChunks(c: Conn, q: Req, order: seq<string>): Conn
    requires forall k :: k in order ==> k in q.headers
  {
    Send(c, RoundTrip.SendTo(q, order)).(writing := true)
  }

  function SendOne(c: Conn, chunk: string): Conn {
    Send(c, Chunked.Chunk(chunk)).(writing := true)
  }

  function SendMany(c: Conn, chunks: seq<string>): Conn
    decreases |chunks|
  {
    if chunks == [] then c else SendMany(SendOne(c, chunks[0]), chunks[1..])
  }

  function EndChunks(c: Conn): Conn {
    Send(c, Chunked.LAST).(writing := true)
  }

  lemma {:induction false} SendManyPushes(c: Conn, chunks: seq<string>)
    requires c.writing
    ensures SendMany(c, chunks) == Send(c, Chunked.Chunks(chunks))
    decreases |chunks|
  {
    if chunks == [] {
      assert c.output + "" == c.output && c.pushed + "" == c.pushed;
    } else {
      SendManyPushes(SendOne(c, chunks[0]), chunks[1..]);
      SendTwice(c, Chunked.Chunk(chunks[0]), Chunked.Chunks(chunks[1..]));
    }
  }

  lemma SendTwice(c: Conn, x: string, y: string)
    ensures Send(Send(c, x), y) == Send(c, x + y)
  {
    Assoc(c.output, x, y);
    Assoc(c.pushed, x, y);
  }

  /** A start, any chunks and an end push the printed head, the chunks and the last
      chunk, one behind the other. */
  lemma ChunkedAnswer(c: Conn, q: Req, order: seq<string>, chunks: seq<string>)
    requires forall k :: k in order ==> k in q.headers
    ensures EndChunks(SendMany(StartChunks(c, q, order), chunks)) ==
            Send(c, RoundTrip.SendTo(q, order) + (Chunked.Chunks(chunks) + Chunked.LAST)).(writing := true)
  {
    var start, body := RoundTrip.SendTo(q, order), Chunked.Chunks(chunks);
    var c1 := c.(writing := true);
    SendManyPushes(Send(c1, start), chunks);
    SendTwice(Send(c1, start), body, Chunked.LAST);
    SendTwice(c1, start, body + Chunked.LAST);
  }

  /** What a client reads of such an answer: all of it and nothing behind it, with every
      chunk and the CRLF behind it as the body, exactly when the code is 200 and no
      chunk is empty. */
  lemma ChunkedAnswerReads(c: Conn, verb: Method, junk: int, code: nat, reason: string, date: string,
                           order: seq<string>, chunks: seq<string>, p: Req, rest: string)
    requires OneLine(reason) && OneLine(date) && Trimmed(date) && Fresh(p) && p.kind == RESPONSE
    requires code <= INT_MAX && Chunked.SizesFit(chunks)
    requires RoundTrip.Lists(order, Chunked.StartResponse(BlankResponse(verb, junk), code, reason, date).headers)
    ensures var q := Chunked.StartResponse(BlankResponse(verb, junk), code, reason, date);
            var d := EndChunks(SendMany(StartChunks(c, q, order), chunks));
            && c.pushed <= d.pushed
            && var s := Parse(p, d.pushed[|c.pushed|..] + rest);
               && (s.outcome == AllRead && s.left == rest <==> code == 200 && Chunked.NoneEmpty(chunks))
               && (code == 200 && Chunked.NoneEmpty(chunks) ==>
                     && s.req.body == Chunked.Stored(chunks) && s.req.code == 200 && s.req.reason == reason
                     && RoundTrip.SameHeaders(s.req.headers, q.headers))
  {
    var r := BlankResponse(verb, junk);
    var q := Chunked.StartResponse(r, code, reason, date);
    ChunkedAnswer(c, q, order, chunks);
    var text := RoundTrip.SendTo(q, order) + (Chunked.Chunks(chunks) + Chunked.LAST);
    assert (c.pushed + text)[|c.pushed|..] == text;
    Chunked.ChunkedExactly(r, code, reason, date, order, p, chunks, rest);
    Assoc(RoundTrip.SendTo(q, order), Chunked.Chunks(chunks) + Chunked.LAST, rest);
    Assoc(Chunked.Chunks(chunks), Chunked.LAST, rest);
  }

  lemma ThreePushes(c: Conn, x: string, y: string, z: string)
    ensures Send(Send(Send(c, x), y), z) == Send(c, x + (y + z))
  {
    Assoc(c.output + x, y, z);
    Assoc(c.output, x, y + z);
    Assoc(c.pushed + x, y, z);
    Assoc(c.pushed, x, y + z);
  }
}
