/**
 What the reactor reports to a connection (core/epoll.hh 110-128, model/reactor.hh
 130-135), and whether a graceful close is reached after an end of file.
 */
module Reports {
  import opened Common
  import opened Connection

  /** One result of a listen for the connection's descriptor, with what its handlers
      meet.  A hang-up or an error (`hup`) counts as readable and writeable, whatever
      is watched; both sides are dispatched, the read side first. */
  datatype Report = Report(hup: bool, read: Option<Event>, write: Option<Event>)

  /** The kernel has the descriptor in its interest list. */
  predicate Registered(c: Conn) {
    c.reading || c.writing
  }

  predicate ReadSide(c: Conn, server: Server, r: Report) {
    && |c.requests| <= 1 && NewRequest(server.blank) && c.life != CLOSED && !c.halted && Registered(c)
    && (r.read.Some? ==>
          && !r.read.value.Writable? && Possible(c, r.read.value)
          && c.readcb && (c.reading || r.hup))
    && (r.hup && c.readcb ==> r.read.Some?)
  }

  function AfterRead(c: Conn, server: Server, r: Report): Conn
    requires ReadSide(c, server, r)
  {
    if r.read.Some? then Handle(c, server, r.read.value) else c
  }

  predicate WriteSide(c: Conn, server: Server, r: Report)
    requires ReadSide(c, server, r)
  {
    var d := AfterRead(c, server, r);
    && (r.write.Some? ==>
          r.write.value.Writable? && |d.requests| <= 1 && Possible(d, r.write.value) && (c.writing || r.hup))
    && (r.hup && !d.halted ==> r.write.Some?)
  }

  /** The report may come, and it calls a handler. */
  predicate Reported(c: Conn, server: Server, r: Report) {
    ReadSide(c, server, r) && WriteSide(c, server, r) && (r.read.Some? || r.write.Some?)
  }

  function Dispatched(c: Conn, server: Server, r: Report): Conn
    requires Reported(c, server, r)
  {
    var d := AfterRead(c, server, r);
    if r.write.Some? then Handle(d, server, r.write.value) else d
  }

  /** Dispatching keeps the books and moves the life only forward. */
  lemma DispatchedKeeps(c: Conn, server: Server, r: Report)
    requires Kept(c) && Reported(c, server, r)
    ensures Kept(Dispatched(c, server, r)) && NoEarlier(c.life, Dispatched(c, server, r).life)
  {
    if r.read.Some? {
      HandleKeeps(c, server, r.read.value);
    }
    if r.write.Some? {
      HandleKeeps(AfterRead(c, server, r), server, r.write.value);
    }
  }

  ghost predicate IsReported(server: Server, rs: seq<Report>, cs: seq<Conn>) {
    && |cs| == |rs| + 1 && Kept(cs[0])
    && forall k :: 0 <= k < |rs| ==> Reported(cs[k], server, rs[k]) && cs[k + 1] == Dispatched(cs[k], server, rs[k])
  }

  /** No handler can be called any more. */
  ghost predicate Stuck(c: Conn, server: Server) {
    forall r :: !Reported(c, server, r)
  }

  ghost predicate CanClose(c: Conn, server: Server) {
    exists rs: seq<Report>, cs: seq<Conn> :: IsReported(server, rs, cs) && cs[0] == c && cs[|rs|].life == CLOSED
  }

  /** The write handler that the report calls gives up writing. */
  predicate FailsToWrite(c: Conn, server: Server, r: Report)
    requires ReadSide(c, server, r)
  {
    r.write.Some? && WriteFails(AfterRead(c, server, r), r.write.value)
  }

  /** On the way to the close after an end of file. */
  predicate Winding(c: Conn) {
    c.life == CLOSING && !c.reading && c.writing && !c.halted
  }

  lemma Unregistered(c: Conn, server: Server)
    requires !Registered(c)
    ensures Stuck(c, server)
  {
  }

  lemma StuckStays(c: Conn, server: Server)
    requires Stuck(c, server) && c.life != CLOSED
    ensures !CanClose(c, server)
  {
    forall rs: seq<Report>, cs: seq<Conn> | IsReported(server, rs, cs) && cs[0] == c ensures cs[|rs|].life != CLOSED {
      if rs != [] {
        FirstReported(server, rs, cs);
      }
    }
  }

  lemma FirstReported(server: Server, rs: seq<Report>, cs: seq<Conn>)
    requires IsReported(server, rs, cs) && rs != []
    ensures !Stuck(cs[0], server)
  {
    assert Reported(cs[0], server, rs[0]);
  }

  function Ready(n: int): Report {
    Report(false, None, Some(Writable(n, false)))
  }

  /** Writing all there is, and once more, closes. */
  lemma WindingCloses(c: Conn, server: Server)
    requires Kept(c) && NewRequest(server.blank) && Winding(c)
    ensures CanClose(c, server) && !Stuck(c, server)
  {
    var rs, cs;
    if c.output == "" {
      assert Reported(c, server, Ready(0));
      rs, cs := [Ready(0)], [c, Dispatched(c, server, Ready(0))];
    } else {
      var e := Ready(|c.output|);
      assert Reported(c, server, e);
      var d := Dispatched(c, server, e);
      DispatchedKeeps(c, server, e);
      assert Reported(d, server, Ready(0));
      rs, cs := [e, Ready(0)], [c, d, Dispatched(d, server, Ready(0))];
    }
    assert IsReported(server, rs, cs) && cs[0] == c && cs[|rs|].life == CLOSED;
  }

  /** A report that brings the end of file: the connection can still be closed by a
      handler, in this report or a later one, exactly when it is watched for writing or
      the report says that the peer has hung up, and the report's own write does not
      fail.  An idle one whose peer has only ended its side stays open for good. */
  lemma EofClosesExactly(c: Conn, server: Server, r: Report)
    requires Kept(c) && Watched(c) && Reported(c, server, r) && r.read == Some(Eof)
    ensures var d, closes := Dispatched(c, server, r), (c.writing || r.hup) && !FailsToWrite(c, server, r);
            && (CanClose(d, server) <==> closes)
            && (Stuck(d, server) && d.life != CLOSED <==> !closes)
  {
    var a, d := AfterRead(c, server, r), Dispatched(c, server, r);
    HandleKeeps(c, server, Eof);
    DispatchedKeeps(c, server, r);
    if !(c.writing || r.hup) || FailsToWrite(c, server, r) {
      Unregistered(d, server);
      StuckStays(d, server);
    } else if d.life == CLOSED {
      assert IsReported(server, [], [d]) && [d][0] == d && [d][0].life == CLOSED;
    } else {
      WindingCloses(d, server);
    }
  }

  /** After an end of file no more bytes come. */
  predicate NoBytes(r: Report) {
    r.read.Some? ==> !r.read.value.Arrived?
  }

  lemma WindingStep(c: Conn, server: Server, r: Report)
    requires Kept(c) && Winding(c) && Reported(c, server, r) && NoBytes(r)
    ensures var d := Dispatched(c, server, r);
            if FailsToWrite(c, server, r) then d.life == CLOSING && Stuck(d, server)
            else d.life == CLOSED || Winding(d)
  {
    if FailsToWrite(c, server, r) {
      Unregistered(Dispatched(c, server, r), server);
    }
  }

  lemma RunStep(server: Server, rs: seq<Report>, cs: seq<Conn>, k: nat)
    requires IsReported(server, rs, cs) && k < |rs|
    ensures Reported(cs[k], server, rs[k]) && cs[k + 1] == Dispatched(cs[k], server, rs[k])
  {
  }

  lemma {:induction false} RunKept(server: Server, rs: seq<Report>, cs: seq<Conn>, k: nat)
    requires IsReported(server, rs, cs) && k < |cs|
    ensures Kept(cs[k])
  {
    if k > 0 {
      RunKept(server, rs, cs, k - 1);
      RunStep(server, rs, cs, k - 1);
      DispatchedKeeps(cs[k - 1], server, rs[k - 1]);
    }
  }

  /** A run goes on winding, until it closes or a write fails; after either it is over. */
  lemma {:induction false} WindingRun(server: Server, rs: seq<Report>, cs: seq<Conn>, k: nat)
    requires IsReported(server, rs, cs) && Winding(cs[0]) && k <= |rs|
    requires forall j :: 0 <= j < |rs| ==> NoBytes(rs[j])
    ensures k < |rs| ==> Winding(cs[k])
    ensures k == |rs| && k > 0 ==>
              Reported(cs[k - 1], server, rs[k - 1]) &&
              if FailsToWrite(cs[k - 1], server, rs[k - 1]) then cs[k].life == CLOSING && Stuck(cs[k], server)
              else cs[k].life == CLOSED || Winding(cs[k])
  {
    if k > 0 {
      WindingRun(server, rs, cs, k - 1);
      RunKept(server, rs, cs, k - 1);
      RunStep(server, rs, cs, k - 1);
      WindingStep(cs[k - 1], server, rs[k - 1]);
      if k < |rs| {
        RunStep(server, rs, cs, k);
      }
    }
  }

  /** From there only a failed write keeps a run from closing the connection: it has come
      to a stop unclosed exactly when its last report is one whose write failed. */
  lemma OnlyFailedWritesStrand(server: Server, rs: seq<Report>, cs: seq<Conn>)
    requires NewRequest(server.blank) && IsReported(server, rs, cs) && Winding(cs[0])
    requires forall j :: 0 <= j < |rs| ==> NoBytes(rs[j])
    ensures rs != [] ==> Reported(cs[|rs| - 1], server, rs[|rs| - 1])
    ensures Stuck(cs[|rs|], server) && cs[|rs|].life != CLOSED <==>
            rs != [] && FailsToWrite(cs[|rs| - 1], server, rs[|rs| - 1])
  {
    WindingRun(server, rs, cs, |rs|);
    RunKept(server, rs, cs, |rs|);
    if Winding(cs[|rs|]) {
      WindingCloses(cs[|rs|], server);
    }
  }
}
