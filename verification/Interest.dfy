/**
 The interest tables of core/epoll.hh and core/poll.hh: which descriptors are
 watched for reading and writing.  Epoll keeps a copy of what the kernel knows;
 poll keeps the only table.
 */
module Interest {
  /** The bits RD and WR of the source. */
  type Mask = bv2

  const RD: Mask := 1
  const WR: Mask := 2
  const RDWR: Mask := 3

  /** An absent descriptor has no interest. */
  function MaskOf(m: map<int, Mask>, fd: int): Mask {
    if fd in m then m[fd] else 0
  }

  // ---------------------------------------------------------------------------
  // Epoll

  /** The object's `events` and the kernel's interest list. */
  datatype Table = Table(events: map<int, Mask>, kernel: map<int, Mask>)

  datatype CtlOp = CtlAdd | CtlMod | CtlDel

  /** `epoll_ctl` with `ok` the kernel's other reasons to refuse: adding a watched
      descriptor, and changing or deleting an unwatched one, always fail. */
  function CtlWorks(kernel: map<int, Mask>, op: CtlOp, fd: int, ok: bool): bool {
    ok && (op == CtlAdd <==> fd !in kernel)
  }

  function Ctl(kernel: map<int, Mask>, op: CtlOp, fd: int, mask: Mask): map<int, Mask> {
    if op == CtlDel then kernel - {fd} else kernel[fd := mask]
  }

  class Epoll {
    var events: map<int, Mask>
    var kernel: map<int, Mask>

    function Value(): Table
      reads this
    {
      Table(events, kernel)
    }

    constructor ()
      ensures Value() == Table(map[], map[])
    {
      events, kernel := map[], map[];
    }

    method Add(fd: int, kind: Mask, ok: bool) returns (r: int)
      modifies this
      ensures Value() == Added(old(Value()), fd, kind, ok)
      ensures r == if fd < 0 || kind == 0 then -1
                   else if Held(old(Value()), fd, kind) then 1
                   else if AddWorks(old(Value()), fd, ok) then 0 else -1
    {
      if fd < 0 || kind == 0 {
        return -1;
      }
      events := events[fd := MaskOf(events, fd)];
      var was := events[fd];
      if was == RDWR || was == kind {
        return 1;
      }
      var op := if was != 0 then CtlMod else CtlAdd;
      var event := was | kind;
      if !CtlWorks(kernel, op, fd, ok) {
        return -1;
      }
      kernel := Ctl(kernel, op, fd, event);
      events := events[fd := event & RDWR];
      return 0;
    }

    method Remove(fd: int, kind: Mask, ok: bool) returns (r: int)
      modifies this
      ensures Value() == Removed(old(Value()), fd, kind, ok)
      ensures r == if fd < 0 || kind == 0 || fd !in old(events) then -1
                   else if kind & old(events)[fd] == 0 then 1
                   else if RemoveWorks(old(Value()), fd, kind, ok) then 0 else -1
    {
      if fd < 0 || kind == 0 || fd !in events {
        return -1;
      }
      var was := events[fd];
      if kind & was == 0 {
        return 1;
      }
      var op, event := CtlDel, was;
      if was == RDWR && kind != RDWR {
        event := if kind == RD then WR else RD;
        op := CtlMod;
      }
      if !CtlWorks(kernel, op, fd, ok) {
        return -1;
      }
      kernel := Ctl(kernel, op, fd, event);
      if op == CtlMod {
        events := events[fd := event];
      } else {
        events := events - {fd};
      }
      return 0;
    }
  }

  /** The table already has all that is asked for, as far as `add` looks. */
  predicate Held(t: Table, fd: int, kind: Mask) {
    MaskOf(t.events, fd) == RDWR || MaskOf(t.events, fd) == kind
  }

  predicate AddWorks(t: Table, fd: int, ok: bool) {
    CtlWorks(t.kernel, if MaskOf(t.events, fd) != 0 then CtlMod else CtlAdd, fd, ok)
  }

  predicate RemoveWorks(t: Table, fd: int, kind: Mask, ok: bool) {
    CtlWorks(t.kernel, if MaskOf(t.events, fd) == RDWR && kind != RDWR then CtlMod else CtlDel, fd, ok)
  }

  function Added(t: Table, fd: int, kind: Mask, ok: bool): Table {
    if fd < 0 || kind == 0 then t
    else
      var was := MaskOf(t.events, fd);
      if Held(t, fd, kind) || !AddWorks(t, fd, ok) then t.(events := t.events[fd := was])
      else Table(t.events[fd := was | kind], t.kernel[fd := was | kind])
  }

  function Removed(t: Table, fd: int, kind: Mask, ok: bool): Table {
    var was := MaskOf(t.events, fd);
    if fd < 0 || kind & was == 0 then t
    else if was == RDWR && kind != RDWR then
      if !CtlWorks(t.kernel, CtlMod, fd, ok) then t
      else Table(t.events[fd := RDWR - kind], t.kernel[fd := RDWR - kind])
    else if !CtlWorks(t.kernel, CtlDel, fd, ok) then t
    else Table(t.events - {fd}, t.kernel - {fd})
  }

  datatype Op = Add(fd: int, kind: Mask, ok: bool) | Remove(fd: int, kind: Mask, ok: bool)

  function After(t: Table, op: Op): Table {
    match op
    case Add(fd, kind, ok) => Added(t, fd, kind, ok)
    case Remove(fd, kind, ok) => Removed(t, fd, kind, ok)
  }

  /** The object and the kernel agree on every descriptor, and the kernel watches
      none without interest. */
  ghost predicate Mirror(t: Table) {
    && (forall fd :: MaskOf(t.events, fd) == MaskOf(t.kernel, fd))
    && (forall fd :: fd in t.kernel ==> t.kernel[fd] != 0)
  }

  lemma AddMirrors(t: Table, fd: int, kind: Mask, ok: bool)
    requires Mirror(t)
    ensures Mirror(Added(t, fd, kind, ok))
    ensures fd >= 0 && kind != 0 && ok ==> MaskOf(Added(t, fd, kind, ok).kernel, fd) == MaskOf(t.kernel, fd) | kind
  {
    assert MaskOf(t.events, fd) == MaskOf(t.kernel, fd);
    forall f ensures MaskOf(Added(t, fd, kind, ok).events, f) == MaskOf(Added(t, fd, kind, ok).kernel, f) {
      assert MaskOf(t.events, f) == MaskOf(t.kernel, f);
    }
  }

  lemma RemoveMirrors(t: Table, fd: int, kind: Mask, ok: bool)
    requires Mirror(t)
    ensures Mirror(Removed(t, fd, kind, ok))
    ensures fd >= 0 && ok ==> MaskOf(Removed(t, fd, kind, ok).kernel, fd) == MaskOf(t.kernel, fd) & !kind
  {
    assert MaskOf(t.events, fd) == MaskOf(t.kernel, fd);
    forall f ensures MaskOf(Removed(t, fd, kind, ok).events, f) == MaskOf(Removed(t, fd, kind, ok).kernel, f) {
      assert MaskOf(t.events, f) == MaskOf(t.kernel, f);
    }
  }

  /** One call keeps the mirror, whatever fails, and changes one descriptor only;
      with the mirror, `epoll_ctl` never fails for being asked the wrong thing. */
  lemma StepMirror(t: Table, op: Op)
    requires Mirror(t)
    ensures Mirror(After(t, op))
    ensures forall fd :: fd != op.fd ==> MaskOf(After(t, op).kernel, fd) == MaskOf(t.kernel, fd)
    ensures op.Add? && op.fd >= 0 && op.kind != 0 && op.ok ==>
              MaskOf(After(t, op).kernel, op.fd) == MaskOf(t.kernel, op.fd) | op.kind
    ensures op.Remove? && op.fd >= 0 && op.ok ==>
              MaskOf(After(t, op).kernel, op.fd) == MaskOf(t.kernel, op.fd) & !op.kind
  {
    match op
    case Add(fd, kind, ok) => AddMirrors(t, fd, kind, ok);
    case Remove(fd, kind, ok) => RemoveMirrors(t, fd, kind, ok);
  }

  ghost predicate IsRun(ops: seq<Op>, ts: seq<Table>) {
    && |ts| == |ops| + 1 && ts[0] == Table(map[], map[])
    && forall k :: 0 <= k < |ops| ==> ts[k + 1] == After(ts[k], ops[k])
  }

  /** Over every run, with any pattern of failures, epoll's table is the kernel's. */
  lemma {:induction false} MirrorAlways(ops: seq<Op>, ts: seq<Table>, k: nat)
    requires IsRun(ops, ts) && k < |ts|
    ensures Mirror(ts[k])
  {
    if k > 0 {
      MirrorAlways(ops, ts, k - 1);
      StepMirror(ts[k - 1], ops[k - 1]);
    }
  }

  /** The kernel forgets a descriptor that is closed. */
  function Closed(t: Table, fd: int): Table {
    t.(kernel := t.kernel - {fd})
  }

  /** Closing a descriptor makes the kernel forget it; the object is not told.  The
      mirror survives exactly when no interest was recorded. */
  lemma CloseBreaksMirror(t: Table, fd: int)
    requires Mirror(t)
    ensures Mirror(Closed(t, fd)) <==> MaskOf(t.events, fd) == 0
  {
    var u := Closed(t, fd);
    assert MaskOf(u.kernel, fd) == 0;
    if MaskOf(t.events, fd) == 0 {
      forall f ensures MaskOf(u.events, f) == MaskOf(u.kernel, f) {
        assert MaskOf(t.events, f) == MaskOf(t.kernel, f);
      }
    }
  }

  // ---------------------------------------------------------------------------
  // A descriptor used again

  /** A recorded interest that the kernel does not know. */
  predicate Stale(t: Table, fd: int, mask: Mask) {
    mask != 0 && MaskOf(t.events, fd) == mask && fd !in t.kernel
  }

  lemma StaleStays(t: Table, fd: int, mask: Mask, op: Op)
    requires Stale(t, fd, mask)
    ensures Stale(After(t, op), fd, mask)
  {
  }

  /** The first interest asked for in a descriptor that is used again after a close
      reaches the kernel exactly when none was recorded at the close. */
  lemma ReusedReachesExactly(t: Table, fd: int, kind: Mask)
    requires Mirror(t) && fd >= 0 && kind != 0
    ensures MaskOf(Added(Closed(t, fd), fd, kind, true).kernel, fd) == kind <==> MaskOf(t.events, fd) == 0
  {
  }

  /** And where one was, no number of calls with any arguments makes the kernel watch
      that descriptor again: additions find the entry or modify what the kernel does
      not have, and removals fail. */
  lemma {:induction false} StaleForever(t: Table, fd: int, ops: seq<Op>, ts: seq<Table>, k: nat)
    requires Mirror(t) && MaskOf(t.events, fd) != 0
    requires |ts| == |ops| + 1 && ts[0] == Closed(t, fd) && k < |ts|
    requires forall j :: 0 <= j < |ops| ==> ts[j + 1] == After(ts[j], ops[j])
    ensures fd !in ts[k].kernel && MaskOf(ts[k].events, fd) == MaskOf(t.events, fd)
  {
    if k > 0 {
      StaleForever(t, fd, ops, ts, k - 1);
      StaleStays(ts[k - 1], fd, MaskOf(t.events, fd), ops[k - 1]);
    }
  }

  // ---------------------------------------------------------------------------
  // Poll

  /** `at` throws for a descriptor that was never added. */
  datatype PollResult = Done(table: map<int, Mask>) | Throws

  class Poll {
    var pollfds: map<int, Mask>

    constructor ()
      ensures pollfds == map[]
    {
      pollfds := map[];
    }

    method Add(fd: int, kind: Mask) returns (r: int)
      modifies this
      ensures pollfds == PollAdded(old(pollfds), fd, kind) && r == 0
    {
      if fd !in pollfds {
        pollfds := pollfds[fd := 0];
      }
      if kind & RD != 0 {
        pollfds := pollfds[fd := pollfds[fd] | RD];
      }
      if kind & WR != 0 {
        pollfds := pollfds[fd := pollfds[fd] | WR];
      }
      return 0;
    }

    method Remove(fd: int, kind: Mask) returns (threw: bool)
      modifies this
      ensures threw == PollRemoved(old(pollfds), fd, kind).Throws?
      ensures pollfds == if threw then old(pollfds) else PollRemoved(old(pollfds), fd, kind).table
    {
      if fd !in pollfds {
        return true;
      }
      if kind & RD != 0 {
        pollfds := pollfds[fd := pollfds[fd] & !RD];
      }
      if kind & WR != 0 {
        pollfds := pollfds[fd := pollfds[fd] & !WR];
      }
      if pollfds[fd] & RD == 0 && pollfds[fd] & WR == 0 {
        pollfds := pollfds - {fd};
      }
      return false;
    }
  }

  function PollAdded(m: map<int, Mask>, fd: int, kind: Mask): map<int, Mask> {
    m[fd := MaskOf(m, fd) | kind]
  }

  function PollRemoved(m: map<int, Mask>, fd: int, kind: Mask): PollResult {
    if fd !in m then Throws
    else if m[fd] & !kind == 0 then Done(m - {fd})
    else Done(m[fd := m[fd] & !kind])
  }

  function PollAfter(m: map<int, Mask>, op: Op): PollResult {
    match op
    case Add(fd, kind, _) => Done(PollAdded(m, fd, kind))
    case Remove(fd, kind, _) => PollRemoved(m, fd, kind)
  }

  /** A call both implementations are meant for. */
  predicate Proper(m: map<int, Mask>, op: Op) {
    op.fd >= 0 && op.kind != 0 && op.ok && (op.Remove? ==> op.fd in m)
  }

  ghost predicate Agree(t: Table, m: map<int, Mask>) {
    && (forall fd :: MaskOf(t.events, fd) == MaskOf(m, fd))
    && (forall fd :: fd in m ==> m[fd] != 0)
  }

  lemma StepAgree(t: Table, m: map<int, Mask>, op: Op)
    requires Mirror(t) && Agree(t, m) && Proper(m, op)
    ensures PollAfter(m, op).Done? && Agree(After(t, op), PollAfter(m, op).table)
  {
    StepMirror(t, op);
    var u, n := After(t, op), PollAfter(m, op).table;
    forall fd ensures MaskOf(u.events, fd) == MaskOf(n, fd) {
      assert MaskOf(u.events, fd) == MaskOf(u.kernel, fd);
      assert MaskOf(t.events, fd) == MaskOf(t.kernel, fd) == MaskOf(m, fd);
    }
  }

  /** Over every run of proper calls without failures, epoll and poll hold the
      same interest, and poll never throws. */
  lemma {:induction false} EpollIsPoll(ops: seq<Op>, ts: seq<Table>, ms: seq<map<int, Mask>>, k: nat)
    requires IsRun(ops, ts) && |ms| == |ts| && ms[0] == map[] && k < |ts|
    requires forall j :: 0 <= j < |ops| ==>
               Proper(ms[j], ops[j]) && (PollAfter(ms[j], ops[j]).Done? ==> ms[j + 1] == PollAfter(ms[j], ops[j]).table)
    ensures Agree(ts[k], ms[k])
    ensures k < |ops| ==> PollAfter(ms[k], ops[k]).Done?
  {
    if k > 0 {
      EpollIsPoll(ops, ts, ms, k - 1);
      MirrorAlways(ops, ts, k - 1);
      StepAgree(ts[k - 1], ms[k - 1], ops[k - 1]);
    }
    if k < |ops| {
      MirrorAlways(ops, ts, k);
      StepAgree(ts[k], ms[k], ops[k]);
    }
  }
}
