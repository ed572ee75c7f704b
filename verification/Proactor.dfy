/**
 The proactor over the reactor (model/proactor.hh, model/reactor.hh) as a state
 machine: any number of threads in `run`, and any number of calls of
 `async_read` and `async_write`.

 One event is one queue operation, one acquire or release of the mutex, or one
 reactor callback (which runs under the mutex and touches one shared queue).
 */
module Proactor {
  import opened Common

  datatype Dir = RD | WR

  /** A submitted callback: the descriptor and the direction it waits for. */
  datatype Cb = Cb(id: nat, fd: nat, dir: Dir)

  datatype Descriptor = Descriptor(readQ: seq<Cb>, writeQ: seq<Cb>)

  /** A reactor channel: which of its two callbacks are installed. */
  datatype Channel = Channel(readcb: bool, writecb: bool)

  /** One descriptor of a listen result. */
  datatype Active = Active(fd: nat, readable: bool, writeable: bool)

  /** Where a thread stands in `run`. */
  datatype Pc =
    | Top
    | Popping                             // saw op_queue non-empty
    | Popped(got: Option<Cb>)             // about to test op_queue again
    | Notifying(got: Option<Cb>)          // wants the mutex for notify_one
    | Notified(got: Option<Cb>)           // has the mutex
    | Calling(cb: Cb)
    | WantLoop
    | Listening                           // has the mutex, inside loop(false, true)
    | Reading(todo: seq<Active>)          // dispatching: next is the read side of todo[0]
    | Writing(todo: seq<Active>)          // dispatching: next is the write side of todo[0]
    | Cleaned                             // loop has returned, about to unlock
    | WantWait
    | Waiting                             // has the mutex, about to test the predicate
    | Asleep

  datatype Owner = Free | Thread(i: nat) | Caller(cb: Cb, stored: bool)

  /** `submitted`, `moved`, `popped` and `ran` are history: callbacks in the order
      of their submission, of their entry to op_queue, of their exit from it, and
      of their completion.  `broken` records a null channel being dereferenced. */
  datatype Pro = Pro(
    threads: seq<Pc>,
    owner: Owner,
    ops: map<nat, Descriptor>,
    opQueue: seq<Cb>,
    channels: map<nat, Channel>,
    readSet: set<nat>,
    writeSet: set<nat>,
    needclean: seq<nat>,
    broken: bool,
    submitted: seq<Cb>,
    moved: seq<Cb>,
    popped: seq<Cb>,
    ran: seq<Cb>)

  function Start(n: nat): Pro {
    Pro(seq(n, i => Top), Free, map[], [], map[], {}, {}, [], false, [], [], [], [])
  }

  datatype Event =
    | CallLock(cb: Cb) | CallStore | CallUnlock
    | SeeQueue(i: nat) | Pop(i: nat) | Recheck(i: nat) | NotifyLock(i: nat) | NotifyUnlock(i: nat) | Call(i: nat)
    | GoLoop(i: nat) | LoopLock(i: nat) | Listen(i: nat, active: seq<Active>)
    | ReadSide(i: nat) | WriteSide(i: nat) | Clean(i: nat) | LoopUnlock(i: nat)
    | GoWait(i: nat) | WaitLock(i: nat) | WaitTest(i: nat) | Wake(i: nat)

  // ---------------------------------------------------------------------------
  // Reactor operations

  function QueueOf(ops: map<nat, Descriptor>, fd: nat, dir: Dir): seq<Cb> {
    if fd !in ops then [] else if dir == RD then ops[fd].readQ else ops[fd].writeQ
  }

  function WithQueue(ops: map<nat, Descriptor>, fd: nat, dir: Dir, q: seq<Cb>): map<nat, Descriptor> {
    var d := if fd in ops then ops[fd] else Descriptor([], []);
    ops[fd := if dir == RD then d.(readQ := q) else d.(writeQ := q)]
  }

  /** `set_read_handler`, `set_write_handler` */
  function SetHandler(s: Pro, fd: nat, dir: Dir): Pro {
    var c := if fd in s.channels then s.channels[fd] else Channel(false, false);
    if dir == RD then s.(channels := s.channels[fd := c.(readcb := true)], readSet := s.readSet + {fd})
    else s.(channels := s.channels[fd := c.(writecb := true)], writeSet := s.writeSet + {fd})
  }

  /** `remove_read_handler`, `remove_write_handler` */
  function RemoveHandler(s: Pro, fd: nat, dir: Dir): Pro {
    if fd !in s.channels then s
    else
      var c := s.channels[fd];
      if dir == RD then
        s.(channels := s.channels[fd := c.(readcb := false)], readSet := s.readSet - {fd},
           needclean := if c.writecb then s.needclean else s.needclean + [fd])
      else
        s.(channels := s.channels[fd := c.(writecb := false)], writeSet := s.writeSet - {fd},
           needclean := if c.readcb then s.needclean else s.needclean + [fd])
  }

  /** The handler that `async_read` and `async_write` install. */
  function Handler(s: Pro, fd: nat, dir: Dir): Pro {
    var q := QueueOf(s.ops, fd, dir);
    if q == [] then s
    else
      var ops := WithQueue(s.ops, fd, dir, q[1..]);
      var s1 := s.(opQueue := s.opQueue + [q[0]], moved := s.moved + [q[0]],
                   ops := if ops[fd] == Descriptor([], []) then ops - {fd} else ops);
      if q[1..] == [] then RemoveHandler(s1, fd, dir) else s1
  }

  /** `async_read`, `async_write`: the part under the mutex. */
  function Store(s: Pro, cb: Cb): Pro {
    var q := QueueOf(s.ops, cb.fd, cb.dir);
    SetHandler(s.(ops := WithQueue(s.ops, cb.fd, cb.dir, q + [cb]), submitted := s.submitted + [cb]), cb.fd, cb.dir)
  }

  /** One side of the dispatch of one active descriptor. */
  function Dispatch(s: Pro, a: Active, dir: Dir): Pro {
    if !(if dir == RD then a.readable else a.writeable) then s
    else if a.fd !in s.channels then s.(broken := true)
    else if (if dir == RD then s.channels[a.fd].readcb else s.channels[a.fd].writecb) then Handler(s, a.fd, dir)
    else s
  }

  // ---------------------------------------------------------------------------
  // Events

  predicate AtPc(s: Pro, i: nat, pc: Pc) {
    i < |s.threads| && s.threads[i] == pc
  }

  /** The tests that lead to the loop and to the wait read `op_queue`, `ops` and
      `inloop` at different moments, so either branch may be taken at any time. */
  predicate Enabled(s: Pro, e: Event) {
    match e
    case CallLock(cb) => s.owner == Free && forall c :: c in s.submitted ==> c.id != cb.id
    case CallStore => s.owner.Caller? && !s.owner.stored
    case CallUnlock => s.owner.Caller? && s.owner.stored
    case SeeQueue(i) => AtPc(s, i, Top) && s.opQueue != []
    case Pop(i) => AtPc(s, i, Popping)
    case Recheck(i) => i < |s.threads| && s.threads[i].Popped?
    case NotifyLock(i) => i < |s.threads| && s.threads[i].Notifying? && s.owner == Free
    case NotifyUnlock(i) => i < |s.threads| && s.threads[i].Notified?
    case Call(i) => i < |s.threads| && s.threads[i].Calling?
    case GoLoop(i) => AtPc(s, i, Top)
    case LoopLock(i) => AtPc(s, i, WantLoop) && s.owner == Free
    case Listen(i, active) =>
      && AtPc(s, i, Listening)
      && (s.channels == map[] ==> active == [])
      && (forall k :: 0 <= k < |active| ==> active[k].fd in s.readSet + s.writeSet)
    case ReadSide(i) => i < |s.threads| && s.threads[i].Reading? && s.threads[i].todo != []
    case WriteSide(i) => i < |s.threads| && s.threads[i].Writing? && s.threads[i].todo != []
    case Clean(i) => AtPc(s, i, Reading([]))
    case LoopUnlock(i) => AtPc(s, i, Cleaned)
    case GoWait(i) => AtPc(s, i, Top)
    case WaitLock(i) => (AtPc(s, i, WantWait) || AtPc(s, i, Asleep)) && s.owner == Free
    case WaitTest(i) => AtPc(s, i, Waiting)
    case Wake(i) => AtPc(s, i, Asleep)
  }

  function At(s: Pro, i: nat, pc: Pc): Pro
    requires i < |s.threads|
  {
    s.(threads := s.threads[i := pc])
  }

  function AfterNotify(got: Option<Cb>): Pc {
    if got.Some? then Calling(got.value) else Top
  }

  function Do(s: Pro, e: Event): Pro
    requires Enabled(s, e)
  {
    match e
    case CallLock(cb) => s.(owner := Caller(cb, false))
    case CallStore => Store(s, s.owner.cb).(owner := Caller(s.owner.cb, true))
    case CallUnlock => s.(owner := Free)
    case SeeQueue(i) => At(s, i, Popping)
    case Pop(i) =>
      if s.opQueue == [] then At(s, i, Popped(None))
      else At(s, i, Popped(Some(s.opQueue[0]))).(opQueue := s.opQueue[1..], popped := s.popped + [s.opQueue[0]])
    case Recheck(i) =>
      var got := s.threads[i].got;
      At(s, i, if s.opQueue != [] then Notifying(got) else AfterNotify(got))
    case NotifyLock(i) => At(s, i, Notified(s.threads[i].got)).(owner := Thread(i))
    case NotifyUnlock(i) => At(s, i, AfterNotify(s.threads[i].got)).(owner := Free)
    case Call(i) => At(s, i, Top).(ran := s.ran + [s.threads[i].cb])
    case GoLoop(i) => At(s, i, WantLoop)
    case LoopLock(i) => At(s, i, Listening).(owner := Thread(i))
    case Listen(i, active) => At(s, i, Reading(active))
    case ReadSide(i) => At(Dispatch(s, s.threads[i].todo[0], RD), i, Writing(s.threads[i].todo))
    case WriteSide(i) => At(Dispatch(s, s.threads[i].todo[0], WR), i, Reading(s.threads[i].todo[1..]))
    case Clean(i) =>
      At(s, i, Cleaned).(channels := s.channels - (set fd | fd in s.needclean), needclean := [])
    case LoopUnlock(i) => At(s, i, Top).(owner := Free)
    case GoWait(i) => At(s, i, WantWait)
    case WaitLock(i) => At(s, i, Waiting).(owner := Thread(i))
    case WaitTest(i) => At(s, i, if s.opQueue != [] then Top else Asleep).(owner := Free)
    case Wake(i) => At(s, i, WantWait)
  }

  ghost predicate IsRun(n: nat, es: seq<Event>, states: seq<Pro>) {
    && |states| == |es| + 1 && states[0] == Start(n)
    && forall k :: 0 <= k < |es| ==> Enabled(states[k], es[k]) && states[k + 1] == Do(states[k], es[k])
  }

  // ---------------------------------------------------------------------------
  // Invariant: handlers and interest

  predicate Dispatching(pc: Pc) {
    pc.Reading? || pc.Writing?
  }

  predicate HasMutex(pc: Pc) {
    Dispatching(pc) || pc.Notified? || pc.Listening? || pc.Cleaned? || pc.Waiting?
  }

  ghost predicate MutexOk(s: Pro) {
    && (forall i :: 0 <= i < |s.threads| ==> (HasMutex(s.threads[i]) <==> s.owner == Thread(i)))
    && (s.owner.Thread? ==> s.owner.i < |s.threads|)
  }

  /** A descriptor with callbacks queued has its handler and its interest. */
  ghost predicate Installed(s: Pro) {
    forall fd :: fd in s.ops ==>
      && (s.ops[fd].readQ != [] ==> fd in s.channels && s.channels[fd].readcb && fd in s.readSet)
      && (s.ops[fd].writeQ != [] ==> fd in s.channels && s.channels[fd].writecb && fd in s.writeSet)
  }

  /** Interest is only in descriptors that have the matching callback. */
  ghost predicate Backed(s: Pro) {
    && (forall fd :: fd in s.readSet ==> fd in s.channels && s.channels[fd].readcb)
    && (forall fd :: fd in s.writeSet ==> fd in s.channels && s.channels[fd].writecb)
  }

  /** Erasure is pending only during a dispatch, and only for idle channels; every
      descriptor still to be dispatched has its channel. */
  ghost predicate CleanOk(s: Pro) {
    && !s.broken
    && (forall fd :: fd in s.needclean && fd in s.channels ==> s.channels[fd] == Channel(false, false))
    && (s.needclean != [] ==> s.owner.Thread? && s.owner.i < |s.threads| && Dispatching(s.threads[s.owner.i]))
    && (forall i, k :: 0 <= i < |s.threads| && Dispatching(s.threads[i]) && 0 <= k < |s.threads[i].todo| ==>
          s.threads[i].todo[k].fd in s.channels)
  }

  ghost predicate NoIdle(s: Pro) {
    forall fd :: fd in s.ops ==> s.ops[fd] != Descriptor([], [])
  }

  ghost predicate Reactor(s: Pro) {
    MutexOk(s) && Installed(s) && Backed(s) && CleanOk(s) && NoIdle(s)
  }

  /** The part of the reactor's state that the handlers rely on. */
  ghost predicate Tables(s: Pro) {
    && Installed(s) && Backed(s) && NoIdle(s) && !s.broken
    && forall fd :: fd in s.needclean && fd in s.channels ==> s.channels[fd] == Channel(false, false)
  }

  lemma HandlerKeeps(s: Pro, fd: nat, dir: Dir)
    requires Tables(s)
    ensures var t := Handler(s, fd, dir);
            && Tables(t) && t.channels.Keys == s.channels.Keys && t.threads == s.threads && t.owner == s.owner
  {
  }

  lemma DispatchKeeps(s: Pro, a: Active, dir: Dir)
    requires Tables(s) && a.fd in s.channels
    ensures var t := Dispatch(s, a, dir);
            && Tables(t) && t.channels.Keys == s.channels.Keys && t.threads == s.threads && t.owner == s.owner
  {
    HandlerKeeps(s, a.fd, dir);
  }

  lemma StoreKeeps(s: Pro, cb: Cb)
    requires Tables(s) && s.needclean == []
    ensures var t := Store(s, cb);
            && Tables(t) && s.channels.Keys <= t.channels.Keys
            && t.threads == s.threads && t.owner == s.owner && t.needclean == []
  {
  }

  predicate TouchesTables(e: Event) {
    e.CallStore? || e.ReadSide? || e.WriteSide? || e.Clean?
  }

  lemma PlainStep(s: Pro, e: Event)
    requires Enabled(s, e) && !TouchesTables(e)
    ensures var t := Do(s, e);
            t == s.(threads := t.threads, owner := t.owner, opQueue := t.opQueue, popped := t.popped, ran := t.ran)
  {
  }

  lemma PlainMutex(s: Pro, e: Event)
    requires MutexOk(s) && Enabled(s, e) && !TouchesTables(e)
    ensures MutexOk(Do(s, e))
  {
  }

  lemma PlainCleanOk(s: Pro, e: Event)
    requires MutexOk(s) && CleanOk(s) && Backed(s) && Enabled(s, e) && !TouchesTables(e)
    ensures CleanOk(Do(s, e))
  {
    PlainStep(s, e);
    var t := Do(s, e);
    forall i, k | 0 <= i < |t.threads| && Dispatching(t.threads[i]) && 0 <= k < |t.threads[i].todo|
      ensures t.threads[i].todo[k].fd in t.channels
    {
      if e.Listen? && e.i == i {
        assert e.active[k].fd in s.readSet + s.writeSet;
      } else {
        assert t.threads[i] == s.threads[i];
      }
    }
  }

  lemma SideStep(s: Pro, e: Event)
    requires Reactor(s) && Enabled(s, e) && (e.ReadSide? || e.WriteSide?)
    ensures Reactor(Do(s, e))
  {
    var i := e.i;
    var a := s.threads[i].todo[0];
    assert a.fd in s.channels;
    DispatchKeeps(s, a, if e.ReadSide? then RD else WR);
    var t := Do(s, e);
    forall j, k | 0 <= j < |t.threads| && Dispatching(t.threads[j]) && 0 <= k < |t.threads[j].todo|
      ensures t.threads[j].todo[k].fd in t.channels
    {
      if j == i {
        assert e.ReadSide? ==> t.threads[j].todo[k] == s.threads[i].todo[k];
        assert e.WriteSide? ==> t.threads[j].todo[k] == s.threads[i].todo[k + 1];
      }
    }
  }

  lemma CleanStep(s: Pro, i: nat)
    requires Reactor(s) && Enabled(s, Clean(i))
    ensures Reactor(Do(s, Clean(i)))
  {
  }

  lemma StoreStep(s: Pro)
    requires Reactor(s) && Enabled(s, CallStore)
    ensures Reactor(Do(s, CallStore))
  {
    StoreKeeps(s, s.owner.cb);
  }

  lemma StepReactor(s: Pro, e: Event)
    requires Reactor(s) && Enabled(s, e)
    ensures Reactor(Do(s, e))
  {
    if e.ReadSide? || e.WriteSide? {
      SideStep(s, e);
    } else if e.Clean? {
      CleanStep(s, e.i);
    } else if e.CallStore? {
      StoreStep(s);
    } else {
      PlainStep(s, e);
      PlainMutex(s, e);
      PlainCleanOk(s, e);
    }
  }

  // ---------------------------------------------------------------------------
  // Invariant: where the callbacks are

  /** The callbacks of one descriptor and direction, in order. */
  function Of(log: seq<Cb>, fd: nat, dir: Dir): seq<Cb> {
    if log == [] then []
    else
      var c := log[|log| - 1];
      Of(log[..|log| - 1], fd, dir) + if c.fd == fd && c.dir == dir then [c] else []
  }

  lemma OfSnoc(log: seq<Cb>, c: Cb, fd: nat, dir: Dir)
    ensures Of(log + [c], fd, dir) == Of(log, fd, dir) + if c.fd == fd && c.dir == dir then [c] else []
  {
    assert (log + [c])[..|log|] == log;
  }

  lemma {:induction false} OfCount(log: seq<Cb>, c: Cb)
    ensures multiset(Of(log, c.fd, c.dir))[c] == multiset(log)[c]
  {
    if log != [] {
      OfCount(log[..|log| - 1], c);
      assert log == log[..|log| - 1] + [log[|log| - 1]];
    }
  }

  function Hand(pc: Pc, c: Cb): nat {
    match pc
    case Popped(got) => if got == Some(c) then 1 else 0
    case Notifying(got) => if got == Some(c) then 1 else 0
    case Notified(got) => if got == Some(c) then 1 else 0
    case Calling(cb) => if cb == c then 1 else 0
    case _ => 0
  }

  function HandOf(c: Cb): Pc -> nat {
    pc => Hand(pc, c)
  }

  /** How many threads hold `c`. */
  function Hands(ts: seq<Pc>, c: Cb): nat {
    Sum(ts, HandOf(c))
  }

  /** Per descriptor and direction, what was submitted is what entered op_queue
      followed by what still waits, in the same order. */
  ghost predicate InOrder(s: Pro) {
    forall fd, dir :: Of(s.submitted, fd, dir) == Of(s.moved, fd, dir) + QueueOf(s.ops, fd, dir)
  }

  /** op_queue is a FIFO, and what left it is in a thread's hands or has run. */
  ghost predicate HandedOver(s: Pro) {
    && s.moved == s.popped + s.opQueue
    && forall c: Cb :: multiset(s.popped)[c] == Hands(s.threads, c) + multiset(s.ran)[c]
  }

  /** Callbacks are told apart by their ids. */
  ghost predicate Distinct(s: Pro) {
    && (forall i, j :: 0 <= i < j < |s.submitted| ==> s.submitted[i].id != s.submitted[j].id)
    && (s.owner.Caller? && !s.owner.stored ==> forall c :: c in s.submitted ==> c.id != s.owner.cb.id)
  }

  /** The queues hold only callbacks of their own descriptor and direction. */
  ghost predicate Homes(s: Pro) {
    forall fd, dir, k :: 0 <= k < |QueueOf(s.ops, fd, dir)| ==>
      QueueOf(s.ops, fd, dir)[k].fd == fd && QueueOf(s.ops, fd, dir)[k].dir == dir
  }

  ghost predicate Callbacks(s: Pro) {
    InOrder(s) && Homes(s) && HandedOver(s) && Distinct(s)
  }

  /** What a handler does to the queues. */
  lemma HandlerQueues(s: Pro, fd: nat, dir: Dir, f: nat, d: Dir)
    requires QueueOf(s.ops, fd, dir) != []
    ensures var q := QueueOf(s.ops, fd, dir);
            var t := Handler(s, fd, dir);
            && QueueOf(t.ops, f, d) == (if f == fd && d == dir then q[1..] else QueueOf(s.ops, f, d))
            && t.moved == s.moved + [q[0]] && t.opQueue == s.opQueue + [q[0]]
            && t.submitted == s.submitted && t.popped == s.popped && t.ran == s.ran
            && t.threads == s.threads && t.owner == s.owner
  {
  }

  lemma HandlerInOrder(s: Pro, fd: nat, dir: Dir)
    requires InOrder(s) && Homes(s) && QueueOf(s.ops, fd, dir) != []
    ensures InOrder(Handler(s, fd, dir))
  {
    var q := QueueOf(s.ops, fd, dir);
    var t := Handler(s, fd, dir);
    assert q[0].fd == fd && q[0].dir == dir && q == [q[0]] + q[1..];
    forall f, d ensures Of(t.submitted, f, d) == Of(t.moved, f, d) + QueueOf(t.ops, f, d) {
      HandlerQueues(s, fd, dir, f, d);
      assert Of(s.submitted, f, d) == Of(s.moved, f, d) + QueueOf(s.ops, f, d);
      OfSnoc(s.moved, q[0], f, d);
    }
  }

  lemma HandlerHomes(s: Pro, fd: nat, dir: Dir)
    requires Homes(s) && QueueOf(s.ops, fd, dir) != []
    ensures Homes(Handler(s, fd, dir))
  {
    var t := Handler(s, fd, dir);
    forall f, d, k | 0 <= k < |QueueOf(t.ops, f, d)|
      ensures QueueOf(t.ops, f, d)[k].fd == f && QueueOf(t.ops, f, d)[k].dir == d
    {
      HandlerQueues(s, fd, dir, f, d);
    }
  }

  lemma HandlerCallbacks(s: Pro, fd: nat, dir: Dir)
    requires Callbacks(s)
    ensures Callbacks(Handler(s, fd, dir))
  {
    var t := Handler(s, fd, dir);
    if QueueOf(s.ops, fd, dir) != [] {
      HandlerInOrder(s, fd, dir);
      HandlerHomes(s, fd, dir);
      HandlerQueues(s, fd, dir, fd, dir);
      assert t.moved == t.popped + t.opQueue;
    }
  }

  lemma StoreQueues(s: Pro, cb: Cb, f: nat, d: Dir)
    ensures var t := Store(s, cb);
            && QueueOf(t.ops, f, d) == QueueOf(s.ops, f, d) + (if f == cb.fd && d == cb.dir then [cb] else [])
            && t.submitted == s.submitted + [cb] && t.moved == s.moved && t.opQueue == s.opQueue
            && t.popped == s.popped && t.ran == s.ran && t.threads == s.threads
  {
  }

  lemma StoreInOrder(s: Pro, cb: Cb)
    requires InOrder(s) && Homes(s)
    ensures InOrder(Store(s, cb)) && Homes(Store(s, cb))
  {
    var t := Store(s, cb);
    forall f, d
      ensures Of(t.submitted, f, d) == Of(t.moved, f, d) + QueueOf(t.ops, f, d)
      ensures forall k :: 0 <= k < |QueueOf(t.ops, f, d)| ==>
                QueueOf(t.ops, f, d)[k].fd == f && QueueOf(t.ops, f, d)[k].dir == d
    {
      StoreQueues(s, cb, f, d);
      assert Of(s.submitted, f, d) == Of(s.moved, f, d) + QueueOf(s.ops, f, d);
      OfSnoc(s.submitted, cb, f, d);
    }
  }

  lemma StoreCallbacks(s: Pro)
    requires Callbacks(s) && Enabled(s, CallStore)
    ensures Callbacks(Do(s, CallStore))
  {
    var cb := s.owner.cb;
    var t := Do(s, CallStore);
    StoreInOrder(s, cb);
    StoreQueues(s, cb, 0, RD);
    forall i, j | 0 <= i < j < |t.submitted| ensures t.submitted[i].id != t.submitted[j].id {
      assert s.submitted[i] in s.submitted;
    }
  }

  lemma ThreadHands(s: Pro, e: Event, c: Cb)
    requires Enabled(s, e) && !e.CallLock? && !e.CallStore? && !e.CallUnlock?
    ensures var t := Do(s, e);
            Hands(t.threads, c) + Hand(s.threads[e.i], c) == Hands(s.threads, c) + Hand(t.threads[e.i], c)
  {
    var t := Do(s, e);
    assert t.threads == s.threads[e.i := t.threads[e.i]];
    SumUpdate(s.threads, e.i, t.threads[e.i], HandOf(c));
  }

  lemma HandKept(s: Pro, e: Event, c: Cb)
    requires Enabled(s, e) && !TouchesTables(e) && !e.CallLock? && !e.CallUnlock? && !e.Pop? && !e.Call?
    ensures var t := Do(s, e);
            Hand(t.threads[e.i], c) == Hand(s.threads[e.i], c) && t.popped == s.popped && t.ran == s.ran
  {
  }

  lemma PlainCount(s: Pro, e: Event, c: Cb)
    requires Enabled(s, e) && !TouchesTables(e)
    ensures var t := Do(s, e);
            multiset(t.popped)[c] + Hands(s.threads, c) + multiset(s.ran)[c] ==
            multiset(s.popped)[c] + Hands(t.threads, c) + multiset(t.ran)[c]
  {
    if !e.CallLock? && !e.CallUnlock? {
      ThreadHands(s, e, c);
      if !e.Pop? && !e.Call? {
        HandKept(s, e, c);
      }
    }
  }

  lemma PlainHandedOver(s: Pro, e: Event)
    requires HandedOver(s) && Enabled(s, e) && !TouchesTables(e)
    ensures HandedOver(Do(s, e))
  {
    var t := Do(s, e);
    PlainStep(s, e);
    assert t.popped + t.opQueue == s.popped + s.opQueue by {
      if e.Pop? && s.opQueue != [] {
        assert s.opQueue == [s.opQueue[0]] + s.opQueue[1..];
      }
    }
    forall c: Cb ensures multiset(t.popped)[c] == Hands(t.threads, c) + multiset(t.ran)[c] {
      assert multiset(s.popped)[c] == Hands(s.threads, c) + multiset(s.ran)[c];
      PlainCount(s, e, c);
    }
  }

  /** A dispatch step beyond its handler, and the clean-up: only a thread moves. */
  lemma SideHandedOver(s: Pro, u: Pro, i: nat, pc: Pc)
    requires HandedOver(u) && u.threads == s.threads && i < |s.threads|
    requires forall c: Cb :: Hand(s.threads[i], c) == 0 && Hand(pc, c) == 0
    ensures HandedOver(At(u, i, pc))
  {
    var t := At(u, i, pc);
    forall c: Cb ensures multiset(t.popped)[c] == Hands(t.threads, c) + multiset(t.ran)[c] {
      assert multiset(u.popped)[c] == Hands(u.threads, c) + multiset(u.ran)[c];
      SumUpdate(u.threads, i, pc, HandOf(c));
    }
  }

  lemma DispatchCallbacks(s: Pro, a: Active, dir: Dir)
    requires Callbacks(s)
    ensures Callbacks(Dispatch(s, a, dir)) && Dispatch(s, a, dir).threads == s.threads
  {
    HandlerCallbacks(s, a.fd, dir);
  }

  lemma SideCallbacks(s: Pro, i: nat, a: Active, dir: Dir, pc: Pc)
    requires Callbacks(s) && i < |s.threads| && Dispatching(s.threads[i]) && Dispatching(pc)
    ensures Callbacks(At(Dispatch(s, a, dir), i, pc))
  {
    DispatchCallbacks(s, a, dir);
    SideHandedOver(s, Dispatch(s, a, dir), i, pc);
  }

  lemma PlainCallbacks(s: Pro, e: Event)
    requires Callbacks(s) && Enabled(s, e) && !TouchesTables(e)
    ensures Callbacks(Do(s, e))
  {
    PlainStep(s, e);
    PlainHandedOver(s, e);
  }

  lemma StepCallbacks(s: Pro, e: Event)
    requires Callbacks(s) && Enabled(s, e)
    ensures Callbacks(Do(s, e))
  {
    match e
    case CallStore => StoreCallbacks(s);
    case ReadSide(i) => SideCallbacks(s, i, s.threads[i].todo[0], RD, Writing(s.threads[i].todo));
    case WriteSide(i) => SideCallbacks(s, i, s.threads[i].todo[0], WR, Reading(s.threads[i].todo[1..]));
    case Clean(i) => SideHandedOver(s, s, i, Cleaned);
    case _ => PlainCallbacks(s, e);
  }

  // ---------------------------------------------------------------------------
  // Every run

  lemma {:induction false} RunInv(n: nat, es: seq<Event>, states: seq<Pro>, k: nat)
    requires IsRun(n, es, states) && k < |states|
    ensures Reactor(states[k]) && Callbacks(states[k])
  {
    if k == 0 {
      forall c: Cb ensures Hands(Start(n).threads, c) == 0 {
        SumZero(Start(n).threads, HandOf(c));
      }
    } else {
      RunInv(n, es, states, k - 1);
      StepReactor(states[k - 1], es[k - 1]);
      StepCallbacks(states[k - 1], es[k - 1]);
    }
  }

  /** How often `c` is in its descriptor's queue, in op_queue, in a thread's hands, and run. */
  function Places(s: Pro, c: Cb): nat {
    multiset(QueueOf(s.ops, c.fd, c.dir))[c] + multiset(s.opQueue)[c] + Hands(s.threads, c) + multiset(s.ran)[c]
  }

  lemma DistinctCount(log: seq<Cb>, c: Cb)
    requires c in log && forall i, j :: 0 <= i < j < |log| ==> log[i].id != log[j].id
    ensures multiset(log)[c] == 1
  {
    var i :| 0 <= i < |log| && log[i] == c;
    assert log == log[..i] + [c] + log[i + 1..];
    assert c !in log[..i] && c !in log[i + 1..];
  }

  /** In every interleaving a submitted callback is in exactly one place: its
      descriptor's queue, op_queue, one thread's hands, or run. */
  lemma ExactlyOnce(n: nat, es: seq<Event>, states: seq<Pro>, k: nat, c: Cb)
    requires IsRun(n, es, states) && k < |states| && c in states[k].submitted
    ensures Places(states[k], c) == 1
  {
    var s := states[k];
    RunInv(n, es, states, k);
    DistinctCount(s.submitted, c);
    OfCount(s.submitted, c);
    OfCount(s.moved, c);
    assert Of(s.submitted, c.fd, c.dir) == Of(s.moved, c.fd, c.dir) + QueueOf(s.ops, c.fd, c.dir);
    assert multiset(s.popped)[c] == Hands(s.threads, c) + multiset(s.ran)[c];
  }

  /** Callbacks of one descriptor and direction enter op_queue in the order of
      their submission, and leave it in the order they entered. */
  lemma SubmissionOrder(n: nat, es: seq<Event>, states: seq<Pro>, k: nat, fd: nat, dir: Dir)
    requires IsRun(n, es, states) && k < |states|
    ensures Of(states[k].moved, fd, dir) <= Of(states[k].submitted, fd, dir)
    ensures states[k].popped <= states[k].moved
  {
    RunInv(n, es, states, k);
    var s := states[k];
    assert Of(s.submitted, fd, dir) == Of(s.moved, fd, dir) + QueueOf(s.ops, fd, dir);
  }

  /** A descriptor with callbacks waiting has its reactor callback and its
      interest, whatever was erased; and no dispatch ever meets a missing channel. */
  lemma WaitingIsInstalled(n: nat, es: seq<Event>, states: seq<Pro>, k: nat, fd: nat)
    requires IsRun(n, es, states) && k < |states|
    ensures var s := states[k];
            && !s.broken
            && (QueueOf(s.ops, fd, RD) != [] ==> fd in s.channels && s.channels[fd].readcb && fd in s.readSet)
            && (QueueOf(s.ops, fd, WR) != [] ==> fd in s.channels && s.channels[fd].writecb && fd in s.writeSet)
            && (s.owner == Free ==> s.needclean == [])
  {
    RunInv(n, es, states, k);
  }
}
