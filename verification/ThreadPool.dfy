/**
 The worker pool of core/thread.hh as a state machine.

 Every queue operation, every access to `isDone` and every acquire or release of
 the condition variable's mutex is one event, so a run of events is one
 interleaving of the pushers, the workers and one call of `stop(true)`.  A call
 of `push` is named by the task it pushes.
 */
module ThreadPool {
  import opened Common

  type Task = nat

  /** Where a worker stands in the loop of `set_thread`. */
  datatype WorkerPc =
    | Popping                 // about to pop without the mutex
    | Running(task: Task)     // calls the task it popped
    | Locking                 // found the queue empty, wants the mutex
    | Testing                 // has the mutex, about to pop inside the wait predicate
    | Empty                   // has the mutex, that pop failed, about to read isDone
    | Parking                 // has the mutex, predicate is false, about to sleep
    | Asleep                  // waits on the condition variable
    | Waking                  // was woken, wants the mutex back
    | Leaving(task: Task)     // has the mutex, the predicate popped a task
    | Exiting                 // has the mutex, predicate is true without a task
    | Finished

  datatype PushPc = Enqueued | Locked | Notified | Returned

  datatype StopPc =
    | NotCalled | Setting | Wanting | Holding | Told
    | Joining(next: nat) | Clearing | Stopped

  datatype Owner = Free | ByWorker(i: nat) | ByPush(t: Task) | ByStop

  /** `ran`, `deleted` and `before` are history: the tasks that were run, in
      order, the tasks thrown away by `clear_task_queue`, and the tasks whose
      `push` had returned when `stop(true)` began. */
  datatype Pool = Pool(
    queue: seq<Task>,
    workers: seq<WorkerPc>,
    pushes: map<Task, PushPc>,
    stop: StopPc,
    isDone: bool,
    owner: Owner,
    ran: seq<Task>,
    deleted: seq<Task>,
    before: set<Task>)

  datatype Event =
    | Grow
    | Enqueue(t: Task) | PushLock(t: Task) | PushNotify(t: Task, woken: Option<nat>) | PushUnlock(t: Task)
    | WorkerPop(i: nat) | WorkerRun(i: nat) | WorkerLock(i: nat) | WorkerTest(i: nat)
    | WorkerReadDone(i: nat) | WorkerPark(i: nat) | WorkerWake(i: nat)
    | WorkerLeave(i: nat) | WorkerExit(i: nat)
    | StopBegin | StopSet | StopLock | StopNotify | StopUnlock | StopJoin | StopClear

  function Start(n: nat): Pool {
    Pool([], seq(n, i => Popping), map[], NotCalled, false, Free, [], [], {})
  }

  predicate AtPc(s: Pool, i: nat, pc: WorkerPc) {
    i < |s.workers| && s.workers[i] == pc
  }

  predicate PushAt(s: Pool, t: Task, pc: PushPc) {
    t in s.pushes && s.pushes[t] == pc
  }

  predicate SomeAsleep(ws: seq<WorkerPc>) {
    exists i :: 0 <= i < |ws| && ws[i] == Asleep
  }

  predicate Enabled(s: Pool, e: Event) {
    match e
    case Grow => s.stop == NotCalled
    case Enqueue(t) => t !in s.pushes
    case PushLock(t) => PushAt(s, t, Enqueued) && s.owner == Free
    case PushNotify(t, woken) =>
      && PushAt(s, t, Locked)
      && (match woken
          case None => !SomeAsleep(s.workers)
          case Some(i) => AtPc(s, i, Asleep))
    case PushUnlock(t) => PushAt(s, t, Notified)
    case WorkerPop(i) => AtPc(s, i, Popping)
    case WorkerRun(i) => i < |s.workers| && s.workers[i].Running?
    case WorkerLock(i) => (AtPc(s, i, Locking) || AtPc(s, i, Waking)) && s.owner == Free
    case WorkerTest(i) => AtPc(s, i, Testing)
    case WorkerReadDone(i) => AtPc(s, i, Empty)
    case WorkerPark(i) => AtPc(s, i, Parking)
    case WorkerWake(i) => AtPc(s, i, Asleep)
    case WorkerLeave(i) => i < |s.workers| && s.workers[i].Leaving?
    case WorkerExit(i) => AtPc(s, i, Exiting)
    case StopBegin => s.stop == NotCalled
    case StopSet => s.stop == Setting
    case StopLock => s.stop == Wanting && s.owner == Free
    case StopNotify => s.stop == Holding
    case StopUnlock => s.stop == Told
    case StopJoin =>
      s.stop.Joining? && (s.stop.next < |s.workers| ==> s.workers[s.stop.next] == Finished)
    case StopClear => s.stop == Clearing
  }

  function At(s: Pool, i: nat, pc: WorkerPc): Pool
    requires i < |s.workers|
  {
    s.(workers := s.workers[i := pc])
  }

  function WakeAll(ws: seq<WorkerPc>): (r: seq<WorkerPc>)
    ensures |r| == |ws| && forall i :: 0 <= i < |ws| ==> r[i] == if ws[i] == Asleep then Waking else ws[i]
  {
    seq(|ws|, i requires 0 <= i < |ws| => if ws[i] == Asleep then Waking else ws[i])
  }

  function Do(s: Pool, e: Event): Pool
    requires Enabled(s, e)
  {
    match e
    case Grow => s.(workers := s.workers + [Popping])
    case Enqueue(t) => s.(queue := s.queue + [t], pushes := s.pushes[t := Enqueued])
    case PushLock(t) => s.(owner := ByPush(t), pushes := s.pushes[t := Locked])
    case PushNotify(t, woken) =>
      var s' := if woken.Some? then At(s, woken.value, Waking) else s;
      s'.(pushes := s.pushes[t := Notified])
    case PushUnlock(t) => s.(owner := Free, pushes := s.pushes[t := Returned])
    case WorkerPop(i) =>
      if s.queue == [] then At(s, i, Locking)
      else At(s, i, Running(s.queue[0])).(queue := s.queue[1..])
    case WorkerRun(i) => At(s, i, Popping).(ran := s.ran + [s.workers[i].task])
    case WorkerLock(i) => At(s, i, Testing).(owner := ByWorker(i))
    case WorkerTest(i) =>
      if s.queue == [] then At(s, i, Empty)
      else At(s, i, Leaving(s.queue[0])).(queue := s.queue[1..])
    case WorkerReadDone(i) => At(s, i, if s.isDone then Exiting else Parking)
    case WorkerPark(i) => At(s, i, Asleep).(owner := Free)
    case WorkerWake(i) => At(s, i, Waking)
    case WorkerLeave(i) => At(s, i, Running(s.workers[i].task)).(owner := Free)
    case WorkerExit(i) => At(s, i, Finished).(owner := Free)
    case StopBegin => s.(stop := Setting, before := set t | t in s.pushes && s.pushes[t] == Returned)
    case StopSet => s.(stop := Wanting, isDone := true)
    case StopLock => s.(stop := Holding, owner := ByStop)
    case StopNotify => s.(stop := Told, workers := WakeAll(s.workers))
    case StopUnlock => s.(stop := Joining(0), owner := Free)
    case StopJoin =>
      s.(stop := if s.stop.next < |s.workers| then Joining(s.stop.next + 1) else Clearing)
    case StopClear =>
      if s.queue == [] then s.(stop := Stopped)
      else s.(queue := s.queue[1..], deleted := s.deleted + [s.queue[0]])
  }

  /** `states` is the run of the events `es` from a fresh pool of `n` workers. */
  ghost predicate IsRun(n: nat, es: seq<Event>, states: seq<Pool>) {
    && |states| == |es| + 1
    && states[0] == Start(n)
    && forall k :: 0 <= k < |es| ==> Enabled(states[k], es[k]) && states[k + 1] == Do(states[k], es[k])
  }

  // ---------------------------------------------------------------------------
  // Tasks in the hands of workers

  function Hand(pc: WorkerPc, t: Task): nat {
    if (pc.Running? || pc.Leaving?) && pc.task == t then 1 else 0
  }

  function HandOf(t: Task): WorkerPc -> nat {
    pc => Hand(pc, t)
  }

  /** How many workers hold `t`. */
  function Hands(ws: seq<WorkerPc>, t: Task): nat {
    Sum(ws, HandOf(t))
  }

  // ---------------------------------------------------------------------------
  // The invariant

  predicate Holds(pc: WorkerPc) {
    pc.Testing? || pc.Empty? || pc.Parking? || pc.Leaving? || pc.Exiting?
  }

  /** The mutex has at most one holder, and `owner` names it. */
  ghost predicate MutexOk(s: Pool) {
    && (forall i :: 0 <= i < |s.workers| ==> (Holds(s.workers[i]) <==> s.owner == ByWorker(i)))
    && (forall t :: t in s.pushes ==> (s.pushes[t] in {Locked, Notified} <==> s.owner == ByPush(t)))
    && (s.stop in {Holding, Told} <==> s.owner == ByStop)
    && (s.owner.ByWorker? ==> s.owner.i < |s.workers|)
    && (s.owner.ByPush? ==> s.owner.t in s.pushes)
  }

  /** Every task pushed is in the queue, in one worker's hands, run or deleted: once. */
  ghost predicate Conserved(s: Pool) {
    forall t: Task :: Places(s, t) == if t in s.pushes then 1 else 0
  }

  /** How often `t` occurs in the queue, in workers' hands, in `ran` and in `deleted`. */
  function Places(s: Pool, t: Task): nat {
    multiset(s.queue)[t] + Hands(s.workers, t) + multiset(s.ran)[t] + multiset(s.deleted)[t]
  }

  /** While a worker that saw the queue empty keeps the mutex, whatever is in the
      queue was put there by a push that still has to take the mutex. */
  ghost predicate EmptySeen(s: Pool) {
    forall i, t :: 0 <= i < |s.workers| && s.workers[i] in {Empty, Parking} && t in s.queue ==> PushAt(s, t, Enqueued)
  }

  ghost predicate FlagOk(s: Pool) {
    && (s.isDone <==> s.stop !in {NotCalled, Setting})
    && (s.deleted != [] ==> s.stop in {Clearing, Stopped})
  }

  ghost predicate BeforeOk(s: Pool) {
    && (forall t :: t in s.before ==> PushAt(s, t, Returned))
    && (s.stop == NotCalled ==> s.before == {})
  }

  ghost predicate ExitOk(s: Pool) {
    forall i :: 0 <= i < |s.workers| && s.workers[i] in {Exiting, Finished} ==> s.isDone
  }

  /** Joined workers are finished. */
  ghost predicate JoinOk(s: Pool) {
    && (s.stop.Joining? ==> s.stop.next <= |s.workers| && forall i :: 0 <= i < s.stop.next ==> s.workers[i] == Finished)
    && (s.stop in {Clearing, Stopped} ==> forall i :: 0 <= i < |s.workers| ==> s.workers[i] == Finished)
  }

  ghost predicate StopOk(s: Pool) {
    FlagOk(s) && BeforeOk(s) && ExitOk(s) && JoinOk(s)
  }

  /** Once some worker decided to exit, no task of `before` is queued; none is ever deleted. */
  ghost predicate Drained(s: Pool) {
    && (forall i, t :: 0 <= i < |s.workers| && s.workers[i] in {Exiting, Finished} && t in s.before ==> t !in s.queue)
    && (forall t :: t in s.deleted ==> t !in s.before)
  }

  predicate Awake(pc: WorkerPc) {
    !pc.Asleep? && !pc.Exiting? && !pc.Finished?
  }

  /** A queued task has an awake worker or a push that has yet to notify. */
  ghost predicate NoLostWakeup(s: Pool) {
    s.queue != [] && !s.isDone ==>
      || (exists i :: 0 <= i < |s.workers| && Awake(s.workers[i]))
      || (exists t :: t in s.pushes && s.pushes[t] in {Enqueued, Locked})
  }

  /** After stop's notify_all nobody sleeps or is about to. */
  ghost predicate NoSleeperAfterStop(s: Pool) {
    s.stop in {Told, Clearing, Stopped} || s.stop.Joining? ==>
      forall i :: 0 <= i < |s.workers| ==> s.workers[i] != Asleep && s.workers[i] != Parking
  }

  ghost predicate Inv(s: Pool) {
    && |s.workers| > 0
    && MutexOk(s) && Conserved(s) && EmptySeen(s) && StopOk(s) && Drained(s)
    && NoLostWakeup(s) && NoSleeperAfterStop(s)
  }

  lemma StartInv(n: nat)
    requires n > 0
    ensures Inv(Start(n))
  {
    forall t: Task ensures Hands(Start(n).workers, t) == 0 {
      SumZero(Start(n).workers, HandOf(t));
    }
  }

  lemma StepMutexWorkers(s: Pool, e: Event)
    requires MutexOk(s) && Enabled(s, e)
    ensures var s' := Do(s, e);
            forall i :: 0 <= i < |s'.workers| ==> (Holds(s'.workers[i]) <==> s'.owner == ByWorker(i))
  {
  }

  lemma StepMutexPushes(s: Pool, e: Event)
    requires MutexOk(s) && Enabled(s, e)
    ensures var s' := Do(s, e);
            forall t :: t in s'.pushes ==> (s'.pushes[t] in {Locked, Notified} <==> s'.owner == ByPush(t))
  {
  }

  lemma StepMutexStop(s: Pool, e: Event)
    requires MutexOk(s) && Enabled(s, e)
    ensures var s' := Do(s, e);
            && (s'.stop in {Holding, Told} <==> s'.owner == ByStop)
            && (s'.owner.ByWorker? ==> s'.owner.i < |s'.workers|)
            && (s'.owner.ByPush? ==> s'.owner.t in s'.pushes)
  {
  }

  lemma StepMutex(s: Pool, e: Event)
    requires MutexOk(s) && Enabled(s, e)
    ensures MutexOk(Do(s, e))
  {
    StepMutexWorkers(s, e);
    StepMutexPushes(s, e);
    StepMutexStop(s, e);
  }

  lemma PopCount(q: seq<Task>, t: Task)
    requires q != []
    ensures multiset(q)[t] == multiset(q[1..])[t] + if q[0] == t then 1 else 0
  {
    assert q == [q[0]] + q[1..];
  }

  predicate OfWorker(e: Event) {
    e.WorkerPop? || e.WorkerRun? || e.WorkerLock? || e.WorkerTest? || e.WorkerReadDone? ||
    e.WorkerPark? || e.WorkerWake? || e.WorkerLeave? || e.WorkerExit?
  }

  /** A worker that takes a task out of the queue. */
  lemma TakePlaces(s: Pool, e: Event, t: Task)
    requires Enabled(s, e) && (e.WorkerPop? || e.WorkerTest?) && s.queue != []
    ensures Places(Do(s, e), t) == Places(s, t)
  {
    SumUpdate(s.workers, e.i, Do(s, e).workers[e.i], HandOf(t));
    PopCount(s.queue, t);
  }

  lemma WorkerPlaces(s: Pool, e: Event, t: Task)
    requires Enabled(s, e) && OfWorker(e)
    ensures Places(Do(s, e), t) == Places(s, t)
  {
    if (e.WorkerPop? || e.WorkerTest?) && s.queue != [] {
      TakePlaces(s, e, t);
    } else if e.WorkerRun? {
      SumUpdate(s.workers, e.i, Popping, HandOf(t));
    } else {
      KeepPlaces(s, e, t);
    }
  }

  /** A worker that neither takes nor runs a task. */
  lemma KeepPlaces(s: Pool, e: Event, t: Task)
    requires Enabled(s, e) && OfWorker(e) && !e.WorkerRun? && ((e.WorkerPop? || e.WorkerTest?) ==> s.queue == [])
    ensures Places(Do(s, e), t) == Places(s, t)
  {
    var s' := Do(s, e);
    assert s' == s.(workers := s.workers[e.i := s'.workers[e.i]], owner := s'.owner);
    assert Hand(s'.workers[e.i], t) == Hand(s.workers[e.i], t);
    SumUpdate(s.workers, e.i, s'.workers[e.i], HandOf(t));
  }

  lemma StepPlaces(s: Pool, e: Event, t: Task)
    requires Enabled(s, e)
    ensures Places(Do(s, e), t) == Places(s, t) + if e == Enqueue(t) then 1 else 0
  {
    var s' := Do(s, e);
    match e
    case Grow => SumSnoc(s.workers, Popping, HandOf(t));
    case Enqueue(_) =>
    case PushNotify(_, woken) => if woken.Some? { SumUpdate(s.workers, woken.value, Waking, HandOf(t)); }
    case StopNotify =>
      SumBelow(s.workers, s'.workers, HandOf(t));
      SumBelow(s'.workers, s.workers, HandOf(t));
    case StopClear => if s.queue != [] { PopCount(s.queue, t); }
    case PushLock(_) | PushUnlock(_) | StopBegin | StopSet | StopLock | StopUnlock | StopJoin =>
    case _ => WorkerPlaces(s, e, t);
  }

  lemma StepConserved(s: Pool, e: Event)
    requires Conserved(s) && Enabled(s, e)
    ensures Conserved(Do(s, e))
  {
    forall t: Task ensures Places(Do(s, e), t) == if t in Do(s, e).pushes then 1 else 0 {
      StepPlaces(s, e, t);
    }
  }

  /** A worker that has seen the queue empty saw it before this step or in it. */
  lemma SeenBefore(s: Pool, e: Event, i: nat)
    requires Enabled(s, e) && i < |Do(s, e).workers| && Do(s, e).workers[i] in {Empty, Parking}
    ensures e == WorkerTest(i) || (i < |s.workers| && s.workers[i] in {Empty, Parking})
    ensures e == WorkerTest(i) ==> s.queue == []
  {
  }

  /** What is queued was queued before, or is pushed now; its push goes on only by
      taking the mutex. */
  lemma QueuedBefore(s: Pool, e: Event, t: Task)
    requires Enabled(s, e) && t in Do(s, e).queue
    ensures e == Enqueue(t) || t in s.queue
    ensures PushAt(s, t, Enqueued) && e != PushLock(t) ==> PushAt(Do(s, e), t, Enqueued)
  {
    if PushAt(s, t, Enqueued) && e != PushLock(t) {
      PushWaits(s, e, t);
    }
  }

  lemma PushWaits(s: Pool, e: Event, t: Task)
    requires Enabled(s, e) && PushAt(s, t, Enqueued) && e != PushLock(t)
    ensures PushAt(Do(s, e), t, Enqueued)
  {
  }

  lemma StepEmptySeen(s: Pool, e: Event)
    requires MutexOk(s) && EmptySeen(s) && Enabled(s, e)
    ensures EmptySeen(Do(s, e))
  {
    var s' := Do(s, e);
    forall i, t | 0 <= i < |s'.workers| && s'.workers[i] in {Empty, Parking} && t in s'.queue
      ensures PushAt(s', t, Enqueued)
    {
      SeenBefore(s, e, i);
      QueuedBefore(s, e, t);
    }
  }

  lemma ExitedBefore(s: Pool, e: Event, i: nat)
    requires Enabled(s, e) && i < |Do(s, e).workers| && Do(s, e).workers[i] in {Exiting, Finished}
    ensures e == WorkerReadDone(i) || (i < |s.workers| && s.workers[i] in {Exiting, Finished})
  {
  }

  lemma StepFlag(s: Pool, e: Event)
    requires FlagOk(s) && Enabled(s, e)
    ensures FlagOk(Do(s, e))
  {
  }

  lemma StepBefore(s: Pool, e: Event)
    requires BeforeOk(s) && Enabled(s, e)
    ensures BeforeOk(Do(s, e))
  {
  }

  lemma StepExit(s: Pool, e: Event)
    requires ExitOk(s) && Enabled(s, e)
    ensures ExitOk(Do(s, e))
  {
    var s' := Do(s, e);
    forall i | 0 <= i < |s'.workers| && s'.workers[i] in {Exiting, Finished} ensures s'.isDone {
      ExitedBefore(s, e, i);
    }
  }

  lemma StaysFinished(s: Pool, e: Event, i: nat)
    requires Enabled(s, e) && i < |s.workers| && s.workers[i] == Finished
    ensures |s.workers| <= |Do(s, e).workers| && Do(s, e).workers[i] == Finished
  {
  }

  lemma StepJoin(s: Pool, e: Event)
    requires JoinOk(s) && Enabled(s, e)
    ensures JoinOk(Do(s, e))
  {
    forall i | 0 <= i < |s.workers| && s.workers[i] == Finished
      ensures i < |Do(s, e).workers| && Do(s, e).workers[i] == Finished
    {
      StaysFinished(s, e, i);
    }
  }

  lemma StepStop(s: Pool, e: Event)
    requires StopOk(s) && Enabled(s, e)
    ensures StopOk(Do(s, e))
  {
    StepFlag(s, e);
    StepBefore(s, e);
    StepExit(s, e);
    StepJoin(s, e);
  }

  lemma StepDrained(s: Pool, e: Event)
    requires |s.workers| > 0 && EmptySeen(s) && StopOk(s) && Drained(s) && Enabled(s, e)
    ensures Drained(Do(s, e))
  {
    var s' := Do(s, e);
    forall i, t | 0 <= i < |s'.workers| && s'.workers[i] in {Exiting, Finished} && t in s'.before
      ensures t !in s'.queue
    {
      ExitedBefore(s, e, i);
      assert e != StopBegin ==> t in s.before && PushAt(s, t, Returned);
    }
    StepDeleted(s, e);
  }

  /** Only `stop` deletes tasks, behind the last worker. */
  lemma StepDeleted(s: Pool, e: Event)
    requires |s.workers| > 0 && StopOk(s) && Drained(s) && Enabled(s, e)
    ensures forall t :: t in Do(s, e).deleted ==> t !in Do(s, e).before
  {
    if e == StopClear && s.queue != [] {
      assert s.workers[0] == Finished;
      assert s.queue[0] in s.queue;
    }
  }

  lemma StepNoLostWakeup(s: Pool, e: Event)
    requires |s.workers| > 0 && EmptySeen(s) && StopOk(s) && NoLostWakeup(s) && Enabled(s, e)
    ensures NoLostWakeup(Do(s, e))
  {
    if i :| 0 <= i < |s.workers| && Awake(s.workers[i]) && e != WorkerPark(i) {
      AwakeStays(s, e, i);
    } else {
      NobodyAwake(s, e);
    }
  }

  lemma AwakeStays(s: Pool, e: Event, i: nat)
    requires StopOk(s) && Enabled(s, e) && i < |s.workers| && Awake(s.workers[i]) && e != WorkerPark(i)
    ensures NoLostWakeup(Do(s, e))
  {
    assert !Do(s, e).isDone ==> Awake(Do(s, e).workers[i]);
  }

  lemma NobodyAwake(s: Pool, e: Event)
    requires |s.workers| > 0 && EmptySeen(s) && StopOk(s) && NoLostWakeup(s) && Enabled(s, e)
    requires forall i :: 0 <= i < |s.workers| && Awake(s.workers[i]) ==> e == WorkerPark(i)
    ensures NoLostWakeup(Do(s, e))
  {
    var s' := Do(s, e);
    if s'.queue != [] && !s'.isDone {
      if e.WorkerPark? {
        assert s.queue[0] in s.queue;
        assert PushAt(s', s.queue[0], Enqueued);
      } else if e.Enqueue? {
        assert PushAt(s', e.t, Enqueued);
      } else if e.PushNotify? {
        assert s.workers[0] == Asleep && Awake(s'.workers[e.woken.value]);
      } else if e.WorkerWake? {
        assert Awake(s'.workers[e.i]);
      } else if e.Grow? {
        assert Awake(s'.workers[|s.workers|]);
      } else {
        assert s'.pushes.Keys == s.pushes.Keys;
      }
    }
  }

  lemma StepNoSleeper(s: Pool, e: Event)
    requires MutexOk(s) && StopOk(s) && NoSleeperAfterStop(s) && Enabled(s, e)
    ensures NoSleeperAfterStop(Do(s, e))
  {
  }

  lemma StepInv(s: Pool, e: Event)
    requires Inv(s) && Enabled(s, e)
    ensures Inv(Do(s, e))
  {
    StepMutex(s, e);
    StepConserved(s, e);
    StepEmptySeen(s, e);
    StepStop(s, e);
    StepDrained(s, e);
    StepNoLostWakeup(s, e);
    StepNoSleeper(s, e);
  }

  lemma {:induction false} RunInv(n: nat, es: seq<Event>, states: seq<Pool>, k: nat)
    requires n > 0 && IsRun(n, es, states) && k < |states|
    ensures Inv(states[k])
  {
    if k == 0 {
      StartInv(n);
    } else {
      RunInv(n, es, states, k - 1);
      StepInv(states[k - 1], es[k - 1]);
    }
  }

  // ---------------------------------------------------------------------------
  // What every run guarantees

  /** When `stop(true)` has returned, a task whose push had returned before the
      call began was run exactly once, and was not deleted. */
  lemma GracefulStopDrains(n: nat, es: seq<Event>, states: seq<Pool>, k: nat, t: Task)
    requires n > 0 && IsRun(n, es, states) && k < |states|
    requires states[k].stop == Stopped && t in states[k].before
    ensures multiset(states[k].ran)[t] == 1
    ensures t !in states[k].deleted && t !in states[k].queue
  {
    var s := states[k];
    RunInv(n, es, states, k);
    assert s.workers[0] == Finished;
    SumZero(s.workers, HandOf(t));
    assert Places(s, t) == 1;
  }

  /** `before` is what the previous lemma needs it to be: the pushes that had
      returned at the call of stop, kept unchanged ever after. */
  lemma {:induction false} BeforeIsSnapshot(n: nat, es: seq<Event>, states: seq<Pool>, j: nat, k: nat, t: Task)
    requires n > 0 && IsRun(n, es, states) && j < k < |states| && es[j] == StopBegin
    ensures t in states[k].before <==> PushAt(states[j], t, Returned)
    ensures states[k].stop != NotCalled
  {
    assert states[k - 1 + 1] == Do(states[k - 1], es[k - 1]) && Enabled(states[k - 1], es[k - 1]);
    if k > j + 1 {
      BeforeIsSnapshot(n, es, states, j, k - 1, t);
      BeforeStays(states[k - 1], es[k - 1]);
    } else {
      BeforeAtCall(states[j], t);
    }
  }

  lemma BeforeAtCall(s: Pool, t: Task)
    requires Enabled(s, StopBegin)
    ensures t in Do(s, StopBegin).before <==> PushAt(s, t, Returned)
    ensures Do(s, StopBegin).stop != NotCalled
  {
  }

  lemma BeforeStays(s: Pool, e: Event)
    requires Enabled(s, e) && s.stop != NotCalled
    ensures Do(s, e).before == s.before && Do(s, e).stop != NotCalled
  {
  }

  /** No task is ever run twice, in any run. */
  lemma AtMostOnce(n: nat, es: seq<Event>, states: seq<Pool>, k: nat, t: Task)
    requires n > 0 && IsRun(n, es, states) && k < |states|
    ensures multiset(states[k].ran)[t] + multiset(states[k].deleted)[t] <= 1
    ensures t in states[k].ran ==> t in states[k].pushes
  {
    var s := states[k];
    RunInv(n, es, states, k);
    assert Places(s, t) <= 1;
  }

  /** Before any stop, a non-empty queue never waits for sleepers alone. */
  lemma WakeupNeverLost(n: nat, es: seq<Event>, states: seq<Pool>, k: nat)
    requires n > 0 && IsRun(n, es, states) && k < |states|
    requires !states[k].isDone && states[k].queue != []
    ensures
      || (exists i :: 0 <= i < |states[k].workers| && Awake(states[k].workers[i]))
      || (exists t :: t in states[k].pushes && states[k].pushes[t] in {Enqueued, Locked})
  {
    RunInv(n, es, states, k);
  }

  /** Events that need no new call from outside and no spurious wake-up. */
  predicate Internal(e: Event) {
    !e.Grow? && !e.Enqueue? && !e.StopBegin? && !e.WorkerWake?
  }

  lemma HolderCanStep(s: Pool) returns (e: Event)
    requires Inv(s) && s.owner != Free
    ensures Internal(e) && Enabled(s, e)
  {
    match s.owner
    case ByWorker(i) =>
      match s.workers[i] {
        case Testing => e := WorkerTest(i);
        case Empty => e := WorkerReadDone(i);
        case Parking => e := WorkerPark(i);
        case Leaving(_) => e := WorkerLeave(i);
        case _ => e := WorkerExit(i);
      }
    case ByPush(t) =>
      if s.pushes[t] == Notified {
        e := PushUnlock(t);
      } else if i :| 0 <= i < |s.workers| && s.workers[i] == Asleep {
        e := PushNotify(t, Some(i));
      } else {
        e := PushNotify(t, None);
      }
    case ByStop => e := if s.stop == Holding then StopNotify else StopUnlock;
  }

  /** A stop in progress never deadlocks: until it returns, some thread that is
      already inside the pool has a step to take. */
  lemma StopNeverStuck(n: nat, es: seq<Event>, states: seq<Pool>, k: nat) returns (e: Event)
    requires n > 0 && IsRun(n, es, states) && k < |states|
    requires states[k].stop != NotCalled && states[k].stop != Stopped
    ensures Internal(e) && Enabled(states[k], e)
  {
    var s := states[k];
    RunInv(n, es, states, k);
    if s.owner != Free {
      e := HolderCanStep(s);
    } else {
      match s.stop
      case Setting => e := StopSet;
      case Wanting => e := StopLock;
      case Clearing => e := StopClear;
      case Joining(i) =>
        if i < |s.workers| && s.workers[i] != Finished {
          match s.workers[i] {
            case Popping => e := WorkerPop(i);
            case Running(_) => e := WorkerRun(i);
            case _ => e := WorkerLock(i);
          }
        } else {
          e := StopJoin;
        }
    }
  }
}
