/**
 How long `stop(true)` can take (core/thread.hh): once `isDone` is set, every step
 of every thread uses up some of a finite amount of work, unless a new push begins.
 */
module PoolProgress {
  import opened Common
  import opened ThreadPool

  /** The steps a worker has left if it finds no task. */
  function Rank(pc: WorkerPc): nat {
    match pc
    case Finished => 0
    case Exiting => 1
    case Empty => 2
    case Testing => 3
    case Locking => 4
    case Waking => 4
    case Popping => 5
    case Asleep => 5
    case Running(_) => 6
    case Parking => 6
    case Leaving(_) => 7
  }

  function Ranks(ws: seq<WorkerPc>): nat {
    Sum(ws, Rank)
  }

  /** The pushes at one point of their code. */
  function PushesAt(s: Pool, pc: PushPc): set<Task> {
    set t | t in s.pushes && s.pushes[t] == pc
  }

  function PushWork(s: Pool): nat {
    3 * |PushesAt(s, Enqueued)| + 2 * |PushesAt(s, Locked)| + |PushesAt(s, Notified)|
  }

  function StopWork(s: Pool): int {
    match s.stop
    case NotCalled => |s.workers| + 7
    case Setting => |s.workers| + 6
    case Wanting => |s.workers| + 5
    case Holding => |s.workers| + 4
    case Told => |s.workers| + 3
    case Joining(next) => |s.workers| - next + 2
    case Clearing => 1
    case Stopped => 0
  }

  /** A queued task costs a worker five steps more. */
  function Work(s: Pool): int {
    5 * |s.queue| + Ranks(s.workers) + PushWork(s) + StopWork(s)
  }

  /** A push moves on from `from` to `to`. */
  lemma PushMoves(s: Pool, s': Pool, t: Task, from: PushPc, to: PushPc)
    requires PushAt(s, t, from) && from != to && s'.pushes == s.pushes[t := to]
    ensures |PushesAt(s', from)| == |PushesAt(s, from)| - 1
    ensures |PushesAt(s', to)| == |PushesAt(s, to)| + 1
    ensures forall pc :: pc != from && pc != to ==> PushesAt(s', pc) == PushesAt(s, pc)
  {
    assert PushesAt(s', from) == PushesAt(s, from) - {t};
    assert PushesAt(s', to) == PushesAt(s, to) + {t};
    assert t !in PushesAt(s, to);
  }

  predicate OfPush(e: Event) {
    e.PushLock? || e.PushNotify? || e.PushUnlock?
  }

  lemma WorkerUsesWork(s: Pool, e: Event)
    requires Enabled(s, e) && OfWorker(e) && s.isDone
    ensures Work(Do(s, e)) < Work(s)
  {
    var s' := Do(s, e);
    WorkerRank(s, e);
    SumUpdate(s.workers, e.i, s'.workers[e.i], Rank);
    assert PushWork(s') == PushWork(s);
  }

  /** A step of a worker lowers its rank, or takes a task. */
  lemma WorkerRank(s: Pool, e: Event)
    requires Enabled(s, e) && OfWorker(e) && s.isDone
    ensures var s' := Do(s, e);
            && s'.workers == s.workers[e.i := s'.workers[e.i]] && s'.pushes == s.pushes && s'.stop == s.stop
            && 5 * |s'.queue| + Rank(s'.workers[e.i]) < 5 * |s.queue| + Rank(s.workers[e.i])
  {
  }

  lemma PushUsesWork(s: Pool, e: Event)
    requires Enabled(s, e) && OfPush(e)
    ensures Work(Do(s, e)) < Work(s)
  {
    var s' := Do(s, e);
    match e
    case PushLock(t) => PushMoves(s, s', t, Enqueued, Locked);
    case PushNotify(t, woken) =>
      PushMoves(s, s', t, Locked, Notified);
      if woken.Some? {
        SumUpdate(s.workers, woken.value, Waking, Rank);
      }
    case PushUnlock(t) => PushMoves(s, s', t, Notified, Returned);
  }

  predicate OfStop(e: Event) {
    e.StopSet? || e.StopLock? || e.StopNotify? || e.StopUnlock? || e.StopJoin? || e.StopClear?
  }

  lemma StopUsesWork(s: Pool, e: Event)
    requires Enabled(s, e) && JoinOk(s) && OfStop(e)
    ensures Work(Do(s, e)) < Work(s)
  {
    var s' := Do(s, e);
    assert PushWork(s') == PushWork(s);
    if e.StopNotify? {
      SumBelow(s.workers, s'.workers, Rank);
    }
  }

  lemma StepUsesWork(s: Pool, e: Event)
    requires Enabled(s, e) && StopOk(s) && s.isDone && !e.Enqueue?
    ensures Work(Do(s, e)) < Work(s)
  {
    if OfWorker(e) {
      WorkerUsesWork(s, e);
    } else if OfPush(e) {
      PushUsesWork(s, e);
    } else {
      StopUsesWork(s, e);
    }
  }

  lemma WorkIsPositive(s: Pool)
    requires JoinOk(s)
    ensures Work(s) >= 0
  {
  }

  lemma {:induction false} DoneStays(n: nat, es: seq<Event>, states: seq<Pool>, j: nat, k: nat)
    requires n > 0 && IsRun(n, es, states) && j <= k < |states| && states[j].isDone
    ensures states[k].isDone
  {
    if j < k {
      DoneStays(n, es, states, j, k - 1);
      assert states[k - 1 + 1] == Do(states[k - 1], es[k - 1]);
    }
  }

  lemma WorkStep(n: nat, es: seq<Event>, states: seq<Pool>, k: nat)
    requires n > 0 && IsRun(n, es, states) && k < |es| && states[k].isDone && !es[k].Enqueue?
    ensures Work(states[k + 1]) < Work(states[k])
  {
    RunInv(n, es, states, k);
    StepUsesWork(states[k], es[k]);
  }

  lemma {:induction false} WorkUsed(n: nat, es: seq<Event>, states: seq<Pool>, j: nat, k: nat)
    requires n > 0 && IsRun(n, es, states) && j <= k < |states| && states[j].isDone
    requires forall i :: j <= i < k ==> !es[i].Enqueue?
    ensures k - j <= Work(states[j]) - Work(states[k])
  {
    if j < k {
      WorkUsed(n, es, states, j, k - 1);
      DoneStays(n, es, states, j, k - 1);
      WorkStep(n, es, states, k - 1);
    }
  }

  /** Once `isDone` is set and no further push begins, whatever the interleaving and
      however often workers wake for nothing, at most `Work` steps follow; and where
      no thread of the pool can take another one, the call of stop has returned. */
  lemma StopReturnsWithin(n: nat, es: seq<Event>, states: seq<Pool>, j: nat, k: nat)
    requires n > 0 && IsRun(n, es, states) && j <= k < |states| && states[j].isDone
    requires forall i :: j <= i < k ==> !es[i].Enqueue?
    ensures k - j <= Work(states[j])
    ensures (forall e :: Internal(e) ==> !Enabled(states[k], e)) ==> states[k].stop == Stopped
  {
    WorkUsed(n, es, states, j, k);
    RunInv(n, es, states, k);
    WorkIsPositive(states[k]);
    DoneStays(n, es, states, j, k);
    if states[k].stop != Stopped {
      var e := StopNeverStuck(n, es, states, k);
    }
  }
}
