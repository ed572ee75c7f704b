/**
 Handing accepted clients to worker threads (http/http_multithread_server.cc,
 http/http_thread.cc): round robin, one locked queue and one eventfd per thread.
 */
module HandOff {
  type Client = nat

  /** Where a thread stands in its wake-up handler. */
  datatype WakePc =
    | Idle         // in the reactor
    | Entered      // about to test the queue
    | Tested       // saw a client, about to read the eventfd
    | Draining     // popping clients until there is none

  datatype AcceptPc = Ready | Pushed | Woken

  /** `taken` are the clients the thread has made connections for, in order. */
  datatype Thread = Thread(queue: seq<Client>, counter: nat, pc: WakePc, taken: seq<Client>)

  /** `accepted` are all clients accepted so far, in order. */
  datatype Server = Server(threads: seq<Thread>, index: nat, pc: AcceptPc, accepted: seq<Client>)

  /** The largest value of an eventfd counter. */
  const MAX: nat := 0xffff_ffff_ffff_fffe

  /** The eight bytes of the wake-up message as a little-endian number. */
  const MESSAGE: nat := 0x3635_3433_3231_7830

  /** Writing to a non-blocking eventfd: it fails when the counter would overflow. */
  function WriteEvent(counter: nat): nat {
    if counter + MESSAGE <= MAX then counter + MESSAGE else counter
  }

  datatype Event =
    | Accept(c: Client) | Wakeup | Advance
    | Poke(i: nat)                       // wakeup_random
    | Enter(i: nat) | Test(i: nat) | Read(i: nat) | Take(i: nat)

  function Start(size: nat): Server {
    Server(seq(size, i => Thread([], 0, Idle, [])), 0, Ready, [])
  }

  predicate Enabled(s: Server, e: Event) {
    match e
    case Accept(_) => s.pc == Ready && s.index < |s.threads|
    case Wakeup => s.pc == Pushed && s.index < |s.threads|
    case Advance => s.pc == Woken && |s.threads| > 0
    case Poke(i) => i < |s.threads|
    case Enter(i) => i < |s.threads| && s.threads[i].pc == Idle && s.threads[i].counter > 0
    case Test(i) => i < |s.threads| && s.threads[i].pc == Entered
    case Read(i) => i < |s.threads| && s.threads[i].pc == Tested
    case Take(i) => i < |s.threads| && s.threads[i].pc == Draining
  }

  function With(s: Server, i: nat, t: Thread): Server
    requires i < |s.threads|
  {
    s.(threads := s.threads[i := t])
  }

  function Do(s: Server, e: Event): Server
    requires Enabled(s, e)
  {
    match e
    case Accept(c) =>
      var t := s.threads[s.index];
      With(s, s.index, t.(queue := t.queue + [c])).(pc := Pushed, accepted := s.accepted + [c])
    case Wakeup =>
      var t := s.threads[s.index];
      With(s, s.index, t.(counter := WriteEvent(t.counter))).(pc := Woken)
    case Advance => s.(index := (s.index + 1) % |s.threads|, pc := Ready)
    case Poke(i) => With(s, i, s.threads[i].(counter := WriteEvent(s.threads[i].counter)))
    case Enter(i) => With(s, i, s.threads[i].(pc := Entered))
    case Test(i) => With(s, i, s.threads[i].(pc := if s.threads[i].queue == [] then Idle else Tested))
    case Read(i) => With(s, i, s.threads[i].(counter := 0, pc := Draining))
    case Take(i) =>
      var t := s.threads[i];
      With(s, i, if t.queue == [] then t.(pc := Idle)
                 else t.(queue := t.queue[1..], taken := t.taken + [t.queue[0]]))
  }

  ghost predicate IsRun(size: nat, es: seq<Event>, states: seq<Server>) {
    && |states| == |es| + 1 && states[0] == Start(size)
    && forall k :: 0 <= k < |es| ==> Enabled(states[k], es[k]) && states[k + 1] == Do(states[k], es[k])
  }

  // ---------------------------------------------------------------------------
  // Round robin

  /** Every n-th client, beginning with the i-th. */
  function Share(clients: seq<Client>, i: nat, n: nat): seq<Client>
    requires n > 0
  {
    if clients == [] then []
    else
      var k := |clients| - 1;
      Share(clients[..k], i, n) + if k % n == i then [clients[k]] else []
  }

  lemma ShareSnoc(clients: seq<Client>, c: Client, i: nat, n: nat)
    requires n > 0
    ensures Share(clients + [c], i, n) == Share(clients, i, n) + if |clients| % n == i then [c] else []
  {
    assert (clients + [c])[..|clients|] == clients;
  }

  lemma NextIndex(k: nat, n: nat)
    requires n > 0
    ensures (k % n + 1) % n == (k + 1) % n
    ensures (k + 1) % n == if k % n + 1 == n then 0 else k % n + 1
    ensures (k + 1) / n == if k % n + 1 == n then k / n + 1 else k / n
  {
    var q, r := k / n, k % n;
    if r + 1 == n {
      OneMore(q, n);
      DivUnique(k + 1, q + 1, 0, n);
      DivUnique(n, 1, 0, n);
    } else {
      DivUnique(k + 1, q, r + 1, n);
      DivUnique(r + 1, 0, r + 1, n);
    }
  }

  lemma OneMore(q: nat, n: nat)
    ensures (q + 1) * n == q * n + n
  {
  }

  lemma Times(a: int, b: int, n: nat)
    requires a < b
    ensures b * n - a * n >= n
  {
    assert b * n - a * n == (b - a) * n;
    assert (b - a) * n == n + (b - a - 1) * n;
  }

  lemma DivUnique(k: nat, q: nat, r: nat, n: nat)
    requires n > 0 && k == q * n + r && r < n
    ensures k / n == q && k % n == r
  {
    if k / n < q {
      Times(k / n, q, n);
    } else if k / n > q {
      Times(q, k / n, n);
    }
  }

  lemma {:induction false} ShareSize(clients: seq<Client>, i: nat, n: nat)
    requires i < n
    ensures |Share(clients, i, n)| == |clients| / n + if i < |clients| % n then 1 else 0
  {
    if clients == [] {
      DivUnique(0, 0, 0, n);
    } else {
      var k := |clients| - 1;
      ShareSize(clients[..k], i, n);
      NextIndex(k, n);
    }
  }

  // ---------------------------------------------------------------------------
  // Invariant

  /** A waiting client has a signal on the way: the eventfd is readable, the
      acceptor is about to write it, or the thread is still popping. */
  ghost predicate Signalled(s: Server) {
    forall i :: 0 <= i < |s.threads| && s.threads[i].queue != [] ==>
      || s.threads[i].counter > 0
      || (s.pc == Pushed && s.index == i)
      || s.threads[i].pc == Draining
  }

  /** Each thread has taken its share in order, except for what is in its queue. */
  ghost predicate Routed(s: Server) {
    && |s.threads| > 0
    && (forall i :: 0 <= i < |s.threads| ==>
          Share(s.accepted, i, |s.threads|) == s.threads[i].taken + s.threads[i].queue)
    && (if s.pc == Ready then s.index == |s.accepted| % |s.threads|
        else |s.accepted| > 0 && s.index == (|s.accepted| - 1) % |s.threads|)
  }

  lemma StepSignalled(s: Server, e: Event)
    requires Signalled(s) && Enabled(s, e)
    ensures Signalled(Do(s, e))
  {
  }

  lemma StepRouted(s: Server, e: Event)
    requires Routed(s) && Enabled(s, e)
    ensures Routed(Do(s, e))
  {
    var t, n := Do(s, e), |s.threads|;
    assert |t.threads| == n;
    match e
    case Accept(c) =>
      forall i | 0 <= i < n ensures Share(t.accepted, i, n) == t.threads[i].taken + t.threads[i].queue {
        ShareSnoc(s.accepted, c, i, n);
      }
    case Advance => NextIndex(|s.accepted| - 1, n);
    case Take(i) =>
      var q := s.threads[i].queue;
      if q != [] {
        assert q == [q[0]] + q[1..];
      }
    case _ =>
  }

  lemma {:induction false} StartShare(size: nat)
    requires size > 0
    ensures Signalled(Start(size)) && Routed(Start(size))
  {
    DivUnique(0, 0, 0, size);
  }

  lemma {:induction false} RunInv(size: nat, es: seq<Event>, states: seq<Server>, k: nat)
    requires size > 0 && IsRun(size, es, states) && k < |states|
    ensures Signalled(states[k]) && Routed(states[k]) && |states[k].threads| == size
  {
    if k == 0 {
      StartShare(size);
    } else {
      RunInv(size, es, states, k - 1);
      StepSignalled(states[k - 1], es[k - 1]);
      StepRouted(states[k - 1], es[k - 1]);
    }
  }

  /** In every run the k-th client belongs to thread k mod size; a thread has taken
      its own clients in order, once each, up to those in its queue. */
  lemma RoundRobin(size: nat, es: seq<Event>, states: seq<Server>, k: nat, i: nat)
    requires size > 0 && IsRun(size, es, states) && k < |states| && i < size
    ensures |states[k].threads| == size
    ensures states[k].threads[i].taken + states[k].threads[i].queue == Share(states[k].accepted, i, size)
  {
    RunInv(size, es, states, k);
  }

  /** The threads' shares differ by at most one client. */
  lemma Balanced(size: nat, es: seq<Event>, states: seq<Server>, k: nat, i: nat, j: nat)
    requires size > 0 && IsRun(size, es, states) && k < |states| && i < size && j < size
    ensures |states[k].threads| == size
    ensures var a, b := states[k].threads[i], states[k].threads[j];
            |a.taken| + |a.queue| <= |b.taken| + |b.queue| + 1
  {
    RunInv(size, es, states, k);
    ShareSize(states[k].accepted, i, size);
    ShareSize(states[k].accepted, j, size);
  }

  /** No client is stranded: in every run, when the acceptor is not between its
      push and its wake-up and the thread is back in the reactor, a waiting client
      means that the eventfd will call the handler again. */
  lemma NoStrandedClient(size: nat, es: seq<Event>, states: seq<Server>, k: nat, i: nat)
    requires size > 0 && IsRun(size, es, states) && k < |states| && i < size
    requires |states[k].threads| == size && states[k].threads[i].queue != []
    ensures || states[k].threads[i].counter > 0
            || (states[k].pc == Pushed && states[k].index == i)
            || states[k].threads[i].pc == Draining
    ensures states[k].threads[i].pc == Idle && states[k].pc != Pushed ==> Enabled(states[k], Enter(i))
  {
    RunInv(size, es, states, k);
  }
}
