/**
 The timer set of core/time.hh: timers ordered by deadline, ids, and the loop
 that fires what is due.
 */
module Timers {
  datatype TimeVal = TimeVal(sec: int, usec: int)

  /** `timercmp(a, b, <)` */
  predicate Less(a: TimeVal, b: TimeVal) {
    if a.sec == b.sec then a.usec < b.usec else a.sec < b.sec
  }

  /** `timeradd` carries at most one second. */
  function Plus(a: TimeVal, b: TimeVal): TimeVal {
    var usec := a.usec + b.usec;
    if usec >= 1000000 then TimeVal(a.sec + b.sec + 1, usec - 1000000) else TimeVal(a.sec + b.sec, usec)
  }

  predicate Normal(t: TimeVal) {
    t.sec >= 0 && 0 <= t.usec < 1000000
  }

  /** An interval is positive when it moves a deadline past `now`; for normalised
      times that is any interval but zero. */
  predicate Positive(now: TimeVal, tv: TimeVal) {
    Less(now, Plus(now, tv))
  }

  lemma PositiveExactly(now: TimeVal, tv: TimeVal)
    requires Normal(now) && Normal(tv)
    ensures Positive(now, tv) <==> tv != TimeVal(0, 0)
  {
  }

  /** `ptr` is the object's address; its field `id` is never assigned by the
      source, so it may hold anything. */
  datatype Timer = Timer(ptr: nat, id: int, tv: TimeVal, timeout: TimeVal, persistent: bool)

  predicate Due(t: Timer, now: TimeVal) {
    !Less(now, t.timeout)
  }

  /** A `std::set` ordered by deadline: strictly increasing. */
  ghost predicate Sorted(ts: seq<Timer>) {
    forall i, j :: 0 <= i < j < |ts| ==> Less(ts[i].timeout, ts[j].timeout)
  }

  /** `insert` into the set: a timer whose deadline is taken is dropped. */
  function Insert(ts: seq<Timer>, t: Timer): seq<Timer> {
    if ts == [] || Less(t.timeout, ts[0].timeout) then [t] + ts
    else if t.timeout == ts[0].timeout then ts
    else [ts[0]] + Insert(ts[1..], t)
  }

  predicate Taken(ts: seq<Timer>, deadline: TimeVal) {
    exists i :: 0 <= i < |ts| && ts[i].timeout == deadline
  }

  lemma {:induction false} InsertMembers(ts: seq<Timer>, t: Timer, x: Timer)
    requires Sorted(ts)
    ensures x in Insert(ts, t) <==> x in ts || (x == t && !Taken(ts, t.timeout))
  {
    if ts != [] && !Less(t.timeout, ts[0].timeout) && t.timeout != ts[0].timeout {
      assert ts == [ts[0]] + ts[1..];
      InsertMembers(ts[1..], t, x);
      assert Taken(ts, t.timeout) <==> Taken(ts[1..], t.timeout) by {
        if i :| 0 <= i < |ts| && ts[i].timeout == t.timeout {
          assert ts[1..][i - 1].timeout == t.timeout;
        }
        if i :| 0 <= i < |ts[1..]| && ts[1..][i].timeout == t.timeout {
          assert ts[i + 1].timeout == t.timeout;
        }
      }
    } else if ts != [] && t.timeout == ts[0].timeout {
      assert Taken(ts, t.timeout);
    } else {
      forall i | 0 <= i < |ts| ensures ts[i].timeout != t.timeout {
        assert i > 0 ==> Less(ts[0].timeout, ts[i].timeout);
      }
    }
  }

  lemma {:induction false} InsertSorted(ts: seq<Timer>, t: Timer)
    requires Sorted(ts)
    ensures Sorted(Insert(ts, t))
  {
    if ts == [] || Less(t.timeout, ts[0].timeout) {
      var r := Insert(ts, t);
      forall i, j | 0 <= i < j < |r| ensures Less(r[i].timeout, r[j].timeout) {
        assert j > 1 ==> Less(ts[0].timeout, ts[j - 1].timeout);
      }
    } else if t.timeout != ts[0].timeout {
      var more := Insert(ts[1..], t);
      InsertSorted(ts[1..], t);
      forall j | 0 <= j < |more| ensures Less(ts[0].timeout, more[j].timeout) {
        InsertMembers(ts[1..], t, more[j]);
        assert more[j] in more;
        if more[j] in ts[1..] {
          var k :| 0 <= k < |ts[1..]| && ts[1..][k] == more[j];
          assert Less(ts[0].timeout, ts[k + 1].timeout);
        }
      }
    }
  }

  /** Timers are objects of their own. */
  ghost predicate Apart(ts: seq<Timer>) {
    forall i, j :: 0 <= i < j < |ts| ==> ts[i].ptr != ts[j].ptr
  }

  lemma InsertApart(ts: seq<Timer>, t: Timer)
    requires Sorted(ts) && Apart(ts) && forall i :: 0 <= i < |ts| ==> ts[i].ptr != t.ptr
    ensures Apart(Insert(ts, t))
  {
    var us := Insert(ts, t);
    InsertSorted(ts, t);
    forall i, j | 0 <= i < j < |us| ensures us[i].ptr != us[j].ptr {
      InsertMembers(ts, t, us[i]);
      InsertMembers(ts, t, us[j]);
      assert us[i] in us && us[j] in us && Less(us[i].timeout, us[j].timeout);
    }
  }

  /** Inserting behind timers that are all earlier. */
  lemma {:induction false} InsertBehind(front: seq<Timer>, ts: seq<Timer>, t: Timer)
    requires forall i :: 0 <= i < |front| ==> Less(front[i].timeout, t.timeout)
    ensures Insert(front + ts, t) == front + Insert(ts, t)
  {
    if front == [] {
      assert front + ts == ts && front + Insert(ts, t) == Insert(ts, t);
    } else {
      assert (front + ts)[1..] == front[1..] + ts;
      InsertBehind(front[1..], ts, t);
      assert front + Insert(ts, t) == [front[0]] + (front[1..] + Insert(ts, t));
    }
  }

  // ---------------------------------------------------------------------------
  // What `process` should do

  /** How many timers are due: they come first. */
  function DueCount(ts: seq<Timer>, now: TimeVal): (n: nat)
    ensures n <= |ts|
    ensures forall i :: 0 <= i < n ==> Due(ts[i], now)
    ensures n < |ts| ==> !Due(ts[n], now)
  {
    if ts != [] && Due(ts[0], now) then 1 + DueCount(ts[1..], now) else 0
  }

  function Renewed(t: Timer, now: TimeVal): Timer {
    t.(timeout := Plus(now, t.tv))
  }

  /** The later timers, joined by the persistent ones among `fired`. */
  function Rearmed(later: seq<Timer>, fired: seq<Timer>, now: TimeVal): seq<Timer> {
    if fired == [] then later
    else
      var ts := Rearmed(later, fired[..|fired| - 1], now);
      var t := fired[|fired| - 1];
      if t.persistent then Insert(ts, Renewed(t, now)) else ts
  }

  /** The ids forgotten: whatever the one-shot timers hold in `id`. */
  function Forgotten(ids: map<int, nat>, fired: seq<Timer>): map<int, nat> {
    if fired == [] then ids
    else
      var m := Forgotten(ids, fired[..|fired| - 1]);
      var t := fired[|fired| - 1];
      if t.persistent then m else m - {t.id}
  }

  ghost predicate AllPositive(ts: seq<Timer>, now: TimeVal) {
    forall i :: 0 <= i < |ts| && ts[i].persistent ==> Positive(now, ts[i].tv)
  }

  lemma {:induction false} ForgottenKeys(ids: map<int, nat>, fired: seq<Timer>)
    ensures Forgotten(ids, fired).Keys <= ids.Keys
  {
    if fired != [] {
      ForgottenKeys(ids, fired[..|fired| - 1]);
    }
  }

  // ---------------------------------------------------------------------------
  // Which persistent timers stay armed

  /** The new deadline of `fired[i]` is that of a later timer, or of a persistent one
      that fires before it. */
  ghost predicate Collides(later: seq<Timer>, fired: seq<Timer>, i: nat, now: TimeVal)
    requires i < |fired|
  {
    var d := Plus(now, fired[i].tv);
    Taken(later, d) || exists j :: 0 <= j < i && fired[j].persistent && Plus(now, fired[j].tv) == d
  }

  lemma {:induction false} RearmedSorted(later: seq<Timer>, fired: seq<Timer>, now: TimeVal)
    requires Sorted(later)
    ensures Sorted(Rearmed(later, fired, now))
  {
    if fired != [] {
      var m := |fired| - 1;
      RearmedSorted(later, fired[..m], now);
      if fired[m].persistent {
        InsertSorted(Rearmed(later, fired[..m], now), Renewed(fired[m], now));
      }
    }
  }

  /** Only later deadlines remain. */
  lemma {:induction false} RearmedLater(later: seq<Timer>, fired: seq<Timer>, now: TimeVal)
    requires Sorted(later) && (forall i :: 0 <= i < |later| ==> !Due(later[i], now)) && AllPositive(fired, now)
    ensures forall i :: 0 <= i < |Rearmed(later, fired, now)| ==> !Due(Rearmed(later, fired, now)[i], now)
  {
    if fired != [] {
      var ts, t := Rearmed(later, fired[..|fired| - 1], now), fired[|fired| - 1];
      RearmedLater(later, fired[..|fired| - 1], now);
      RearmedSorted(later, fired[..|fired| - 1], now);
      if t.persistent {
        var u := Renewed(t, now);
        forall i | 0 <= i < |Insert(ts, u)| ensures !Due(Insert(ts, u)[i], now) {
          InsertMembers(ts, u, Insert(ts, u)[i]);
          assert Insert(ts, u)[i] in Insert(ts, u);
        }
      }
    }
  }

  lemma TakenInsert(ts: seq<Timer>, t: Timer, d: TimeVal)
    requires Sorted(ts)
    ensures Taken(Insert(ts, t), d) <==> Taken(ts, d) || d == t.timeout
  {
    var us := Insert(ts, t);
    if i :| 0 <= i < |us| && us[i].timeout == d {
      InsertMembers(ts, t, us[i]);
      assert us[i] in us;
    }
    if i :| 0 <= i < |ts| && ts[i].timeout == d {
      InsertMembers(ts, t, ts[i]);
      assert ts[i] in us;
    }
    InsertMembers(ts, t, t);
  }

  /** The deadlines in use when the i-th fired timer comes back. */
  lemma {:induction false} RearmedTaken(later: seq<Timer>, fired: seq<Timer>, now: TimeVal, i: nat, d: TimeVal)
    requires Sorted(later) && i <= |fired|
    ensures Taken(Rearmed(later, fired[..i], now), d) <==>
            Taken(later, d) || exists j :: 0 <= j < i && fired[j].persistent && Plus(now, fired[j].tv) == d
  {
    if i > 0 {
      RearmedTaken(later, fired, now, i - 1, d);
      assert fired[..i] == fired[..i - 1] + [fired[i - 1]];
      RearmedSnoc(later, fired[..i - 1], fired[i - 1], now);
      RearmedSorted(later, fired[..i - 1], now);
      TakenInsert(Rearmed(later, fired[..i - 1], now), Renewed(fired[i - 1], now), d);
    }
  }

  /** The whole set after the loop: the later timers, and those fired persistent ones
      whose new deadline was free. */
  lemma {:induction false} RearmedMembers(later: seq<Timer>, fired: seq<Timer>, now: TimeVal, n: nat, x: Timer)
    requires Sorted(later) && n <= |fired|
    ensures x in Rearmed(later, fired[..n], now) <==>
            x in later ||
            exists i :: 0 <= i < n && fired[i].persistent &&
                        x == Renewed(fired[i], now) && !Collides(later, fired, i, now)
  {
    if n > 0 {
      var m := n - 1;
      RearmedMembers(later, fired, now, m, x);
      assert fired[..n] == fired[..m] + [fired[m]];
      RearmedSnoc(later, fired[..m], fired[m], now);
      if fired[m].persistent {
        RearmedSorted(later, fired[..m], now);
        InsertMembers(Rearmed(later, fired[..m], now), Renewed(fired[m], now), x);
        RearmedTaken(later, fired, now, m, Plus(now, fired[m].tv));
      }
    }
  }

  /** A persistent timer that fires stays armed exactly when its new deadline is that
      of no later timer and of no persistent timer that fires before it. */
  lemma StaysArmedExactly(later: seq<Timer>, fired: seq<Timer>, now: TimeVal, i: nat)
    requires Sorted(later) && Apart(fired + later) && i < |fired| && fired[i].persistent
    ensures Renewed(fired[i], now) in Rearmed(later, fired, now) <==> !Collides(later, fired, i, now)
  {
    var x, all := Renewed(fired[i], now), fired + later;
    RearmedMembers(later, fired, now, |fired|, x);
    assert fired[..|fired|] == fired;
    forall k | 0 <= k < |later| ensures later[k].ptr != x.ptr {
      assert all[i] == fired[i] && all[|fired| + k] == later[k];
    }
    forall j | 0 <= j < |fired| && x == Renewed(fired[j], now) ensures j == i {
      assert all[i].ptr == all[j].ptr;
    }
  }

  /** Two persistent timers of one interval that fire in one call: the second is lost,
      and its id stays in the map. */
  lemma SecondIsLost(ids: map<int, nat>)
    ensures var a := Timer(1, 7, TimeVal(1, 0), TimeVal(5, 0), true);
            var b := Timer(2, 8, TimeVal(1, 0), TimeVal(6, 0), true);
            var now := TimeVal(10, 0);
            && Sorted([a, b]) && AllPositive([a, b], now) && DueCount([a, b], now) == 2
            && Rearmed([], [a, b], now) == [Renewed(a, now)] && Forgotten(ids, [a, b]) == ids
  {
    var a := Timer(1, 7, TimeVal(1, 0), TimeVal(5, 0), true);
    var b := Timer(2, 8, TimeVal(1, 0), TimeVal(6, 0), true);
    var now := TimeVal(10, 0);
    assert [a, b][1..] == [b] && [b][1..] == [];
    assert [a, b] == [a] + [b] && [a] == [] + [a];
    RearmedSnoc([], [], a, now);
    RearmedSnoc([], [a], b, now);
    ForgottenSnoc(ids, [], a);
    ForgottenSnoc(ids, [a], b);
  }

  // ---------------------------------------------------------------------------
  // The pass of `process` over the set, whatever the intervals

  /** A timer that is re-armed where it stands. */
  predicate Settled(t: Timer, now: TimeVal) {
    t.persistent && t.timeout == Plus(now, t.tv)
  }

  function Unsettled(ts: seq<Timer>, now: TimeVal): nat {
    if ts == [] then 0 else (if Settled(ts[0], now) then 0 else 1) + Unsettled(ts[1..], now)
  }

  /** The set on both sides of the iterator, which stands on `ahead[0]` or at the end. */
  datatype Split = Split(behind: seq<Timer>, ahead: seq<Timer>)

  /** An insertion leaves the iterator on its timer. */
  function Placed(behind: seq<Timer>, ahead: seq<Timer>, u: Timer): Split {
    if ahead != [] && !Less(u.timeout, ahead[0].timeout) then Split(behind, Insert(ahead, u))
    else Split(Insert(behind, u), ahead)
  }

  /** One turn of the loop. */
  function Turn(behind: seq<Timer>, ahead: seq<Timer>, now: TimeVal): Split
    requires ahead != []
  {
    if ahead[0].persistent then Placed(behind, ahead[1..], Renewed(ahead[0], now)) else Split(behind, ahead[1..])
  }

  /** The timers fired, in order, and the set that is left. */
  datatype Pass = Pass(fired: seq<Timer>, timers: seq<Timer>)

  /** The loop: a timer that is re-armed ahead of the iterator is met again, but then it
      is re-armed behind it. */
  function PassOver(behind: seq<Timer>, ahead: seq<Timer>, now: TimeVal): Pass
    requires Sorted(behind + ahead)
    decreases Unsettled(ahead, now), |ahead|
  {
    if ahead == [] || !Due(ahead[0], now) then Pass([], behind + ahead)
    else
      var next := Turn(behind, ahead, now);
      TurnKeeps(behind, ahead, now);
      var p := PassOver(next.behind, next.ahead, now);
      Pass([ahead[0]] + p.fired, p.timers)
  }

  lemma SortedParts(a: seq<Timer>, b: seq<Timer>)
    requires Sorted(a + b)
    ensures Sorted(a) && Sorted(b)
    ensures forall i, j :: 0 <= i < |a| && 0 <= j < |b| ==> Less(a[i].timeout, b[j].timeout)
  {
    var c := a + b;
    forall i, j | 0 <= i < j < |b| ensures Less(b[i].timeout, b[j].timeout) {
      assert c[|a| + i] == b[i] && c[|a| + j] == b[j];
    }
    forall i, j | 0 <= i < |a| && 0 <= j < |b| ensures Less(a[i].timeout, b[j].timeout) {
      assert c[i] == a[i] && c[|a| + j] == b[j];
    }
    forall i, j | 0 <= i < j < |a| ensures Less(a[i].timeout, a[j].timeout) {
      assert c[i] == a[i] && c[j] == a[j];
    }
  }

  lemma {:induction false} InsertBefore(front: seq<Timer>, ts: seq<Timer>, t: Timer)
    requires ts == [] || Less(t.timeout, ts[0].timeout)
    ensures Insert(front + ts, t) == Insert(front, t) + ts
    decreases |front|
  {
    if front == [] {
      assert front + ts == ts && [t] + front == [t];
    } else {
      assert (front + ts)[1..] == front[1..] + ts && (front + ts)[0] == front[0];
      InsertBefore(front[1..], ts, t);
      assert [t] + (front + ts) == [t] + front + ts;
      assert [front[0]] + (Insert(front[1..], t) + ts) == [front[0]] + Insert(front[1..], t) + ts;
    }
  }

  /** On both sides together it is an insertion into the set. */
  lemma PlacedIsInsert(behind: seq<Timer>, ahead: seq<Timer>, u: Timer)
    requires Sorted(behind + ahead)
    ensures var s := Placed(behind, ahead, u);
            s.behind + s.ahead == Insert(behind + ahead, u)
  {
    SortedParts(behind, ahead);
    if ahead != [] && !Less(u.timeout, ahead[0].timeout) {
      forall i | 0 <= i < |behind| ensures Less(behind[i].timeout, u.timeout) {
        assert Less(behind[i].timeout, ahead[0].timeout);
      }
      InsertBehind(behind, ahead, u);
    } else {
      InsertBefore(behind, ahead, u);
    }
  }

  lemma {:induction false} UnsettledInsert(ts: seq<Timer>, t: Timer, now: TimeVal)
    requires Settled(t, now)
    ensures Unsettled(Insert(ts, t), now) == Unsettled(ts, now)
  {
    if ts == [] || Less(t.timeout, ts[0].timeout) {
      assert ([t] + ts)[1..] == ts;
    } else if t.timeout != ts[0].timeout {
      UnsettledInsert(ts[1..], t, now);
      assert ([ts[0]] + Insert(ts[1..], t))[1..] == Insert(ts[1..], t);
    }
  }

  lemma SortedWithout(a: seq<Timer>, t: Timer, b: seq<Timer>)
    requires Sorted(a + ([t] + b))
    ensures Sorted(a + b)
  {
    var c, d := a + ([t] + b), a + b;
    forall i, j | 0 <= i < j < |d| ensures Less(d[i].timeout, d[j].timeout) {
      assert d[i] == c[if i < |a| then i else i + 1] && d[j] == c[if j < |a| then j else j + 1];
    }
  }

  /** A turn keeps the set sorted, and there is less to do. */
  lemma TurnKeeps(behind: seq<Timer>, ahead: seq<Timer>, now: TimeVal)
    requires Sorted(behind + ahead) && ahead != []
    ensures var next := Turn(behind, ahead, now);
            && Sorted(next.behind + next.ahead)
            && (|| Unsettled(next.ahead, now) < Unsettled(ahead, now)
                || (Unsettled(next.ahead, now) == Unsettled(ahead, now) && |next.ahead| < |ahead|))
  {
    var t, rest := ahead[0], ahead[1..];
    assert ahead == [t] + rest;
    SortedWithout(behind, t, rest);
    if t.persistent {
      var u := Renewed(t, now);
      PlacedIsInsert(behind, rest, u);
      InsertSorted(behind + rest, u);
      UnsettledInsert(rest, u, now);
      SortedParts(behind, ahead);
      assert rest != [] ==> Less(t.timeout, rest[0].timeout) by {
        assert rest != [] ==> rest[0] == ahead[1];
      }
    }
  }

  // ---------------------------------------------------------------------------
  // What the pass fires

  /** The due timers: they come first. */
  function DuePart(ts: seq<Timer>, now: TimeVal): seq<Timer> {
    ts[..DueCount(ts, now)]
  }

  ghost predicate AllDue(ps: seq<Timer>, now: TimeVal) {
    forall i :: 0 <= i < |ps| ==> Due(ps[i], now)
  }

  /** The pass, seen on the due timers alone. */
  function DueFired(ps: seq<Timer>, now: TimeVal): seq<Timer>
    requires Sorted(ps)
    decreases Unsettled(ps, now), |ps|
  {
    if ps == [] then []
    else
      var t, rest := ps[0], ps[1..];
      DueTurn(ps, now);
      [t] + DueFired(if MetAgain(t, rest, now) then Insert(rest, Renewed(t, now)) else rest, now)
  }

  /** `t` fires and is re-armed among the due timers that are still to come. */
  predicate MetAgain(t: Timer, rest: seq<Timer>, now: TimeVal) {
    && t.persistent && Due(Renewed(t, now), now)
    && rest != [] && !Less(Renewed(t, now).timeout, rest[0].timeout)
  }

  lemma DueTurn(ps: seq<Timer>, now: TimeVal)
    requires Sorted(ps) && ps != []
    ensures var t, rest := ps[0], ps[1..];
            var next := if MetAgain(t, rest, now) then Insert(rest, Renewed(t, now)) else rest;
            && Sorted(next)
            && (|| Unsettled(next, now) < Unsettled(ps, now)
                || (Unsettled(next, now) <= Unsettled(ps, now) && |next| < |ps|))
  {
    var t, rest := ps[0], ps[1..];
    var u := Renewed(t, now);
    assert ps == [t] + rest;
    SortedParts([t], rest);
    InsertSorted(rest, u);
    if t.persistent {
      UnsettledInsert(rest, u, now);
      assert rest != [] ==> Less(t.timeout, rest[0].timeout);
    }
  }

  lemma DuePartUnfold(ts: seq<Timer>, now: TimeVal)
    ensures DuePart(ts, now) == if ts != [] && Due(ts[0], now) then [ts[0]] + DuePart(ts[1..], now) else []
  {
    if ts != [] && Due(ts[0], now) {
      var n := DueCount(ts[1..], now);
      assert ts[..n + 1] == [ts[0]] + ts[1..][..n];
    }
  }

  lemma {:induction false} DuePartInsert(ts: seq<Timer>, u: Timer, now: TimeVal)
    requires Sorted(ts)
    ensures DuePart(Insert(ts, u), now) == if Due(u, now) then Insert(DuePart(ts, now), u) else DuePart(ts, now)
    decreases |ts|
  {
    var r := Insert(ts, u);
    DuePartUnfold(ts, now);
    DuePartUnfold(r, now);
    if ts == [] || Less(u.timeout, ts[0].timeout) {
      assert r[1..] == ts;
    } else if u.timeout != ts[0].timeout {
      assert r[1..] == Insert(ts[1..], u);
      SortedParts([ts[0]], ts[1..]);
      assert ts == [ts[0]] + ts[1..];
      DuePartInsert(ts[1..], u, now);
      if Due(ts[0], now) {
        assert ([ts[0]] + DuePart(ts[1..], now))[1..] == DuePart(ts[1..], now);
      }
    }
  }

  lemma DuePartSorted(ts: seq<Timer>, now: TimeVal)
    requires Sorted(ts)
    ensures Sorted(DuePart(ts, now)) && AllDue(DuePart(ts, now), now)
  {
    var n := DueCount(ts, now);
    assert ts == ts[..n] + ts[n..];
    SortedParts(ts[..n], ts[n..]);
  }

  /** A turn of the pass, seen on the due timers. */
  lemma TurnDue(behind: seq<Timer>, ahead: seq<Timer>, now: TimeVal)
    requires Sorted(ahead) && ahead != [] && Due(ahead[0], now)
    ensures var t, ps, rest := ahead[0], DuePart(ahead, now), DuePart(ahead[1..], now);
            && ps == [t] + rest
            && DuePart(Turn(behind, ahead, now).ahead, now) ==
               if MetAgain(t, rest, now) then Insert(rest, Renewed(t, now)) else rest
  {
    var t, rest := ahead[0], ahead[1..];
    assert ahead == [t] + rest;
    SortedParts([t], rest);
    DuePartUnfold(ahead, now);
    DuePartUnfold(rest, now);
    DuePartInsert(rest, Renewed(t, now), now);
  }

  /** The whole pass fires what the pass over the due timers fires. */
  lemma {:induction false} PassFires(behind: seq<Timer>, ahead: seq<Timer>, now: TimeVal)
    requires Sorted(behind + ahead)
    ensures Sorted(DuePart(ahead, now)) && PassOver(behind, ahead, now).fired == DueFired(DuePart(ahead, now), now)
    decreases Unsettled(ahead, now), |ahead|
  {
    SortedParts(behind, ahead);
    DuePartSorted(ahead, now);
    if ahead != [] && Due(ahead[0], now) {
      var next := Turn(behind, ahead, now);
      TurnKeeps(behind, ahead, now);
      PassFires(next.behind, next.ahead, now);
      TurnDue(behind, ahead, now);
      DueFiredUnfold(ahead[0], DuePart(ahead[1..], now), now);
    } else {
      assert DuePart(ahead, now) == [];
    }
  }

  lemma DueFiredUnfold(t: Timer, rest: seq<Timer>, now: TimeVal)
    requires Sorted([t] + rest)
    ensures var next := if MetAgain(t, rest, now) then Insert(rest, Renewed(t, now)) else rest;
            Sorted(next) && DueFired([t] + rest, now) == [t] + DueFired(next, now)
  {
    var ps := [t] + rest;
    assert ps[0] == t && ps[1..] == rest;
    DueTurn(ps, now);
  }

  lemma {:induction false} FiredInOrder(ps: seq<Timer>, now: TimeVal)
    requires Sorted(ps) && AllDue(ps, now)
    ensures var fired := DueFired(ps, now);
            && Sorted(fired) && AllDue(fired, now) && (ps == [] <==> fired == [])
            && (fired != [] ==> fired[0] == ps[0])
    decreases Unsettled(ps, now), |ps|
  {
    if ps != [] {
      var t, rest := ps[0], ps[1..];
      var next := if MetAgain(t, rest, now) then Insert(rest, Renewed(t, now)) else rest;
      DueTurn(ps, now);
      NextDue(ps, now);
      FiredInOrder(next, now);
      var more := DueFired(next, now);
      SortedFront(t, more);
    }
  }

  lemma SortedFront(t: Timer, ts: seq<Timer>)
    requires Sorted(ts) && (ts != [] ==> Less(t.timeout, ts[0].timeout))
    ensures Sorted([t] + ts)
  {
    var r := [t] + ts;
    forall i, j | 0 <= i < j < |r| ensures Less(r[i].timeout, r[j].timeout) {
      assert j > 1 ==> Less(ts[0].timeout, ts[j - 1].timeout);
    }
  }

  /** What comes behind the first due timer is due and later. */
  lemma NextDue(ps: seq<Timer>, now: TimeVal)
    requires Sorted(ps) && AllDue(ps, now) && ps != []
    ensures var t, rest := ps[0], ps[1..];
            var next := if MetAgain(t, rest, now) then Insert(rest, Renewed(t, now)) else rest;
            AllDue(next, now) && (next != [] ==> Less(t.timeout, next[0].timeout))
  {
    var t, rest := ps[0], ps[1..];
    var u := Renewed(t, now);
    assert rest != [] ==> Less(t.timeout, rest[0].timeout) by {
      assert rest != [] ==> rest[0] == ps[1];
    }
    if MetAgain(t, rest, now) {
      assert ps == [t] + rest;
      SortedParts([t], rest);
      forall i | 0 <= i < |Insert(rest, u)| ensures Due(Insert(rest, u)[i], now) {
        InsertMembers(rest, u, Insert(rest, u)[i]);
        assert Insert(rest, u)[i] in Insert(rest, u);
      }
    }
  }

  /** Every due timer fires, and whatever fires is one of them. */
  lemma {:induction false} FiredMembers(ps: seq<Timer>, now: TimeVal, x: Timer)
    requires Sorted(ps)
    ensures x in ps ==> x in DueFired(ps, now)
    ensures x in DueFired(ps, now) ==> exists i :: 0 <= i < |ps| && ps[i].ptr == x.ptr
    decreases Unsettled(ps, now), |ps|
  {
    if ps != [] {
      var t, rest := ps[0], ps[1..];
      var next := if MetAgain(t, rest, now) then Insert(rest, Renewed(t, now)) else rest;
      assert ps == [t] + rest;
      SortedParts([t], rest);
      DueTurn(ps, now);
      FiredMembers(next, now, x);
      InsertMembers(rest, Renewed(t, now), x);
      if x in DueFired(next, now) {
        var i :| 0 <= i < |next| && next[i].ptr == x.ptr;
        InsertMembers(rest, Renewed(t, now), next[i]);
        assert next[i] in next;
        if next[i] in rest {
          var j :| 0 <= j < |rest| && rest[j] == next[i];
          assert ps[j + 1].ptr == x.ptr;
        } else {
          assert ps[0].ptr == x.ptr;
        }
      } else if x in DueFired(ps, now) {
        assert ps[0].ptr == x.ptr;
      }
    }
  }

  /** A persistent timer that is due is re-armed behind another one that is due, at a
      deadline that is not later than now and that no timer has. */
  ghost predicate Twice(ps: seq<Timer>, now: TimeVal) {
    exists i :: 0 <= i < |ps| - 1 && TwiceAt(ps, i, now)
  }

  predicate TwiceAt(ps: seq<Timer>, i: nat, now: TimeVal)
    requires i + 1 < |ps|
  {
    var u := Renewed(ps[i], now);
    ps[i].persistent && Due(u, now) && Less(ps[i + 1].timeout, u.timeout) && !Taken(ps, u.timeout)
  }

  /** The timers in front do not matter for that. */
  lemma TwiceBehind(t: Timer, rest: seq<Timer>, i: nat, now: TimeVal)
    requires Sorted([t] + rest) && i + 1 < |rest|
    ensures TwiceAt([t] + rest, i + 1, now) <==> TwiceAt(rest, i, now)
  {
    var ps := [t] + rest;
    var d := Renewed(rest[i], now).timeout;
    assert ps[i + 1] == rest[i] && ps[i + 2] == rest[i + 1];
    assert Less(ps[0].timeout, ps[i + 2].timeout);
    if Less(rest[i + 1].timeout, d) {
      TakenFront(t, rest, d);
    }
  }

  lemma TakenFront(t: Timer, rest: seq<Timer>, d: TimeVal)
    ensures Taken([t] + rest, d) <==> t.timeout == d || Taken(rest, d)
  {
    var ps := [t] + rest;
    assert ps[0] == t;
    if i :| 0 <= i < |rest| && rest[i].timeout == d {
      assert ps[i + 1].timeout == d;
    }
    if i :| 0 <= i < |ps| && ps[i].timeout == d && i > 0 {
      assert rest[i - 1].timeout == d;
    }
  }

  lemma {:induction false} InsertTaken(ts: seq<Timer>, t: Timer)
    requires Sorted(ts) && Taken(ts, t.timeout)
    ensures Insert(ts, t) == ts
  {
    var i :| 0 <= i < |ts| && ts[i].timeout == t.timeout;
    assert i > 0 ==> Less(ts[0].timeout, ts[i].timeout);
    if i > 0 {
      assert ts == [ts[0]] + ts[1..];
      SortedParts([ts[0]], ts[1..]);
      assert ts[1..][i - 1].timeout == t.timeout;
      InsertTaken(ts[1..], t);
    }
  }

  /** Whether the first timer is met again. */
  lemma FirstMetAgain(t: Timer, rest: seq<Timer>, now: TimeVal)
    requires Sorted([t] + rest) && rest != []
    ensures var u := Renewed(t, now);
            && (TwiceAt([t] + rest, 0, now) <==> MetAgain(t, rest, now) && !Taken(rest, u.timeout))
            && (MetAgain(t, rest, now) && !TwiceAt([t] + rest, 0, now) ==> Insert(rest, u) == rest)
  {
    var u, ps := Renewed(t, now), [t] + rest;
    SortedParts([t], rest);
    assert ps[1] == rest[0] && ps[0] == t && Less(t.timeout, rest[0].timeout);
    TakenFront(t, rest, u.timeout);
    if rest[0].timeout == u.timeout {
      assert Taken(rest, u.timeout);
    }
    if Taken(rest, u.timeout) {
      InsertTaken(rest, u);
    }
  }

  /** Each due timer fires exactly once, and in the order of the deadlines, exactly when
      none is re-armed among those still to come. */
  lemma {:induction false} OnceExactly(ps: seq<Timer>, now: TimeVal)
    requires Sorted(ps) && Apart(ps)
    ensures Apart(DueFired(ps, now)) <==> !Twice(ps, now)
    ensures !Twice(ps, now) ==> DueFired(ps, now) == ps
    decreases |ps|
  {
    if ps != [] {
      var t, rest := ps[0], ps[1..];
      assert ps == [t] + rest;
      SortedParts([t], rest);
      DueTurn(ps, now);
      if rest != [] {
        FirstMetAgain(t, rest, now);
      }
      if rest != [] && TwiceAt(ps, 0, now) {
        FiresTwice(ps, now);
      } else {
        TwiceOfRest(t, rest, now);
        OnceExactly(rest, now);
        OnceInFront(t, rest, DueFired(rest, now), now);
      }
    }
  }

  lemma FiresTwice(ps: seq<Timer>, now: TimeVal)
    requires Sorted(ps) && |ps| > 1 && TwiceAt(ps, 0, now)
    ensures !Apart(DueFired(ps, now)) && Twice(ps, now)
  {
    var t, rest := ps[0], ps[1..];
    var u := Renewed(t, now);
    assert ps == [t] + rest;
    SortedParts([t], rest);
    FirstMetAgain(t, rest, now);
    DueFiredUnfold(t, rest, now);
    InsertMembers(rest, u, u);
    FiredMembers(Insert(rest, u), now, u);
    NotApart(t, u, DueFired(Insert(rest, u), now));
  }

  lemma NotApart(t: Timer, u: Timer, more: seq<Timer>)
    requires u in more && u.ptr == t.ptr
    ensures !Apart([t] + more)
  {
    var i :| 0 <= i < |more| && more[i] == u;
    assert ([t] + more)[0] == t && ([t] + more)[i + 1] == u;
  }

  lemma TwiceOfRest(t: Timer, rest: seq<Timer>, now: TimeVal)
    requires Sorted([t] + rest) && (rest != [] ==> !TwiceAt([t] + rest, 0, now))
    ensures Twice([t] + rest, now) <==> Twice(rest, now)
  {
    var ps := [t] + rest;
    if i :| 0 <= i < |ps| - 1 && TwiceAt(ps, i, now) {
      TwiceBehind(t, rest, i - 1, now);
      assert TwiceAt(rest, i - 1, now);
    }
    if i :| 0 <= i < |rest| - 1 && TwiceAt(rest, i, now) {
      TwiceBehind(t, rest, i, now);
      assert TwiceAt(ps, i + 1, now);
    }
  }

  lemma OnceInFront(t: Timer, rest: seq<Timer>, more: seq<Timer>, now: TimeVal)
    requires Sorted(rest) && Apart([t] + rest) && more == DueFired(rest, now)
    ensures Apart(rest) && (Apart([t] + more) <==> Apart(more))
  {
    var ps, all := [t] + rest, [t] + more;
    forall i, j | 0 <= i < j < |rest| ensures rest[i].ptr != rest[j].ptr {
      assert ps[i + 1] == rest[i] && ps[j + 1] == rest[j];
    }
    forall j | 0 <= j < |more| ensures more[j].ptr != t.ptr {
      FiredMembers(rest, now, more[j]);
      assert more[j] in more;
      var i :| 0 <= i < |rest| && rest[i].ptr == more[j].ptr;
      assert ps[0] == t && ps[i + 1] == rest[i];
    }
    if Apart(all) {
      forall i, j | 0 <= i < j < |more| ensures more[i].ptr != more[j].ptr {
        assert all[i + 1] == more[i] && all[j + 1] == more[j];
      }
    }
  }

  predicate IsDue(t: Timer, x: Timer, now: TimeVal) {
    Due(t, now) && t.ptr == x.ptr
  }

  /** Every due timer fires and no other, in the order of their deadlines. */
  ghost predicate FiresDue(ts: seq<Timer>, fired: seq<Timer>, now: TimeVal) {
    && Sorted(fired) && AllDue(fired, now)
    && (forall t :: t in ts && Due(t, now) ==> t in fired)
    && (forall t :: t in fired ==> exists i :: 0 <= i < |ts| && IsDue(ts[i], t, now))
  }

  /** What a pass should do: fire the due timers once each, leave only later deadlines,
      and keep a persistent timer armed exactly when its new deadline is free. */
  ghost predicate Renews(ts: seq<Timer>, p: Pass, now: TimeVal) {
    var n := DueCount(ts, now);
    && p.fired == ts[..n] && p.timers == Rearmed(ts[n..], ts[..n], now)
    && AllLater(p.timers, now)
    && (forall i :: 0 <= i < n && p.fired[i].persistent ==>
          (Renewed(p.fired[i], now) in p.timers <==> !Collides(ts[n..], p.fired, i, now)))
  }

  ghost predicate AllLater(ts: seq<Timer>, now: TimeVal) {
    forall i :: 0 <= i < |ts| ==> !Due(ts[i], now)
  }

  lemma {:induction false} MinExists(s: set<int>, x: int) returns (m: int)
    requires x in s
    ensures m in s && forall k :: k in s ==> m <= k
  {
    if y :| y in s && y < x {
      m := MinExists(s - {x}, y);
      forall k | k in s ensures m <= k {
        assert k == x || k in s - {x};
      }
    } else {
      m := x;
    }
  }

  class TimeManager {
    var timers: seq<Timer>
    var idtimer: map<int, nat>
    var maxid: int

    ghost predicate Valid()
      reads this
    {
      Sorted(timers) && Apart(timers) && maxid >= 0 && forall k :: k in idtimer ==> 0 <= k <= maxid
    }

    constructor ()
      ensures Valid() && timers == [] && idtimer == map[] && maxid == 0
    {
      timers, idtimer, maxid := [], map[], 0;
    }

    /** `__get_id`: an id that no timer uses. */
    method GetId() returns (id: int)
      requires Valid()
      modifies this`maxid
      ensures id !in idtimer && 0 <= id <= maxid && old(maxid) <= maxid
    {
      if forall k :: k !in idtimer.Keys {
        return 0;
      }
      ghost var k :| k in idtimer.Keys;
      ghost var w := MinExists(idtimer.Keys, k);
      var first :| first in idtimer.Keys && forall k :: k in idtimer.Keys ==> first <= k;
      if first > 0 {
        return first - 1;
      }
      maxid := maxid + 1;
      return maxid;
    }

    /** `ptr` is the address of the new timer, which no other has, and `junk` what its
        id field holds.
        The timer is armed exactly when no other has its deadline. */
    method SetTimer(tv: TimeVal, persistent: bool, now: TimeVal, ptr: nat, junk: int) returns (id: int)
      requires Valid() && forall i :: 0 <= i < |timers| ==> timers[i].ptr != ptr
      modifies this
      ensures Valid() && id !in old(idtimer) && idtimer == old(idtimer)[id := ptr]
      ensures var t := Timer(ptr, junk, tv, Plus(now, tv), persistent);
              && timers == Insert(old(timers), t)
              && (forall x :: x in timers <==> x in old(timers) || (x == t && !Taken(old(timers), t.timeout)))
    {
      id := GetId();
      var t := Timer(ptr, junk, tv, Plus(now, tv), persistent);
      idtimer := idtimer[id := ptr];
      InsertSorted(timers, t);
      InsertApart(timers, t);
      forall x ensures x in Insert(timers, t) <==> x in timers || (x == t && !Taken(timers, t.timeout)) {
        InsertMembers(timers, t, x);
      }
      timers := Insert(timers, t);
    }

    /** One turn of the loop, with the iterator at `pos`. */
    method Fire(pos: nat, now: TimeVal) returns (t: Timer, next: nat)
      requires Sorted(timers) && Apart(timers) && pos < |timers|
      modifies this`timers, this`idtimer
      ensures t == old(timers)[pos] && next <= |timers| && Sorted(timers) && Apart(timers)
      ensures Split(timers[..next], timers[next..]) == Turn(old(timers)[..pos], old(timers)[pos..], now)
      ensures timers == timers[..next] + timers[next..]
      ensures idtimer == if t.persistent then old(idtimer) else old(idtimer) - {t.id}
    {
      ErasedIs(timers, pos);
      t, next := timers[pos], pos;
      timers := timers[..pos] + timers[pos + 1..];
      if !t.persistent {
        idtimer := idtimer - {t.id};
      } else {
        next := Rearm(pos, Renewed(t, now));
      }
    }

    /** Inserts `u`; the iterator, at `pos`, stays on its timer. */
    method Rearm(pos: nat, u: Timer) returns (next: nat)
      requires Sorted(timers) && Apart(timers) && pos <= |timers|
      requires forall i :: 0 <= i < |timers| ==> timers[i].ptr != u.ptr
      modifies this`timers
      ensures next <= |timers| && Sorted(timers) && Apart(timers) && timers == timers[..next] + timers[next..]
      ensures Split(timers[..next], timers[next..]) == Placed(old(timers)[..pos], old(timers)[pos..], u)
    {
      PlacedIs(timers, pos, u);
      var size := |timers|;
      next := pos;
      var front := pos == size || Less(u.timeout, timers[pos].timeout);
      timers := Insert(timers, u);
      if front {
        next := pos + |timers| - size;
      }
    }

    /** Whatever the intervals, the pass ends; it fires every timer that is due at `now`
        and no other, in the order of their deadlines, and each exactly once exactly
        when none is re-armed among those still to come.  With positive intervals what
        remains is later than `now`, and a persistent timer stays armed exactly when its
        new deadline is free. */
    method Process(now: TimeVal) returns (fired: seq<Timer>)
      requires Valid()
      modifies this
      ensures Valid()
      ensures Pass(fired, timers) == PassOver([], old(timers), now) && idtimer == Forgotten(old(idtimer), fired)
      ensures FiresDue(old(timers), fired, now)
      ensures Apart(fired) <==> !Twice(DuePart(old(timers), now), now)
      ensures Apart(fired) ==> fired == DuePart(old(timers), now)
      ensures AllPositive(old(timers), now) ==> Renews(old(timers), Pass(fired, timers), now)
    {
      fired := FireDue(now);
      ForgottenKeys(old(idtimer), fired);
      PassFacts(old(timers), now);
    }

    /** The loop of `process`. */
    method FireDue(now: TimeVal) returns (fired: seq<Timer>)
      requires Sorted(timers) && Apart(timers)
      modifies this`timers, this`idtimer
      ensures Sorted(timers) && Apart(timers)
      ensures Pass(fired, timers) == PassOver([], old(timers), now) && idtimer == Forgotten(old(idtimer), fired)
    {
      ghost var ts, ids := timers, idtimer;
      var pos: nat := 0;
      fired := [];
      assert [] + ts == ts && timers[..0] == [] && timers[0..] == ts;
      while pos < |timers| && Due(timers[pos], now)
        invariant pos <= |timers|
        invariant Sorted(timers) && Apart(timers) && timers[..pos] + timers[pos..] == timers
        invariant PassOver([], ts, now) == Joined(fired, PassOver(timers[..pos], timers[pos..], now))
        invariant idtimer == Forgotten(ids, fired)
        decreases Unsettled(timers[pos..], now), |timers| - pos
      {
        ghost var behind, ahead := timers[..pos], timers[pos..];
        TurnKeeps(behind, ahead, now);
        var t;
        t, pos := Fire(pos, now);
        ForgottenSnoc(ids, fired, t);
        JoinedNext(fired, behind, ahead, now);
        fired := fired + [t];
      }
      assert fired + [] == fired;
    }
  }

  function Joined(fired: seq<Timer>, p: Pass): Pass {
    Pass(fired + p.fired, p.timers)
  }

  lemma JoinedNext(fired: seq<Timer>, behind: seq<Timer>, ahead: seq<Timer>, now: TimeVal)
    requires Sorted(behind + ahead) && ahead != [] && Due(ahead[0], now)
    ensures var next := Turn(behind, ahead, now);
            && Sorted(next.behind + next.ahead)
            && Joined(fired, PassOver(behind, ahead, now)) ==
               Joined(fired + [ahead[0]], PassOver(next.behind, next.ahead, now))
  {
    TurnKeeps(behind, ahead, now);
    var next := Turn(behind, ahead, now);
    var p := PassOver(next.behind, next.ahead, now);
    assert fired + ([ahead[0]] + p.fired) == fired + [ahead[0]] + p.fired;
  }

  /** The set without the timer at the iterator. */
  lemma ErasedIs(ts: seq<Timer>, pos: nat)
    requires Sorted(ts) && Apart(ts) && pos < |ts|
    ensures var less := ts[..pos] + ts[pos + 1..];
            && Sorted(less) && Apart(less) && (forall i :: 0 <= i < |less| ==> less[i].ptr != ts[pos].ptr)
            && less[..pos] == ts[..pos] && less[pos..] == ts[pos..][1..]
  {
    var behind, rest := ts[..pos], ts[pos + 1..];
    assert ts == behind + ([ts[pos]] + rest);
    SortedWithout(behind, ts[pos], rest);
    ApartWithout(behind, ts[pos], rest);
  }

  /** An insertion into the set, with the iterator at `pos`. */
  lemma PlacedIs(ts: seq<Timer>, pos: nat, u: Timer)
    requires Sorted(ts) && Apart(ts) && pos <= |ts| && forall i :: 0 <= i < |ts| ==> ts[i].ptr != u.ptr
    ensures var p, more := Placed(ts[..pos], ts[pos..], u), Insert(ts, u);
            var front := pos == |ts| || Less(u.timeout, ts[pos].timeout);
            var next := if front then pos + |more| - |ts| else pos;
            && 0 <= next <= |more| && more[..next] == p.behind && more[next..] == p.ahead
            && Sorted(more) && Apart(more)
  {
    assert ts == ts[..pos] + ts[pos..];
    PlacedIsInsert(ts[..pos], ts[pos..], u);
    InsertSorted(ts, u);
    InsertApart(ts, u);
    InsertLonger(ts[..pos], u);
  }

  lemma {:induction false} InsertLonger(ts: seq<Timer>, u: Timer)
    ensures |ts| <= |Insert(ts, u)|
  {
    if ts != [] && !Less(u.timeout, ts[0].timeout) && u.timeout != ts[0].timeout {
      InsertLonger(ts[1..], u);
    }
  }

  lemma ApartWithout(a: seq<Timer>, t: Timer, b: seq<Timer>)
    requires Apart(a + ([t] + b))
    ensures Apart(a + b) && forall i :: 0 <= i < |a + b| ==> (a + b)[i].ptr != t.ptr
  {
    var c, d := a + ([t] + b), a + b;
    assert c[|a|] == t;
    forall i, j | 0 <= i < j < |d| ensures d[i].ptr != d[j].ptr {
      assert d[i] == c[if i < |a| then i else i + 1] && d[j] == c[if j < |a| then j else j + 1];
    }
    forall i | 0 <= i < |d| ensures d[i].ptr != t.ptr {
      assert d[i] == c[if i < |a| then i else i + 1];
    }
  }

  /** What the contract of `Process` says of the pass. */
  lemma PassFacts(ts: seq<Timer>, now: TimeVal)
    requires Sorted(ts) && Apart(ts) && Sorted([] + ts)
    ensures var p := PassOver([], ts, now);
            && FiresDue(ts, p.fired, now)
            && (Apart(p.fired) <==> !Twice(DuePart(ts, now), now))
            && (Apart(p.fired) ==> p.fired == DuePart(ts, now))
            && (AllPositive(ts, now) ==> Renews(ts, p, now))
  {
    PassFires([], ts, now);
    DuePartSorted(ts, now);
    ApartPart(ts, DueCount(ts, now));
    OnceExactly(DuePart(ts, now), now);
    FiredAreDue(ts, now);
    if AllPositive(ts, now) {
      PositiveOnce(ts, now);
      PassRenews(ts, now);
    }
  }

  /** A persistent timer with a zero interval that comes first fires twice in one call
      if another one is due behind it, and none exactly now. */
  lemma ZeroFiresTwice(ts: seq<Timer>, now: TimeVal)
    requires Sorted(ts) && Apart(ts) && |ts| > 1 && ts[0].persistent && ts[0].tv == TimeVal(0, 0)
    requires Less(ts[1].timeout, now) && !Taken(ts, now) && now.usec < 1000000
    ensures Sorted([] + ts) && !Apart(PassOver([], ts, now).fired)
  {
    assert [] + ts == ts;
    ZeroAgain(ts, now);
    PassFacts(ts, now);
  }

  lemma ZeroAgain(ts: seq<Timer>, now: TimeVal)
    requires Sorted(ts) && |ts| > 1 && ts[0].persistent && ts[0].tv == TimeVal(0, 0)
    requires Less(ts[1].timeout, now) && !Taken(ts, now) && now.usec < 1000000
    ensures Twice(DuePart(ts, now), now)
  {
    var ps := DuePart(ts, now);
    TwoDue(ts, now);
    assert forall i :: 0 <= i < |ps| ==> ps[i] == ts[i];
    assert Renewed(ps[0], now).timeout == now && TwiceAt(ps, 0, now);
  }

  lemma TwoDue(ts: seq<Timer>, now: TimeVal)
    requires Sorted(ts) && |ts| > 1 && Less(ts[1].timeout, now)
    ensures DueCount(ts, now) > 1
  {
    assert Less(ts[0].timeout, ts[1].timeout) && ts[1..][0] == ts[1];
    assert DueCount(ts[1..], now) > 0;
  }

  lemma {:induction false} PassRenews(ts: seq<Timer>, now: TimeVal)
    requires Sorted(ts) && Apart(ts) && AllPositive(ts, now) && Sorted([] + ts)
    requires PassOver([], ts, now).fired == DuePart(ts, now)
    ensures Renews(ts, PassOver([], ts, now), now)
  {
    var n := DueCount(ts, now);
    assert ts == ts[0..n] + ts[n..] && ts[..0] == [];
    PassRearms(ts, [], ts, now);
    LaterFacts(ts, ts[..n], now);
    AllStayArmed(ts, now);
    var p := PassOver([], ts, now);
    assert p.fired == ts[..n] && p.timers == Rearmed(ts[n..], ts[..n], now);
    assert AllLater(p.timers, now);
  }

  lemma ApartPart(ts: seq<Timer>, n: nat)
    requires Apart(ts) && n <= |ts|
    ensures Apart(ts[..n])
  {
  }

  lemma FiredAreDue(ts: seq<Timer>, now: TimeVal)
    requires Sorted(ts) && Sorted(DuePart(ts, now))
    ensures FiresDue(ts, DueFired(DuePart(ts, now), now), now)
  {
    var ps := DuePart(ts, now);
    DuePartSorted(ts, now);
    FiredInOrder(ps, now);
    FiredExactly(ts, now);
    forall t | t in ts && Due(t, now) ensures t in DueFired(ps, now) {
      FiredMembers(ps, now, t);
    }
    forall t | t in DueFired(ps, now) ensures exists i :: 0 <= i < |ts| && IsDue(ts[i], t, now) {
      FiredMembers(ps, now, t);
      var i :| 0 <= i < |ps| && ps[i].ptr == t.ptr;
      assert IsDue(ts[i], t, now);
    }
  }

  lemma PositiveOnce(ts: seq<Timer>, now: TimeVal)
    requires AllPositive(ts, now)
    ensures !Twice(DuePart(ts, now), now)
  {
    var ps := DuePart(ts, now);
    forall i | 0 <= i < |ps| - 1 ensures !TwiceAt(ps, i, now) {
      assert ps[i] == ts[i];
      assert ts[i].persistent ==> Positive(now, ts[i].tv);
    }
  }

  /** With positive intervals the iterator stays in front of all that is due, and the
      set in the end is the later timers joined by the re-armed ones. */
  lemma {:induction false} PassRearms(ts: seq<Timer>, fired: seq<Timer>, timers: seq<Timer>, now: TimeVal)
    requires Sorted(ts) && AllPositive(ts, now) && Fired(ts, fired, timers, now)
    requires Sorted(timers) && Sorted([] + timers)
    ensures var n := DueCount(ts, now);
            PassOver([], timers, now).timers == Rearmed(ts[n..], ts[..n], now)
    decreases DueCount(ts, now) - |fired|
  {
    if timers != [] && Due(timers[0], now) {
      var next := Turn([], timers, now);
      RearmNext(ts, fired, timers, now);
      PassUnfold([], timers, now);
      if next.behind == [] {
        assert [] + next.ahead == next.ahead;
        PassRearms(ts, fired + [timers[0]], next.ahead, now);
      } else {
        PassUnfold(next.behind, next.ahead, now);
        AllFired(ts, fired + [timers[0]], next.behind + next.ahead, now);
      }
    } else {
      PassUnfold([], timers, now);
      AllFired(ts, fired, timers, now);
      assert [] + timers == timers;
    }
  }

  lemma PassUnfold(behind: seq<Timer>, ahead: seq<Timer>, now: TimeVal)
    requires Sorted(behind + ahead)
    ensures if ahead == [] || !Due(ahead[0], now) then PassOver(behind, ahead, now).timers == behind + ahead
            else var next := Turn(behind, ahead, now);
                 && Sorted(next.behind + next.ahead)
                 && PassOver(behind, ahead, now).timers == PassOver(next.behind, next.ahead, now).timers
  {
    if ahead != [] {
      TurnKeeps(behind, ahead, now);
    }
  }

  lemma RearmNext(ts: seq<Timer>, fired: seq<Timer>, timers: seq<Timer>, now: TimeVal)
    requires Sorted(ts) && AllPositive(ts, now) && Fired(ts, fired, timers, now) && Sorted(timers)
    requires timers != [] && Due(timers[0], now)
    ensures var next := Turn([], timers, now);
            && |fired| < DueCount(ts, now) && Fired(ts, fired + [timers[0]], next.behind + next.ahead, now)
            && (next.behind != [] ==> !Due(next.behind[0], now) && (next.ahead == [] || !Due(next.ahead[0], now)))
  {
    FiredNext(ts, fired, timers, now);
    NextIsDue(ts, fired, timers, now);
    PositiveTurn(timers, now);
  }

  lemma PositiveTurn(timers: seq<Timer>, now: TimeVal)
    requires Sorted(timers) && timers != [] && (timers[0].persistent ==> Positive(now, timers[0].tv))
    ensures var t, rest, next := timers[0], timers[1..], Turn([], timers, now);
            && next.behind + next.ahead == (if t.persistent then Insert(rest, Renewed(t, now)) else rest)
            && (next.behind != [] ==> !Due(next.behind[0], now) && (next.ahead == [] || !Due(next.ahead[0], now)))
  {
    var t, rest := timers[0], timers[1..];
    assert timers == [t] + rest && [] + rest == rest;
    SortedParts([t], rest);
    PlacedIsInsert([], rest, Renewed(t, now));
  }

  lemma AllStayArmed(ts: seq<Timer>, now: TimeVal)
    requires Sorted(ts) && Apart(ts)
    ensures var n := DueCount(ts, now);
            forall i :: 0 <= i < n && ts[..n][i].persistent ==>
              (Renewed(ts[..n][i], now) in Rearmed(ts[n..], ts[..n], now) <==> !Collides(ts[n..], ts[..n], i, now))
  {
    var n := DueCount(ts, now);
    assert ts[..n] + ts[n..] == ts;
    forall i | 0 <= i < n && ts[..n][i].persistent
      ensures Renewed(ts[..n][i], now) in Rearmed(ts[n..], ts[..n], now) <==> !Collides(ts[n..], ts[..n], i, now)
    {
      StaysArmedExactly(ts[n..], ts[..n], now, i);
    }
  }

  /** The loop has fired the first |fired| timers of `ts`; the set is what is left
      of the due ones, then the later and the re-armed ones. */
  ghost predicate Fired(ts: seq<Timer>, fired: seq<Timer>, timers: seq<Timer>, now: TimeVal) {
    var n := DueCount(ts, now);
    |fired| <= n && fired == ts[..|fired|] && timers == ts[|fired|..n] + Rearmed(ts[n..], fired, now)
  }

  lemma NextIsDue(ts: seq<Timer>, fired: seq<Timer>, timers: seq<Timer>, now: TimeVal)
    requires Sorted(ts) && AllPositive(ts, now) && Fired(ts, fired, timers, now)
    requires timers != [] && Due(timers[0], now)
    ensures |fired| < DueCount(ts, now) && timers[0] == ts[|fired|]
    ensures timers[1..] == ts[|fired| + 1..DueCount(ts, now)] + Rearmed(ts[DueCount(ts, now)..], fired, now)
  {
    LaterFacts(ts, fired, now);
  }

  /** One turn of the loop keeps `Fired`. */
  lemma FiredNext(ts: seq<Timer>, fired: seq<Timer>, timers: seq<Timer>, now: TimeVal)
    requires Sorted(ts) && AllPositive(ts, now) && Fired(ts, fired, timers, now)
    requires timers != [] && Due(timers[0], now)
    ensures var t := timers[0];
            var next := if t.persistent then Insert(timers[1..], Renewed(t, now)) else timers[1..];
            |fired| < DueCount(ts, now) && Fired(ts, fired + [t], next, now)
  {
    NextIsDue(ts, fired, timers, now);
    FireStep(ts, fired, now);
    FrontSnoc(ts, fired);
  }

  lemma FrontSnoc(ts: seq<Timer>, fired: seq<Timer>)
    requires |fired| < |ts| && fired == ts[..|fired|]
    ensures fired + [ts[|fired|]] == ts[..|fired| + 1]
  {
  }

  lemma ForgottenSnoc(ids: map<int, nat>, fired: seq<Timer>, t: Timer)
    ensures var m := Forgotten(ids, fired);
            Forgotten(ids, fired + [t]) == if t.persistent then m else m - {t.id}
  {
    assert (fired + [t])[..|fired|] == fired;
  }

  lemma AllFired(ts: seq<Timer>, fired: seq<Timer>, timers: seq<Timer>, now: TimeVal)
    requires Fired(ts, fired, timers, now) && (timers == [] || !Due(timers[0], now))
    ensures |fired| == DueCount(ts, now) && timers == Rearmed(ts[DueCount(ts, now)..], fired, now)
  {
  }

  /** Behind the due timers everything is later, also what was re-armed. */
  lemma LaterFacts(ts: seq<Timer>, fired: seq<Timer>, now: TimeVal)
    requires Sorted(ts) && AllPositive(ts, now) && |fired| <= DueCount(ts, now) && fired == ts[..|fired|]
    ensures var more := Rearmed(ts[DueCount(ts, now)..], fired, now);
            Sorted(more) && forall i :: 0 <= i < |more| ==> !Due(more[i], now)
  {
    var n := DueCount(ts, now);
    forall i | 0 <= i < |ts[n..]| ensures !Due(ts[n..][i], now) {
      assert ts[n..][i] == ts[n + i];
      assert i > 0 ==> Less(ts[n].timeout, ts[n + i].timeout);
    }
    RearmedLater(ts[n..], fired, now);
    RearmedSorted(ts[n..], fired, now);
  }

  lemma RearmedSnoc(later: seq<Timer>, fired: seq<Timer>, t: Timer, now: TimeVal)
    ensures var rest := Rearmed(later, fired, now);
            Rearmed(later, fired + [t], now) == if t.persistent then Insert(rest, Renewed(t, now)) else rest
  {
    assert (fired + [t])[..|fired|] == fired;
  }

  /** What a timer fired now is renewed to is behind all that is due. */
  lemma DueBeforeRenewed(front: seq<Timer>, t: Timer, now: TimeVal)
    requires Positive(now, t.tv) && forall i :: 0 <= i < |front| ==> Due(front[i], now)
    ensures forall i :: 0 <= i < |front| ==> Less(front[i].timeout, Renewed(t, now).timeout)
  {
  }

  /** One turn of the loop: the first timer leaves, and a persistent one comes back
      behind all that is still due. */
  lemma FireStep(ts: seq<Timer>, fired: seq<Timer>, now: TimeVal)
    requires AllPositive(ts, now) && |fired| < DueCount(ts, now)
    ensures var n, k := DueCount(ts, now), |fired|;
            var front, rest, t := ts[k + 1..n], Rearmed(ts[n..], fired, now), ts[k];
            (if t.persistent then Insert(front + rest, Renewed(t, now)) else front + rest) ==
            front + Rearmed(ts[n..], fired + [t], now)
  {
    var n, k := DueCount(ts, now), |fired|;
    var front, t := ts[k + 1..n], ts[k];
    RearmedSnoc(ts[n..], fired, t, now);
    if t.persistent {
      DueBeforeRenewed(front, t, now);
      InsertBehind(front, Rearmed(ts[n..], fired, now), Renewed(t, now));
    }
  }

  lemma FiredExactly(ts: seq<Timer>, now: TimeVal)
    requires Sorted(ts)
    ensures forall t :: t in ts[..DueCount(ts, now)] <==> t in ts && Due(t, now)
  {
    var n := DueCount(ts, now);
    forall i | n <= i < |ts| ensures !Due(ts[i], now) {
      assert i > n ==> Less(ts[n].timeout, ts[i].timeout);
    }
  }
}
