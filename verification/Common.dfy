/** What several modules share. */
module Common {
  datatype Option<+T> = None | Some(value: T)

  /** The sum of `f` over a sequence. */
  function Sum<T>(xs: seq<T>, f: T -> nat): nat {
    if xs == [] then 0 else f(xs[0]) + Sum(xs[1..], f)
  }

  lemma {:induction false} SumUpdate<T>(xs: seq<T>, i: nat, x: T, f: T -> nat)
    requires i < |xs|
    ensures Sum(xs[i := x], f) + f(xs[i]) == Sum(xs, f) + f(x)
  {
    var ys := xs[i := x];
    if i == 0 {
      assert ys[1..] == xs[1..];
    } else {
      assert ys[1..] == xs[1..][i - 1 := x];
      SumUpdate(xs[1..], i - 1, x, f);
    }
  }

  lemma {:induction false} SumSnoc<T>(xs: seq<T>, x: T, f: T -> nat)
    ensures Sum(xs + [x], f) == Sum(xs, f) + f(x)
  {
    if xs == [] {
      assert xs + [x] == [x] && [x][1..] == [];
    } else {
      assert (xs + [x])[1..] == xs[1..] + [x];
      SumSnoc(xs[1..], x, f);
    }
  }

  lemma {:induction false} SumBelow<T>(xs: seq<T>, ys: seq<T>, f: T -> nat)
    requires |xs| == |ys| && forall i :: 0 <= i < |xs| ==> f(ys[i]) <= f(xs[i])
    ensures Sum(ys, f) <= Sum(xs, f)
  {
    if xs != [] {
      SumBelow(xs[1..], ys[1..], f);
    }
  }

  lemma {:induction false} SumZero<T>(xs: seq<T>, f: T -> nat)
    requires forall i :: 0 <= i < |xs| ==> f(xs[i]) == 0
    ensures Sum(xs, f) == 0
  {
    if xs != [] {
      SumZero(xs[1..], f);
    }
  }
}
