/**
 Words about how far one chunk decoder is ahead of another on the same bytes.

 When the parser meets the data of a chunk for a size line, it goes on decoding in
 the wrong places.  Compare it with the decoder that is right: both read the same
 bytes, and if they are to store the same bytes in the end, then at each moment the
 right one is ahead by some word, its lead.  While both store, the lead is rotated;
 a wrong size line is added at its end, and a right one removed from its front.
 This module proves what that does to the lines that the lead forms on a circle.
 */
module Lead {
  import opened Text

  predicate IsHex(c: char) {
    '0' <= c <= '9' || 'a' <= c <= 'f'
  }

  predicate AllHex(s: string) {
    forall i :: 0 <= i < |s| ==> IsHex(s[i])
  }

  /** What may follow what in lines of hex digits that end with CR LF. */
  predicate Follows(x: char, y: char) {
    (IsHex(x) && (IsHex(y) || y == CR)) || (x == CR && y == LF) || (x == LF && IsHex(y))
  }

  /** The neighbour of position `k` on the circle. */
  function Next(q: string, k: nat): char
    requires k < |q|
  {
    if k + 1 < |q| then q[k + 1] else q[0]
  }

  /** The lead holds something that no right size line can take out again. */
  ghost predicate Hopeless(q: string) {
    exists k :: 0 <= k < |q| && !Follows(q[k], Next(q, k))
  }

  function Rotated(q: string): string
    requires q != ""
  {
    q[1..] + [q[0]]
  }

  lemma HopelessRotated(q: string)
    requires q != "" && Hopeless(q)
    ensures Hopeless(Rotated(q))
  {
    var k :| 0 <= k < |q| && !Follows(q[k], Next(q, k));
    var r := Rotated(q);
    var j := if k == 0 then |q| - 1 else k - 1;
    assert r[j] == q[k] && Next(r, j) == Next(q, k);
  }

  /** Taking a right size line off the front. */
  lemma HopelessDrop(digits: string, q: string)
    requires AllHex(digits) && digits != "" && (q == "" || q[|q| - 1] == LF)
    requires Hopeless(digits + CRLF + q)
    ensures Hopeless(q)
  {
    var n, all := |digits| + 2, digits + CRLF + q;
    var k :| 0 <= k < |all| && !Follows(all[k], Next(all, k));
    assert all[0] == digits[0] && (forall i :: 0 <= i < |digits| ==> all[i] == digits[i]);
    assert all[|digits|] == CR && all[|digits| + 1] == LF && all[n..] == q;
    if k < |digits| {
      assert false;
    } else if k >= n {
      assert all[k] == q[k - n];
      assert k + 1 < |all| ==> Next(q, k - n) == Next(all, k);
    } else if q != "" {
      assert k == n - 1 && Next(all, k) == q[0];
      assert Next(q, |q| - 1) == q[0] && q[|q| - 1] == all[k];
    }
  }

  // ---------------------------------------------------------------------------
  // The value of a lead

  /** The position behind the last LF. */
  function Behind(q: string): (i: nat)
    ensures i <= |q| && (i > 0 ==> q[i - 1] == LF)
    ensures forall j :: i <= j < |q| ==> q[j] != LF
  {
    if q == "" || q[|q| - 1] == LF then |q| else Behind(q[..|q| - 1])
  }

  /** The sum over the lines of `s` of the number in front, and 2. */
  function LineSum(s: string): nat
    decreases |s|
  {
    var i := IndexOf(s, LF, 0);
    if i == |s| then 0 else ReadDigits(s, 16, 0) + 2 + LineSum(s[i + 1..])
  }

  /** The same on the circle: what is behind the last LF belongs to the first line. */
  function Value(q: string): nat {
    LineSum(q[Behind(q)..] + q[..Behind(q)])
  }

  lemma {:induction false} ReadDigitsStops(a: string, b: string, acc: nat)
    requires exists i :: 0 <= i < |a| && a[i] == LF
    ensures ReadDigits(a + b, 16, acc) == ReadDigits(a, 16, acc)
  {
    assert a + b != "" && (a + b)[0] == a[0];
    if DigitValue(a[0]) < 16 {
      var i :| 0 <= i < |a| && a[i] == LF;
      assert a[1..][i - 1] == LF;
      assert (a + b)[1..] == a[1..] + b;
      ReadDigitsStops(a[1..], b, acc * 16 + DigitValue(a[0]));
    }
  }

  lemma FirstLf(a: string, b: string)
    requires exists i :: 0 <= i < |a| && a[i] == LF
    ensures IndexOf(a, LF, 0) < |a| && IndexOf(a + b, LF, 0) == IndexOf(a, LF, 0)
  {
    var i, j := IndexOf(a, LF, 0), IndexOf(a + b, LF, 0);
    assert j < |a| ==> (a + b)[j] == a[j];
    assert i < |a| ==> (a + b)[i] == a[i];
  }

  lemma {:induction false} LineSumUnfold(s: string)
    ensures var i := IndexOf(s, LF, 0);
            LineSum(s) == if i == |s| then 0 else ReadDigits(s, 16, 0) + 2 + LineSum(s[i + 1..])
  {
  }

  lemma {:induction false} LineSumAppend(a: string, b: string)
    requires a == "" || a[|a| - 1] == LF
    ensures LineSum(a + b) == LineSum(a) + LineSum(b)
    decreases |a|
  {
    if a == "" {
      assert a + b == b;
    } else {
      assert a[|a| - 1] == LF;
      FirstLf(a, b);
      ReadDigitsStops(a, b, 0);
      var i := IndexOf(a, LF, 0);
      DropFront(a, b, i + 1);
      LineSumUnfold(a);
      LineSumUnfold(a + b);
      LineSumAppend(a[i + 1..], b);
    }
  }

  lemma DropFront(a: string, b: string, i: nat)
    requires i <= |a|
    ensures (a + b)[i..] == a[i..] + b
    ensures i < |a| ==> a[i..][|a| - i - 1] == a[|a| - 1]
  {
  }

  lemma BehindIs(q: string, i: nat)
    requires i <= |q| && (i > 0 ==> q[i - 1] == LF) && forall j :: i <= j < |q| ==> q[j] != LF
    ensures Behind(q) == i
  {
    assert i > 0 ==> q[i - 1] == LF;
  }

  lemma ValueAligned(q: string)
    requires q == "" || q[|q| - 1] == LF
    ensures Value(q) == LineSum(q)
  {
    BehindIs(q, |q|);
    assert q[|q|..] + q[..|q|] == q;
  }

  lemma ValueUnrotated(q: string)
    requires q != "" && q[0] != LF
    ensures Value(Rotated(q)) == Value(q)
  {
    var b, r := Behind(q), Rotated(q);
    if b == 0 {
      forall j | 0 <= j < |r| ensures r[j] != LF {
        assert r[j] == if j + 1 < |q| then q[j + 1] else q[0];
      }
      BehindIs(r, 0);
      assert r[0..] + r[..0] == r && q[0..] + q[..0] == q;
    } else {
      assert r[b - 2] == q[b - 1];
      forall j | b - 1 <= j < |r| ensures r[j] != LF {
        assert r[j] == if j + 1 < |q| then q[j + 1] else q[0];
      }
      BehindIs(r, b - 1);
      assert r[b - 1..] + r[..b - 1] == q[b..] + q[..b];
    }
  }

  lemma {:induction false} LineSumTurned(a: string, b: string)
    requires (a == "" || a[|a| - 1] == LF) && (b == "" || b[|b| - 1] == LF)
    ensures LineSum(a + b) == LineSum(b + a)
  {
    LineSumAppend(a, b);
    LineSumAppend(b, a);
  }

  /** A rotation changes where the circle is cut and nothing else. */
  lemma {:induction false} ValueRotated(q: string)
    requires q != ""
    ensures Value(Rotated(q)) == Value(q)
  {
    if q[0] != LF {
      ValueUnrotated(q);
    } else {
      var b := Behind(q);
      ValueAligned(Rotated(q));
      CircleTurned(q, b);
      LineSumTurned(q[b..] + [LF], q[1..b]);
    }
  }

  /** The circle of a word that begins with LF, cut behind its `b`-th character and
      behind its first. */
  lemma CircleTurned(q: string, b: nat)
    requires 0 < b <= |q| && q[0] == LF
    ensures q[b..] + q[..b] == (q[b..] + [LF]) + q[1..b]
    ensures Rotated(q) == q[1..b] + (q[b..] + [LF])
  {
  }

  /** Taking a right size line off the front takes its number and 2 off the value. */
  lemma ValueDrop(digits: string, q: string)
    requires digits != "" && AllHex(digits) && (q == "" || q[|q| - 1] == LF)
    ensures Value(digits + CRLF + q) == ReadDigits(digits, 16, 0) + 2 + Value(q)
  {
    var line := digits + CRLF;
    var all := line + q;
    assert all[|all| - 1] == LF;
    ValueAligned(all);
    ValueAligned(q);
    LineSumAppend(line, q);
    OneLineSum(digits);
  }

  lemma {:induction false} ReadDigitsBefore(digits: string, tail: string, acc: nat)
    requires AllHex(digits) && (tail == "" || DigitValue(tail[0]) >= 16)
    ensures ReadDigits(digits + tail, 16, acc) == ReadDigits(digits, 16, acc)
  {
    if digits == "" {
      assert digits + tail == tail;
    } else {
      assert (digits + tail)[1..] == digits[1..] + tail;
      ReadDigitsBefore(digits[1..], tail, acc * 16 + DigitValue(digits[0]));
    }
  }

  lemma OneLineSum(digits: string)
    requires AllHex(digits)
    ensures LineSum(digits + CRLF) == ReadDigits(digits, 16, 0) + 2
  {
    var line := digits + CRLF;
    forall j | 0 <= j < |digits| + 1 ensures line[j] != LF {
      assert j < |digits| ==> line[j] == digits[j] && IsHex(digits[j]);
    }
    assert line[|digits| + 1] == LF && IndexOf(line, LF, 0) == |digits| + 1;
    assert line[|digits| + 2..] == "";
    ReadDigitsBefore(digits, CRLF, 0);
  }

  /** More digits in front never make a number smaller. */
  lemma {:induction false} ReadDigitsGrows(s: string, a: nat, b: nat)
    requires a <= b
    ensures ReadDigits(s, 16, a) <= ReadDigits(s, 16, b)
  {
    if s != "" && DigitValue(s[0]) < 16 {
      ReadDigitsGrows(s[1..], a * 16 + DigitValue(s[0]), b * 16 + DigitValue(s[0]));
    }
  }

  lemma {:induction false} ReadDigitsInFront(front: string, s: string, acc: nat)
    requires AllHex(front)
    ensures ReadDigits(s, 16, 0) <= ReadDigits(front + s, 16, acc)
  {
    if front == "" {
      assert front + s == s;
      ReadDigitsGrows(s, 0, acc);
    } else {
      assert (front + s)[1..] == front[1..] + s;
      ReadDigitsInFront(front[1..], s, acc * 16 + DigitValue(front[0]));
    }
  }

  /** A size line added at the end brings at least its own number and 2. */
  lemma ValueAdd(q: string, digits: string)
    requires AllHex(digits) && AllHex(q[Behind(q)..])
    ensures Value(q + (digits + CRLF)) >= ReadDigits(digits, 16, 0) + 2
  {
    var p, z := q[..Behind(q)], q[Behind(q)..];
    var line := (z + digits) + CRLF;
    assert q + (digits + CRLF) == p + line by {
      assert q == p + z;
      Assoc(p, z, digits + CRLF);
      Assoc(z, digits, CRLF);
    }
    assert line[|line| - 1] == LF;
    ValueAligned(p + line);
    LineSumAppend(p, line);
    OneLineSum(z + digits);
    ReadDigitsInFront(z, digits, 0);
  }

  /** A line whose addition leaves hope: hex digits, CR LF, and not inside a CR LF. */
  lemma {:induction false} HopefulLine(q: string, text: string, end: string)
    requires text != "" && (forall i :: 0 <= i < |text| ==> text[i] != CR && text[i] != LF)
    requires end in {CRLF, [CR], [LF], [LF, CR]} && !Hopeless(q + (text + end))
    ensures AllHex(text) && AllHex(q[Behind(q)..])
    ensures end == CRLF || (end == [CR] && q != "" && q[0] == LF)
  {
    var all := q + (text + end);
    var n := |q|;
    assert forall k :: 0 <= k < |all| ==> Follows(all[k], Next(all, k));
    forall i | 0 <= i < |text| ensures IsHex(text[i]) {
      assert all[n + i] == text[i] && Follows(all[n + i], Next(all, n + i));
    }
    assert all[n] == text[0];
    assert all[n + |text| - 1] == text[|text| - 1] && Next(all, n + |text| - 1) == end[0];
    var m := Behind(q);
    forall i | m <= i < n ensures IsHex(q[i]) {
      assert all[i] == q[i] && Follows(all[i], Next(all, i));
      assert Next(all, i) == if i + 1 < n then q[i + 1] else text[0];
    }
    assert q[m..] == q[m..];
    assert q != "" ==> all[0] == q[0];
    assert all[|all| - 1] == end[|end| - 1] && Next(all, |all| - 1) == all[0];
  }

  lemma {:induction false} HexChars(n: nat)
    ensures AllHex(Hex(n)) && Hex(n) != ""
  {
    if n >= 16 {
      HexChars(n / 16);
    }
  }
}
