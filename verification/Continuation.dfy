/**
 What the parser does to the text of lines: header values folded over several
 lines (http/request.cc) and lines that hold a NUL (core/buffer.hh).
 */
module Continuation {
  import opened Text
  import opened Message
  import opened RoundTrip

  /** A line that continues the header before it. */
  predicate Continues(y: string) {
    y != "" && IsBlank(y[0]) && OneLine(y)
  }

  predicate AllContinue(ys: seq<string>) {
    forall i :: 0 <= i < |ys| ==> Continues(ys[i])
  }

  predicate BlankOnly(y: string) {
    forall i :: 0 <= i < |y| ==> IsBlank(y[i])
  }

  function Lines(ys: seq<string>): string {
    if ys == [] then "" else ys[0] + CRLF + Lines(ys[1..])
  }

  /** The value a sender means: every line counts. */
  function Folded(v: string, ys: seq<string>): string
    decreases |ys|
  {
    if ys == [] then v else Folded(v + LTrimBlank(ys[0]), ys[1..])
  }

  /** The value the parser keeps: the first line and the last. */
  function Kept(v: string, ys: seq<string>): string {
    if ys == [] then v else v + LTrimBlank(ys[|ys| - 1])
  }

  lemma ContinuationRead(r: Req, y: string, tail: string, k: string, v: string)
    requires Continues(y)
    ensures HeaderLoop(r, y + CRLF + tail, k, v) ==
            if k == "" then HeaderStep(BadLine, r, tail)
            else HeaderLoop(r.(headers := r.headers[k := v + LTrimBlank(y)]), tail, k, v)
  {
    PopWholeLine(y, tail);
    HeaderLoopStep(r, y + CRLF + tail, k, v);
  }

  lemma LinesUnfoldOne(ys: seq<string>, tail: string)
    requires ys != []
    ensures Lines(ys) + tail == ys[0] + CRLF + (Lines(ys[1..]) + tail)
  {
    Assoc(ys[0] + CRLF, Lines(ys[1..]), tail);
  }

  lemma SetTwice(r: Req, k: string, a: string, b: string)
    ensures r.(headers := r.headers[k := a]).(headers := r.headers[k := a][k := b]) == r.(headers := r.headers[k := b])
  {
    assert r.headers[k := a][k := b] == r.headers[k := b];
  }

  lemma KeptTail(v: string, ys: seq<string>)
    requires AllContinue(ys) && ys != []
    ensures AllContinue(ys[1..]) && Continues(ys[0])
    ensures Kept(v, ys) == if |ys| == 1 then v + LTrimBlank(ys[0]) else Kept(v, ys[1..])
  {
  }

  /** Any number of continuation lines behind a header with name `k` and value `v`. */
  lemma {:induction false} ContinuationsRead(r: Req, ys: seq<string>, tail: string, k: string, v: string)
    requires AllContinue(ys) && k != "" && ys != []
    ensures HeaderLoop(r, Lines(ys) + tail, k, v) ==
            HeaderLoop(r.(headers := r.headers[k := Kept(v, ys)]), tail, k, v)
    decreases |ys|
  {
    var rest := Lines(ys[1..]) + tail;
    LinesUnfoldOne(ys, tail);
    KeptTail(v, ys);
    ContinuationRead(r, ys[0], rest, k, v);
    if |ys| == 1 {
      assert rest == tail;
    } else {
      var r1 := r.(headers := r.headers[k := v + LTrimBlank(ys[0])]);
      ContinuationsRead(r1, ys[1..], tail, k, v);
      SetTwice(r, k, v + LTrimBlank(ys[0]), Kept(v, ys));
      assert HeaderLoop(r, Lines(ys) + tail, k, v) == HeaderLoop(r1, rest, k, v);
    }
  }

  lemma {:induction false} TrimsAway(y: string)
    ensures LTrimBlank(y) == "" <==> BlankOnly(y)
  {
    if y != "" && IsBlank(y[0]) {
      TrimsAway(y[1..]);
      assert y == [y[0]] + y[1..];
    }
  }

  lemma {:induction false} FoldedLength(v: string, ys: seq<string>)
    ensures v <= Folded(v, ys)
    ensures Folded(v, ys) == v <==> forall i :: 0 <= i < |ys| ==> BlankOnly(ys[i])
    decreases |ys|
  {
    if ys != [] {
      TrimsAway(ys[0]);
      FoldedLength(v + LTrimBlank(ys[0]), ys[1..]);
      assert ys == [ys[0]] + ys[1..];
      if LTrimBlank(ys[0]) == "" {
        assert v + "" == v;
      }
    }
  }

  lemma {:induction false} FoldedSnoc(v: string, ys: seq<string>, y: string)
    ensures Folded(v, ys + [y]) == Folded(v, ys) + LTrimBlank(y)
    decreases |ys|
  {
    if ys == [] {
      assert ys + [y] == [y] && [y][1..] == [];
    } else {
      assert (ys + [y])[1..] == ys[1..] + [y];
      FoldedSnoc(v + LTrimBlank(ys[0]), ys[1..], y);
    }
  }

  /** The parser keeps the folded value exactly when every continuation line but the
      last is blank. */
  lemma KeptIsFoldedExactly(v: string, ys: seq<string>)
    ensures Kept(v, ys) == Folded(v, ys) <==> forall i :: 0 <= i < |ys| - 1 ==> BlankOnly(ys[i])
  {
    if ys != [] {
      var n := |ys| - 1;
      var first, y := ys[..n], ys[n];
      assert ys == first + [y];
      FoldedSnoc(v, first, y);
      FoldedLength(v, first);
      if v + LTrimBlank(y) == Folded(v, first) + LTrimBlank(y) {
        assert |v| == |Folded(v, first)|;
      }
    }
  }

  /** A printed header followed by continuation lines, wherever it stands: what is
      stored, and exactly when that is what was meant. */
  lemma FoldedHeader(r: Req, k: string, v: string, ys: seq<string>, tail: string, k0: string, v0: string)
    requires CleanHeader(k, v) && k != "" && v != "" && AllContinue(ys)
    ensures HeaderLoop(r, HeaderLine(k, v) + (Lines(ys) + tail), k0, v0) ==
            HeaderLoop(r.(headers := r.headers[k := Kept(v, ys)]), tail, k, v)
    ensures Kept(v, ys) == Folded(v, ys) <==> forall i :: 0 <= i < |ys| - 1 ==> BlankOnly(ys[i])
  {
    HeaderLoopLine(r, k, v, Lines(ys) + tail, k0, v0);
    if ys == [] {
      assert Lines(ys) + tail == tail;
    } else {
      ContinuationsRead(r.(headers := r.headers[k := v]), ys, tail, k, v);
      SetTwice(r, k, v, Kept(v, ys));
    }
    KeptIsFoldedExactly(v, ys);
  }

  lemma TrimmedLetter(y: string, t: string)
    requires t != "" && !IsBlank(t[0]) && y == " " + t
    ensures LTrimBlank(y) == t
  {
    assert y[1..] == t;
  }

  /** Two continuation lines: the first is lost. */
  lemma FirstContinuationLost(r: Req, tail: string)
    ensures HeaderLoop(r, HeaderLine("X", "a") + (Lines([" b", " c"]) + tail), "", "") ==
            HeaderLoop(r.(headers := r.headers["X" := "ac"]), tail, "X", "a")
    ensures Folded("a", [" b", " c"]) == "abc"
  {
    var ys := [" b", " c"];
    TrimmedLetter(" b", "b");
    TrimmedLetter(" c", "c");
    assert Folded("a", ys) == Folded("ab", [" c"]) == Folded("abc", []) by {
      assert ys[1..] == [" c"] && [" c"][1..] == [];
      assert "a" + "b" == "ab" && "ab" + "c" == "abc";
    }
    assert Kept("a", ys) == "ac";
    FoldedHeader(r, "X", "a", ys, tail, "", "");
  }

  // ---------------------------------------------------------------------------
  // NUL

  lemma CStringExactly(t: string)
    ensures CString(t) <= t && (CString(t) == t <==> Without(t, NUL))
  {
    var n := IndexOf(t, NUL, 0);
    if n < |t| {
      assert t[n] == NUL && |t[..n]| < |t|;
    } else {
      assert t[..n] == t;
    }
  }

  /** The line returned is the bytes in front of the line end exactly when no NUL is
      among them; otherwise it ends at the first one, and the rest is dropped. */
  lemma WholeLineExactly(b: string)
    requires FirstEol(b) < |b|
    ensures var i := FirstEol(b);
            && PopLine(b).text <= b[..i]
            && (PopLine(b).text == b[..i] <==> Without(b[..i], NUL))
            && PopLine(b).rest == b[i + EolLength(b, i)..]
  {
    CStringExactly(b[..FirstEol(b)]);
  }

  /** A header behind a NUL is gone: the parser sees the name and nothing else. */
  lemma NulHidesValue(r: Req, tail: string)
    ensures HeaderLoop(r, "X: a" + [NUL] + "b" + CRLF + tail, "", "") ==
            HeaderLoop(r.(headers := r.headers["X" := "a"]), tail, "X", "a")
  {
    var t := "X: a" + [NUL] + "b";
    var b := t + CRLF + tail;
    assert FirstEol(b) == 6 by {
      assert forall j :: 0 <= j < 6 ==> b[j] == t[j] && !IsEol(t[j]);
      assert b[6] == CR;
    }
    assert b[..6] == t && b[8..] == tail;
    assert IndexOf(t, NUL, 0) == 4 by {
      assert t[4] == NUL;
    }
    assert t[..4] == "X" + ": " + "a";
    HeaderLineSplits("X", "a");
    HeaderLoopStep(r, b, "", "");
  }
}
