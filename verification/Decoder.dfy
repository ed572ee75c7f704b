/**
 The chunk loop as a decoder (http/request.cc 99-117), and why a decoder that has taken
 the data of a chunk for a size line never ends as the right one does.
 */
module Decoder {
  import opened Text
  import opened Message
  import opened RoundTrip
  import opened Chunked
  import opened Lead

  // ---------------------------------------------------------------------------
  // The parser as a decoder

  /** A decoder may store `out` of the bytes `b`, beginning with `n` that it stores in
      any case, and complete with `left` left. */
  ghost predicate Decodes(b: string, n: nat, out: string, left: string)
    decreases |b|, 1
  {
    if n == 0 then DecodesSize(b, out, left)
    else b != "" && out != "" && out[0] == b[0] && Decodes(b[1..], n - 1, out[1..], left)
  }

  /** Behind a size line it stores the data and the two bytes behind, or fewer and then
      forgets the size: that is what happens when a call of the parser ends there. */
  ghost predicate DecodesSize(b: string, out: string, left: string)
    decreases |b|, 0
  {
    && b != ""
    && match SizeOf(PopLine(b).text)
       case DataChunk(k) => exists m: nat :: m <= k + 2 && Decodes(PopLine(b).rest, m, out, left)
       case LastChunk => out == "" && |left| < |b|
       case _ => false
  }

  lemma SizeRead(b: string, out: string, left: string) returns (m: nat)
    requires Decodes(b, 0, out, left) && SizeOf(PopLine(b).text).DataChunk?
    ensures m <= SizeOf(PopLine(b).text).size + 2 && Decodes(PopLine(b).rest, m, out, left)
  {
    assert DecodesSize(b, out, left);
    m :| m <= SizeOf(PopLine(b).text).size + 2 && Decodes(PopLine(b).rest, m, out, left);
  }

  lemma DecodesNext(b: string, n: nat, out: string, left: string)
    requires n > 0 && b != "" && out != "" && out[0] == b[0]
    ensures Decodes(b, n, out, left) <==> Decodes(b[1..], n - 1, out[1..], left)
  {
  }

  lemma FrontNext(a: string, b: string, m: nat)
    requires 0 < m <= |a| && m <= |b| && a[0] == b[0] && a[1..][..m - 1] == b[1..][..m - 1]
    ensures a[..m] == b[..m] && a[1..][m - 1..] == a[m..] && b[1..][m - 1..] == b[m..]
  {
    assert a[..m] == [a[0]] + a[1..][..m - 1] && b[..m] == [b[0]] + b[1..][..m - 1];
  }

  /** Storing the bytes that are stored in any case. */
  lemma {:induction false} DecodesTakes(b: string, n: nat, m: nat, out: string, left: string)
    requires m <= n && m <= |b| && Decodes(b, n, out, left)
    ensures m <= |out| && out[..m] == b[..m] && Decodes(b[m..], n - m, out[m..], left)
    decreases m
  {
    if m == 0 {
      assert b[0..] == b && out[0..] == out;
    } else {
      assert out != "" && out[0] == b[0];
      DecodesNext(b, n, out, left);
      DecodesTakes(b[1..], n - 1, m - 1, out[1..], left);
      FrontNext(out, b, m);
    }
  }

  lemma {:induction false} DecodesAfter(a: string, b: string, out: string, left: string)
    requires Decodes(b, 0, out, left)
    ensures Decodes(a + b, |a|, a + out, left)
    decreases |a|
  {
    if a == "" {
      assert a + b == b && a + out == out;
    } else {
      DecodesAfter(a[1..], b, out, left);
      assert (a + b)[1..] == a[1..] + b && (a + out)[1..] == a[1..] + out;
      DecodesNext(a + b, |a|, a + out, left);
    }
  }

  /** Decoding uses up the bytes to store and at least one more. */
  lemma {:induction false} DecodesUses(b: string, n: nat, out: string, left: string)
    requires Decodes(b, n, out, left)
    ensures |left| + n < |b|
    decreases |b|
  {
    if n > 0 {
      DecodesUses(b[1..], n - 1, out[1..], left);
    } else if SizeOf(PopLine(b).text).DataChunk? {
      var m := SizeRead(b, out, left);
      DecodesUses(PopLine(b).rest, m, out, left);
    }
  }

  lemma EmptyLineFails(b: string, out: string, left: string)
    requires b != "" && IsEol(b[0])
    ensures !Decodes(b, 0, out, left)
  {
    assert FirstEol(b) == 0 && b[..0] == "";
    assert PopLine(b).text == "";
  }

  /** A text whose front is stored in any case. */
  lemma DecodesFront(a: string, b: string, n: nat, out: string, left: string)
    requires |a| <= n && Decodes(a + b, n, out, left)
    ensures a <= out && Decodes(b, n - |a|, out[|a|..], left)
  {
    assert (a + b)[..|a|] == a && (a + b)[|a|..] == b;
    DecodesTakes(a + b, n, |a|, out, left);
  }

  // ---------------------------------------------------------------------------
  // Two decoders on the same bytes

  /** What is still to come of a chunk, of other chunks, and of the end. */
  function Stream(u: string, cs: seq<string>, rest: string): string {
    u + (Chunks(cs) + (LAST + rest))
  }

  /** What the right decoder is ahead of the wrong one, and what it will still store. */
  function Goal(q: string, u: string, cs: seq<string>): string {
    q + (u + Stored(cs))
  }

  /** The rest of a chunk and the CRLF behind it. */
  predicate ChunkRest(u: string) {
    u == [LF] || (|u| >= 2 && u[|u| - 2] == CR && u[|u| - 1] == LF)
  }

  predicate EndsLine(q: string, u: string) {
    if u == "" then q == "" || q[|q| - 1] == LF else ChunkRest(u)
  }

  /** The wrong decoder stores `n` bytes next.  Either its lines do not fit, or they
      make it store too much. */
  ghost predicate Astray(q: string, u: string, n: nat) {
    EndsLine(q, u) && (Hopeless(q) || |u| + |q| + Value(q) > n)
  }

  lemma AstrayBehind(q: string, n: nat)
    requires Astray(q, "", n)
    ensures q != "" && q[|q| - 1] == LF
  {
    ValueAligned("");
  }

  lemma StoreOne(q: string, u: string, cs: seq<string>, n: nat, rest: string) returns (q': string)
    requires u != "" && n > 0 && Astray(q, u, n) && Decodes(Stream(u, cs, rest), n, Goal(q, u, cs), rest)
    ensures Astray(q', u[1..], n - 1)
    ensures Decodes(Stream(u[1..], cs, rest), n - 1, Goal(q', u[1..], cs), rest)
  {
    var g := Goal(q, u, cs);
    StreamNext(u, cs, rest);
    DecodesTakes(Stream(u, cs, rest), n, 1, g, rest);
    q' := if q == "" then "" else Rotated(q);
    assert [u[0]] + g[1..] == g;
    GoalTurned(q, u, cs, g[1..]);
    StillAstray(q, u, n);
  }

  lemma StreamNext(u: string, cs: seq<string>, rest: string)
    requires u != ""
    ensures Stream(u, cs, rest)[..1] == [u[0]] && Stream(u, cs, rest)[1..] == Stream(u[1..], cs, rest)
  {
  }

  lemma StillAstray(q: string, u: string, n: nat)
    requires u != "" && n > 0 && Astray(q, u, n) && (q != "" ==> q[0] == u[0])
    ensures Astray(if q == "" then "" else Rotated(q), u[1..], n - 1)
  {
    if q != "" {
      ValueRotated(q);
      if Hopeless(q) {
        HopelessRotated(q);
      }
    }
  }

  lemma GoalTurned(q: string, u: string, cs: seq<string>, out: string)
    requires u != "" && [u[0]] + out == Goal(q, u, cs)
    ensures q != "" ==> q[0] == u[0]
    ensures out == Goal(if q == "" then "" else Rotated(q), u[1..], cs)
  {
    var g := Goal(q, u, cs);
    assert out == g[1..] && g[0] == u[0];
    if q == "" {
      assert g == u + Stored(cs) && g[1..] == u[1..] + Stored(cs);
      assert "" + (u[1..] + Stored(cs)) == u[1..] + Stored(cs);
    } else {
      assert g[0] == q[0];
      assert u == [u[0]] + u[1..];
      Assoc([u[0]], u[1..], Stored(cs));
      Assoc(q[1..], [u[0]], u[1..] + Stored(cs));
      assert g[1..] == q[1..] + (u + Stored(cs));
    }
  }

  lemma StreamChunk(cs: seq<string>, rest: string)
    requires cs != []
    ensures Stream("", cs, rest) == (Hex(|cs[0]|) + CRLF) + Stream(cs[0] + CRLF, cs[1..], rest)
    ensures Goal("", "", cs) == (cs[0] + CRLF) + Stored(cs[1..])
  {
    var h, x, tail := Hex(|cs[0]|) + CRLF, cs[0] + CRLF, LAST + rest;
    assert Stream("", cs, rest) == Chunks(cs) + tail;
    Assoc(h + x, Chunks(cs[1..]), tail);
    Assoc(h, x, Chunks(cs[1..]) + tail);
  }

  lemma GoalChunk(q: string, cs: seq<string>)
    requires cs != []
    ensures Goal(q, "", cs) == q + ((cs[0] + CRLF) + Stored(cs[1..]))
  {
    assert "" + Stored(cs) == Stored(cs);
  }

  /** The lead begins with the part of a line that the wrong decoder stores. */
  lemma LeadBegins(q: string, digits: string, front: string, out: string, more: string)
    requires q != "" && q[|q| - 1] == LF && AllHex(digits) && front <= digits + CRLF
    requires front + out == q + more
    ensures front <= q && out == q[|front|..] + more
    ensures |front| <= |digits| + 1 ==> |front| < |q|
  {
    var m, line, all := |front|, digits + CRLF, q + more;
    forall k | 0 <= k < m ensures all[k] == line[k] && (k < |digits| + 1 ==> all[k] != LF) {
      assert all[k] == (front + out)[k] == front[k];
      assert k < |digits| ==> line[k] == digits[k] && IsHex(digits[k]);
    }
    assert all[|q| - 1] == LF;
    assert m <= |q| && all[m..] == q[m..] + more && (front + out)[m..] == out;
  }

  lemma FrontStored(line: string, n: nat, m: nat, more: string, out: string, left: string)
    requires m <= n && m <= |line| && Decodes(line + more, n, out, left)
    ensures line[..m] <= out && Decodes(line[m..] + more, n - m, out[m..], left)
  {
    assert line == line[..m] + line[m..];
    Assoc(line[..m], line[m..], more);
    DecodesFront(line[..m], line[m..] + more, n, out, left);
  }

  lemma LeadFront(q: string, digits: string, m: nat, tail: string)
    requires q != "" && q[|q| - 1] == LF && AllHex(digits) && m <= |digits| + 2
    requires (digits + CRLF)[..m] <= q + tail
    ensures m <= |q| && q[..m] == (digits + CRLF)[..m] && (m <= |digits| + 1 ==> m < |q|)
    ensures (q + tail)[m..] == q[m..] + tail
  {
    var front := (digits + CRLF)[..m];
    assert front + (q + tail)[m..] == q + tail;
    LeadBegins(q, digits, front, (q + tail)[m..], tail);
  }

  /** The wrong decoder stores the first `m` bytes of the right one's next size line. */
  lemma LineStored(q: string, digits: string, n: nat, m: nat, more: string, tail: string, left: string)
    requires q != "" && q[|q| - 1] == LF && AllHex(digits) && m <= n && m <= |digits| + 2
    requires Decodes(digits + CRLF + more, n, q + tail, left)
    ensures m <= |q| && q[..m] == (digits + CRLF)[..m] && (m <= |digits| + 1 ==> m < |q|)
    ensures Decodes((digits + CRLF)[m..] + more, n - m, q[m..] + tail, left)
  {
    FrontStored(digits + CRLF, n, m, more, q + tail, left);
    LeadFront(q, digits, m, tail);
  }

  /** The two texts, with the right decoder in front of a chunk. */
  lemma AtChunk(q: string, cs: seq<string>, n: nat, rest: string)
    requires cs != [] && Astray(q, "", n) && Decodes(Stream("", cs, rest), n, Goal(q, "", cs), rest)
    ensures q != "" && q[|q| - 1] == LF && AllHex(Hex(|cs[0]|))
    ensures var u := cs[0] + CRLF;
            Decodes(Hex(|cs[0]|) + CRLF + Stream(u, cs[1..], rest), n, q + (u + Stored(cs[1..])), rest)
  {
    AstrayBehind(q, n);
    HexChars(|cs[0]|);
    StreamChunk(cs, rest);
    GoalChunk(q, cs);
  }

  /** It stores all of it. */
  lemma SizeStored(q: string, cs: seq<string>, n: nat, rest: string) returns (q': string)
    requires cs != [] && Astray(q, "", n) && n >= |Hex(|cs[0]|)| + 2
    requires Decodes(Stream("", cs, rest), n, Goal(q, "", cs), rest)
    ensures var m, u := |Hex(|cs[0]|)| + 2, cs[0] + CRLF;
            Astray(q', u, n - m) && Decodes(Stream(u, cs[1..], rest), n - m, Goal(q', u, cs[1..]), rest)
  {
    var digits, u := Hex(|cs[0]|), cs[0] + CRLF;
    AtChunk(q, cs, n, rest);
    q' := WholeLineStored(q, digits, n, Stream(u, cs[1..], rest), u + Stored(cs[1..]), rest);
    LeadShorter(q, digits, |cs[0]|, n);
  }

  lemma WholeLineStored(q: string, digits: string, n: nat, more: string, tail: string, left: string)
      returns (q': string)
    requires q != "" && q[|q| - 1] == LF && AllHex(digits) && |digits| + 2 <= n
    requires Decodes(digits + CRLF + more, n, q + tail, left)
    ensures |digits| + 2 <= |q| && q[..|digits| + 2] == digits + CRLF && q' == q[|digits| + 2..]
    ensures Decodes(more, n - |digits| - 2, q' + tail, left)
  {
    var line := digits + CRLF;
    LineStored(q, digits, n, |line|, more, tail, left);
    assert line[|line|..] + more == more && line[..|line|] == line;
    q' := q[|line|..];
  }

  lemma LeadShorter(q: string, digits: string, h: nat, n: nat)
    requires digits == Hex(h) && |digits| + 2 <= |q| && q[..|digits| + 2] == digits + CRLF && q[|q| - 1] == LF
    requires Hopeless(q) || |q| + Value(q) > n >= |digits| + 2
    ensures var q' := q[|digits| + 2..];
            Hopeless(q') || h + 2 + |q'| + Value(q') > n - |digits| - 2
  {
    var q' := q[|digits| + 2..];
    HexChars(h);
    DigitsRead(h, 16);
    assert q == digits + CRLF + q';
    assert q' != "" ==> q'[|q'| - 1] == LF;
    ValueDrop(digits, q');
    if Hopeless(q) {
      HopelessDrop(digits, q');
    }
  }

  /** What the wrong decoder makes of a size line of hex digits. */
  lemma SizeOfDigits(t: string)
    requires AllHex(t) && t != ""
    ensures var n := ReadDigits(t, 16, 0);
            SizeOf(t) == if n > LONG_MAX then NotANumber else if n == 0 then LastChunk else DataChunk(n)
    ensures OneLine(t)
  {
    assert AllDigits(t, 16) by {
      forall i | 0 <= i < |t| ensures DigitValue(t[i]) < 16 {
        assert IsHex(t[i]);
      }
    }
    DigitsAreClean(t, 16);
    assert DigitValue(t[0]) < 16;
  }

  /** It stores `n` bytes of it and takes what is left of it for its own: a smaller
      number, or the same. */
  lemma SizeShared(q: string, cs: seq<string>, n: nat, rest: string) returns (q': string, m: nat)
    requires cs != [] && Astray(q, "", n) && n < |Hex(|cs[0]|)| + 2
    requires Decodes(Stream("", cs, rest), n, Goal(q, "", cs), rest)
    ensures var u := cs[0] + CRLF;
            Astray(q', u, m) && Decodes(Stream(u, cs[1..], rest), m, Goal(q', u, cs[1..]), rest)
  {
    var u := cs[0] + CRLF;
    AtChunk(q, cs, n, rest);
    LineStored(q, Hex(|cs[0]|), n, n, Stream(u, cs[1..], rest), u + Stored(cs[1..]), rest);
    q' := q[n..];
    m := SharedLine(|cs[0]|, n, Stream(u, cs[1..], rest), Goal(q', u, cs[1..]), rest);
  }

  lemma DigitsDecode(line: string, more: string, out: string, left: string) returns (m: nat)
    requires AllHex(line) && line != "" && Decodes(line + CRLF + more, 0, out, left) && out != ""
    ensures m <= ReadDigits(line, 16, 0) + 2 && Decodes(more, m, out, left)
  {
    SizeOfDigits(line);
    PopWholeLine(line, more);
    assert DecodesSize(line + CRLF + more, out, left);
    m := SizeRead(line + CRLF + more, out, left);
  }

  lemma SmallerNumber(h: nat, n: nat)
    requires n <= |Hex(h)|
    ensures ReadDigits(Hex(h)[n..], 16, 0) <= h
  {
    var digits := Hex(h);
    HexChars(h);
    DigitsRead(h, 16);
    assert digits[..n] + digits[n..] == digits;
    ReadDigitsInFront(digits[..n], digits[n..], 0);
  }

  lemma SharedLine(h: nat, n: nat, more: string, out: string, left: string) returns (m: nat)
    requires n < |Hex(h)| + 2 && Decodes((Hex(h) + CRLF)[n..] + more, 0, out, left) && out != ""
    ensures m <= h + 2 && Decodes(more, m, out, left)
  {
    var digits := Hex(h);
    var back := (digits + CRLF)[n..];
    HexChars(h);
    if n >= |digits| {
      assert IsEol(back[0]) && (back + more)[0] == back[0];
      EmptyLineFails(back + more, out, left);
    } else {
      var line := digits[n..];
      assert back == line + CRLF;
      m := DigitsDecode(line, more, out, left);
      SmallerNumber(h, n);
    }
  }

  /** A line end, as `pop()` sees it in front of `v`. */
  predicate LineEnd(end: string, v: string) {
    || end == CRLF || end == [LF, CR]
    || (end == [CR] && v != "" && v[0] != LF)
    || (end == [LF] && v != "" && v[0] != CR)
  }

  predicate NoLineEnd(text: string) {
    forall k :: 0 <= k < |text| ==> !IsEol(text[k])
  }

  lemma {:induction false} FirstEolAt(text: string, b: string)
    requires NoLineEnd(text) && b != "" && IsEol(b[0])
    ensures FirstEol(text + b) == |text|
    decreases |text|
  {
    if text == "" {
      assert text + b == b;
    } else {
      assert !IsEol(text[0]) && (text + b)[1..] == text[1..] + b;
      FirstEolAt(text[1..], b);
    }
  }

  lemma PopAnyLine(text: string, end: string, v: string, more: string)
    requires NoLineEnd(text) && LineEnd(end, v)
    ensures PopLine(text + (end + v) + more) == Line(CString(text), v + more)
  {
    var b := end + v + more;
    FirstEolAt(text, b);
    Assoc(text, end + v, more);
    var all := text + b;
    assert all[..|text|] == text && all[|text|] == end[0];
    assert all[|text| + |end|..] == v + more;
    assert |text| + 1 < |all| && all[|text| + 1] == if |end| == 2 then end[1] else v[0];
  }

  lemma RestOfRest(u: string, m: nat)
    requires ChunkRest(u) && m <= |u|
    ensures u[m..] == "" || ChunkRest(u[m..])
  {
    var v := u[m..];
    assert v != "" ==> v[|v| - 1] == u[|u| - 1];
    assert |v| >= 2 ==> v[|v| - 2] == u[|u| - 2];
  }

  /** The first line of what is left of a chunk. */
  lemma FirstLine(u: string) returns (text: string, end: string, v: string)
    requires ChunkRest(u) && u != [LF]
    ensures u == text + (end + v) && NoLineEnd(text) && LineEnd(end, v) && (v == "" || ChunkRest(v))
  {
    var i := FirstEol(u);
    assert IsEol(u[|u| - 2]);
    assert i + 1 < |u|;
    var n := |EndAt(u, i)|;
    text, end, v := u[..i], EndAt(u, i), u[i + n..];
    RestOfRest(u, i + n);
    ThreeParts(u, i, n);
    assert forall k :: 0 <= k < |text| ==> text[k] == u[k];
  }

  lemma ThreeParts(u: string, i: nat, n: nat)
    requires i + n <= |u|
    ensures u == u[..i] + (u[i..i + n] + u[i + n..])
  {
  }

  function EndAt(u: string, i: nat): (end: string)
    requires i + 1 < |u| && IsEol(u[i])
    ensures i + |end| <= |u| && end == u[i..i + |end|] && LineEnd(end, u[i + |end|..])
  {
    if IsEol(u[i + 1]) && u[i + 1] != u[i] then [u[i], u[i + 1]] else [u[i]]
  }

  /** A line of data taken for a size line either leaves the lead hopeless, or adds to
      its value what it makes the wrong decoder store. */
  lemma LineTaken(q: string, text: string, end: string, v: string, s: nat)
    requires NoLineEnd(text) && LineEnd(end, v) && SizeOf(CString(text)) == DataChunk(s)
    ensures || Hopeless(q + (text + end)) || Value(q + (text + end)) >= s + 2
            || (q != "" && q[0] == LF && v != "" && v[0] != LF)
  {
    CStringPrefix(text);
    if !Hopeless(q + (text + end)) {
      assert text != "";
      forall k | 0 <= k < |text| ensures text[k] != CR && text[k] != LF {
        assert !IsEol(text[k]);
      }
      HopefulLine(q, text, end);
      if end == CRLF {
        SizeOfDigits(text);
        HexIsCString(text);
        ValueAdd(q, text);
      }
    }
  }

  lemma CStringPrefix(t: string)
    ensures CString(t) <= t
  {
  }

  lemma HexIsCString(t: string)
    requires AllHex(t)
    ensures CString(t) == t
  {
    var n := IndexOf(t, NUL, 0);
    assert n < |t| ==> IsHex(t[n]);
    assert t[..|t|] == t;
  }

  /** The wrong decoder takes a line of the right one's data for a size line. */
  lemma SizeInData(q: string, u: string, cs: seq<string>, rest: string) returns (head: string, v: string, m: nat)
    requires u != "" && Astray(q, u, 0) && Decodes(Stream(u, cs, rest), 0, Goal(q, u, cs), rest)
    ensures |v| < |u| && Astray(q + head, v, m) && Decodes(Stream(v, cs, rest), m, Goal(q + head, v, cs), rest)
  {
    if u == [LF] {
      assert Stream(u, cs, rest)[0] == LF;
      EmptyLineFails(Stream(u, cs, rest), Goal(q, u, cs), rest);
    } else {
      var text, end, w := FirstLine(u);
      head, v := text + end, w;
      Assoc(text, end, v);
      assert Goal(q, u, cs) != "";
      m := DecodesLine(text, end, v, Chunks(cs) + (LAST + rest), Goal(q, u, cs), rest);
      LineTaken(q, text, end, v, SizeOf(CString(text)).size);
      AfterLine(q, head, v, cs, rest, SizeOf(CString(text)).size, m);
    }
  }

  lemma DecodesLine(text: string, end: string, v: string, more: string, out: string, left: string) returns (m: nat)
    requires NoLineEnd(text) && LineEnd(end, v) && Decodes(text + (end + v) + more, 0, out, left) && out != ""
    ensures SizeOf(CString(text)).DataChunk? && m <= SizeOf(CString(text)).size + 2 && Decodes(v + more, m, out, left)
  {
    PopAnyLine(text, end, v, more);
    assert DecodesSize(text + (end + v) + more, out, left);
    m := SizeRead(text + (end + v) + more, out, left);
  }

  lemma AfterLine(q: string, head: string, v: string, cs: seq<string>, rest: string, s: nat, m: nat)
    requires head != "" && ChunkRest(head + v) && (v == "" || ChunkRest(v)) && m <= s + 2
    requires Hopeless(q + head) || Value(q + head) >= s + 2 || (q != "" && q[0] == LF && v != "" && v[0] != LF)
    requires Decodes(Stream(v, cs, rest), m, Goal(q, head + v, cs), rest)
    ensures Goal(q, head + v, cs) == Goal(q + head, v, cs) && Astray(q + head, v, m)
  {
    var t := Stream(v, cs, rest);
    Assoc(head, v, Stored(cs));
    Assoc(q, head, v + Stored(cs));
    assert v == "" ==> head + v == head;
    assert q != "" ==> Goal(q, head + v, cs)[0] == q[0];
    assert v != "" ==> t[0] == v[0];
  }

  /** Nothing but the end is left. */
  lemma AtLast(q: string, n: nat, rest: string)
    requires Astray(q, "", n)
    ensures !Decodes(Stream("", [], rest), n, Goal(q, "", []), rest)
  {
    AstrayBehind(q, n);
    assert Stream("", [], rest) == LAST + rest;
    assert Goal(q, "", []) == q;
    if Decodes(LAST + rest, n, q, rest) {
      if n == 0 {
        LastDecodes(q, rest);
      } else if n < 5 {
        InLastDecodes(n, q, rest);
      } else {
        DecodesUses(LAST + rest, n, q, rest);
      }
    }
  }

  lemma LastDecodes(out: string, rest: string)
    requires Decodes(LAST + rest, 0, out, rest)
    ensures out == ""
  {
    assert LAST + rest == "0" + CRLF + (CRLF + rest);
    SizeOfDigits("0");
    PopWholeLine("0", CRLF + rest);
  }

  lemma InLastDecodes(n: nat, out: string, rest: string)
    requires 0 < n < 5
    ensures !Decodes(LAST + rest, n, out, rest)
  {
    var front, back := LAST[..n], LAST[n..] + rest;
    assert LAST + rest == front + back;
    if Decodes(LAST + rest, n, out, rest) {
      DecodesFront(front, back, n, out, rest);
      assert IsEol(back[0]);
      EmptyLineFails(back, out[n..], rest);
    }
  }

  /** A decoder that has gone astray never ends where the right one does with the same
      bytes stored, however often it forgets a size on the way. */
  lemma {:induction false} NeverSame(q: string, u: string, cs: seq<string>, n: nat, rest: string)
    requires Astray(q, u, n)
    ensures !Decodes(Stream(u, cs, rest), n, Goal(q, u, cs), rest)
    decreases |cs|, |u|, 1
  {
    if u == "" {
      NeverSameBetween(q, cs, n, rest);
    } else if Decodes(Stream(u, cs, rest), n, Goal(q, u, cs), rest) {
      if n > 0 {
        var q' := StoreOne(q, u, cs, n, rest);
        NeverSame(q', u[1..], cs, n - 1, rest);
      } else {
        var head, v, m := SizeInData(q, u, cs, rest);
        NeverSame(q + head, v, cs, m, rest);
      }
    }
  }

  /** The same with the right decoder between two chunks. */
  lemma {:induction false} NeverSameBetween(q: string, cs: seq<string>, n: nat, rest: string)
    requires Astray(q, "", n)
    ensures !Decodes(Stream("", cs, rest), n, Goal(q, "", cs), rest)
    decreases |cs|, 0, 0
  {
    if cs == [] {
      AtLast(q, n, rest);
    } else if Decodes(Stream("", cs, rest), n, Goal(q, "", cs), rest) {
      var q', n' := NextChunk(q, cs, n, rest);
      NeverSame(q', cs[0] + CRLF, cs[1..], n', rest);
    }
  }

  /** Past the right decoder's next size line. */
  lemma NextChunk(q: string, cs: seq<string>, n: nat, rest: string) returns (q': string, n': nat)
    requires cs != [] && Astray(q, "", n) && Decodes(Stream("", cs, rest), n, Goal(q, "", cs), rest)
    ensures var u := cs[0] + CRLF;
            Astray(q', u, n') && Decodes(Stream(u, cs[1..], rest), n', Goal(q', u, cs[1..]), rest)
  {
    var m := |Hex(|cs[0]|)| + 2;
    if n >= m {
      q' := SizeStored(q, cs, n, rest);
      n' := n - m;
    } else {
      q', n' := SizeShared(q, cs, n, rest);
    }
  }
}
