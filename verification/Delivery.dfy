/**
 Requests that arrive in pieces: which cuts the resumable parser survives.
 */
module Delivery {
  import opened Text
  import opened Message
  import opened RoundTrip
  import Percent

  /** A request on its way: the client's object, its target, the order of its
      headers, and the server's new object. */
  datatype Sent = Sent(q: Req, target: string, order: seq<string>, p: Req)

  ghost predicate Ok(x: Sent) {
    Sendable(x.q, x.target) && Lists(x.order, x.q.headers) && Fresh(x.p) && x.p.kind == REQUEST
  }

  /** Where the bytes that have arrived so far end. */
  datatype Cut =
    | InFirstLine(n: nat)      // in the text of the first line, or just before its CRLF
    | AfterHeaders(n: nat)     // behind the first `n` headers
    | InBody(n: nat)           // behind the empty line and `n` bytes of body
    | Whole(rest: string)      // the request and whatever follows it

  ghost predicate ValidCut(x: Sent, c: Cut) {
    match c
    case InFirstLine(n) => n <= |TextOf(x)|
    case AfterHeaders(n) => n <= |x.order|
    case InBody(n) => n < |x.q.body|
    case Whole(_) => true
  }

  function TextOf(x: Sent): string {
    MethodName(x.q.verb) + " " + x.target + " " + Version(x.q)
  }

  /** How many headers have arrived, and what follows them. */
  function HeadersAt(x: Sent, c: Cut): nat {
    if c.AfterHeaders? then c.n else |x.order|
  }

  function TailAt(x: Sent, c: Cut): string
    requires c.InBody? ==> c.n <= |x.q.body|
  {
    match c
    case InBody(n) => CRLF + x.q.body[..n]
    case Whole(rest) => CRLF + (x.q.body + rest)
    case _ => ""
  }

  /** The bytes that have arrived. */
  ghost function Prefix(x: Sent, c: Cut): string
    requires Ok(x) && ValidCut(x, c)
  {
    if c.InFirstLine? then TextOf(x)[..c.n]
    else TextOf(x) + CRLF + (HeaderLines(x.q.headers, x.order[..HeadersAt(x, c)]) + TailAt(x, c))
  }

  lemma WholeIsSendTo(x: Sent, rest: string)
    requires Ok(x)
    ensures Prefix(x, Whole(rest)) == SendTo(x.q, x.order) + rest
  {
    assert x.order[..|x.order|] == x.order;
    SendToSplit(x.q, x.order, rest);
  }

  predicate Before(c: Cut, d: Cut) {
    match c
    case InFirstLine(n) => d.InFirstLine? ==> n <= d.n
    case AfterHeaders(n) => !d.InFirstLine? && (d.AfterHeaders? ==> n <= d.n)
    case InBody(n) => d.Whole? || (d.InBody? && n <= d.n)
    case Whole(_) => false
  }

  /** The server's object behind the first line, and behind `n` headers. */
  function FirstRead(x: Sent): Req
    requires CleanTarget(x.target)
  {
    x.p.(verb := x.q.verb, uri := Percent.Decode(PathOf(x.target)).value, query := QueryOf(x.target, x.p.query),
         major := 1, minor := x.q.minor, status := Headers)
  }

  ghost function HeadersRead(x: Sent, n: nat): Req
    requires Ok(x) && n <= |x.order|
  {
    FirstRead(x).(headers := Absorb(map[], x.q.headers, x.order[..n]))
  }

  ghost function StateAt(x: Sent, c: Cut): Req
    requires Ok(x) && ValidCut(x, c)
  {
    match c
    case InFirstLine(_) => x.p
    case AfterHeaders(n) => HeadersRead(x, n)
    case _ => BodyMode(HeadersRead(x, |x.order|).(status := Body)).req
  }

  /** The bytes the parser has left in the buffer. */
  ghost function LeftAt(x: Sent, c: Cut): string
    requires Ok(x) && ValidCut(x, c)
  {
    match c
    case InFirstLine(n) => TextOf(x)[..n]
    case InBody(n) => x.q.body[..n]
    case _ => ""
  }

  // ---------------------------------------------------------------------------
  // Reading on from a cut

  lemma {:induction false} AbsorbAppend(base: map<string, string>, h: map<string, string>, a: seq<string>,
      b: seq<string>)
    requires forall k :: k in a || k in b ==> k in h
    ensures forall k :: k in a + b ==> k in h
    ensures Absorb(base, h, a + b) == Absorb(Absorb(base, h, a), h, b)
    decreases |a|
  {
    if a == [] {
      assert a + b == b;
    } else {
      assert (a + b)[1..] == a[1..] + b;
      AbsorbAppend(if h[a[0]] == "" then base else base[a[0] := h[a[0]]], h, a[1..], b);
    }
  }

  /** One delivery up to a point behind the first line. */
  lemma FromStart(x: Sent, j: nat, tail: string)
    requires Ok(x) && j <= |x.order| && LinesEnd(tail)
    ensures Parse(x.p, TextOf(x) + CRLF + (HeaderLines(x.q.headers, x.order[..j]) + tail)) ==
            EndHeaders(AfterLines(HeadersRead(x, j), tail))
  {
    var lines := HeaderLines(x.q.headers, x.order[..j]);
    RequestLineReads(x.p, x.q.verb, x.target, x.q.minor);
    FirstLineRead(x.p, TextOf(x), FirstRead(x).(status := FirstLine), lines + tail);
    HeaderLoopLines(FirstRead(x), x.q.headers, x.order[..j], tail, "", "");
  }

  /** The same, resumed behind the first `i` headers. */
  lemma FromHeaders(x: Sent, i: nat, j: nat, tail: string)
    requires Ok(x) && i <= j <= |x.order| && LinesEnd(tail)
    ensures Parse(HeadersRead(x, i), HeaderLines(x.q.headers, x.order[i..j]) + tail) ==
            EndHeaders(AfterLines(HeadersRead(x, j), tail))
  {
    assert x.order[..i] + x.order[i..j] == x.order[..j];
    AbsorbAppend(map[], x.q.headers, x.order[..i], x.order[i..j]);
    HeaderLoopLines(HeadersRead(x, i), x.q.headers, x.order[i..j], tail, "", "");
  }

  /** Choosing how to read the body a second time changes nothing. */
  lemma BodyModeTwice(r: Req, b: string)
    requires !r.chunked && Get(r.headers, TE) != "chunked" && BodyMode(r).Good? && r.status == Body
    ensures Parse(BodyMode(r).req, b) == ParseBody(r, b)
  {
    var r1 := BodyMode(r).req;
    assert Touch(r1.headers, TE) == r1.headers;
    assert Touch(Touch(r1.headers, CL), CONN) == r1.headers;
  }

  lemma PostBody(x: Sent)
    requires Ok(x) && x.q.body != ""
    ensures var r := HeadersRead(x, |x.order|).(status := Body);
            && !Bodyless(r) && !r.chunked && Get(r.headers, TE) != "chunked"
            && BodyMode(r).Good? && BodyMode(r).req.ntoread == |x.q.body| && !BodyMode(r).req.chunked
  {
    assert x.order[..|x.order|] == x.order;
    AbsorbIsSame(x.q.headers, x.order);
    PrintedNumberRoundTrip(|x.q.body|, 10, LONG_MAX);
    var h := HeadersRead(x, |x.order|).headers;
    assert Get(h, CL) == Get(x.q.headers, CL) && Get(h, TE) == Get(x.q.headers, TE);
  }

  lemma TailEndsLines(x: Sent, c: Cut)
    requires Ok(x) && ValidCut(x, c) && !c.InFirstLine?
    ensures LinesEnd(TailAt(x, c))
  {
  }

  /** Stopping at a cut: the parser asks for more, in the state listed above. */
  lemma Stops(x: Sent, c: Cut)
    requires Ok(x) && ValidCut(x, c) && !c.Whole?
    ensures Parse(x.p, Prefix(x, c)) == Step(NeedMore, StateAt(x, c), LeftAt(x, c))
  {
    if c.InFirstLine? {
      RequestLineReads(x.p, x.q.verb, x.target, x.q.minor);
      var t := TextOf(x)[..c.n];
      assert OneLine(t);
      NoEol(t);
    } else {
      FromStart(x, HeadersAt(x, c), TailAt(x, c));
      if c.InBody? {
        PostBody(x);
        assert (CRLF + x.q.body[..c.n])[2..] == x.q.body[..c.n];
      }
    }
  }

  lemma CancelTwice(start: string, lines: string, x: string, piece: string, more: string, y: string)
    requires start + (lines + x) + piece == start + (lines + more + y)
    ensures x + piece == more + y
  {
    Assoc(start, lines + x, piece);
    Cancel(start, lines + x + piece, lines + more + y);
    Assoc(lines, x, piece);
    Assoc(lines, more, y);
    Cancel(lines, x + piece, more + y);
  }

  lemma LinesBetween(h: map<string, string>, order: seq<string>, i: nat, j: nat, start: string,
                     x: string, piece: string, y: string)
    requires (forall k :: k in order ==> k in h) && i <= j <= |order|
    requires start + (HeaderLines(h, order[..i]) + x) + piece == start + (HeaderLines(h, order[..j]) + y)
    ensures x + piece == HeaderLines(h, order[i..j]) + y
  {
    assert order[..i] + order[i..j] == order[..j];
    LinesAppend(h, order[..i], order[i..j]);
    CancelTwice(start, HeaderLines(h, order[..i]), x, piece, HeaderLines(h, order[i..j]), y);
  }

  /** The bytes between two cuts behind the first line. */
  lemma PieceBetween(x: Sent, c: Cut, d: Cut, piece: string)
    requires Ok(x) && ValidCut(x, c) && ValidCut(x, d) && Before(c, d) && !c.InFirstLine?
    requires Prefix(x, c) + piece == Prefix(x, d)
    ensures TailAt(x, c) + piece == HeaderLines(x.q.headers, x.order[HeadersAt(x, c)..HeadersAt(x, d)]) + TailAt(x, d)
  {
    LinesBetween(x.q.headers, x.order, HeadersAt(x, c), HeadersAt(x, d), TextOf(x) + CRLF,
                 TailAt(x, c), piece, TailAt(x, d));
  }

  /** Going on from a cut with the bytes up to a later point gives what one
      delivery up to that point gives. */
  lemma Resumes(x: Sent, c: Cut, d: Cut, piece: string)
    requires Ok(x) && ValidCut(x, c) && ValidCut(x, d) && Before(c, d)
    requires Prefix(x, c) + piece == Prefix(x, d)
    ensures Parse(StateAt(x, c), LeftAt(x, c) + piece) == Parse(x.p, Prefix(x, d))
  {
    if !c.InFirstLine? {
      PieceBetween(x, c, d, piece);
      TailEndsLines(x, d);
      FromStart(x, HeadersAt(x, d), TailAt(x, d));
      if c.AfterHeaders? {
        FromHeaders(x, c.n, HeadersAt(x, d), TailAt(x, d));
      } else {
        assert x.order[|x.order|..|x.order|] == [] && "" + TailAt(x, d) == TailAt(x, d);
        ResumesBody(x, c, d, piece);
      }
    }
  }

  lemma ResumesBody(x: Sent, c: Cut, d: Cut, piece: string)
    requires Ok(x) && ValidCut(x, c) && ValidCut(x, d) && c.InBody? && (d.InBody? || d.Whole?)
    requires TailAt(x, c) + piece == TailAt(x, d)
    ensures Parse(StateAt(x, c), LeftAt(x, c) + piece) ==
            EndHeaders(AfterLines(HeadersRead(x, |x.order|), TailAt(x, d)))
  {
    PostBody(x);
    var b := if d.InBody? then x.q.body[..d.n] else x.q.body + d.rest;
    Assoc(CRLF, x.q.body[..c.n], piece);
    Cancel(CRLF, x.q.body[..c.n] + piece, b);
    BodyModeTwice(HeadersRead(x, |x.order|).(status := Body), b);
    assert (CRLF + b)[2..] == b;
  }

  // ---------------------------------------------------------------------------
  // The cuts it does not survive

  /** What `parse` does when it takes the headers for ended behind the first `i`,
      with `b` to come: a request without a body is complete, another one goes on
      with `b` as its body. */
  ghost function Ended(x: Sent, i: nat, b: string): Step
    requires Ok(x) && i <= |x.order|
  {
    EndHeaders(HeaderStep(AtEnd, HeadersRead(x, i), b))
  }

  /** Cut inside a header line: the parser takes the unfinished line for the empty
      one and leaves it in the buffer. */
  lemma CutInsideHeader(x: Sent, i: nat, part: string)
    requires Ok(x) && i <= |x.order| && part != "" && OneLine(part)
    ensures Parse(x.p, TextOf(x) + CRLF + (HeaderLines(x.q.headers, x.order[..i]) + part)) == Ended(x, i, part)
  {
    FromStart(x, i, part);
    assert InLine(part[0]);
  }

  /** Cut between the CR and the LF of the empty line: the headers end too early. */
  lemma CutInsideEmptyLine(x: Sent)
    requires Ok(x)
    ensures Parse(x.p, TextOf(x) + CRLF + (HeaderLines(x.q.headers, x.order) + [CR])) == Ended(x, |x.order|, "")
  {
    assert x.order[..|x.order|] == x.order;
    RequestLineReads(x.p, x.q.verb, x.target, x.q.minor);
    FirstLineRead(x.p, TextOf(x), FirstRead(x).(status := FirstLine), HeaderLines(x.q.headers, x.order) + [CR]);
    var k, v := HeaderLoopOver(FirstRead(x), x.q.headers, x.order, [CR], "", "");
    PopHalfEnded("");
    assert "" + [CR] == [CR];
    HeaderLoopStep(HeadersRead(x, |x.order|), [CR], k, v);
  }

  /** Cut between the CR and the LF of the first line or of a header: the parser
      asks for more, in the state behind that line. */
  lemma CutInsideFirstEnd(x: Sent)
    requires Ok(x)
    ensures Parse(x.p, TextOf(x) + [CR]) == Step(NeedMore, HeadersRead(x, 0), "")
  {
    RequestLineReads(x.p, x.q.verb, x.target, x.q.minor);
    PopHalfEnded(TextOf(x));
    assert x.order[..0] == [];
  }

  lemma HeadersReadNext(x: Sent, i: nat)
    requires Ok(x) && i < |x.order| && x.q.headers[x.order[i]] != ""
    ensures var r := HeadersRead(x, i);
            HeadersRead(x, i + 1) == r.(headers := r.headers[x.order[i] := x.q.headers[x.order[i]]])
  {
    assert x.order[..i + 1] == x.order[..i] + [x.order[i]];
    AbsorbAppend(map[], x.q.headers, x.order[..i], [x.order[i]]);
  }

  lemma CutInsideHeaderEnd(x: Sent, i: nat)
    requires Ok(x) && i < |x.order| && x.q.headers[x.order[i]] != ""
    ensures var line := x.order[i] + ": " + x.q.headers[x.order[i]];
            Parse(x.p, TextOf(x) + CRLF + (HeaderLines(x.q.headers, x.order[..i]) + (line + [CR]))) ==
            Step(NeedMore, HeadersRead(x, i + 1), "")
  {
    var k, v := x.order[i], x.q.headers[x.order[i]];
    var tail := k + ": " + v + [CR];
    RequestLineReads(x.p, x.q.verb, x.target, x.q.minor);
    FirstLineRead(x.p, TextOf(x), FirstRead(x).(status := FirstLine), HeaderLines(x.q.headers, x.order[..i]) + tail);
    var k1, v1 := HeaderLoopOver(FirstRead(x), x.q.headers, x.order[..i], tail, "", "");
    HeaderLoopHalfEnded(HeadersRead(x, i), k, v, k1, v1);
    HeadersReadNext(x, i);
  }

  /** The LF that then opens the next piece ends the headers, with a CR behind it. */
  lemma CutInsideLineEnd(x: Sent, i: nat, more: string)
    requires Ok(x) && i <= |x.order|
    ensures Parse(HeadersRead(x, i), [LF] + more) ==
            Ended(x, i, if more != "" && more[0] == CR then more[1..] else more)
  {
    LfOpens(HeadersRead(x, i), more);
  }

  lemma LfOpens(r: Req, more: string)
    ensures HeaderLoop(r, [LF] + more, "", "") ==
            HeaderStep(AtEnd, r, if more != "" && more[0] == CR then more[1..] else more)
  {
    var b := [LF] + more;
    assert FirstEol(b) == 0 && b[..0] == "";
    assert b[1..] == more;
    assert more != "" ==> b[1] == more[0] && b[2..] == more[1..];
    HeaderLoopStep(r, b, "", "");
  }

  // ---------------------------------------------------------------------------
  // Headers that ended too early

  /** A POST in its body, with the request's length or with none. */
  ghost predicate InBodyOf(x: Sent, r: Req) {
    && r.status == Body && !r.chunked && Get(r.headers, TE) != "chunked" && |x.q.body| <= LONG_MAX
    && (Get(r.headers, CL) == "" || Get(r.headers, CL) == Dec(|x.q.body|))
  }

  /** One call there: without a length it never completes; with one it completes as
      soon as that many bytes are in, and leaves the others. */
  lemma BodyCall(x: Sent, r: Req, b: string)
    requires InBodyOf(x, r)
    ensures var s := Parse(r, b);
            && InBodyOf(x, s.req) && Get(s.req.headers, CL) == Get(r.headers, CL)
            && (if Get(r.headers, CL) == "" then s.outcome == NeedMore
                else if |b| < |x.q.body| then s.outcome == NeedMore && s.left == b
                else s.outcome == AllRead && |s.left| + |x.q.body| == |b|)
  {
    PrintedNumberRoundTrip(|x.q.body|, 10, LONG_MAX);
  }

  lemma EndedInBody(x: Sent, i: nat)
    requires Ok(x) && x.q.verb == POST && i <= |x.order|
    ensures InBodyOf(x, HeadersRead(x, i).(status := Body)) && !Bodyless(HeadersRead(x, i))
  {
    AbsorbGets(map[], x.q.headers, x.order[..i], CL);
    AbsorbGets(map[], x.q.headers, x.order[..i], TE);
  }

  /** Headers ended behind the first `i`: the call waits, or all of `b` but as many
      bytes as the true body has is left. */
  lemma EndedCall(x: Sent, i: nat, b: string)
    requires Ok(x) && i <= |x.order|
    ensures var s := Ended(x, i, b);
            s.outcome == NeedMore || (s.outcome == AllRead && |s.left| + |x.q.body| == |b|)
  {
    if x.q.verb == POST {
      EndedInBody(x, i);
      BodyCall(x, HeadersRead(x, i).(status := Body), b);
    }
  }

  /** Where a cut behind the first line falls: behind `headers` headers and `part` of
      the next line, or between the CR and the LF that end it. */
  datatype Spot = Spot(headers: nat, part: string, inEnd: bool)

  function SpotText(h: map<string, string>, order: seq<string>, s: Spot): string
    requires s.headers <= |order| && forall k :: k in order ==> k in h
  {
    HeaderLines(h, order[..s.headers]) + (s.part + if s.inEnd then [CR] else "")
  }

  predicate SpotOk(h: map<string, string>, order: seq<string>, s: Spot)
    requires forall k :: k in order ==> k in h
  {
    && s.headers <= |order| && OneLine(s.part)
    && (s.inEnd ==>
          if s.headers == |order| then s.part == ""
          else h[order[s.headers]] != "" && s.part == order[s.headers] + ": " + h[order[s.headers]])
  }

  /** One more line in front of a spot. */
  lemma SpotShift(h: map<string, string>, order: seq<string>, s: Spot)
    requires (forall k :: k in order ==> k in h) && order != [] && s.headers < |order|
    ensures SpotText(h, order, s.(headers := s.headers + 1)) ==
            (if h[order[0]] == "" then "" else HeaderLine(order[0], h[order[0]])) + SpotText(h, order[1..], s)
  {
    assert order[..s.headers + 1][1..] == order[1..][..s.headers];
    LinesUnfold(h, order[..s.headers + 1], s.part + if s.inEnd then [CR] else "");
    assert "" + SpotText(h, order[1..], s) == SpotText(h, order[1..], s);
  }

  lemma SpotOkShift(h: map<string, string>, order: seq<string>, s: Spot)
    requires (forall k :: k in order ==> k in h) && order != [] && SpotOk(h, order[1..], s)
    ensures SpotOk(h, order, s.(headers := s.headers + 1))
  {
    assert s.headers + 1 < |order| ==> order[1..][s.headers] == order[s.headers + 1];
  }

  /** A cut inside the first line. */
  lemma LocateFirst(h: map<string, string>, order: seq<string>, n: nat) returns (s: Spot)
    requires (forall k :: k in order ==> k in h) && CleanHeaders(h) && order != [] && h[order[0]] != ""
    requires n <= |order[0] + ": " + h[order[0]]| + 1
    ensures SpotOk(h, order, s) && (HeaderLines(h, order) + CRLF)[..n] == SpotText(h, order, s)
    ensures s.inEnd ==> (HeaderLines(h, order) + CRLF)[n] == LF && n + 3 <= |HeaderLines(h, order) + CRLF|
  {
    var k, v := order[0], h[order[0]];
    var line := k + ": " + v;
    HeaderLineSplits(k, v);
    LinesUnfold(h, order, CRLF);
    TakeLine(line, HeaderLines(h, order[1..]) + CRLF, n);
    assert HeaderLines(h, order[..0]) == "";
    s := if n <= |line| then Spot(0, line[..n], false) else Spot(0, line, true);
    assert "" + (s.part + "") == s.part && "" + (s.part + [CR]) == s.part + [CR];
  }

  lemma TakeLine(line: string, more: string, n: nat)
    requires n <= |line| + 1
    ensures (line + CRLF + more)[..n] == if n <= |line| then line[..n] else line + [CR]
    ensures n == |line| + 1 ==> (line + CRLF + more)[n] == LF
  {
  }

  lemma TakeOver(a: string, b: string, n: nat)
    requires |a| <= n < |a| + |b|
    ensures (a + b)[..n] == a + b[..n - |a|] && (a + b)[n] == b[n - |a|]
  {
  }

  /** Every cut in the header lines and the empty line falls on one of these spots;
      behind a CR comes its LF, and the empty line is still to come unless it is cut. */
  lemma {:induction false} Locate(h: map<string, string>, order: seq<string>, n: nat) returns (s: Spot)
    requires (forall k :: k in order ==> k in h) && CleanHeaders(h) && n <= |HeaderLines(h, order)| + 1
    ensures Located(h, order, n, s)
    decreases |order|
  {
    if order == [] {
      s := Spot(0, "", n == 1);
    } else if h[order[0]] != "" && n < |HeaderLine(order[0], h[order[0]])| {
      s := LocateFirst(h, order, n);
    } else {
      var first := if h[order[0]] == "" then "" else HeaderLine(order[0], h[order[0]]);
      LinesUnfold(h, order, CRLF);
      var t := Locate(h, order[1..], n - |first|);
      LocateNext(h, order, n, t);
      s := t.(headers := t.headers + 1);
    }
  }

  ghost predicate Located(h: map<string, string>, order: seq<string>, n: nat, s: Spot)
    requires (forall k :: k in order ==> k in h) && n <= |HeaderLines(h, order)| + 1
  {
    && SpotOk(h, order, s) && (HeaderLines(h, order) + CRLF)[..n] == SpotText(h, order, s)
    && (s.inEnd ==> (HeaderLines(h, order) + CRLF)[n] == LF)
    && (s.inEnd && s.headers < |order| ==> n + 3 <= |HeaderLines(h, order) + CRLF|)
  }

  lemma LocateNext(h: map<string, string>, order: seq<string>, n: nat, t: Spot)
    requires (forall k :: k in order ==> k in h) && order != []
    requires var first := if h[order[0]] == "" then "" else HeaderLine(order[0], h[order[0]]);
             && |first| <= n <= |HeaderLines(h, order)| + 1
             && |HeaderLines(h, order)| == |first| + |HeaderLines(h, order[1..])|
             && Located(h, order[1..], n - |first|, t)
    ensures Located(h, order, n, t.(headers := t.headers + 1))
  {
    var first := if h[order[0]] == "" then "" else HeaderLine(order[0], h[order[0]]);
    var rest := HeaderLines(h, order[1..]) + CRLF;
    LinesUnfold(h, order, CRLF);
    SpotOkShift(h, order, t);
    SpotShift(h, order, t);
    TakeOver(first, rest, n);
  }

  /** The printed request up to its body. */
  ghost function HeadText(x: Sent): string
    requires Ok(x)
  {
    TextOf(x) + CRLF + (HeaderLines(x.q.headers, x.order) + CRLF)
  }

  /** The positions at which a request may be cut: in the text of the first line, at
      the end of a header line, or anywhere in the body. */
  ghost predicate SafeAt(x: Sent, n: nat)
    requires Ok(x)
  {
    || n <= |TextOf(x)|
    || (exists i :: 0 <= i <= |x.order| && n == |TextOf(x)| + 2 + |HeaderLines(x.q.headers, x.order[..i])|)
    || n >= |HeadText(x)|
  }

  lemma WireOf(x: Sent)
    requires Ok(x)
    ensures SendTo(x.q, x.order) == HeadText(x) + x.q.body
  {
    var lines := HeaderLines(x.q.headers, x.order);
    Assoc(lines, CRLF, x.q.body);
    Assoc(TextOf(x) + CRLF, lines + CRLF, x.q.body);
  }

  lemma LinesSplit(h: map<string, string>, order: seq<string>, i: nat, start: string)
    requires (forall k :: k in order ==> k in h) && i <= |order|
    ensures start + (HeaderLines(h, order) + CRLF) ==
            start + HeaderLines(h, order[..i]) + (HeaderLines(h, order[i..]) + CRLF)
  {
    var a, b := HeaderLines(h, order[..i]), HeaderLines(h, order[i..]);
    assert order[..i] + order[i..] == order;
    LinesAppend(h, order[..i], order[i..]);
    Assoc(a, b, CRLF);
    Assoc(start, a, b + CRLF);
  }

  lemma TakePrefix(a: string, b: string)
    ensures (a + b)[..|a|] == a
  {
  }

  /** The printed request up to the end of the i-th header line. */
  lemma WireAfterHeaders(x: Sent, i: nat)
    requires Ok(x) && i <= |x.order|
    ensures var start := TextOf(x) + CRLF + HeaderLines(x.q.headers, x.order[..i]);
            |start| <= |SendTo(x.q, x.order)| && SendTo(x.q, x.order)[..|start|] == start
  {
    var start := TextOf(x) + CRLF + HeaderLines(x.q.headers, x.order[..i]);
    var more := HeaderLines(x.q.headers, x.order[i..]) + CRLF;
    WireOf(x);
    LinesSplit(x.q.headers, x.order, i, TextOf(x) + CRLF);
    Assoc(start, more, x.q.body);
    TakePrefix(start, more + x.q.body);
  }

  lemma CutInBody(x: Sent, n: nat)
    requires Ok(x) && |HeadText(x)| <= n < |SendTo(x.q, x.order)|
    ensures n - |HeadText(x)| < |x.q.body| && Prefix(x, InBody(n - |HeadText(x)|)) == SendTo(x.q, x.order)[..n]
  {
    var m, lines := n - |HeadText(x)|, HeaderLines(x.q.headers, x.order);
    WireOf(x);
    TakeOver(HeadText(x), x.q.body, n);
    assert x.order[..|x.order|] == x.order;
    Assoc(lines, CRLF, x.q.body[..m]);
    Assoc(TextOf(x) + CRLF, lines + CRLF, x.q.body[..m]);
  }

  lemma SafeCut(x: Sent, n: nat) returns (c: Cut)
    requires Ok(x) && n < |SendTo(x.q, x.order)| && SafeAt(x, n)
    ensures ValidCut(x, c) && !c.Whole? && Prefix(x, c) == SendTo(x.q, x.order)[..n]
  {
    if n <= |TextOf(x)| {
      c := InFirstLine(n);
      WireOf(x);
    } else if n >= |HeadText(x)| {
      c := InBody(n - |HeadText(x)|);
      CutInBody(x, n);
    } else {
      var i :| 0 <= i <= |x.order| && n == |TextOf(x)| + 2 + |HeaderLines(x.q.headers, x.order[..i])|;
      var a := HeaderLines(x.q.headers, x.order[..i]);
      c := AfterHeaders(i);
      WireAfterHeaders(x, i);
      assert a + "" == a;
    }
  }

  /** The request and what follows it, cut behind `n` bytes. */
  ghost predicate CutIn(x: Sent, n: nat, first: string, second: string, rest: string)
    requires Ok(x)
  {
    |first| == n && first + second == SendTo(x.q, x.order) + rest
  }

  lemma CutParts(x: Sent, n: nat, first: string, second: string, rest: string)
    requires Ok(x) && CutIn(x, n, first, second, rest) && n < |HeadText(x)|
    ensures first == HeadText(x)[..n] && second != "" && second == [HeadText(x)[n]] + second[1..]
    ensures |second| == |HeadText(x)| - n + |x.q.body| + |rest|
  {
    WireOf(x);
    var all := HeadText(x) + x.q.body + rest;
    assert first == all[..n] == HeadText(x)[..n];
    assert second[0] == all[n] == HeadText(x)[n];
  }

  /** Where an unsafe cut behind the first line falls. */
  lemma UnsafeSpot(x: Sent, n: nat) returns (s: Spot)
    requires Ok(x) && |TextOf(x)| + 1 < n && !SafeAt(x, n)
    ensures n < |HeadText(x)| && SpotOk(x.q.headers, x.order, s)
    ensures HeadText(x)[..n] == TextOf(x) + CRLF + SpotText(x.q.headers, x.order, s) && (s.part != "" || s.inEnd)
    ensures (s.inEnd ==> HeadText(x)[n] == LF) && (s.inEnd && s.headers < |x.order| ==> n + 3 <= |HeadText(x)|)
  {
    s := Locate(x.q.headers, x.order, n - |TextOf(x)| - 2);
    TakeOver(TextOf(x) + CRLF, HeaderLines(x.q.headers, x.order) + CRLF, n);
    var lines := HeaderLines(x.q.headers, x.order[..s.headers]);
    assert n == |TextOf(x)| + 2 + |lines| + |s.part| + if s.inEnd then 1 else 0;
  }
}
