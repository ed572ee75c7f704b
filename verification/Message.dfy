/**
 HTTP messages as values: what http/request.cc prints and how it parses.

 `Req` is the state of a `request` object.  The functions here say what one call
 does to that state and to the content of the input buffer; the class in
 Request.dfy runs the same steps on byte buffers.
 */
module Message {
  import opened Text
  import Percent

  datatype Kind = REQUEST | RESPONSE
  datatype Method = GET | POST | HEAD
  datatype Status = FirstLine | Headers | Body | Trailer

  /** The parser's verdicts, the exception of `std::stol`, and the undefined
      read of percent decoding. */
  datatype Outcome = AllRead | NeedMore | Corrupted | Throws | Undefined

  datatype Req = Req(
    kind: Kind,
    verb: Method,
    status: Status,
    major: nat,
    minor: nat,
    uri: string,
    query: string,
    code: int,
    reason: string,
    headers: map<string, string>,
    body: string,
    chunked: bool,
    ntoread: int,
    firstline: string)

  /** A new object: only `verb` and `code` have no initial value. */
  predicate Fresh(r: Req) {
    && r.status == FirstLine && r.headers == map[] && r.body == "" && !r.chunked && r.ntoread == 0
    && r.uri == "" && r.query == "" && r.reason == "" && r.firstline == "" && r.major == 1 && r.minor == 1
  }

  /** `get_header`: an absent header reads as empty. */
  function Get(headers: map<string, string>, k: string): string {
    if k in headers then headers[k] else ""
  }

  /** `headers[k]` used as a value inserts an empty entry. */
  function Touch(headers: map<string, string>, k: string): map<string, string> {
    headers[k := Get(headers, k)]
  }

  const TE := "Transfer-Encoding"
  const CL := "Content-Length"
  const CONN := "Connection"
  const CT := "Content-Type"
  const HTML := "text/html; charset=utf-8"

  // ---------------------------------------------------------------------------
  // Lines

  predicate IsEol(c: char) { c == CR || c == LF }

  function FirstEol(b: string): (i: nat)
    ensures i <= |b| && (i < |b| ==> IsEol(b[i]))
    ensures forall j :: 0 <= j < i ==> !IsEol(b[j])
  {
    if b == "" || IsEol(b[0]) then 0 else 1 + FirstEol(b[1..])
  }

  /** The bytes before the first NUL: a `std::string` built from a C string. */
  function CString(s: string): string {
    s[..IndexOf(s, NUL, 0)]
  }

  /** CR LF and LF CR end a line together. */
  function EolLength(b: string, i: nat): (n: nat)
    requires i < |b|
    ensures i + n <= |b| && 1 <= n <= 2
  {
    if i + 1 < |b| && IsEol(b[i + 1]) && b[i + 1] != b[i] then 2 else 1
  }

  datatype Line = Line(text: string, rest: string)

  /** `buffer::pop()`: the first line, ended by CR LF, LF CR, CR or LF; an empty
      text and an untouched buffer when there is no line end yet. */
  function PopLine(b: string): (l: Line)
    ensures |l.rest| <= |b|
    ensures l.text != "" ==> |l.rest| < |b|
  {
    var i := FirstEol(b);
    if i == |b| then Line("", b)
    else Line(CString(b[..i]), b[i + EolLength(b, i)..])
  }

  /** The line of a text begins with the text's first character, if there is one. */
  lemma TextBegins(b: string)
    requires b != ""
    ensures var t := PopLine(b).text; t != "" ==> t[0] == b[0]
  {
  }

  lemma {:induction false} FirstEolOf(t: string, x: string)
    requires OneLine(t) && x != "" && IsEol(x[0])
    ensures FirstEol(t + x) == |t|
  {
    if t == "" {
      assert t + x == x;
    } else {
      assert (t + x)[1..] == t[1..] + x;
      assert InLine(t[0]);
      FirstEolOf(t[1..], x);
    }
  }

  lemma PopWholeLine(t: string, x: string)
    requires OneLine(t)
    ensures PopLine(t + CRLF + x) == Line(t, x)
  {
    var b := t + CRLF + x;
    assert b == t + (CRLF + x);
    FirstEolOf(t, CRLF + x);
    assert b[..|t|] == t && b[|t| + 2..] == x;
    assert IndexOf(t, NUL, 0) == |t|;
  }

  /** A line that has got only the CR of its end. */
  lemma PopHalfEnded(t: string)
    requires OneLine(t)
    ensures PopLine(t + [CR]) == Line(t, "")
  {
    FirstEolOf(t, [CR]);
    assert (t + [CR])[..|t|] == t && IndexOf(t, NUL, 0) == |t|;
  }

  lemma {:induction false} NoEol(t: string)
    requires OneLine(t)
    ensures FirstEol(t) == |t| && PopLine(t) == Line("", t)
  {
    if t != "" {
      assert InLine(t[0]);
      NoEol(t[1..]);
    }
  }

  // ---------------------------------------------------------------------------
  // Parsing

  /** The result of a parsing call: its verdict, the new object, the bytes left. */
  datatype Step = Step(outcome: Outcome, req: Req, left: string)

  /** The verdict of a first-line parser: a new object, or why there is none. */
  datatype Head = Good(req: Req) | Bad(why: Outcome, req: Req)

  function Protocol(r: Req, p: string): Head {
    if p == "HTTP/1.0" then Good(r.(major := 1, minor := 0))
    else if p == "HTTP/1.1" then Good(r.(major := 1, minor := 1))
    else Bad(Corrupted, r)
  }

  function MethodOf(name: string): seq<Method> {
    if name == "GET" then [GET] else if name == "POST" then [POST] else if name == "HEAD" then [HEAD] else []
  }

  /** The path in front of the first '?'. */
  function PathOf(target: string): string { target[..IndexOf(target, '?', 0)] }

  /** What follows the first '?'; without one the object's query stays as it is. */
  function QueryOf(target: string, current: string): string {
    var k := IndexOf(target, '?', 0);
    if k < |target| then target[k + 1..] else current
  }

  /** The line cut at its first two spaces: three words, or nothing. */
  function Words(line: string): (w: seq<string>)
    ensures w == [] || |w| == 3
  {
    var k1 := IndexOf(line, ' ', 0);
    if k1 == |line| then [] else
    var k2 := IndexOf(line, ' ', k1 + 1);
    if k2 == |line| then [] else [line[..k1], line[k1 + 1..k2], line[k2 + 1..]]
  }

  /** method SP target SP protocol */
  function ParseRequestLine(r: Req, line: string): Head {
    var w := Words(line);
    if w == [] || MethodOf(w[0]) == [] then Bad(Corrupted, r) else
    var r1 := r.(verb := MethodOf(w[0])[0], query := QueryOf(w[1], r.query));
    var path := Percent.Decode(PathOf(w[1]));
    if path.Undefined? then Bad(Undefined, r1)
    else Protocol(r1.(uri := path.value), w[2])
  }

  /** protocol SP code SP reason */
  function ParseResponseLine(r: Req, line: string): Head {
    var w := Words(line);
    if w == [] then Bad(Corrupted, r) else
    var p := Protocol(r, w[0]);
    if p.Bad? then p else
    var code := Stol(w[1], 10, INT_MAX);
    if !code.Number? then Bad(Throws, p.req)
    else Good(p.req.(code := code.value, reason := w[2]))
  }

  function ParseHead(r: Req, line: string): Head {
    if r.kind.REQUEST? then ParseRequestLine(r, line) else ParseResponseLine(r, line)
  }

  /** How the header loop ends: at an empty line, for want of bytes, or on a bad line. */
  datatype LoopEnd = AtEnd | OutOfBytes | BadLine

  datatype HeaderStep = HeaderStep(end: LoopEnd, req: Req, left: string)

  /** One header line: the loop ends, or it goes on with new headers and with
      this line's name and value as the last ones. */
  datatype LineStep = Stop(end: LoopEnd) | Go(headers: map<string, string>, k: string, v: string)

  function ReadLine(headers: map<string, string>, line: string, k: string, v: string): (s: LineStep)
    ensures s.Go? ==> line != ""
  {
    if line == "" then Stop(AtEnd)
    else if IsBlank(line[0]) then
      if k == "" then Stop(BadLine) else Go(headers[k := v + LTrimBlank(line)], k, v)
    else
      var pos := IndexOf(line, ':', 0);
      if pos == |line| then Stop(BadLine)
      else
        var k', v' := Trim(line[..pos]), Trim(line[pos + 1..]);
        Go(headers[k' := v'], k', v')
  }

  /** The loop of `parse_headers`; `k` and `v` are the last name and value. */
  function HeaderLoop(r: Req, b: string, k: string, v: string): HeaderStep
    decreases |b|
  {
    if b == "" then HeaderStep(OutOfBytes, r, b) else
    var Line(line, rest) := PopLine(b);
    match ReadLine(r.headers, line, k, v)
    case Stop(end) => HeaderStep(end, r, rest)
    case Go(headers, k', v') => HeaderLoop(r.(headers := headers), rest, k', v')
  }

  lemma HeaderLoopStep(r: Req, b: string, k: string, v: string)
    ensures HeaderLoop(r, b, k, v) ==
            if b == "" then HeaderStep(OutOfBytes, r, b) else
            match ReadLine(r.headers, PopLine(b).text, k, v)
            case Stop(end) => HeaderStep(end, r, PopLine(b).rest)
            case Go(headers, k', v') => HeaderLoop(r.(headers := headers), PopLine(b).rest, k', v')
  {
  }

  /** A message that ends at the empty line whatever its headers say. */
  predicate Bodyless(r: Req) {
    match r.kind
    case REQUEST => r.verb != POST
    case RESPONSE => r.code == 204 || r.code == 304 || 100 <= r.code < 200
  }

  function Outcomes(end: LoopEnd): Outcome {
    match end
    case AtEnd => AllRead
    case OutOfBytes => NeedMore
    case BadLine => Corrupted
  }

  function ParseTrailer(r: Req, b: string): Step {
    var h := HeaderLoop(r, b, "", "");
    Step(Outcomes(h.end), h.req, h.left)
  }

  /** What the chunk loop makes of a size line. */
  datatype Size = NotANumber | Negative(value: int) | LastChunk | DataChunk(size: nat)

  function SizeOf(line: string): (s: Size)
    ensures s.DataChunk? ==> line != "" && s.size > 0
  {
    var n := Stol(line, 16, LONG_MAX);
    if !n.Number? then NotANumber
    else if line == "" || n.value < 0 then Negative(n.value)
    else if n.value == 0 then LastChunk
    else DataChunk(n.value)
  }

  /** The chunk loop of `parse_body`. */
  function ChunkLoop(r: Req, b: string): Step
    decreases |b|
  {
    if b == "" then Step(NeedMore, r, b)
    else if r.ntoread < 0 then
      var Line(line, rest) := PopLine(b);
      match SizeOf(line)
      case NotANumber => Step(Throws, r, rest)
      case Negative(n) => Step(Corrupted, r.(ntoread := n), rest)
      case LastChunk => ParseTrailer(r.(ntoread := 0, status := Trailer), rest)
      case DataChunk(n) => ChunkLoop(r.(ntoread := n), rest)
    else if |b| < r.ntoread then Step(NeedMore, r, b)
    else
      var n := ChunkTake(r.ntoread, b);
      ChunkLoop(r.(body := r.body + b[..n], ntoread := -1), b[n..])
  }

  /** How much of the input a chunk of size `n` takes: the two bytes behind it too. */
  function ChunkTake(n: nat, b: string): nat {
    if n + 2 <= |b| then n + 2 else |b|
  }

  lemma ChunkLoopStep(r: Req, b: string)
    ensures ChunkLoop(r, b) ==
            if b == "" then Step(NeedMore, r, b)
            else if r.ntoread < 0 then
              match SizeOf(PopLine(b).text)
              case NotANumber => Step(Throws, r, PopLine(b).rest)
              case Negative(n) => Step(Corrupted, r.(ntoread := n), PopLine(b).rest)
              case LastChunk => ParseTrailer(r.(ntoread := 0, status := Trailer), PopLine(b).rest)
              case DataChunk(n) => ChunkLoop(r.(ntoread := n), PopLine(b).rest)
            else if |b| < r.ntoread then Step(NeedMore, r, b)
            else
              var n := ChunkTake(r.ntoread, b);
              ChunkLoop(r.(body := r.body + b[..n], ntoread := -1), b[n..])
  {
  }

  /** `get_body_length` with the two headers it reads. */
  function BodyLength(r: Req): Head {
    var r1 := r.(headers := Touch(Touch(r.headers, CL), CONN));
    var length := Get(r.headers, CL);
    if length == "" then Good(r1.(ntoread := -1)) else
    var n := Stol(length, 10, LONG_MAX);
    if !n.Number? then Bad(Throws, r1)
    else if n.value < 0 then Bad(Corrupted, r1.(ntoread := n.value))
    else Good(r1.(ntoread := n.value))
  }

  function BodyMode(r: Req): Head {
    var r1 := r.(headers := Touch(r.headers, TE));
    if Get(r.headers, TE) == "chunked" then Good(r1.(chunked := true, ntoread := -1)) else BodyLength(r1)
  }

  function ParseBody(r: Req, b: string): Step {
    var m := BodyMode(r);
    if m.Bad? then Step(m.why, m.req, b) else
    var r1 := m.req;
    if r1.chunked then ChunkLoop(r1, b)
    else if r1.ntoread < 0 then Step(NeedMore, r1.(body := r1.body + b), "")
    else if |b| >= r1.ntoread then Step(AllRead, r1.(body := r1.body + b[..r1.ntoread]), b[r1.ntoread..])
    else Step(NeedMore, r1, b)
  }

  /** What `parse_headers` does when its loop has stopped. */
  function EndHeaders(h: HeaderStep): Step {
    if !h.end.AtEnd? then Step(Outcomes(h.end), h.req, h.left)
    else if Bodyless(h.req) then Step(AllRead, h.req, h.left)
    else ParseBody(h.req.(status := Body), h.left)
  }

  function ParseHeaders(r: Req, b: string): Step {
    EndHeaders(HeaderLoop(r, b, "", ""))
  }

  /** The rest of the call once a first line has been popped. */
  function AfterFirstLine(r: Req, line: string, rest: string): Step {
    var head := ParseHead(r, line);
    if head.Bad? then Step(head.why, head.req, rest)
    else ParseHeaders(head.req.(status := Headers), rest)
  }

  function ParseFirstLine(r: Req, b: string): Step {
    if b == "" then Step(NeedMore, r, b) else
    var Line(line, rest) := PopLine(b);
    if line == "" then Step(NeedMore, r, rest) else AfterFirstLine(r, line, rest)
  }

  /** `request::parse` */
  function Parse(r: Req, b: string): Step {
    match r.status
    case FirstLine => ParseFirstLine(r, b)
    case Headers => ParseHeaders(r, b)
    case Body => ParseBody(r, b)
    case Trailer => ParseTrailer(r, b)
  }

  // ---------------------------------------------------------------------------
  // Every call leaves a suffix

  predicate SuffixOf(s: string, b: string) {
    |s| <= |b| && s == b[|b| - |s|..]
  }

  lemma PopLineSuffix(b: string)
    ensures SuffixOf(PopLine(b).rest, b)
  {
  }

  lemma SuffixTrans(s: string, t: string, b: string)
    requires SuffixOf(s, t) && SuffixOf(t, b)
    ensures SuffixOf(s, b)
  {
  }

  lemma {:induction false} HeaderLoopSuffix(r: Req, b: string, k: string, v: string)
    ensures SuffixOf(HeaderLoop(r, b, k, v).left, b)
    decreases |b|
  {
    if b != "" {
      var Line(line, rest) := PopLine(b);
      PopLineSuffix(b);
      var s := ReadLine(r.headers, line, k, v);
      if s.Go? {
        HeaderLoopSuffix(r.(headers := s.headers), rest, s.k, s.v);
        SuffixTrans(HeaderLoop(r, b, k, v).left, rest, b);
      }
    }
  }

  lemma {:induction false} ChunkLoopSuffix(r: Req, b: string)
    ensures SuffixOf(ChunkLoop(r, b).left, b)
    decreases |b|
  {
    var left := ChunkLoop(r, b).left;
    if b != "" {
      if r.ntoread < 0 {
        var Line(line, rest) := PopLine(b);
        PopLineSuffix(b);
        match SizeOf(line)
        case LastChunk =>
          HeaderLoopSuffix(r.(ntoread := 0, status := Trailer), rest, "", "");
          SuffixTrans(left, rest, b);
        case DataChunk(n) =>
          ChunkLoopSuffix(r.(ntoread := n), rest);
          SuffixTrans(left, rest, b);
        case _ =>
      } else if |b| >= r.ntoread {
        var n := ChunkTake(r.ntoread, b);
        ChunkLoopSuffix(r.(body := r.body + b[..n], ntoread := -1), b[n..]);
        SuffixTrans(left, b[n..], b);
      }
    }
  }

  lemma BodySuffix(r: Req, b: string)
    ensures SuffixOf(ParseBody(r, b).left, b)
  {
    ChunkLoopSuffix(BodyMode(r).req, b);
  }

  lemma HeadersSuffix(r: Req, b: string)
    ensures SuffixOf(ParseHeaders(r, b).left, b)
  {
    HeaderLoopSuffix(r, b, "", "");
    var h := HeaderLoop(r, b, "", "");
    if h.end.AtEnd? && !Bodyless(h.req) {
      BodySuffix(h.req.(status := Body), h.left);
      SuffixTrans(ParseHeaders(r, b).left, h.left, b);
    }
  }

  /** On any object and any bytes a call of `parse` leaves a suffix of its input,
      and a new object is complete only after at least one byte. */
  lemma ParseLeavesSuffix(r: Req, b: string)
    ensures SuffixOf(Parse(r, b).left, b)
    ensures r.status == FirstLine && Parse(r, b).outcome == AllRead ==> |Parse(r, b).left| < |b|
  {
    match r.status
    case FirstLine =>
      if b != "" {
        var Line(line, rest) := PopLine(b);
        var head := ParseHead(r, line);
        PopLineSuffix(b);
        HeadersSuffix(head.req.(status := Headers), rest);
        if line != "" && head.Good? {
          SuffixTrans(Parse(r, b).left, rest, b);
        }
      }
    case Headers => HeadersSuffix(r, b);
    case Body => BodySuffix(r, b);
    case Trailer => HeaderLoopSuffix(r, b, "", "");
  }
}
