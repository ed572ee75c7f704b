/**
 What `set_request`, `set_response` and `send_to` print, `parse` reads back:
 requests one after another on the same connection, and responses.
 */
module RoundTrip {
  import opened Common
  import opened Text
  import opened Message
  import Percent


  // ---------------------------------------------------------------------------
  // Printing

  function MethodName(m: Method): string {
    match m case GET => "GET" case POST => "POST" case HEAD => "HEAD"
  }

  function Version(r: Req): string {
    "HTTP/" + Dec(r.major) + "." + Dec(r.minor)
  }

  function SetHeader(r: Req, k: string, v: string): Req {
    r.(headers := r.headers[k := v])
  }

  function SetRequest(r: Req, m: Method, uri: string, content: string): Req {
    var body := r.body + content;
    var headers := map[CT := HTML];
    r.(verb := m, uri := uri, body := body,
       headers := if m == POST then headers[CL := Dec(|body|)] else headers,
       firstline := MethodName(m) + " " + uri + " " + Version(r) + CRLF)
  }

  function ErrorPage(code: nat, reason: string): string {
    "<html><head><title>" + Dec(code) + " " + reason + "</title></head>\n" +
    "<body>\n<h1>Method Not Implemented</h1>\n" +
    "<p>Invalid method in request</p>\n" +
    "</body></html>\n"
  }

  function NotFoundPage(escapedUri: string): string {
    "<html><head><title>404 Not Found</title></head>\n" +
    "<body><h1>Not Found</h1>\n" +
    "<p>The requested URL " + escapedUri + " was not found on this server.</p>" +
    "</body></html>\n"
  }

  /** The body `set_response` chooses when it is given no content. */
  function DefaultPage(code: nat, reason: string, escapedUri: string): string {
    if code == 200 || code == 204 then ""
    else if code == 404 then NotFoundPage(escapedUri)
    else ErrorPage(code, reason)
  }

  /** The headers of a response whose body has `n` bytes. */
  function ResponseHeaders(major: nat, minor: nat, n: nat, date: string): map<string, string> {
    var h0 := if major == 1 && minor == 1 then map["Date" := date, CONN := "keep-alive"]
              else if major == 1 then map[CONN := ""] else map[];
    var h1 := if Get(h0, CONN) == "keep-alive" then h0[CL := Dec(n)] else h0;
    if n > 0 then h1[CL := Dec(n)][CT := HTML] else h1
  }

  /** `date` is the clock's text and `escapedUri` the object's URI escaped for HTML. */
  function SetResponse(r: Req, code: nat, reason: string, content: Option<string>, date: string,
      escapedUri: string): Req {
    var body := r.body + if content.Some? then content.value else DefaultPage(code, reason, escapedUri);
    r.(kind := RESPONSE, code := code, reason := reason, body := body,
       headers := ResponseHeaders(r.major, r.minor, |body|, date),
       firstline := Version(r) + " " + Dec(code) + " " + reason + CRLF)
  }

  function HeaderLine(k: string, v: string): string {
    k + ": " + v + CRLF
  }

  function HeaderLines(headers: map<string, string>, order: seq<string>): string
    requires forall k :: k in order ==> k in headers
  {
    if order == [] then ""
    else
      var v := headers[order[0]];
      (if v == "" then "" else HeaderLine(order[0], v)) + HeaderLines(headers, order[1..])
  }

  lemma {:induction false} LinesAppend(h: map<string, string>, a: seq<string>, b: seq<string>)
    requires forall k :: k in a || k in b ==> k in h
    ensures forall k :: k in a + b ==> k in h
    ensures HeaderLines(h, a + b) == HeaderLines(h, a) + HeaderLines(h, b)
  {
    if a == [] {
      assert a + b == b;
    } else {
      assert (a + b)[1..] == a[1..] + b;
      LinesAppend(h, a[1..], b);
      Assoc(if h[a[0]] == "" then "" else HeaderLine(a[0], h[a[0]]), HeaderLines(h, a[1..]), HeaderLines(h, b));
    }
  }

  /** Any order in which a map may list its keys; `std::map` uses the sorted one. */
  ghost predicate Lists(order: seq<string>, headers: map<string, string>) {
    && (forall k :: k in order <==> k in headers)
    && (forall i, j :: 0 <= i < j < |order| ==> order[i] != order[j])
  }

  function SendTo(r: Req, order: seq<string>): string
    requires forall k :: k in order ==> k in r.headers
  {
    r.firstline + (HeaderLines(r.headers, order) + (CRLF + r.body))
  }

  /** Bytes arriving in pieces: one `parse` per piece on what is left plus the
      piece, until the verdict is not NEEDMORE or the pieces are used up. */
  datatype Fed = Fed(step: Step, used: nat)

  function Feed(r: Req, left: string, pieces: seq<string>): Fed
    requires pieces != []
    decreases |pieces|
  {
    var s := Parse(r, left + pieces[0]);
    if |pieces| == 1 || s.outcome != NeedMore then Fed(s, 1)
    else
      var f := Feed(s.req, s.left, pieces[1..]);
      Fed(f.step, f.used + 1)
  }

  lemma FeedWaits(r: Req, left: string, pieces: seq<string>, r': Req, left': string)
    requires |pieces| > 1 && Parse(r, left + pieces[0]) == Step(NeedMore, r', left')
    ensures var f := Feed(r', left', pieces[1..]);
            Feed(r, left, pieces) == Fed(f.step, f.used + 1)
  {
  }

  lemma FeedEnds(r: Req, left: string, pieces: seq<string>)
    requires |pieces| == 1
    ensures Feed(r, left, pieces) == Fed(Parse(r, left + pieces[0]), 1)
  {
  }

  lemma FeedUnfold(r: Req, left: string, pieces: seq<string>)
    requires pieces != []
    ensures var s := Parse(r, left + pieces[0]);
            Feed(r, left, pieces) ==
            if |pieces| == 1 || s.outcome != NeedMore then Fed(s, 1)
            else var f := Feed(s.req, s.left, pieces[1..]); Fed(f.step, f.used + 1)
  {
  }

  /** All bytes of the pieces. */
  function Joined(pieces: seq<string>): string {
    if pieces == [] then "" else pieces[0] + Joined(pieces[1..])
  }

  lemma JoinedUnfold(pieces: seq<string>, a: string)
    requires pieces != []
    ensures a + Joined(pieces) == a + pieces[0] + Joined(pieces[1..])
  {
    Assoc(a, pieces[0], Joined(pieces[1..]));
  }

  lemma {:induction false} JoinedSplit(pieces: seq<string>, j: nat)
    requires j <= |pieces|
    ensures Joined(pieces[..j]) + Joined(pieces[j..]) == Joined(pieces)
  {
    if j > 0 {
      assert pieces[..j][1..] == pieces[1..][..j - 1] && pieces[1..][j - 1..] == pieces[j..];
      JoinedSplit(pieces[1..], j - 1);
      Assoc(pieces[0], Joined(pieces[1..][..j - 1]), Joined(pieces[j..]));
    } else {
      assert pieces[0..] == pieces && "" + Joined(pieces) == Joined(pieces);
    }
  }

  lemma JoinedNext(pieces: seq<string>, j: nat)
    requires j < |pieces|
    ensures Joined(pieces[..j + 1]) == Joined(pieces[..j]) + pieces[j]
  {
    var front := pieces[..j + 1];
    JoinedSplit(front, j);
    assert front[..j] == pieces[..j] && front[j..] == [pieces[j]];
    assert Joined([pieces[j]]) == pieces[j] + "" == pieces[j];
  }

  lemma JoinedOne(a: string)
    ensures Joined([a]) == a
  {
    assert [a][1..] == [] && Joined([]) == "";
    assert a + "" == a;
  }

  lemma JoinedTwo(a: string, b: string)
    ensures Joined([a, b]) == a + b && Joined([a, b][..1]) == a
  {
    JoinedOne(a);
    JoinedOne(b);
    assert [a, b][1..] == [b] && [a, b][..1] == [a];
  }

  // ---------------------------------------------------------------------------
  // Headers

  /** A header the printer writes and the parser cannot misread. */
  predicate CleanHeader(k: string, v: string) {
    Trimmed(k) && OneLine(k) && Without(k, ':') && Trimmed(v) && OneLine(v)
  }

  ghost predicate CleanHeaders(headers: map<string, string>) {
    forall k :: k in headers ==> CleanHeader(k, headers[k])
  }

  /** The parser's header map after reading the lines of `order`. */
  function Absorb(base: map<string, string>, headers: map<string, string>, order: seq<string>): map<string, string>
    requires forall k :: k in order ==> k in headers
    decreases |order|
  {
    if order == [] then base
    else
      var k := order[0];
      Absorb(if headers[k] == "" then base else base[k := headers[k]], headers, order[1..])
  }

  ghost predicate SameHeaders(a: map<string, string>, b: map<string, string>) {
    forall k :: Get(a, k) == Get(b, k)
  }

  lemma {:induction false} AbsorbGets(base: map<string, string>, headers: map<string, string>, order: seq<string>,
      k: string)
    requires forall j :: j in order ==> j in headers
    ensures Get(Absorb(base, headers, order), k) ==
            if k in order && headers[k] != "" then headers[k] else Get(base, k)
    decreases |order|
  {
    if order != [] {
      var j := order[0];
      AbsorbGets(if headers[j] == "" then base else base[j := headers[j]], headers, order[1..], k);
      assert k in order <==> k == j || k in order[1..];
    }
  }

  lemma AbsorbIsSame(headers: map<string, string>, order: seq<string>)
    requires Lists(order, headers)
    ensures SameHeaders(Absorb(map[], headers, order), headers)
  {
    forall k ensures Get(Absorb(map[], headers, order), k) == Get(headers, k) {
      AbsorbGets(map[], headers, order, k);
    }
  }

  lemma HeaderLineSplits(k: string, v: string)
    requires CleanHeader(k, v) && v != ""
    ensures var line := k + ": " + v;
            && OneLine(line) && line != "" && !IsBlank(line[0])
            && IndexOf(line, ':', 0) == |k|
            && Trim(line[..|k|]) == k && Trim(line[|k| + 1..]) == v
  {
    var line := k + ": " + v;
    assert line[..|k|] == k && line[|k| + 1..] == " " + v;
    TrimUndoesSpace(k);
    TrimUndoesSpace(v);
    forall i | 0 <= i < |line| ensures InLine(line[i]) && (i < |k| ==> line[i] != ':') {
      if i < |k| {
        assert k[i] != ':';
      } else if i >= |k| + 2 {
        assert line[i] == v[i - |k| - 2];
      }
    }
    assert line[|k|] == ':';
  }

  lemma HeaderLoopLine(r: Req, k: string, v: string, tail: string, k0: string, v0: string)
    requires CleanHeader(k, v) && v != ""
    ensures HeaderLoop(r, HeaderLine(k, v) + tail, k0, v0) == HeaderLoop(r.(headers := r.headers[k := v]), tail, k, v)
  {
    var line := k + ": " + v;
    HeaderLineSplits(k, v);
    PopWholeLine(line, tail);
    assert HeaderLine(k, v) + tail == line + CRLF + tail;
  }

  /** What may follow printed header lines in the input: nothing yet, the empty
      line, or the beginning of a line whose end has not arrived. */
  predicate LinesEnd(tail: string) {
    tail == "" || CRLF <= tail || OneLine(tail)
  }

  /** Where the header loop stops.  A line without its end looks empty to it. */
  function AfterLines(r: Req, tail: string): HeaderStep {
    if tail == "" then HeaderStep(OutOfBytes, r, "")
    else HeaderStep(AtEnd, r, if CRLF <= tail then tail[2..] else tail)
  }

  lemma HeaderLoopTail(r: Req, tail: string, k0: string, v0: string)
    requires LinesEnd(tail)
    ensures HeaderLoop(r, tail, k0, v0) == AfterLines(r, tail)
  {
    if CRLF <= tail {
      assert tail == "" + CRLF + tail[2..];
      PopWholeLine("", tail[2..]);
    } else if tail != "" {
      NoEol(tail);
    }
  }

  lemma LinesUnfold(headers: map<string, string>, order: seq<string>, tail: string)
    requires (forall k :: k in order ==> k in headers) && order != []
    ensures HeaderLines(headers, order) + tail ==
            if headers[order[0]] == "" then HeaderLines(headers, order[1..]) + tail
            else HeaderLine(order[0], headers[order[0]]) + (HeaderLines(headers, order[1..]) + tail)
  {
  }

  /** The header loop over printed lines goes on with whatever follows them. */
  lemma {:induction false} HeaderLoopOver(r: Req, headers: map<string, string>, order: seq<string>, tail: string,
      k0: string, v0: string)
    returns (k1: string, v1: string)
    requires (forall k :: k in order ==> k in headers) && CleanHeaders(headers)
    ensures HeaderLoop(r, HeaderLines(headers, order) + tail, k0, v0) ==
            HeaderLoop(r.(headers := Absorb(r.headers, headers, order)), tail, k1, v1)
    decreases |order|
  {
    k1, v1 := k0, v0;
    if order == [] {
      assert HeaderLines(headers, order) + tail == tail;
    } else {
      var k := order[0];
      var v := headers[k];
      LinesUnfold(headers, order, tail);
      if v == "" {
        k1, v1 := HeaderLoopOver(r, headers, order[1..], tail, k0, v0);
      } else {
        k1, v1 := HeaderLoopOver(r.(headers := r.headers[k := v]), headers, order[1..], tail, k, v);
        HeaderLoopLine(r, k, v, HeaderLines(headers, order[1..]) + tail, k0, v0);
      }
    }
  }

  /** A header line that has got only the CR of its end is read like a whole one. */
  lemma HeaderLoopHalfEnded(r: Req, k: string, v: string, k0: string, v0: string)
    requires CleanHeader(k, v) && v != ""
    ensures HeaderLoop(r, k + ": " + v + [CR], k0, v0) == HeaderStep(OutOfBytes, r.(headers := r.headers[k := v]), "")
  {
    var line := k + ": " + v;
    HeaderLineSplits(k, v);
    PopHalfEnded(line);
    HeaderLoopStep(r, line + [CR], k0, v0);
  }

  /** The same, up to the end of the headers or of the bytes. */
  lemma HeaderLoopLines(r: Req, headers: map<string, string>, order: seq<string>, tail: string, k0: string, v0: string)
    requires (forall k :: k in order ==> k in headers) && CleanHeaders(headers)
    requires LinesEnd(tail)
    ensures HeaderLoop(r, HeaderLines(headers, order) + tail, k0, v0) ==
            AfterLines(r.(headers := Absorb(r.headers, headers, order)), tail)
  {
    var k1, v1 := HeaderLoopOver(r, headers, order, tail, k0, v0);
    HeaderLoopTail(r.(headers := Absorb(r.headers, headers, order)), tail, k1, v1);
  }

  // ---------------------------------------------------------------------------
  // One message

  /** The first line as the parser sees it, and the object it makes of it. */
  ghost predicate HeadReads(p: Req, text: string, h: Req) {
    && OneLine(text) && text != ""
    && ParseHead(p, text) == Good(h)
  }

  lemma FirstLineRead(p: Req, text: string, h: Req, x: string)
    requires p.status == FirstLine && HeadReads(p, text, h)
    ensures Parse(p, text + CRLF + x) == ParseHeaders(h.(status := Headers), x)
  {
    PopWholeLine(text, x);
  }

  lemma SendToSplit(q: Req, order: seq<string>, rest: string)
    requires forall k :: k in order ==> k in q.headers
    ensures SendTo(q, order) + rest == q.firstline + (HeaderLines(q.headers, order) + (CRLF + (q.body + rest)))
  {
    var lines := HeaderLines(q.headers, order);
    Assoc(q.firstline, lines + (CRLF + q.body), rest);
    Assoc(lines, CRLF + q.body, rest);
    Assoc(CRLF, q.body, rest);
  }

  /** Up to the end of the headers, every clean message is read as it was written. */
  lemma HeadRoundTrip(q: Req, order: seq<string>, p: Req, text: string, h: Req, rest: string)
    requires q.firstline == text + CRLF && Lists(order, q.headers) && CleanHeaders(q.headers)
    requires p.status == FirstLine && HeadReads(p, text, h)
    ensures var r := h.(status := Headers, headers := Absorb(h.headers, q.headers, order));
            Parse(p, SendTo(q, order) + rest) ==
            if Bodyless(r) then Step(AllRead, r, q.body + rest) else ParseBody(r.(status := Body), q.body + rest)
  {
    SendToSplit(q, order, rest);
    FirstLineRead(p, text, h, HeaderLines(q.headers, order) + (CRLF + (q.body + rest)));
    HeaderLoopLines(h.(status := Headers), q.headers, order, CRLF + (q.body + rest), "", "");
  }

  /** A Content-Length body is read back whole, and nothing after it is touched. */
  lemma LengthBody(r: Req, body: string, rest: string)
    requires !r.chunked && Get(r.headers, TE) != "chunked" && Get(r.headers, CL) == Dec(|body|) && |body| <= LONG_MAX
    ensures var s := ParseBody(r, body + rest);
            && s == Step(AllRead, r.(headers := s.req.headers, ntoread := |body|, body := r.body + body), rest)
            && SameHeaders(s.req.headers, r.headers)
  {
    PrintedNumberRoundTrip(|body|, 10, LONG_MAX);
    assert (body + rest)[..|body|] == body && (body + rest)[|body|..] == rest;
  }

  // ---------------------------------------------------------------------------
  // Requests

  /** A target that survives the parser's splitting at spaces and its decoding. */
  predicate CleanTarget(t: string) {
    OneLine(t) && Without(t, ' ') && Percent.Decode(PathOf(t)).Text?
  }

  /** What the server sees as URI and query. */
  predicate TargetRead(r: Req, target: string) {
    Percent.Decode(PathOf(target)) == Percent.Text(r.uri) && r.query == QueryOf(target, "")
  }

  lemma VersionReads(p: Req, minor: nat)
    requires minor <= 1
    ensures var v := "HTTP/" + Dec(1) + "." + Dec(minor);
            OneLine(v) && Without(v, ' ') && v != "" && Protocol(p, v) == Good(p.(major := 1, minor := minor))
  {
    assert "HTTP/" + Dec(1) + "." + Dec(minor) == if minor == 0 then "HTTP/1.0" else "HTTP/1.1";
  }

  /** Three words with single spaces between them: the last one may hold more. */
  lemma ThreeWords(a: string, b: string, c: string)
    requires Without(a, ' ') && Without(b, ' ')
    ensures Words(a + " " + b + " " + c) == [a, b, c]
  {
    var text := a + " " + b + " " + c;
    var k2 := |a| + 1 + |b|;
    assert text[|a|] == ' ' && text[k2] == ' ';
    forall j | 0 <= j < k2 && j != |a| ensures text[j] != ' ' {
      if j < |a| {
        assert text[j] == a[j] && a[j] != ' ';
      } else {
        assert text[j] == b[j - |a| - 1] && b[j - |a| - 1] != ' ';
      }
    }
    assert IndexOf(text, ' ', 0) == |a| && IndexOf(text, ' ', |a| + 1) == k2;
    assert text[..|a|] == a && text[|a| + 1..k2] == b && text[k2 + 1..] == c;
  }

  lemma OneLineWords(a: string, b: string, c: string)
    requires OneLine(a) && OneLine(b) && OneLine(c)
    ensures OneLine(a + " " + b + " " + c)
  {
    var text := a + " " + b + " " + c;
    forall i | 0 <= i < |text| ensures InLine(text[i]) {
      if i < |a| {
        assert text[i] == a[i];
      } else if |a| < i < |a| + 1 + |b| {
        assert text[i] == b[i - |a| - 1];
      } else if i > |a| + 1 + |b| {
        assert text[i] == c[i - |a| - |b| - 2];
      }
    }
  }

  lemma MethodReads(m: Method)
    ensures MethodOf(MethodName(m)) == [m] && OneLine(MethodName(m)) && Without(MethodName(m), ' ')
  {
  }

  lemma RequestLineReads(p: Req, m: Method, target: string, minor: nat)
    requires p.kind == REQUEST && CleanTarget(target) && minor <= 1
    ensures HeadReads(p, MethodName(m) + " " + target + " " + ("HTTP/" + Dec(1) + "." + Dec(minor)),
              p.(verb := m, uri := Percent.Decode(PathOf(target)).value, query := QueryOf(target, p.query),
                 major := 1, minor := minor))
  {
    var name := MethodName(m);
    var version := "HTTP/" + Dec(1) + "." + Dec(minor);
    var r1 := p.(verb := m, query := QueryOf(target, p.query), uri := Percent.Decode(PathOf(target)).value);
    MethodReads(m);
    VersionReads(r1, minor);
    ThreeWords(name, target, version);
    OneLineWords(name, target, version);
  }

  /** A request as a client builds it: by `set_request` on a new object, then any
      further headers that do not touch the framing. */
  ghost predicate Sendable(q: Req, target: string) {
    && q.major == 1 && q.minor <= 1
    && q.firstline == MethodName(q.verb) + " " + target + " " + Version(q) + CRLF
    && CleanTarget(target) && CleanHeaders(q.headers)
    && (if q.verb == POST
        then Get(q.headers, CL) == Dec(|q.body|) && Get(q.headers, TE) != "chunked" && |q.body| <= LONG_MAX
        else q.body == "")
  }

  lemma LengthClean(n: nat)
    ensures CleanHeader(CL, Dec(n))
  {
    PrintedNumberRoundTrip(n, 10, LONG_MAX);
  }

  lemma FixedHeadersClean()
    ensures CleanHeader(CT, HTML) && CleanHeader(CONN, "keep-alive") && CleanHeader(CONN, "")
            && CleanHeader(TE, "chunked")
  {
  }

  lemma SetRequestSendable(r: Req, m: Method, target: string, content: string)
    requires Fresh(r) && CleanTarget(target) && |content| <= LONG_MAX && (m != POST ==> content == "")
    ensures Sendable(SetRequest(r, m, target, content), target)
  {
    LengthClean(|content|);
    FixedHeadersClean();
    assert r.body + content == content;
  }

  lemma SetHeaderSendable(q: Req, target: string, k: string, v: string)
    requires Sendable(q, target) && CleanHeader(k, v) && k != CL && k != TE
    ensures Sendable(SetHeader(q, k, v), target)
  {
  }

  /** `r` is what a server should have made of the client's `q`. */
  ghost predicate Received(r: Req, q: Req, target: string) {
    && r.kind == REQUEST && r.verb == q.verb && TargetRead(r, target)
    && r.major == q.major && r.minor == q.minor
    && SameHeaders(r.headers, q.headers) && r.body == q.body
  }

  lemma RequestRoundTrip(q: Req, target: string, order: seq<string>, p: Req, rest: string)
    requires Sendable(q, target) && Lists(order, q.headers) && Fresh(p) && p.kind == REQUEST
    ensures var s := Parse(p, SendTo(q, order) + rest);
            s.outcome == AllRead && Received(s.req, q, target) && s.left == rest
  {
    var text := MethodName(q.verb) + " " + target + " " + Version(q);
    RequestLineReads(p, q.verb, target, q.minor);
    var h := p.(verb := q.verb, uri := Percent.Decode(PathOf(target)).value, query := QueryOf(target, p.query),
                major := 1, minor := q.minor);
    HeadRoundTrip(q, order, p, text, h, rest);
    AbsorbIsSame(q.headers, order);
    var r := h.(status := Headers, headers := Absorb(h.headers, q.headers, order));
    if q.verb == POST {
      LengthBody(r.(status := Body), q.body, rest);
    } else {
      assert q.body + rest == rest;
    }
  }

  // ---------------------------------------------------------------------------
  // Responses

  lemma ResponseLineReads(p: Req, code: nat, reason: string, minor: nat)
    requires p.kind == RESPONSE && OneLine(reason) && code <= INT_MAX && minor <= 1
    ensures HeadReads(p, ("HTTP/" + Dec(1) + "." + Dec(minor)) + " " + Dec(code) + " " + reason,
              p.(major := 1, minor := minor, code := code, reason := reason))
  {
    var version := "HTTP/" + Dec(1) + "." + Dec(minor);
    VersionReads(p, minor);
    PrintedNumberRoundTrip(code, 10, INT_MAX);
    ThreeWords(version, Dec(code), reason);
    OneLineWords(version, Dec(code), reason);
  }

  lemma ResponseHeadersClean(major: nat, minor: nat, n: nat, date: string)
    requires OneLine(date) && Trimmed(date)
    ensures CleanHeaders(ResponseHeaders(major, minor, n, date))
  {
    LengthClean(n);
    FixedHeadersClean();
    assert CleanHeader("Date", date);
  }

  /** The headers that decide how the parser reads the body of a response. */
  lemma ResponseFraming(minor: nat, n: nat, date: string)
    ensures var h := ResponseHeaders(1, minor, n, date);
            && Get(h, TE) == ""
            && Get(h, CL) == if n == 0 && minor != 1 then "" else Dec(n)
  {
  }

  lemma ResponseHead(q: Req, order: seq<string>, p: Req, rest: string)
    requires q.kind == RESPONSE && q.major == 1 && q.minor <= 1 && 0 <= q.code <= INT_MAX && OneLine(q.reason)
    requires q.firstline == Version(q) + " " + Dec(q.code) + " " + q.reason + CRLF
    requires Lists(order, q.headers) && CleanHeaders(q.headers) && Fresh(p) && p.kind == RESPONSE
    ensures var r := p.(status := Headers, major := 1, minor := q.minor, code := q.code, reason := q.reason,
                        headers := Absorb(map[], q.headers, order));
            && SameHeaders(r.headers, q.headers)
            && Parse(p, SendTo(q, order) + rest) ==
               if Bodyless(q) then Step(AllRead, r, q.body + rest) else ParseBody(r.(status := Body), q.body + rest)
  {
    ResponseLineReads(p, q.code, q.reason, q.minor);
    var h := p.(major := 1, minor := q.minor, code := q.code, reason := q.reason);
    HeadRoundTrip(q, order, p, Version(q) + " " + Dec(q.code) + " " + q.reason, h, rest);
    AbsorbIsSame(q.headers, order);
  }

  lemma NoLengthBody(r: Req, b: string)
    requires !r.chunked && Get(r.headers, TE) != "chunked" && Get(r.headers, CL) == ""
    ensures var s := ParseBody(r, b);
            && s == Step(NeedMore, r.(headers := s.req.headers, ntoread := -1, body := r.body + b), "")
            && SameHeaders(s.req.headers, r.headers)
  {
  }

  /** What the parser should make of the response `q` followed by `rest`. */
  ghost predicate ResponseRead(s: Step, q: Req, rest: string) {
    && s.req.code == q.code && s.req.reason == q.reason && s.req.major == q.major && s.req.minor == q.minor
    && SameHeaders(s.req.headers, q.headers)
    && (if Bodyless(q) then s.outcome == AllRead && s.req.body == "" && s.left == q.body + rest
        else if q.body == "" && q.minor == 0 then s.outcome == NeedMore && s.req.body == rest && s.left == ""
        else s.outcome == AllRead && s.req.body == q.body && s.left == rest)
  }

  lemma ResponseBodyReads(a: Req, q: Req, rest: string)
    requires !Bodyless(q) && SameHeaders(a.headers, q.headers) && !a.chunked && a.body == ""
    requires Get(q.headers, TE) == "" && Get(q.headers, CL) == if q.body == ""
             && q.minor != 1 then "" else Dec(|q.body|)
    requires q.minor <= 1 && |q.body| <= LONG_MAX
    requires a.code == q.code && a.reason == q.reason && a.major == q.major && a.minor == q.minor
    ensures ResponseRead(ParseBody(a, q.body + rest), q, rest)
  {
    assert Get(a.headers, TE) == Get(q.headers, TE) && Get(a.headers, CL) == Get(q.headers, CL);
    if q.body == "" && q.minor == 0 {
      NoLengthBody(a, rest);
      assert q.body + rest == rest;
    } else {
      LengthBody(a, q.body, rest);
    }
  }

  /** Every response of version 1.0 or 1.1 is read back with its code, reason and
      headers.  Its body comes back, and only the bytes behind it are left,
      exactly when the code may have a body; for 1xx, 204 and 304 the parser stops
      at the empty line and leaves the printed body as well.  An HTTP/1.0 response
      without a body carries no length, so the parser waits for the connection to
      end. */
  lemma ResponseRoundTrip(r: Req, code: nat, reason: string, content: Option<string>, date: string, escapedUri: string,
                          order: seq<string>, p: Req, rest: string)
    requires Fresh(r) || (Fresh(r.(minor := 1)) && r.minor == 0)
    requires OneLine(reason) && OneLine(date) && Trimmed(date) && code <= INT_MAX
    requires Fresh(p) && p.kind == RESPONSE
    requires var q := SetResponse(r, code, reason, content, date, escapedUri);
             Lists(order, q.headers) && |q.body| <= LONG_MAX
    ensures var q := SetResponse(r, code, reason, content, date, escapedUri);
            q.code == code && q.reason == reason && ResponseRead(Parse(p, SendTo(q, order) + rest), q, rest)
  {
    var q := SetResponse(r, code, reason, content, date, escapedUri);
    ResponseHeadersClean(1, r.minor, |q.body|, date);
    ResponseFraming(r.minor, |q.body|, date);
    ResponseHead(q, order, p, rest);
    if !Bodyless(q) {
      var a := p.(status := Body, major := 1, minor := q.minor, code := q.code, reason := q.reason,
                  headers := Absorb(map[], q.headers, order));
      ResponseBodyReads(a, q, rest);
    }
  }
}
