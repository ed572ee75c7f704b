/**
 The `request` object of http/request.cc: it parses bytes out of one buffer into
 its fields and its own body buffer, and prints itself into another buffer.
 */
module Request {
  import opened Common
  import opened Text
  import opened Message
  import RoundTrip
  import B = Buffer
  import Percent

  class Request {
    var kind: Kind
    var verb: Method
    var status: Status
    var major: nat
    var minor: nat
    var uri: string
    var query: string
    var code: int
    var reason: string
    var headers: map<string, string>
    var body: B.Buffer
    var chunked: bool
    var ntoread: int
    var firstline: string

    ghost predicate Valid()
      reads this, body
    {
      body.Valid()
    }

    ghost function Value(): Req
      requires Valid()
      reads this, body, body.origin
    {
      Req(kind, verb, status, major, minor, uri, query, code, reason, headers, body.Content(), chunked, ntoread,
          firstline)
    }

    constructor (kind: Kind, verb: Method, code: int)
      ensures Valid() && fresh(body) && fresh(body.origin)
      ensures Fresh(Value()) && this.kind == kind && this.verb == verb && this.code == code
    {
      this.kind, this.verb, this.code := kind, verb, code;
      status, major, minor := FirstLine, 1, 1;
      uri, query, reason, firstline := "", "", "", "";
      headers := map[];
      chunked, ntoread := false, 0;
      body := new B.Buffer();
    }

    /** The input and the body share nothing. */
    ghost predicate Apart(input: B.Buffer)
      reads this, body, input
    {
      Valid() && input.Valid() && input != body && input.origin != body.origin
    }

    /** One line of the header loop, on the fields. */
    method TakeHeader(line: string, k: string, v: string) returns (s: LineStep)
      modifies this`headers
      ensures s == ReadLine(old(headers), line, k, v)
      ensures headers == if s.Go? then s.headers else old(headers)
    {
      if line == "" {
        return Stop(AtEnd);
      }
      if IsBlank(line[0]) {
        if k == "" {
          return Stop(BadLine);
        }
        headers := headers[k := v + LTrimBlank(line)];
        return Go(headers, k, v);
      }
      var pos := IndexOf(line, ':', 0);
      if pos == |line| {
        return Stop(BadLine);
      }
      var name, value := Trim(line[..pos]), Trim(line[pos + 1..]);
      headers := headers[name := value];
      return Go(headers, name, value);
    }

    /** Takes one line off the input; nothing happens to this object. */
    method NextLine(input: B.Buffer) returns (line: string)
      requires Apart(input)
      modifies input, input.origin
      ensures Apart(input) && input.origin == old(input.origin) && body.Content() == old(body.Content())
      ensures line == PopLine(old(input.Content())).text && input.Content() == PopLine(old(input.Content())).rest
      ensures line != "" ==> input.off < old(input.off)
    {
      ghost var text := body.Content();
      line := input.PopLine();
      assert body.Content() == text;
    }

    /** Takes one line off the input and reads it. */
    method LineTurn(input: B.Buffer, k: string, v: string) returns (s: LineStep)
      requires Apart(input)
      modifies this`headers, input, input.origin
      ensures Apart(input) && input.origin == old(input.origin)
      ensures s == ReadLine(old(headers), PopLine(old(input.Content())).text, k, v)
      ensures headers == if s.Go? then s.headers else old(headers)
      ensures body.Content() == old(body.Content()) && input.Content() == PopLine(old(input.Content())).rest
      ensures s.Go? ==> input.off < old(input.off)
    {
      var line := NextLine(input);
      ghost var text, left := body.Content(), input.Content();
      s := TakeHeader(line, k, v);
      assert body.Content() == text && input.Content() == left;
    }

    /** The loop of `parse_headers`. */
    method LineLoop(input: B.Buffer) returns (end: LoopEnd)
      requires Apart(input)
      modifies this`headers, input, input.origin
      ensures Apart(input) && input.origin == old(input.origin)
      ensures HeaderStep(end, Value(), input.Content()) == HeaderLoop(old(Value()), old(input.Content()), "", "")
    {
      var k, v := "", "";
      ghost var goal := HeaderLoop(Value(), input.Content(), k, v);
      while input.off > 0
        invariant Apart(input) && input.origin == old(input.origin)
        invariant HeaderLoop(Value(), input.Content(), k, v) == goal
        decreases input.off
      {
        ghost var r, b := Value(), input.Content();
        HeaderLoopStep(r, b, k, v);
        var s := LineTurn(input, k, v);
        assert Value() == r.(headers := headers);
        if s.Stop? {
          assert goal == HeaderStep(s.end, r, PopLine(b).rest);
          return s.end;
        }
        assert goal == HeaderLoop(r.(headers := s.headers), PopLine(b).rest, s.k, s.v);
        k, v := s.k, s.v;
      }
      return OutOfBytes;
    }

    method ParseTrailer(input: B.Buffer) returns (o: Outcome)
      requires Apart(input)
      modifies this`headers, input, input.origin
      ensures Apart(input) && input.origin == old(input.origin)
      ensures Step(o, Value(), input.Content()) == Message.ParseTrailer(old(Value()), old(input.Content()))
    {
      var end := LineLoop(input);
      return Outcomes(end);
    }

    /** Moves up to `n` bytes of the input to the body. */
    method Store(input: B.Buffer, n: nat)
      requires Apart(input)
      modifies body, body.origin, input, input.origin
      ensures Apart(input) && input.origin == old(input.origin)
              && (body.origin == old(body.origin) || fresh(body.origin))
      ensures var b := old(input.Content());
              var m := if n <= |b| then n else |b|;
              Value() == old(Value()).(body := old(Value()).body + b[..m]) && input.Content() == b[m..]
    {
      var r := body.PushFrom(input, n, true);
    }

    /** Behind the chunk of size 0. */
    method EndChunks(input: B.Buffer) returns (o: Outcome)
      requires Apart(input)
      modifies this`status, this`ntoread, this`headers, input, input.origin
      ensures Apart(input) && input.origin == old(input.origin)
      ensures Step(o, Value(), input.Content()) ==
              Message.ParseTrailer(old(Value()).(ntoread := 0, status := Trailer), old(input.Content()))
    {
      ghost var r := Value();
      SetSize(0);
      SetStatus(Trailer);
      assert Value() == r.(ntoread := 0, status := Trailer);
      o := ParseTrailer(input);
    }

    /** Reads a chunk size; `done` says that the loop ends with verdict `o`. */
    method ReadSize(input: B.Buffer) returns (done: bool, o: Outcome)
      requires Apart(input) && input.off > 0 && ntoread < 0
      modifies this`status, this`ntoread, this`headers, input, input.origin
      ensures Apart(input) && input.origin == old(input.origin)
      ensures var goal := ChunkLoop(old(Value()), old(input.Content()));
              if done then Step(o, Value(), input.Content()) == goal
              else ChunkLoop(Value(), input.Content()) == goal && input.off < old(input.off)
    {
      ghost var r, b := Value(), input.Content();
      ChunkLoopStep(r, b);
      var line := NextLine(input);
      assert Value() == r && line == PopLine(b).text && input.Content() == PopLine(b).rest;
      done, o := true, Throws;
      match SizeOf(line)
      case NotANumber =>
      case Negative(n) =>
        SetSize(n);
        o := Corrupted;
      case LastChunk => o := EndChunks(input);
      case DataChunk(n) =>
        SetSize(n);
        done := false;
    }

    method SetStatus(s: Status)
      requires Valid()
      modifies this`status
      ensures Value() == old(Value()).(status := s)
    {
      status := s;
    }

    method SetSize(n: int)
      requires Valid()
      modifies this`ntoread
      ensures Value() == old(Value()).(ntoread := n)
    {
      ntoread := n;
    }

    /** Stores a chunk of known size, if it has arrived. */
    method ReadChunk(input: B.Buffer) returns (done: bool)
      requires Apart(input) && input.off > 0 && ntoread >= 0
      modifies this`ntoread, body, body.origin, input, input.origin
      ensures Apart(input) && input.origin == old(input.origin)
              && (body.origin == old(body.origin) || fresh(body.origin))
      ensures var goal := ChunkLoop(old(Value()), old(input.Content()));
              if done then Step(NeedMore, Value(), input.Content()) == goal
              else ChunkLoop(Value(), input.Content()) == goal && input.off < old(input.off)
    {
      ghost var r, b := Value(), input.Content();
      ChunkLoopStep(r, b);
      if input.off < ntoread {
        return true;
      }
      ghost var n := ChunkTake(r.ntoread, b);
      Store(input, ntoread + 2);
      assert body.Content() == r.body + b[..n] && input.Content() == b[n..];
      SetSize(-1);
      return false;
    }

    /** The chunk loop of `parse_body`. */
    method ReadChunks(input: B.Buffer) returns (o: Outcome)
      requires Apart(input)
      modifies this, body, body.origin, input, input.origin
      ensures Apart(input) && input.origin == old(input.origin)
      ensures body == old(body) && (body.origin == old(body.origin) || fresh(body.origin))
      ensures Step(o, Value(), input.Content()) == ChunkLoop(old(Value()), old(input.Content()))
    {
      ghost var goal := ChunkLoop(Value(), input.Content());
      while input.off > 0
        invariant Apart(input) && input.origin == old(input.origin)
        invariant body == old(body) && (body.origin == old(body.origin) || fresh(body.origin))
        invariant ChunkLoop(Value(), input.Content()) == goal
        decreases input.off
      {
        if ntoread < 0 {
          var done, verdict := ReadSize(input);
          if done {
            return verdict;
          }
        } else {
          var done := ReadChunk(input);
          if done {
            return NeedMore;
          }
        }
      }
      ChunkLoopStep(Value(), input.Content());
      return NeedMore;
    }

    /** `get_body_length` */
    method ReadLength() returns (good: bool, why: Outcome)
      requires Valid()
      modifies this`headers, this`ntoread
      ensures var m := BodyLength(old(Value()));
              Value() == m.req && good == m.Good? && (m.Bad? ==> why == m.why)
    {
      var length := Get(headers, CL);
      headers := Touch(Touch(headers, CL), CONN);
      good, why := true, NeedMore;
      if length == "" {
        ntoread := -1;
        return;
      }
      var n := Stol(length, 10, LONG_MAX);
      if !n.Number? {
        return false, Throws;
      }
      ntoread := n.value;
      if ntoread < 0 {
        return false, Corrupted;
      }
    }

    /** The choice between chunks and a length. */
    method ChooseBody() returns (good: bool, why: Outcome)
      requires Valid()
      modifies this`headers, this`chunked, this`ntoread
      ensures var m := BodyMode(old(Value()));
              Value() == m.req && good == m.Good? && (m.Bad? ==> why == m.why)
    {
      ghost var r := Value();
      headers := Touch(headers, TE);
      assert Value() == r.(headers := Touch(r.headers, TE));
      if headers[TE] == "chunked" {
        chunked, ntoread := true, -1;
        return true, NeedMore;
      }
      good, why := ReadLength();
    }

    /** Moves as much of the input to the body as belongs there. */
    method TakeBody(input: B.Buffer) returns (o: Outcome)
      requires Apart(input)
      modifies body, body.origin, input, input.origin
      ensures Apart(input) && input.origin == old(input.origin)
      ensures body.origin == old(body.origin) || fresh(body.origin)
      ensures var r, b := old(Value()), old(input.Content());
              Step(o, Value(), input.Content()) ==
              if r.ntoread < 0 then Step(NeedMore, r.(body := r.body + b), "")
              else if |b| >= r.ntoread then Step(AllRead, r.(body := r.body + b[..r.ntoread]), b[r.ntoread..])
              else Step(NeedMore, r, b)
    {
      if ntoread < 0 {
        Store(input, input.off);
        return NeedMore;
      }
      if input.off < ntoread {
        return NeedMore;
      }
      Store(input, ntoread);
      return AllRead;
    }

    method ParseBody(input: B.Buffer) returns (o: Outcome)
      requires Apart(input)
      modifies this, body, body.origin, input, input.origin
      ensures Apart(input) && input.origin == old(input.origin)
      ensures body == old(body) && (body.origin == old(body.origin) || fresh(body.origin))
      ensures Step(o, Value(), input.Content()) == Message.ParseBody(old(Value()), old(input.Content()))
    {
      var good, why := ChooseBody();
      if !good {
        return why;
      }
      ghost var r := BodyMode(old(Value())).req;
      assert Value() == r && input.Content() == old(input.Content());
      if chunked {
        o := ReadChunks(input);
      } else {
        o := TakeBody(input);
      }
    }

    method ParseHeaders(input: B.Buffer) returns (o: Outcome)
      requires Apart(input)
      modifies this, body, body.origin, input, input.origin
      ensures Apart(input) && input.origin == old(input.origin)
      ensures body == old(body) && (body.origin == old(body.origin) || fresh(body.origin))
      ensures Step(o, Value(), input.Content()) == Message.ParseHeaders(old(Value()), old(input.Content()))
    {
      var end := LineLoop(input);
      ghost var h := HeaderStep(end, Value(), input.Content());
      if end != AtEnd {
        return Outcomes(end);
      }
      if (kind == REQUEST && verb != POST) ||
         (kind == RESPONSE && (code == 204 || code == 304 || 100 <= code < 200)) {
        return AllRead;
      }
      SetStatus(Body);
      o := ParseBody(input);
    }

    /** Sets the version named by a protocol string. */
    method SetProtocol(p: string) returns (good: bool)
      requires Valid()
      modifies this`major, this`minor
      ensures var h := Protocol(old(Value()), p);
              Value() == h.req && good == h.Good?
    {
      good := true;
      if p == "HTTP/1.0" {
        major, minor := 1, 0;
      } else if p == "HTTP/1.1" {
        major, minor := 1, 1;
      } else {
        good := false;
      }
    }

    method ParseRequestLine(line: string) returns (good: bool, why: Outcome)
      requires Valid()
      modifies this`verb, this`uri, this`query, this`major, this`minor
      ensures var h := Message.ParseRequestLine(old(Value()), line);
              Value() == h.req && good == h.Good? && (h.Bad? ==> why == h.why)
    {
      var w := Words(line);
      if w == [] || MethodOf(w[0]) == [] {
        return false, Corrupted;
      }
      ghost var r := Value();
      verb := MethodOf(w[0])[0];
      query := QueryOf(w[1], query);
      assert Value() == r.(verb := MethodOf(w[0])[0], query := QueryOf(w[1], r.query));
      var path := Percent.StringFromUtf8(PathOf(w[1]));
      if path.Undefined? {
        return false, Undefined;
      }
      ghost var r1 := Value();
      uri := path.value;
      assert Value() == r1.(uri := path.value);
      good := SetProtocol(w[2]);
      why := Corrupted;
    }

    method ParseResponseLine(line: string) returns (good: bool, why: Outcome)
      requires Valid()
      modifies this`code, this`reason, this`major, this`minor
      ensures var h := Message.ParseResponseLine(old(Value()), line);
              Value() == h.req && good == h.Good? && (h.Bad? ==> why == h.why)
    {
      var w := Words(line);
      if w == [] {
        return false, Corrupted;
      }
      good := SetProtocol(w[0]);
      if !good {
        return false, Corrupted;
      }
      var n := Stol(w[1], 10, INT_MAX);
      if !n.Number? {
        return false, Throws;
      }
      code, reason := n.value, w[2];
      why := NeedMore;
    }

    method ParseHead(line: string) returns (good: bool, why: Outcome)
      requires Valid()
      modifies this
      ensures Valid() && body == old(body)
      ensures var h := Message.ParseHead(old(Value()), line);
              Value() == h.req && good == h.Good? && (h.Bad? ==> why == h.why)
    {
      if kind == REQUEST {
        good, why := ParseRequestLine(line);
      } else {
        good, why := ParseResponseLine(line);
      }
    }

    method AfterFirstLine(line: string, input: B.Buffer) returns (o: Outcome)
      requires Apart(input)
      modifies this, body, body.origin, input, input.origin
      ensures Apart(input) && input.origin == old(input.origin)
      ensures body == old(body) && (body.origin == old(body.origin) || fresh(body.origin))
      ensures Step(o, Value(), input.Content()) == Message.AfterFirstLine(old(Value()), line, old(input.Content()))
    {
      var good, why := ParseHead(line);
      if !good {
        return why;
      }
      ghost var h := Value();
      status := Headers;
      assert Value() == h.(status := Headers);
      o := ParseHeaders(input);
    }

    method ParseFirstLine(input: B.Buffer) returns (o: Outcome)
      requires Apart(input)
      modifies this, body, body.origin, input, input.origin
      ensures Apart(input) && input.origin == old(input.origin)
      ensures body == old(body) && (body.origin == old(body.origin) || fresh(body.origin))
      ensures Step(o, Value(), input.Content()) == Message.ParseFirstLine(old(Value()), old(input.Content()))
    {
      if input.off == 0 {
        return NeedMore;
      }
      var line := NextLine(input);
      if line == "" {
        return NeedMore;
      }
      o := AfterFirstLine(line, input);
    }

    /** `parse`: whatever state the object is in and whatever the input holds, the
        object, the verdict and the bytes left are those of the function `Parse`. */
    method Parse(input: B.Buffer) returns (o: Outcome)
      requires Apart(input)
      modifies this, body, body.origin, input, input.origin
      ensures Apart(input) && input.origin == old(input.origin)
      ensures body == old(body) && (body.origin == old(body.origin) || fresh(body.origin))
      ensures Step(o, Value(), input.Content()) == Message.Parse(old(Value()), old(input.Content()))
    {
      match status
      case FirstLine => o := ParseFirstLine(input);
      case Headers => o := ParseHeaders(input);
      case Body => o := ParseBody(input);
      case Trailer => o := ParseTrailer(input);
    }

    // -------------------------------------------------------------------------
    // Printing

    /** Sets the headers and the first line of a request whose body is in place. */
    method FrameRequest(m: Method, uri: string)
      requires Valid()
      modifies this
      ensures Valid() && body == old(body)
      ensures Value() == RoundTrip.SetRequest(old(Value()), m, uri, "")
    {
      ghost var r := Value();
      verb, this.uri := m, uri;
      headers := map[CT := HTML];
      if m == POST {
        headers := headers[CL := Dec(body.off)];
      }
      firstline := RoundTrip.MethodName(m) + " " + uri + " " + ("HTTP/" + Dec(major) + "." + Dec(minor)) + CRLF;
      assert r.body + "" == r.body == body.Content();
      assert Value() == r.(verb := m, uri := uri, headers := headers, firstline := firstline);
    }

    method SetRequest(m: Method, uri: string, content: B.Buffer)
      requires Apart(content)
      modifies this, body, body.origin, content, content.origin
      ensures Apart(content) && body == old(body) && (body.origin == old(body.origin) || fresh(body.origin))
      ensures Value() == RoundTrip.SetRequest(old(Value()), m, uri, old(content.Content())) && content.Content() == ""
    {
      ghost var r, c := Value(), content.Content();
      Store(content, content.off);
      assert c[..|c|] == c;
      FrameRequest(m, uri);
      assert r.body + c + "" == r.body + c;
    }

    method SetResponseHeaders(date: string)
      modifies this`headers
      ensures headers == RoundTrip.ResponseHeaders(major, minor, body.off, date)
    {
      headers := map[];
      if major == 1 {
        headers := if minor == 1 then map["Date" := date, CONN := "keep-alive"] else map[CONN := ""];
        if headers[CONN] == "keep-alive" {
          headers := headers[CL := Dec(body.off)];
        }
      }
      if body.off > 0 {
        headers := headers[CL := Dec(body.off)][CT := HTML];
      }
    }

    /** Sets the fields of a response whose body is in place. */
    method FrameResponse(code: nat, reason: string, date: string)
      requires Valid()
      modifies this
      ensures Valid() && body == old(body)
      ensures Value() == RoundTrip.SetResponse(old(Value()), code, reason, Some(""), date, "")
    {
      ghost var r := Value();
      kind, this.code, this.reason := RESPONSE, code, reason;
      firstline := ("HTTP/" + Dec(major) + "." + Dec(minor)) + " " + Dec(code) + " " + reason + CRLF;
      SetResponseHeaders(date);
      assert r.body + "" == r.body;
    }

    /** `set_response` with content taken from a buffer. */
    method SetResponse(code: nat, reason: string, content: B.Buffer, date: string, escapedUri: string)
      requires Apart(content)
      modifies this, body, body.origin, content, content.origin
      ensures Apart(content) && body == old(body) && (body.origin == old(body.origin) || fresh(body.origin))
      ensures content.Content() == ""
      ensures Value() == RoundTrip.SetResponse(old(Value()), code, reason, Some(old(content.Content())), date,
              escapedUri)
    {
      ghost var r, c := Value(), content.Content();
      Store(content, content.off);
      assert c[..|c|] == c;
      FrameResponse(code, reason, date);
      assert r.body + c + "" == r.body + c;
    }

    /** `set_response` without content: a page chosen by the code. */
    method SetResponsePage(code: nat, reason: string, date: string, escapedUri: string)
      requires Valid()
      modifies this, body, body.origin
      ensures Valid() && body == old(body) && (body.origin == old(body.origin) || fresh(body.origin))
      ensures Value() == RoundTrip.SetResponse(old(Value()), code, reason, None, date, escapedUri)
    {
      ghost var r := Value();
      var page := RoundTrip.DefaultPage(code, reason, escapedUri);
      var ok := body.Push(page, true);
      assert Value() == r.(body := r.body + page);
      FrameResponse(code, reason, date);
      assert r.body + page + "" == r.body + page;
    }

    /** Puts text behind what is in `out`. */
    method Put(out: B.Buffer, text: string)
      requires Apart(out)
      modifies out, out.origin
      ensures Apart(out) && (out.origin == old(out.origin) || fresh(out.origin))
      ensures out.Content() == old(out.Content()) + text
    {
      var r := out.Push(text, true);
    }

    /** Prints the header lines, in the order in which the map is walked. */
    method SendHeader(out: B.Buffer, k: string)
      requires Apart(out) && k in headers
      modifies out, out.origin
      ensures Apart(out) && (out.origin == old(out.origin) || fresh(out.origin))
      ensures out.Content() == old(out.Content()) + RoundTrip.HeaderLines(headers, [k])
    {
      var v := headers[k];
      ghost var line := if v == "" then "" else RoundTrip.HeaderLine(k, v);
      assert RoundTrip.HeaderLines(headers, [k]) == line + "" == line;
      assert out.Content() + "" == out.Content();
      if v != "" {
        Put(out, k + ": " + v + CRLF);
      }
    }

    method SendHeaders(out: B.Buffer) returns (order: seq<string>)
      requires Apart(out)
      modifies out, out.origin
      ensures Apart(out) && (out.origin == old(out.origin) || fresh(out.origin))
      ensures RoundTrip.Lists(order, headers)
      ensures out.Content() == old(out.Content()) + RoundTrip.HeaderLines(headers, order)
    {
      order := [];
      var left := headers.Keys;
      ghost var start := out.Content();
      assert start + "" == start;
      while left != {}
        invariant Apart(out) && (out.origin == old(out.origin) || fresh(out.origin))
        invariant left <= headers.Keys && forall k :: k in order <==> k in headers && k !in left
        invariant forall i, j :: 0 <= i < j < |order| ==> order[i] != order[j]
        invariant out.Content() == start + RoundTrip.HeaderLines(headers, order)
        decreases left
      {
        var k :| k in left;
        SendHeader(out, k);
        RoundTrip.LinesAppend(headers, order, [k]);
        Assoc(start, RoundTrip.HeaderLines(headers, order), RoundTrip.HeaderLines(headers, [k]));
        order := order + [k];
        left := left - {k};
      }
    }

    /** The first line, the headers and the empty line. */
    method SendHead(out: B.Buffer) returns (order: seq<string>)
      requires Apart(out)
      modifies out, out.origin
      ensures Apart(out) && (out.origin == old(out.origin) || fresh(out.origin))
      ensures RoundTrip.Lists(order, headers)
      ensures out.Content() == old(out.Content()) + firstline + RoundTrip.HeaderLines(headers, order) + CRLF
    {
      Put(out, firstline);
      order := SendHeaders(out);
      Put(out, CRLF);
    }

    /** Moves the whole body behind what is in `out`. */
    method SendBody(out: B.Buffer)
      requires Apart(out)
      modifies body, body.origin, out, out.origin
      ensures Apart(out) && (out.origin == old(out.origin) || fresh(out.origin)) && body.origin == old(body.origin)
      ensures out.Content() == old(out.Content()) + old(body.Content()) && body.Content() == ""
    {
      ghost var text := body.Content();
      if body.off > 0 {
        var r := out.PushFrom(body, body.off, true);
        assert text[..|text|] == text;
      }
    }

    /** `send_to`: the printed message goes behind what is in `out`, and the body
        leaves this object. */
    method SendTo(out: B.Buffer) returns (order: seq<string>)
      requires Apart(out)
      modifies body, body.origin, out, out.origin
      ensures Apart(out) && (out.origin == old(out.origin) || fresh(out.origin)) && body.origin == old(body.origin)
      ensures RoundTrip.Lists(order, headers)
      ensures out.Content() == old(out.Content()) + RoundTrip.SendTo(old(Value()), order) && body.Content() == ""
    {
      ghost var start, text := out.Content(), body.Content();
      order := SendHead(out);
      SendBody(out);
      SendParts(start, firstline, RoundTrip.HeaderLines(headers, order), text);
    }
  }

  lemma SendParts(start: string, firstline: string, lines: string, body: string)
    ensures start + firstline + lines + CRLF + body == start + (firstline + (lines + (CRLF + body)))
  {
    Assoc(start + firstline + lines, CRLF, body);
    Assoc(start + firstline, lines, CRLF + body);
    Assoc(start, firstline, lines + (CRLF + body));
  }
}
