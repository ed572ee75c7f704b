/**
 Chunked responses: what `send_chunk_start`, `send_chunk` and `send_chunk_end`
 put on the wire (http/http_connection.cc) and what the parser makes of it.
 */
module Chunked {
  import opened Common
  import opened Text
  import opened Message
  import opened RoundTrip

  function Chunk(c: string): string {
    Hex(|c|) + CRLF + (c + CRLF)
  }

  function Chunks(cs: seq<string>): string {
    if cs == [] then "" else Chunk(cs[0]) + Chunks(cs[1..])
  }

  const LAST: string := "0" + CRLF + CRLF

  /** The parser's body: every chunk with the CRLF behind it. */
  function Stored(cs: seq<string>): string {
    if cs == [] then "" else cs[0] + CRLF + Stored(cs[1..])
  }

  /** The bytes the sender meant. */
  function Payload(cs: seq<string>): string {
    if cs == [] then "" else cs[0] + Payload(cs[1..])
  }

  /** The response of `send_chunk_start`; with no content given, `set_response` puts a
      page into it for most codes. */
  function StartResponse(r: Req, code: nat, reason: string, date: string): Req {
    SetHeader(SetResponse(r, code, reason, None, date, ""), TE, "chunked")
  }

  predicate SendableChunks(cs: seq<string>) {
    forall i :: 0 <= i < |cs| ==> 0 < |cs[i]| <= LONG_MAX
  }

  /** Reading one chunk of size `n`: its data and two more bytes. */
  lemma ChunkData(r: Req, c: string, tail: string)
    requires r.ntoread == |c| > 0
    ensures ChunkLoop(r, c + CRLF + tail) == ChunkLoop(r.(body := r.body + (c + CRLF), ntoread := -1), tail)
  {
    var b := c + CRLF + tail;
    assert b[..|c| + 2] == c + CRLF && b[|c| + 2..] == tail;
  }

  lemma SizeOfHex(n: nat)
    requires 0 < n <= LONG_MAX
    ensures SizeOf(Hex(n)) == DataChunk(n) && OneLine(Hex(n))
  {
    PrintedNumberRoundTrip(n, 16, LONG_MAX);
  }

  lemma ChunkRead(r: Req, c: string, tail: string)
    requires r.ntoread == -1 && 0 < |c| <= LONG_MAX
    ensures ChunkLoop(r, Chunk(c) + tail) == ChunkLoop(r.(body := r.body + (c + CRLF)), tail)
  {
    var x := c + CRLF + tail;
    SizeOfHex(|c|);
    PopWholeLine(Hex(|c|), x);
    Assoc(Hex(|c|) + CRLF, c + CRLF, tail);
    ChunkLoopStep(r, Chunk(c) + tail);
    ChunkData(r.(ntoread := |c|), c, tail);
  }

  lemma ChunksUnfold(r: Req, cs: seq<string>, tail: string)
    requires cs != []
    ensures Chunks(cs) + tail == Chunk(cs[0]) + (Chunks(cs[1..]) + tail)
    ensures r.body + (cs[0] + CRLF) + Stored(cs[1..]) == r.body + Stored(cs)
  {
    Assoc(Chunk(cs[0]), Chunks(cs[1..]), tail);
    Assoc(r.body, cs[0] + CRLF, Stored(cs[1..]));
  }

  lemma {:induction false} ChunksRead(r: Req, cs: seq<string>, tail: string)
    requires r.ntoread == -1 && SendableChunks(cs)
    ensures ChunkLoop(r, Chunks(cs) + tail) == ChunkLoop(r.(body := r.body + Stored(cs)), tail)
    decreases |cs|
  {
    if cs == [] {
      assert Chunks(cs) + tail == tail && r.body + Stored(cs) == r.body;
    } else {
      ChunksUnfold(r, cs, tail);
      ChunkRead(r, cs[0], Chunks(cs[1..]) + tail);
      ChunksRead(r.(body := r.body + (cs[0] + CRLF)), cs[1..], tail);
    }
  }

  lemma LastRead(r: Req, rest: string)
    requires r.ntoread == -1
    ensures ChunkLoop(r, LAST + rest) == Step(AllRead, r.(ntoread := 0, status := Trailer), rest)
  {
    PrintedNumberRoundTrip(0, 16, LONG_MAX);
    assert Hex(0) == "0";
    assert LAST + rest == "0" + CRLF + (CRLF + rest);
    PopWholeLine("0", CRLF + rest);
    HeaderLoopTail(r.(ntoread := 0, status := Trailer), CRLF + rest, "", "");
  }

  // ---------------------------------------------------------------------------
  // Deliveries cut between chunks

  /** The parser between two chunks. */
  predicate Between(r: Req) {
    r.status == Body && r.chunked && r.ntoread == -1 && TE in r.headers && r.headers[TE] == "chunked"
  }

  lemma BetweenReads(r: Req, b: string)
    requires Between(r)
    ensures Parse(r, b) == ChunkLoop(r, b)
  {
    assert Touch(r.headers, TE) == r.headers;
  }

  function Flat(groups: seq<seq<string>>): seq<string> {
    if groups == [] then [] else groups[0] + Flat(groups[1..])
  }

  /** One piece per group of chunks; the last piece also has the end and what follows. */
  function Pieces(groups: seq<seq<string>>, tail: string): seq<string>
    requires groups != []
    ensures |Pieces(groups, tail)| == |groups|
  {
    if |groups| == 1 then [Chunks(groups[0]) + tail]
    else [Chunks(groups[0])] + Pieces(groups[1..], tail)
  }

  lemma {:induction false} StoredAppend(a: seq<string>, b: seq<string>)
    ensures Stored(a + b) == Stored(a) + Stored(b)
  {
    if a == [] {
      assert a + b == b;
    } else {
      assert (a + b)[1..] == a[1..] + b;
      StoredAppend(a[1..], b);
    }
  }

  /** A piece without the end: the parser takes its chunks and waits. */
  lemma GroupWaits(r: Req, cs: seq<string>)
    requires Between(r) && SendableChunks(cs)
    ensures Parse(r, Chunks(cs)) == Step(NeedMore, r.(body := r.body + Stored(cs)), "")
  {
    BetweenReads(r, Chunks(cs));
    ChunksRead(r, cs, "");
    assert Chunks(cs) + "" == Chunks(cs);
  }

  /** A piece with the end: the message is complete. */
  lemma GroupEnds(r: Req, cs: seq<string>, rest: string)
    requires Between(r) && SendableChunks(cs)
    ensures Parse(r, Chunks(cs) + (LAST + rest)) ==
            Step(AllRead, r.(body := r.body + Stored(cs), ntoread := 0, status := Trailer), rest)
  {
    BetweenReads(r, Chunks(cs) + (LAST + rest));
    ChunksRead(r, cs, LAST + rest);
    LastRead(r.(body := r.body + Stored(cs)), rest);
  }

  lemma {:induction false} GroupsRead(r: Req, groups: seq<seq<string>>, rest: string)
    requires Between(r) && groups != [] && forall i :: 0 <= i < |groups| ==> SendableChunks(groups[i])
    ensures var end := r.(body := r.body + Stored(Flat(groups)), ntoread := 0, status := Trailer);
            Feed(r, "", Pieces(groups, LAST + rest)) == Fed(Step(AllRead, end, rest), |groups|)
    decreases |groups|
  {
    var pieces := Pieces(groups, LAST + rest);
    assert "" + pieces[0] == pieces[0];
    StoredAppend(groups[0], Flat(groups[1..]));
    if |groups| == 1 {
      GroupEnds(r, groups[0], rest);
      assert groups[0] + [] == groups[0];
    } else {
      GroupWaits(r, groups[0]);
      assert pieces[1..] == Pieces(groups[1..], LAST + rest);
      GroupsRead(r.(body := r.body + Stored(groups[0])), groups[1..], rest);
      Assoc(r.body, Stored(groups[0]), Stored(Flat(groups[1..])));
    }
  }

  /** A cut inside the data of a chunk: the parser keeps the bytes, and the size it has
      read is forgotten in the next call. */
  lemma CutInsideChunk(r: Req, c: string, n: nat)
    requires Between(r) && 0 < |c| <= LONG_MAX && n < |c|
    ensures Parse(r, Hex(|c|) + CRLF + c[..n]) == Step(NeedMore, r.(ntoread := |c|), c[..n])
    ensures forall b :: Parse(r.(ntoread := |c|), b) == Parse(r, b)
  {
    var b := Hex(|c|) + CRLF + c[..n];
    SizeOfHex(|c|);
    PopWholeLine(Hex(|c|), c[..n]);
    BetweenReads(r, b);
    ChunkLoopStep(r, b);
    ChunkLoopStep(r.(ntoread := |c|), c[..n]);
    assert Touch(r.headers, TE) == r.headers;
  }

  // ---------------------------------------------------------------------------
  // The whole response

  /** What the start of a chunked response looks like. */
  lemma StartShape(r: Req, code: nat, reason: string, date: string)
    requires Fresh(r) && OneLine(date) && Trimmed(date)
    ensures var q := StartResponse(r, code, reason, date);
            && q.body == DefaultPage(code, reason, "")
            && CleanHeaders(q.headers) && Get(q.headers, TE) == "chunked"
            && q.kind == RESPONSE && q.major == 1 && q.minor == 1 && q.code == code && q.reason == reason
            && q.firstline == Version(q) + " " + Dec(code) + " " + reason + CRLF
  {
    var page := DefaultPage(code, reason, "");
    assert r.body + page == page;
    ResponseHeadersClean(1, 1, |page|, date);
    FixedHeadersClean();
  }

  /** The parser behind the printed headers of `q`. */
  function StartState(p: Req, q: Req, order: seq<string>): Req
    requires forall k :: k in order ==> k in q.headers
  {
    p.(status := Body, major := 1, minor := 1, code := q.code, reason := q.reason,
       headers := Absorb(map[], q.headers, order), chunked := true, ntoread := -1)
  }

  lemma ChunkedMode(b: Req, x: string)
    requires b.status == Body && Get(b.headers, TE) == "chunked"
    ensures TE in b.headers
    ensures ParseBody(b, x) == ChunkLoop(b.(chunked := true, ntoread := -1), x)
  {
    assert Touch(b.headers, TE) == b.headers;
  }

  lemma StartReads(r: Req, code: nat, reason: string, date: string, order: seq<string>, p: Req, rest: string)
    requires Fresh(r) && OneLine(reason) && OneLine(date) && Trimmed(date) && Fresh(p) && p.kind == RESPONSE
    requires code <= INT_MAX && Lists(order, StartResponse(r, code, reason, date).headers)
    ensures var q := StartResponse(r, code, reason, date);
            var b, s := StartState(p, q, order), Parse(p, SendTo(q, order) + rest);
            && SameHeaders(b.headers, q.headers) && Between(b) && b.body == ""
            && if Bodyless(q) then s.outcome == AllRead && s.left == q.body + rest
               else s == ChunkLoop(b, q.body + rest)
  {
    var q := StartResponse(r, code, reason, date);
    StartShape(r, code, reason, date);
    ResponseHead(q, order, p, rest);
    var h := Absorb(map[], q.headers, order);
    assert Get(h, TE) == Get(q.headers, TE);
    var b := p.(status := Body, major := 1, minor := 1, code := code, reason := reason, headers := h);
    ChunkedMode(b, q.body + rest);
  }

  /** A chunked response whose delivery is cut anywhere between its chunks (the
      first piece has the headers) keeps the parser waiting until the last piece,
      then is complete, consumes exactly its own bytes, and has each chunk and the
      CRLF behind it as its body. */
  lemma {:induction false} ChunkedRoundTrip(r: Req, reason: string, date: string, order: seq<string>, p: Req,
                         groups: seq<seq<string>>, rest: string)
    requires Fresh(r) && OneLine(reason) && OneLine(date) && Trimmed(date) && Fresh(p) && p.kind == RESPONSE
    requires Lists(order, StartResponse(r, 200, reason, date).headers)
    requires groups != [] && forall i :: 0 <= i < |groups| ==> SendableChunks(groups[i])
    ensures var q := StartResponse(r, 200, reason, date);
            var pieces := Pieces(groups, LAST + rest);
            var f := Feed(p, "", pieces[0 := SendTo(q, order) + pieces[0]]);
            && f.used == |pieces| && f.step.outcome == AllRead && f.step.left == rest
            && f.step.req.body == Stored(Flat(groups))
            && f.step.req.code == 200 && f.step.req.reason == reason && SameHeaders(f.step.req.headers, q.headers)
  {
    var pieces := Pieces(groups, LAST + rest);
    var b := StartedOk(r, reason, date, order, p, pieces[0]);
    GroupsRead(b, groups, rest);
    FirstPieceInstead(p, b, SendTo(StartResponse(r, 200, reason, date), order) + pieces[0], pieces);
    assert "" + Stored(Flat(groups)) == Stored(Flat(groups));
  }

  /** With code 200 the start leaves the parser between chunks. */
  lemma StartedOk(r: Req, reason: string, date: string, order: seq<string>, p: Req, rest: string) returns (b: Req)
    requires Fresh(r) && OneLine(reason) && OneLine(date) && Trimmed(date) && Fresh(p) && p.kind == RESPONSE
    requires Lists(order, StartResponse(r, 200, reason, date).headers)
    ensures var q := StartResponse(r, 200, reason, date);
            && Parse(p, SendTo(q, order) + rest) == Parse(b, rest)
            && Between(b) && b.body == "" && b.code == 200 && b.reason == reason && SameHeaders(b.headers, q.headers)
  {
    var q := StartResponse(r, 200, reason, date);
    b := StartState(p, q, order);
    StartShape(r, 200, reason, date);
    StartReads(r, 200, reason, date, order, p, rest);
    assert q.body + rest == rest;
    BetweenReads(b, rest);
  }

  /** Feeding is the same from two objects whose first calls are. */
  lemma FirstPieceInstead(p: Req, b: Req, first: string, pieces: seq<string>)
    requires pieces != [] && Parse(p, first) == Parse(b, pieces[0])
    ensures Feed(p, "", pieces[0 := first]) == Feed(b, "", pieces)
  {
    assert "" + first == first && "" + pieces[0] == pieces[0];
    assert pieces[0 := first][1..] == pieces[1..];
  }

  // ---------------------------------------------------------------------------
  // Other codes and empty chunks

  predicate SizesFit(cs: seq<string>) {
    forall i :: 0 <= i < |cs| ==> |cs[i]| <= LONG_MAX
  }

  predicate NoneEmpty(cs: seq<string>) {
    forall i :: 0 <= i < |cs| ==> cs[i] != ""
  }

  /** An empty chunk is printed as the last one. */
  lemma EmptyIsLast()
    ensures Chunk("") == LAST
  {
    assert Hex(0) == "0";
    assert "" + CRLF == CRLF;
  }

  lemma FirstEmpty(cs: seq<string>) returns (i: nat)
    requires !NoneEmpty(cs)
    ensures i < |cs| && cs[i] == "" && NoneEmpty(cs[..i])
  {
    i := 0;
    while cs[i] != ""
      invariant i < |cs| && NoneEmpty(cs[..i])
      decreases |cs| - i
    {
      i := i + 1;
    }
  }

  /** The chunks up to the first empty one are the body, and all that comes behind it is
      left: the body is whole and nothing else is left exactly when no chunk is empty. */
  lemma ChunksExactly(r: Req, cs: seq<string>, rest: string)
    requires Between(r) && SizesFit(cs)
    ensures var s := Parse(r, Chunks(cs) + (LAST + rest));
            && s.outcome == AllRead && (s.left == rest <==> NoneEmpty(cs))
            && (NoneEmpty(cs) ==> s.req == r.(body := r.body + Stored(cs), ntoread := 0, status := Trailer))
  {
    if NoneEmpty(cs) {
      GroupEnds(r, cs, rest);
    } else {
      var i := FirstEmpty(cs);
      var more := Chunks(cs[i + 1..]) + (LAST + rest);
      EmptyIsLast();
      ChunksAround(cs, i, LAST + rest);
      GroupEnds(r, cs[..i], more);
    }
  }

  lemma {:induction false} ChunksAround(cs: seq<string>, i: nat, tail: string)
    requires i < |cs|
    ensures Chunks(cs) + tail == Chunks(cs[..i]) + (Chunk(cs[i]) + (Chunks(cs[i + 1..]) + tail))
    decreases i
  {
    Assoc(Chunk(cs[0]), Chunks(cs[1..]), tail);
    if i == 0 {
      assert cs[..0] == [] && "" + (Chunks(cs) + tail) == Chunks(cs) + tail;
    } else {
      ChunksAround(cs[1..], i - 1, tail);
      assert cs[..i][0] == cs[0] && cs[..i][1..] == cs[1..][..i - 1] && cs[1..][i..] == cs[i + 1..];
      Assoc(Chunk(cs[0]), Chunks(cs[1..][..i - 1]), Chunk(cs[i]) + (Chunks(cs[i + 1..]) + tail));
    }
  }

  /** A page where the first size line should be: `std::stol` throws. */
  lemma PageThrows(b: Req, page: string, rest: string)
    requires Between(b) && page != "" && page[0] == '<'
    ensures ChunkLoop(b, page + rest).outcome == Throws
  {
    var x := page + rest;
    var text := PopLine(x).text;
    assert x[0] == '<';
    TextBegins(x);
    NoSize(text);
    ChunkLoopStep(b, x);
  }

  lemma NoSize(t: string)
    requires t == "" || t[0] == '<'
    ensures SizeOf(t) == NotANumber
  {
    assert LTrim(t) == t;
  }

  lemma PageBegins(code: nat, reason: string)
    requires code != 200 && code != 204
    ensures var page := DefaultPage(code, reason, ""); page != "" && page[0] == '<'
  {
    var title := "<html><head><title>" + Dec(code) + " " + reason + "</title></head>\n";
    assert title[0] == '<' && ErrorPage(code, reason)[0] == title[0];
  }

  /** A chunked response of any code with any chunks is read back, with nothing else
      taken, exactly when the code is 200 and no chunk is empty: for the other codes
      the parser stops at the headers, or meets the page of `set_response` in front of
      the chunks. */
  lemma ChunkedExactly(r: Req, code: nat, reason: string, date: string, order: seq<string>, p: Req,
                       cs: seq<string>, rest: string)
    requires Fresh(r) && OneLine(reason) && OneLine(date) && Trimmed(date) && Fresh(p) && p.kind == RESPONSE
    requires code <= INT_MAX && Lists(order, StartResponse(r, code, reason, date).headers) && SizesFit(cs)
    ensures var q := StartResponse(r, code, reason, date);
            var s := Parse(p, SendTo(q, order) + (Chunks(cs) + (LAST + rest)));
            && (s.outcome == AllRead && s.left == rest <==> code == 200 && NoneEmpty(cs))
            && (code == 200 && NoneEmpty(cs) ==>
                  && s.req.body == Stored(cs) && s.req.code == 200 && s.req.reason == reason
                  && SameHeaders(s.req.headers, q.headers))
  {
    var q, body := StartResponse(r, code, reason, date), Chunks(cs) + (LAST + rest);
    var b := StartState(p, q, order);
    StartShape(r, code, reason, date);
    StartReads(r, code, reason, date, order, p, body);
    if code == 200 {
      assert q.body + body == body && "" + Stored(cs) == Stored(cs);
      BetweenReads(b, body);
      ChunksExactly(b, cs, rest);
    } else if !Bodyless(q) {
      PageBegins(code, reason);
      PageThrows(b, q.body, body);
    }
  }

  /** The stored body is the sender's payload exactly when no chunk was sent:
      every chunk adds the two bytes behind it. */
  lemma {:induction false} StoredIsPayloadExactly(cs: seq<string>)
    ensures |Stored(cs)| == |Payload(cs)| + 2 * |cs|
    ensures Stored(cs) == Payload(cs) <==> cs == []
  {
    if cs != [] {
      StoredIsPayloadExactly(cs[1..]);
    }
  }
}
