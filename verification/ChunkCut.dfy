/**
 Where a chunked body may be cut (http/request.cc 92-131): exactly between chunks,
 or between the last size line and the empty line.
 */
module ChunkCut {
  import opened Text
  import opened Message
  import opened RoundTrip
  import opened Chunked
  import opened Lead
  import opened Decoder
  import Delivery

  // ---------------------------------------------------------------------------
  // One call in the body

  /** In the body, whatever size was being read. */
  predicate InBody(r: Req) {
    r.status == Body && r.chunked && TE in r.headers && r.headers[TE] == "chunked"
  }

  lemma InBodyReads(r: Req, b: string)
    requires InBody(r)
    ensures Parse(r, b) == ChunkLoop(r.(ntoread := -1), b)
  {
    assert Touch(r.headers, TE) == r.headers;
  }

  /** A call that begins with a line end throws. */
  lemma LineEndThrows(r: Req, b: string)
    requires InBody(r) && b != "" && IsEol(b[0])
    ensures Parse(r, b).outcome == Throws
  {
    InBodyReads(r, b);
    assert FirstEol(b) == 0 && b[..0] == "";
    ChunkLoopStep(r.(ntoread := -1), b);
  }

  lemma FirstEolMore(b: string, more: string)
    requires FirstEol(b) < |b|
    ensures FirstEol(b + more) == FirstEol(b)
  {
    var i, j := FirstEol(b), FirstEol(b + more);
    assert (b + more)[i] == b[i];
    assert forall k :: 0 <= k < i ==> !IsEol((b + more)[k]);
  }

  /** A line that has come whole is the same whatever follows; unless it came without
      the second half of its end. */
  lemma LineMore(b: string, more: string)
    requires PopLine(b).text != ""
    ensures PopLine(b + more).text == PopLine(b).text
    ensures PopLine(b).rest != "" || (more != "" && !IsEol(more[0])) ==>
              PopLine(b + more).rest == PopLine(b).rest + more
  {
    var i := FirstEol(b);
    FirstEolMore(b, more);
    assert (b + more)[..i] == b[..i];
    var n := EolLength(b, i);
    assert i + 1 < |b + more| ==> (b + more)[i + 1] == if i + 1 < |b| then b[i + 1] else more[0];
    assert (b + more)[i + n..] == b[i + n..] + more;
  }

  lemma {:induction false} TrailerKeeps(r: Req, b: string, k: string, v: string)
    ensures var h := HeaderLoop(r, b, k, v); h.req.body == r.body && h.req.status == r.status
    decreases |b|
  {
    if b != "" {
      var Line(line, rest) := PopLine(b);
      var s := ReadLine(r.headers, line, k, v);
      if s.Go? {
        TrailerKeeps(r.(headers := s.headers), rest, s.k, s.v);
      }
    }
  }

  /** What is stored behind a call: nothing more once the last chunk was seen. */
  ghost predicate GoesOn(s: Step, more: string, out: string, left: string) {
    if s.req.status == Trailer then out == "" && |left| <= |s.left| + |more|
    else s.left + more != "" && !IsEol((s.left + more)[0]) && Decodes(s.left + more, 0, out, left)
  }

  lemma SizeDecodes(b: string, m: nat, out: string, left: string)
    requires SizeOf(PopLine(b).text).DataChunk? && m <= SizeOf(PopLine(b).text).size + 2
    requires Decodes(PopLine(b).rest, m, out, left)
    ensures Decodes(b, 0, out, left)
  {
    assert DecodesSize(b, out, left);
  }

  /** A chunk loop decodes, and what is decoded behind it is decoded in one go. */
  lemma {:induction false} LoopDecodes(r: Req, b: string, more: string, out: string, left: string)
      returns (stored: string)
    requires r.status == Body && r.ntoread == -1
    ensures Decoded(r, b, more, out, left, stored)
    decreases |b|, 1
  {
    stored := "";
    ChunkLoopStep(r, b);
    if b == "" {
      assert b + more == more && stored + out == out && r.body + stored == r.body;
    } else {
      match SizeOf(PopLine(b).text)
      case DataChunk(k) => stored := DataDecodes(r, b, k, more, out, left);
      case LastChunk => LastDecodes(r, b, more, out, left);
      case _ =>
    }
  }

  ghost predicate Decoded(r: Req, b: string, more: string, out: string, left: string, stored: string) {
    var s := ChunkLoop(r, b);
    s.outcome == NeedMore || s.outcome == AllRead ==>
      && s.req.body == r.body + stored
      && (GoesOn(s, more, out, left) ==> Decodes(b + more, 0, stored + out, left))
  }

  lemma LastDecodes(r: Req, b: string, more: string, out: string, left: string)
    requires b != "" && r.ntoread == -1 && SizeOf(PopLine(b).text) == LastChunk
    ensures Decoded(r, b, more, out, left, "")
  {
    var t := r.(ntoread := 0, status := Trailer);
    ChunkLoopStep(r, b);
    TrailerKeeps(t, PopLine(b).rest, "", "");
    HeaderLoopSuffix(t, PopLine(b).rest, "", "");
    LineMore(b, more);
    assert r.body + "" == r.body && "" + out == out;
    assert GoesOn(ChunkLoop(r, b), more, out, left) ==> DecodesSize(b + more, out, left);
  }

  lemma {:induction false} DataDecodes(r: Req, b: string, k: nat, more: string, out: string, left: string)
      returns (stored: string)
    requires b != "" && r.status == Body && r.ntoread == -1 && SizeOf(PopLine(b).text) == DataChunk(k)
    ensures Decoded(r, b, more, out, left, stored)
    decreases |b|, 0
  {
    var rest := PopLine(b).rest;
    ChunkLoopStep(r, b);
    ChunkLoopStep(r.(ntoread := k), rest);
    stored := "";
    if |rest| < k {
      assert r.body + stored == r.body && stored + out == out;
      if GoesOn(ChunkLoop(r, b), more, out, left) {
        LineMore(b, more);
        SizeDecodes(b + more, 0, out, left);
      }
    } else {
      var n := ChunkTake(k, rest);
      var r2 := r.(body := r.body + rest[..n], ntoread := -1);
      var last := LoopDecodes(r2, rest[n..], more, out, left);
      stored := rest[..n] + last;
      Assoc(r.body, rest[..n], last);
      if GoesOn(ChunkLoop(r2, rest[n..]), more, out, left) && Decodes(rest[n..] + more, 0, last + out, left) {
        DataThen(b, n, more, last + out, left);
        Assoc(rest[..n], last, out);
      }
    }
  }

  lemma DataThen(b: string, n: nat, more: string, out: string, left: string)
    requires SizeOf(PopLine(b).text).DataChunk? && 0 < n <= SizeOf(PopLine(b).text).size + 2
    requires n <= |PopLine(b).rest| && Decodes(PopLine(b).rest[n..] + more, 0, out, left)
    ensures Decodes(b + more, 0, PopLine(b).rest[..n] + out, left)
  {
    var rest := PopLine(b).rest;
    DecodesAfter(rest[..n], rest[n..] + more, out, left);
    Assoc(rest[..n], rest[n..], more);
    assert rest[..n] + rest[n..] == rest;
    LineMore(b, more);
    SizeDecodes(b + more, n, rest[..n] + out, left);
  }

  // ---------------------------------------------------------------------------
  // Any number of calls in the body

  /** All pieces are used and the message is complete, with the right body and with the
      right bytes left. */
  predicate Ends(f: Fed, pieces: nat, body: string, rest: string) {
    f.used == pieces && f.step.outcome == AllRead && f.step.left == rest && f.step.req.body == body
  }

  lemma {:induction false} LineEndFeeds(r: Req, left: string, pieces: seq<string>)
    requires InBody(r) && pieces != [] && left + Joined(pieces) != "" && IsEol((left + Joined(pieces))[0])
    ensures Feed(r, left, pieces).step.outcome != AllRead
    decreases |pieces|
  {
    var b := left + pieces[0];
    FeedUnfold(r, left, pieces);
    JoinedUnfold(pieces, left);
    if b == "" {
      InBodyReads(r, b);
      ChunkLoopStep(r.(ntoread := -1), b);
      assert b + Joined(pieces[1..]) == "" + Joined(pieces[1..]);
      LineEndFeeds(r.(ntoread := -1), "", pieces[1..]);
    } else {
      LineEndThrows(r, b);
    }
  }

  lemma {:induction false} TrailerFeeds(r: Req, left: string, pieces: seq<string>)
    requires r.status == Trailer && pieces != []
    ensures var s := Feed(r, left, pieces).step; s.req.body == r.body && |s.left| <= |left| + |Joined(pieces)|
    decreases |pieces|
  {
    var b := left + pieces[0];
    FeedUnfold(r, left, pieces);
    TrailerKeeps(r, b, "", "");
    HeaderLoopSuffix(r, b, "", "");
    var s := Parse(r, b);
    if |pieces| > 1 && s.outcome == NeedMore {
      TrailerFeeds(s.req, s.left, pieces[1..]);
    }
  }

  /** The chunk loop keeps the parser in the body until the last chunk. */
  lemma {:induction false} LoopStays(r: Req, b: string)
    requires InBody(r)
    ensures var s := ChunkLoop(r, b);
            && (s.outcome == AllRead ==> s.req.status == Trailer)
            && (s.outcome == NeedMore ==> s.req.status == Trailer || InBody(s.req))
    decreases |b|
  {
    ChunkLoopStep(r, b);
    if b != "" {
      if r.ntoread < 0 {
        match SizeOf(PopLine(b).text)
        case DataChunk(k) => LoopStays(r.(ntoread := k), PopLine(b).rest);
        case LastChunk => TrailerKeeps(r.(ntoread := 0, status := Trailer), PopLine(b).rest, "", "");
        case _ =>
      } else if r.ntoread <= |b| {
        var n := ChunkTake(r.ntoread, b);
        if n > 0 {
          LoopStays(r.(body := r.body + b[..n], ntoread := -1), b[n..]);
        }
      }
    }
  }

  /** Calls that complete a message have decoded all of its bytes in one go. */
  lemma {:induction false} FeedDecodes(r: Req, left: string, pieces: seq<string>) returns (out: string)
    requires InBody(r) && pieces != []
    ensures var f := Feed(r, left, pieces);
            f.used == |pieces| && f.step.outcome == AllRead ==>
              f.step.req.body == r.body + out && Decodes(left + Joined(pieces), 0, out, f.step.left)
    decreases |pieces|
  {
    var b, more := left + pieces[0], Joined(pieces[1..]);
    var r1 := r.(ntoread := -1);
    var s, f := Parse(r, b), Feed(r, left, pieces);
    out := "";
    FeedUnfold(r, left, pieces);
    JoinedUnfold(pieces, left);
    InBodyReads(r, b);
    LoopStays(r1, b);
    if f.used == |pieces| && f.step.outcome == AllRead {
      var last := CallsBehind(s, pieces, f);
      var stored := LoopDecodes(r1, b, more, last, f.step.left);
      out := stored + last;
      Assoc(r.body, stored, last);
    }
  }

  /** What the calls behind the first one store. */
  lemma {:induction false} CallsBehind(s: Step, pieces: seq<string>, f: Fed) returns (out: string)
    requires pieces != [] && f.used == |pieces| && f.step.outcome == AllRead
    requires s.outcome == AllRead ==> s.req.status == Trailer
    requires s.outcome == NeedMore ==> s.req.status == Trailer || InBody(s.req)
    requires f == if |pieces| == 1 || s.outcome != NeedMore then Fed(s, 1)
                  else var g := Feed(s.req, s.left, pieces[1..]); Fed(g.step, g.used + 1)
    ensures s.outcome == NeedMore || s.outcome == AllRead
    ensures f.step.req.body == s.req.body + out && GoesOn(s, Joined(pieces[1..]), out, f.step.left)
    decreases |pieces|, 0
  {
    out := "";
    assert s.req.body + "" == s.req.body;
    if |pieces| > 1 {
      if s.req.status == Trailer {
        TrailerFeeds(s.req, s.left, pieces[1..]);
      } else {
        out := FeedDecodes(s.req, s.left, pieces[1..]);
        var t := s.left + Joined(pieces[1..]);
        if t != "" && IsEol(t[0]) {
          LineEndFeeds(s.req, s.left, pieces[1..]);
        }
      }
    }
  }

  lemma GoneAstray(c: string, back: seq<string>, rest: string)
    ensures !Decodes(Stream(c + CRLF, back, rest), 0, c + CRLF + Stored(back), rest)
  {
    assert Goal("", c + CRLF, back) == c + CRLF + Stored(back);
    NeverSame("", c + CRLF, back, 0, rest);
  }

  /** Once the data of a chunk is taken for a size line, no way of cutting what follows
      brings the right result. */
  lemma AstrayFeeds(r: Req, left: string, pieces: seq<string>, c: string, back: seq<string>, rest: string)
    requires InBody(r) && pieces != [] && left + Joined(pieces) == Stream(c + CRLF, back, rest)
    ensures !Ends(Feed(r, left, pieces), |pieces|, r.body + (c + CRLF + Stored(back)), rest)
  {
    var goal := c + CRLF + Stored(back);
    var out := FeedDecodes(r, left, pieces);
    GoneAstray(c, back, rest);
    if r.body + out == r.body + goal {
      Cancel(r.body, out, goal);
    }
  }

  // ---------------------------------------------------------------------------
  // The calls that end inside a chunk

  /** In the text of the size line. */
  lemma CutInSize(r: Req, text: string)
    requires Between(r) && text != "" && AllHex(text)
    ensures Parse(r, text).outcome == Throws
  {
    BetweenReads(r, text);
    SizeOfDigits(text);
    NoEol(text);
    ChunkLoopStep(r, text);
  }

  /** Between the CR and the LF of the size line. */
  lemma CutInSizeEnd(r: Req, c: string)
    requires Between(r) && 0 < |c| <= LONG_MAX
    ensures Parse(r, Hex(|c|) + [CR]) == Step(NeedMore, r.(ntoread := |c|), "")
  {
    var b := Hex(|c|) + [CR];
    BetweenReads(r, b);
    SizeOfHex(|c|);
    PopHalfEnded(Hex(|c|));
    ChunkLoopStep(r, b);
    ChunkLoopStep(r.(ntoread := |c|), "");
  }

  /** Behind the data, with all or half of the CRLF behind it missing. */
  lemma CutBehindData(r: Req, c: string, half: string)
    requires Between(r) && 0 < |c| <= LONG_MAX && half in {"", [CR]}
    ensures Parse(r, Hex(|c|) + CRLF + (c + half)) == Step(NeedMore, r.(body := r.body + (c + half)), "")
  {
    var b := Hex(|c|) + CRLF + (c + half);
    BetweenReads(r, b);
    SizeOfHex(|c|);
    PopWholeLine(Hex(|c|), c + half);
    ChunkLoopStep(r, b);
    var r1 := r.(ntoread := |c|);
    ChunkLoopStep(r1, c + half);
    assert (c + half)[..|c + half|] == c + half && (c + half)[|c + half|..] == "";
    ChunkLoopStep(r1.(body := r.body + (c + half), ntoread := -1), "");
  }

  /** The next call begins with a line end. */
  lemma NextThrows(r: Req, pieces: seq<string>)
    requires |pieces| > 1 && Joined(pieces[1..]) != "" && IsEol(Joined(pieces[1..])[0])
    requires var s := Parse(r, pieces[0]); s.outcome == NeedMore && s.left == "" && InBody(s.req)
    ensures Feed(r, "", pieces).step.outcome != AllRead
  {
    var s := Parse(r, pieces[0]);
    assert "" + pieces[0] == pieces[0] && "" + Joined(pieces[1..]) == Joined(pieces[1..]);
    FeedWaits(r, "", pieces, s.req, "");
    LineEndFeeds(s.req, "", pieces[1..]);
  }

  lemma FirstThrows(r: Req, pieces: seq<string>)
    requires pieces != [] && Parse(r, pieces[0]).outcome == Throws
    ensures Feed(r, "", pieces).step.outcome == Throws
  {
    assert "" + pieces[0] == pieces[0];
    FeedUnfold(r, "", pieces);
  }

  /** Inside the size line. */
  lemma CutBeforeData(r: Req, c: string, m: nat, pieces: seq<string>, more: string)
    requires Between(r) && 0 < |c| <= LONG_MAX && 0 < m < |Hex(|c|)| + 2 && |pieces| > 1
    requires pieces[0] == Chunk(c)[..m] && Joined(pieces[1..]) == Chunk(c)[m..] + more
    ensures Feed(r, "", pieces).step.outcome != AllRead
  {
    var b := Chunk(c);
    if m <= |Hex(|c|)| {
      HexChars(|c|);
      assert b[..m] == Hex(|c|)[..m];
      CutInSize(r, b[..m]);
      FirstThrows(r, pieces);
    } else {
      assert b[..m] == Hex(|c|) + [CR] && b[m] == LF;
      CutInSizeEnd(r, c);
      assert (b[m..] + more)[0] == LF;
      NextThrows(r, pieces);
    }
  }

  /** Behind the data. */
  lemma CutAfterData(r: Req, c: string, m: nat, pieces: seq<string>, more: string)
    requires Between(r) && 0 < |c| <= LONG_MAX && |Hex(|c|)| + 2 + |c| <= m < |Chunk(c)| && |pieces| > 1
    requires pieces[0] == Chunk(c)[..m] && Joined(pieces[1..]) == Chunk(c)[m..] + more
    ensures Feed(r, "", pieces).step.outcome != AllRead
  {
    var b := Chunk(c);
    var half := if m == |Hex(|c|)| + 2 + |c| then "" else [CR];
    assert b[..m] == Hex(|c|) + CRLF + (c + half) && IsEol(b[m]);
    CutBehindData(r, c, half);
    assert (b[m..] + more)[0] == b[m];
    NextThrows(r, pieces);
  }

  /** In the data: the parser goes astray. */
  lemma CutInData(r: Req, c: string, k: nat, pieces: seq<string>, back: seq<string>, rest: string)
    requires Between(r) && 0 < |c| <= LONG_MAX && k < |c| && |pieces| > 1
    requires pieces[0] == Hex(|c|) + CRLF + c[..k]
    requires Joined(pieces[1..]) == c[k..] + CRLF + (Chunks(back) + (LAST + rest))
    ensures !Ends(Feed(r, "", pieces), |pieces|, r.body + (c + CRLF + Stored(back)), rest)
  {
    CutInsideChunk(r, c, k);
    assert "" + pieces[0] == pieces[0];
    FeedWaits(r, "", pieces, r.(ntoread := |c|), c[..k]);
    DataAgain(c, k, back, rest);
    AstrayFeeds(r.(ntoread := |c|), c[..k], pieces[1..], c, back, rest);
  }

  lemma DataAgain(c: string, k: nat, back: seq<string>, rest: string)
    requires k <= |c|
    ensures c[..k] + (c[k..] + CRLF + (Chunks(back) + (LAST + rest))) == Stream(c + CRLF, back, rest)
  {
    assert c == c[..k] + c[k..];
    Assoc(c[..k], c[k..], CRLF);
    Assoc(c[..k], c[k..] + CRLF, Chunks(back) + (LAST + rest));
  }

  /** Anywhere inside a chunk. */
  lemma CutInChunk(r: Req, c: string, m: nat, pieces: seq<string>, back: seq<string>, rest: string)
    requires Between(r) && 0 < |c| <= LONG_MAX && 0 < m < |Chunk(c)| && |pieces| > 1
    requires pieces[0] == Chunk(c)[..m] && Joined(pieces[1..]) == Chunk(c)[m..] + (Chunks(back) + (LAST + rest))
    ensures !Ends(Feed(r, "", pieces), |pieces|, r.body + (c + CRLF + Stored(back)), rest)
  {
    var h, more := |Hex(|c|)|, Chunks(back) + (LAST + rest);
    if m < h + 2 {
      CutBeforeData(r, c, m, pieces, more);
    } else if m < h + 2 + |c| {
      var k := m - h - 2;
      assert Chunk(c)[..m] == Hex(|c|) + CRLF + c[..k];
      assert Chunk(c)[m..] == c[k..] + CRLF;
      CutInData(r, c, k, pieces, back, rest);
    } else {
      CutAfterData(r, c, m, pieces, more);
    }
  }

  // ---------------------------------------------------------------------------
  // The calls that end inside the last chunk

  /** The last size line with only its CR. */
  lemma LastHalf(r: Req)
    requires Between(r)
    ensures Parse(r, LAST[..2]) == Step(NeedMore, r.(ntoread := 0, status := Trailer), "")
  {
    assert LAST[..2] == "0" + [CR];
    BetweenReads(r, "0" + [CR]);
    SizeOfDigits("0");
    PopHalfEnded("0");
    ChunkLoopStep(r, "0" + [CR]);
  }

  lemma LastLine(r: Req, x: string)
    requires Between(r)
    ensures Parse(r, "0" + CRLF + x) == ParseTrailer(r.(ntoread := 0, status := Trailer), x)
  {
    BetweenReads(r, "0" + CRLF + x);
    SizeOfDigits("0");
    PopWholeLine("0", x);
    ChunkLoopStep(r, "0" + CRLF + x);
  }

  /** The empty line, or its CR alone, ends the trailer. */
  lemma TrailerEnds(t: Req, x: string)
    ensures ParseTrailer(t, "") == Step(NeedMore, t, "")
    ensures ParseTrailer(t, [CR]) == Step(AllRead, t, "")
    ensures ParseTrailer(t, CRLF + x) == Step(AllRead, t, x)
  {
    HeaderLoopStep(t, "", "", "");
    PopHalfEnded("");
    assert "" + [CR] == [CR] && "" + CRLF + x == CRLF + x;
    HeaderLoopStep(t, [CR], "", "");
    PopWholeLine("", x);
    HeaderLoopStep(t, CRLF + x, "", "");
  }

  lemma LfCall(t: Req, p: string)
    requires t.status == Trailer && p != "" && p[0] == LF
    ensures Parse(t, p).outcome == AllRead && |Parse(t, p).left| >= |p| - 2
  {
    assert p == [LF] + p[1..];
    Delivery.LfOpens(t, p[1..]);
  }

  /** A trailer that begins with the LF of the size line ends there. */
  lemma {:induction false} LfFeeds(t: Req, pieces: seq<string>, rest: string)
    requires t.status == Trailer && pieces != []
    requires |Joined(pieces)| > |rest| + 2 && Joined(pieces)[0] == LF
    ensures !Ends(Feed(t, "", pieces), |pieces|, t.body, rest)
    decreases |pieces|
  {
    var p := pieces[0];
    assert "" + p == p;
    FeedUnfold(t, "", pieces);
    if p == "" {
      TrailerEnds(t, "");
      assert Joined(pieces) == Joined(pieces[1..]);
      LfFeeds(t, pieces[1..], rest);
    } else {
      LfCall(t, p);
      assert |pieces| == 1 ==> Joined(pieces[1..]) == "";
    }
  }

  lemma HalfLine(r: Req, pieces: seq<string>, rest: string)
    requires Between(r) && |pieces| > 1 && pieces[0] == LAST[..2] && Joined(pieces[1..]) == LAST[2..] + rest
    ensures !Ends(Feed(r, "", pieces), |pieces|, r.body, rest)
  {
    var t := r.(ntoread := 0, status := Trailer);
    LastHalf(r);
    assert "" + pieces[0] == pieces[0];
    FeedWaits(r, "", pieces, t, "");
    assert LAST[2] == LF;
    LfFeeds(t, pieces[1..], rest);
  }

  lemma HalfEmptyLine(r: Req, pieces: seq<string>)
    requires Between(r) && pieces != [] && pieces[0] == LAST[..4]
    ensures Feed(r, "", pieces).used == 1
  {
    assert LAST[..4] == "0" + CRLF + [CR];
    LastLine(r, [CR]);
    TrailerEnds(r.(ntoread := 0, status := Trailer), "");
    assert "" + pieces[0] == pieces[0];
    FeedUnfold(r, "", pieces);
  }

  /** Of the places inside the last chunk only the one behind its size line is safe. */
  lemma CutInLast(r: Req, m: nat, pieces: seq<string>, rest: string)
    requires Between(r) && 0 < m < 5 && m != 3 && |pieces| > 1
    requires pieces[0] == LAST[..m] && Joined(pieces[1..]) == LAST[m..] + rest
    ensures !Ends(Feed(r, "", pieces), |pieces|, r.body, rest)
  {
    if m == 1 {
      assert LAST[..1] == "0";
      CutInSize(r, "0");
      FirstThrows(r, pieces);
    } else if m == 2 {
      HalfLine(r, pieces, rest);
    } else {
      HalfEmptyLine(r, pieces);
    }
  }

  // ---------------------------------------------------------------------------
  // Places

  /** The chunk in which position `n` is. */
  lemma {:induction false} Locate(cs: seq<string>, n: nat) returns (i: nat, m: nat)
    requires n < |Chunks(cs)|
    ensures i < |cs| && n == |Chunks(cs[..i])| + m && m < |Chunk(cs[i])|
    decreases |cs|
  {
    if n < |Chunk(cs[0])| {
      i, m := 0, n;
      assert cs[..0] == [];
    } else {
      i, m := Locate(cs[1..], n - |Chunk(cs[0])|);
      assert cs[..i + 1][0] == cs[0] && cs[..i + 1][1..] == cs[1..][..i];
      i := i + 1;
    }
  }

  lemma {:induction false} ChunksAppend(a: seq<string>, b: seq<string>)
    ensures Chunks(a + b) == Chunks(a) + Chunks(b)
    decreases |a|
  {
    if a == [] {
      assert a + b == b;
    } else {
      assert (a + b)[1..] == a[1..] + b;
      ChunksAppend(a[1..], b);
      Assoc(Chunk(a[0]), Chunks(a[1..]), Chunks(b));
    }
  }

  function PastChunks(r: Req, front: seq<string>): Req {
    r.(body := r.body + Stored(front))
  }

  lemma ChunksInFront(r: Req, front: seq<string>, back: seq<string>, a: string, rest: string)
    requires Between(r) && SendableChunks(front)
    ensures Between(PastChunks(r, front)) && Parse(r, Chunks(front) + a) == Parse(PastChunks(r, front), a)
    ensures Complete(r, front + back, rest) == Complete(PastChunks(r, front), back, rest)
  {
    BetweenReads(r, Chunks(front) + a);
    BetweenReads(PastChunks(r, front), a);
    ChunksRead(r, front, a);
    StoredAppend(front, back);
    Assoc(r.body, Stored(front), Stored(back));
  }

  lemma CutFront(a: string, b: string, first: string, second: string)
    requires first + second == a + b && |a| <= |first|
    ensures first == a + first[|a|..] && first[|a|..] + second == b
  {
    assert first[..|a|] == (first + second)[..|a|] == (a + b)[..|a|] == a;
    assert first == a + first[|a|..];
    assert first[|a|..] + second == (first + second)[|a|..] == (a + b)[|a|..] == b;
  }

  lemma CutInside(b: string, more: string, first: string, second: string)
    requires first + second == b + more && |first| <= |b|
    ensures first == b[..|first|] && second == b[|first|..] + more
  {
    var m := |first|;
    assert first == (first + second)[..m] == (b + more)[..m] == b[..m];
    assert second == (first + second)[m..] == (b + more)[m..] == b[m..] + more;
  }

  /** The places at which a chunked body may be cut: behind `i` chunks, or, the last one,
      behind the last size line. */
  function PlaceText(cs: seq<string>, i: nat): string
    requires i <= |cs| + 1
  {
    if i <= |cs| then Chunks(cs[..i]) else Chunks(cs) + ("0" + CRLF)
  }

  function PlaceRest(cs: seq<string>, i: nat, rest: string): string
    requires i <= |cs| + 1
  {
    if i <= |cs| then Chunks(cs[i..]) + (LAST + rest) else CRLF + rest
  }

  function PlaceState(r: Req, cs: seq<string>, i: nat): Req
    requires i <= |cs| + 1
  {
    if i <= |cs| then PastChunks(r, cs[..i]) else PastChunks(r, cs).(ntoread := 0, status := Trailer)
  }

  ghost predicate SafeAt(cs: seq<string>, n: nat) {
    exists i :: 0 <= i <= |cs| + 1 && n == |PlaceText(cs, i)|
  }

  lemma PlaceSplit(cs: seq<string>, i: nat, rest: string)
    requires i <= |cs| + 1
    ensures PlaceText(cs, i) + PlaceRest(cs, i, rest) == Chunks(cs) + (LAST + rest)
  {
    if i <= |cs| {
      ChunksSplit(cs, i);
      Assoc(Chunks(cs[..i]), Chunks(cs[i..]), LAST + rest);
    } else {
      assert LAST + rest == ("0" + CRLF) + (CRLF + rest);
      Assoc(Chunks(cs), "0" + CRLF, CRLF + rest);
    }
  }

  /** What the object should be in the end. */
  function Complete(r: Req, cs: seq<string>, rest: string): Step {
    Step(AllRead, r.(body := r.body + Stored(cs), ntoread := 0, status := Trailer), rest)
  }

  /** From a place to the end. */
  lemma FromPlace(r: Req, cs: seq<string>, i: nat, rest: string)
    requires Between(r) && SendableChunks(cs) && i <= |cs| + 1
    ensures Parse(PlaceState(r, cs, i), PlaceRest(cs, i, rest)) == Complete(r, cs, rest)
  {
    if i <= |cs| {
      assert cs == cs[..i] + cs[i..];
      ChunksInFront(r, cs[..i], cs[i..], "", rest);
      GroupEnds(PastChunks(r, cs[..i]), cs[i..], rest);
    } else {
      TrailerEnds(PastChunks(r, cs).(ntoread := 0, status := Trailer), rest);
    }
  }

  lemma ChunksBetween(cs: seq<string>, i: nat, j: nat)
    requires i <= j <= |cs|
    ensures Chunks(cs[..j]) == Chunks(cs[..i]) + Chunks(cs[i..j])
  {
    assert cs[..j] == cs[..i] + cs[i..j];
    ChunksAppend(cs[..i], cs[i..j]);
  }

  lemma ChunksSplit(cs: seq<string>, i: nat)
    requires i <= |cs|
    ensures Chunks(cs) == Chunks(cs[..i]) + Chunks(cs[i..])
  {
    assert cs == cs[..i] + cs[i..];
    ChunksAppend(cs[..i], cs[i..]);
  }

  lemma StateBetween(r: Req, cs: seq<string>, i: nat, j: nat)
    requires i <= j <= |cs|
    ensures PastChunks(PastChunks(r, cs[..i]), cs[i..j]) == PastChunks(r, cs[..j])
  {
    assert cs[..j] == cs[..i] + cs[i..j];
    StoredAppend(cs[..i], cs[i..j]);
    Assoc(r.body, Stored(cs[..i]), Stored(cs[i..j]));
  }

  /** From a place to a later one. */
  lemma ToPlace(r: Req, cs: seq<string>, i: nat, j: nat, piece: string)
    requires Between(r) && SendableChunks(cs) && i <= j <= |cs| + 1 && PlaceText(cs, i) + piece == PlaceText(cs, j)
    ensures Parse(PlaceState(r, cs, i), piece) == Step(NeedMore, PlaceState(r, cs, j), "")
  {
    if j <= |cs| {
      ChunksBetween(cs, i, j);
      Cancel(Chunks(cs[..i]), piece, Chunks(cs[i..j]));
      StateBetween(r, cs, i, j);
      GroupWaits(PastChunks(r, cs[..i]), cs[i..j]);
    } else {
      ToTrailer(r, cs, i, piece);
    }
  }

  /** A place behind the first `i` chunks is a place of the others. */
  lemma PlacesBehind(cs: seq<string>, i: nat, k: nat)
    requires i <= |cs| && k <= |cs[i..]| + 1
    ensures PlaceText(cs, i + k) == Chunks(cs[..i]) + PlaceText(cs[i..], k)
  {
    if i + k <= |cs| {
      FrontBehind(cs, i, k);
    } else {
      TrailerBehind(cs, i);
    }
  }

  lemma FrontBehind(cs: seq<string>, i: nat, k: nat)
    requires i + k <= |cs|
    ensures Chunks(cs[..i + k]) == Chunks(cs[..i]) + Chunks(cs[i..][..k])
  {
    assert cs[..i + k] == cs[..i] + cs[i..][..k];
    ChunksAppend(cs[..i], cs[i..][..k]);
  }

  lemma TrailerBehind(cs: seq<string>, i: nat)
    requires i <= |cs|
    ensures Chunks(cs) + ("0" + CRLF) == Chunks(cs[..i]) + (Chunks(cs[i..]) + ("0" + CRLF))
  {
    ChunksSplit(cs, i);
    Assoc(Chunks(cs[..i]), Chunks(cs[i..]), "0" + CRLF);
  }

  lemma ToTrailer(r: Req, cs: seq<string>, i: nat, piece: string)
    requires Between(r) && SendableChunks(cs) && i <= |cs| + 1
    requires PlaceText(cs, i) + piece == PlaceText(cs, |cs| + 1)
    ensures Parse(PlaceState(r, cs, i), piece) == Step(NeedMore, PlaceState(r, cs, |cs| + 1), "")
  {
    if i <= |cs| {
      TrailerPiece(cs, i, piece);
      StateWhole(r, cs, i);
      ChunksThenSize(PastChunks(r, cs[..i]), cs[i..]);
    } else {
      assert piece == "";
      TrailerEnds(PlaceState(r, cs, i), "");
    }
  }

  lemma TrailerPiece(cs: seq<string>, i: nat, piece: string)
    requires i <= |cs| && Chunks(cs[..i]) + piece == PlaceText(cs, |cs| + 1)
    ensures piece == Chunks(cs[i..]) + ("0" + CRLF)
  {
    PlacesBehind(cs, i, |cs[i..]| + 1);
    Cancel(Chunks(cs[..i]), piece, Chunks(cs[i..]) + ("0" + CRLF));
  }

  lemma StateWhole(r: Req, cs: seq<string>, i: nat)
    requires i <= |cs|
    ensures PastChunks(PastChunks(r, cs[..i]), cs[i..]) == PastChunks(r, cs)
  {
    BodyBehind(r, cs, i);
  }

  lemma ChunksThenSize(r: Req, cs: seq<string>)
    requires Between(r) && SendableChunks(cs)
    ensures Parse(r, Chunks(cs) + ("0" + CRLF)) ==
            Step(NeedMore, PastChunks(r, cs).(ntoread := 0, status := Trailer), "")
  {
    ChunksInFront(r, cs, [], "0" + CRLF, "");
    assert "0" + CRLF + "" == "0" + CRLF;
    LastLine(PastChunks(r, cs), "");
    TrailerEnds(PastChunks(r, cs).(ntoread := 0, status := Trailer), "");
  }

  lemma LaterPlace(cs: seq<string>, i: nat, j: nat)
    requires i < j <= |cs| + 1
    ensures |PlaceText(cs, i)| < |PlaceText(cs, j)|
  {
    var k := if j <= |cs| then j else |cs|;
    ChunksBetween(cs, i, k);
    assert cs[..|cs|] == cs;
    assert i < k ==> cs[i..k][0] == cs[i];
  }

  // ---------------------------------------------------------------------------
  // Unsafe places

  /** The first piece after whole chunks is as good as what follows them. */
  lemma WithoutChunks(r: Req, front: seq<string>, a: string, pieces: seq<string>)
    requires Between(r) && SendableChunks(front) && pieces != [] && pieces[0] == Chunks(front) + a
    ensures Between(PastChunks(r, front)) && pieces[0 := a][1..] == pieces[1..]
    ensures Feed(r, "", pieces) == Feed(PastChunks(r, front), "", pieces[0 := a])
  {
    ChunksInFront(r, front, [], a, "");
    assert pieces[0 := a][0 := pieces[0]] == pieces;
    FirstPieceInstead(r, PastChunks(r, front), pieces[0], pieces[0 := a]);
  }

  /** The two sides of the first cut. */
  lemma FirstCut(a: string, b: string, more: string, pieces: seq<string>)
    requires pieces != [] && Joined(pieces) == a + (b + more) && |a| <= |pieces[0]| <= |a| + |b|
    ensures pieces[0] == a + b[..|pieces[0]| - |a|]
    ensures Joined(pieces[1..]) == b[|pieces[0]| - |a|..] + more
  {
    var p, q := pieces[0], Joined(pieces[1..]);
    CutFront(a, b + more, p, q);
    CutInside(b, more, p[|a|..], q);
  }

  lemma BehindChunks(r: Req, front: seq<string>, c: string, m: nat, back: seq<string>, pieces: seq<string>,
                     rest: string)
    requires Between(r) && SendableChunks(front) && 0 < |c| <= LONG_MAX && 0 < m < |Chunk(c)| && |pieces| > 1
    requires Joined(pieces) == Chunks(front) + (Chunk(c) + (Chunks(back) + (LAST + rest)))
    requires |pieces[0]| == |Chunks(front)| + m
    ensures !Ends(Feed(r, "", pieces), |pieces|, PastChunks(r, front).body + (c + CRLF + Stored(back)), rest)
  {
    var first := Chunk(c)[..m];
    FirstCut(Chunks(front), Chunk(c), Chunks(back) + (LAST + rest), pieces);
    WithoutChunks(r, front, first, pieces);
    CutInChunk(PastChunks(r, front), c, m, pieces[0 := first], back, rest);
  }

  lemma InsideChunk(r: Req, cs: seq<string>, i: nat, m: nat, pieces: seq<string>, rest: string)
    requires Between(r) && SendableChunks(cs) && i < |cs| && 0 < m < |Chunk(cs[i])| && |pieces| > 1
    requires Joined(pieces) == Chunks(cs) + (LAST + rest) && |pieces[0]| == |Chunks(cs[..i])| + m
    ensures !Ends(Feed(r, "", pieces), |pieces|, r.body + Stored(cs), rest)
  {
    ChunksAround(cs, i, LAST + rest);
    StoredAround(r, cs, i);
    BehindChunks(r, cs[..i], cs[i], m, cs[i + 1..], pieces, rest);
  }

  lemma StoredAround(r: Req, cs: seq<string>, i: nat)
    requires i < |cs|
    ensures r.body + Stored(cs) == PastChunks(r, cs[..i]).body + (cs[i] + CRLF + Stored(cs[i + 1..]))
  {
    BodyBehind(r, cs, i);
    assert cs[i..][1..] == cs[i + 1..];
  }

  lemma InsideLast(r: Req, cs: seq<string>, m: nat, pieces: seq<string>, rest: string)
    requires Between(r) && SendableChunks(cs) && 0 < m < 5 && m != 3 && |pieces| > 1
    requires Joined(pieces) == Chunks(cs) + (LAST + rest) && |pieces[0]| == |Chunks(cs)| + m
    ensures !Ends(Feed(r, "", pieces), |pieces|, r.body + Stored(cs), rest)
  {
    var first := LAST[..m];
    assert |LAST| == 5;
    FirstCut(Chunks(cs), LAST, rest, pieces);
    WithoutChunks(r, cs, first, pieces);
    CutInLast(PastChunks(r, cs), m, pieces[0 := first], rest);
  }

  /** Behind the end: the message is complete before the last piece. */
  lemma TooMuch(r: Req, cs: seq<string>, pieces: seq<string>, rest: string)
    requires Between(r) && SendableChunks(cs) && |pieces| > 1
    requires Joined(pieces) == Chunks(cs) + (LAST + rest) && |pieces[0]| >= |Chunks(cs)| + 5
    ensures Feed(r, "", pieces).used == 1
  {
    var w, p := Chunks(cs) + LAST, pieces[0];
    Assoc(Chunks(cs), LAST, rest);
    CutFront(w, rest, p, Joined(pieces[1..]));
    Assoc(Chunks(cs), LAST, p[|w|..]);
    GroupEnds(r, cs, p[|w|..]);
    assert "" + p == p;
    FeedUnfold(r, "", pieces);
  }

  /** The first call ends at an unsafe place. */
  lemma UnsafeFirst(r: Req, cs: seq<string>, pieces: seq<string>, rest: string)
    requires Between(r) && SendableChunks(cs) && |pieces| > 1
    requires Joined(pieces) == Chunks(cs) + (LAST + rest) && !SafeAt(cs, |pieces[0]|)
    ensures !Ends(Feed(r, "", pieces), |pieces|, r.body + Stored(cs), rest)
  {
    var n := |pieces[0]|;
    assert cs[..|cs|] == cs;
    assert n != |PlaceText(cs, |cs|)| && n != |PlaceText(cs, |cs| + 1)|;
    if n < |Chunks(cs)| {
      var i, m := Locate(cs, n);
      assert n == |PlaceText(cs, i)| + m;
      InsideChunk(r, cs, i, m, pieces, rest);
    } else if n < |Chunks(cs)| + 5 {
      InsideLast(r, cs, n - |Chunks(cs)|, pieces, rest);
    } else {
      TooMuch(r, cs, pieces, rest);
    }
  }

  lemma SafeBehind(cs: seq<string>, i: nat, n: nat)
    requires i <= |cs| && SafeAt(cs[i..], n)
    ensures SafeAt(cs, |Chunks(cs[..i])| + n)
  {
    var k :| 0 <= k <= |cs[i..]| + 1 && n == |PlaceText(cs[i..], k)|;
    PlacesBehind(cs, i, k);
  }

  /** The next call from a safe place ends at an unsafe one. */
  lemma UnsafeNext(r: Req, cs: seq<string>, i: nat, pieces: seq<string>, rest: string)
    requires Between(r) && SendableChunks(cs) && i <= |cs| + 1 && |pieces| > 1
    requires Joined(pieces) == PlaceRest(cs, i, rest) && !SafeAt(cs, |PlaceText(cs, i)| + |pieces[0]|)
    ensures !Ends(Feed(PlaceState(r, cs, i), "", pieces), |pieces|, r.body + Stored(cs), rest)
  {
    if i <= |cs| {
      BodyBehind(r, cs, i);
      if SafeAt(cs[i..], |pieces[0]|) {
        SafeBehind(cs, i, |pieces[0]|);
      }
      UnsafeFirst(PastChunks(r, cs[..i]), cs[i..], pieces, rest);
    } else {
      assert pieces[0] != "";
      TrailerFirst(PlaceState(r, cs, i), pieces, rest);
    }
  }

  lemma BodyBehind(r: Req, cs: seq<string>, i: nat)
    requires i <= |cs|
    ensures PastChunks(r, cs[..i]).body + Stored(cs[i..]) == r.body + Stored(cs)
  {
    StoredSplit(cs, i);
    Assoc(r.body, Stored(cs[..i]), Stored(cs[i..]));
  }

  lemma StoredSplit(cs: seq<string>, i: nat)
    requires i <= |cs|
    ensures Stored(cs) == Stored(cs[..i]) + Stored(cs[i..])
  {
    assert cs == cs[..i] + cs[i..];
    StoredAppend(cs[..i], cs[i..]);
  }

  lemma TrailerFirst(t: Req, pieces: seq<string>, rest: string)
    requires t.status == Trailer && |pieces| > 1 && Joined(pieces) == CRLF + rest && pieces[0] != ""
    ensures Feed(t, "", pieces).used == 1
  {
    var p := pieces[0];
    BeginsCrlf(p, Joined(pieces[1..]), rest);
    TrailerEnds(t, if |p| == 1 then "" else p[2..]);
    assert "" + p == p;
    FeedUnfold(t, "", pieces);
  }

  lemma BeginsCrlf(a: string, b: string, rest: string)
    requires a + b == CRLF + rest && a != ""
    ensures if |a| == 1 then a == [CR] else a == CRLF + a[2..]
  {
    assert a[0] == (a + b)[0];
    if |a| > 1 {
      CutFront(CRLF, rest, a, b);
    }
  }

  // ---------------------------------------------------------------------------
  // Any number of pieces

  ghost predicate SafeCuts(cs: seq<string>, pieces: seq<string>) {
    forall j :: 0 < j < |pieces| ==> SafeAt(cs, |Joined(pieces[..j])|)
  }

  /** The first `j` pieces have brought the parser to place `i`. */
  ghost predicate Reached(r: Req, cs: seq<string>, pieces: seq<string>, j: nat, i: nat) {
    && i <= |cs| + 1 && j < |pieces| && PlaceText(cs, i) == Joined(pieces[..j])
    && var f := Feed(PlaceState(r, cs, i), "", pieces[j..]); Feed(r, "", pieces) == Fed(f.step, f.used + j)
  }

  lemma ReachStart(r: Req, cs: seq<string>, pieces: seq<string>)
    requires pieces != []
    ensures Reached(r, cs, pieces, 0, 0)
  {
    assert cs[..0] == [] && pieces[0..] == pieces && r.body + "" == r.body;
  }

  lemma StillToCome(cs: seq<string>, pieces: seq<string>, rest: string, j: nat, i: nat)
    requires i <= |cs| + 1 && j < |pieces| && PlaceText(cs, i) == Joined(pieces[..j])
    requires Joined(pieces) == Chunks(cs) + (LAST + rest)
    ensures Joined(pieces[j..]) == PlaceRest(cs, i, rest)
    ensures Joined(pieces[..j + 1]) == PlaceText(cs, i) + pieces[j]
  {
    PlaceSplit(cs, i, rest);
    JoinedSplit(pieces, j);
    Cancel(PlaceText(cs, i), Joined(pieces[j..]), PlaceRest(cs, i, rest));
    JoinedNext(pieces, j);
  }

  lemma SafePlace(cs: seq<string>, pieces: seq<string>, rest: string, j: nat) returns (i: nat)
    requires j <= |pieces| && Joined(pieces) == Chunks(cs) + (LAST + rest) && SafeAt(cs, |Joined(pieces[..j])|)
    ensures i <= |cs| + 1 && Joined(pieces[..j]) == PlaceText(cs, i)
  {
    i :| 0 <= i <= |cs| + 1 && |Joined(pieces[..j])| == |PlaceText(cs, i)|;
    JoinedSplit(pieces, j);
    PlaceSplit(cs, i, rest);
    SameFront(Joined(pieces[..j]), Joined(pieces[j..]), PlaceText(cs, i), PlaceRest(cs, i, rest));
  }

  lemma SameFront(a: string, b: string, c: string, d: string)
    requires a + b == c + d && |a| == |c|
    ensures a == c
  {
    assert a == (a + b)[..|a|];
    assert c == (c + d)[..|c|];
  }

  /** The place behind the next piece. */
  lemma PlaceBehind(cs: seq<string>, pieces: seq<string>, rest: string, j: nat, i: nat) returns (k: nat)
    requires i <= |cs| + 1 && j < |pieces| && PlaceText(cs, i) == Joined(pieces[..j])
    requires Joined(pieces) == Chunks(cs) + (LAST + rest) && SafeAt(cs, |Joined(pieces[..j + 1])|)
    ensures i <= k <= |cs| + 1 && PlaceText(cs, i) + pieces[j] == PlaceText(cs, k) == Joined(pieces[..j + 1])
  {
    StillToCome(cs, pieces, rest, j, i);
    k := SafePlace(cs, pieces, rest, j + 1);
    if k < i {
      LaterPlace(cs, k, i);
    }
  }

  lemma ReachNext(r: Req, cs: seq<string>, pieces: seq<string>, rest: string, j: nat, i: nat) returns (k: nat)
    requires Between(r) && SendableChunks(cs) && Joined(pieces) == Chunks(cs) + (LAST + rest)
    requires j + 1 < |pieces| && SafeAt(cs, |Joined(pieces[..j + 1])|)
    ensures Reached(r, cs, pieces, j, i) ==> Reached(r, cs, pieces, j + 1, k)
  {
    k := i;
    if Reached(r, cs, pieces, j, i) {
      k := PlaceBehind(cs, pieces, rest, j, i);
      ToPlace(r, cs, i, k, pieces[j]);
      FeedNext(PlaceState(r, cs, i), pieces, j, PlaceState(r, cs, k));
    }
  }

  lemma FeedNext(r: Req, pieces: seq<string>, j: nat, r': Req)
    requires j + 1 < |pieces| && Parse(r, pieces[j]) == Step(NeedMore, r', "")
    ensures var f := Feed(r', "", pieces[j + 1..]); Feed(r, "", pieces[j..]) == Fed(f.step, f.used + 1)
  {
    assert pieces[j..][0] == pieces[j] && pieces[j..][1..] == pieces[j + 1..] && "" + pieces[j] == pieces[j];
    FeedWaits(r, "", pieces[j..], r', "");
  }

  lemma {:induction false} Reach(r: Req, cs: seq<string>, pieces: seq<string>, rest: string, j: nat)
    requires Between(r) && SendableChunks(cs) && j < |pieces| && Joined(pieces) == Chunks(cs) + (LAST + rest)
    requires forall k :: 0 < k <= j ==> SafeAt(cs, |Joined(pieces[..k])|)
    ensures exists i :: Reached(r, cs, pieces, j, i)
  {
    if j == 0 {
      ReachStart(r, cs, pieces);
    } else {
      Reach(r, cs, pieces, rest, j - 1);
      var i :| Reached(r, cs, pieces, j - 1, i);
      var k := ReachNext(r, cs, pieces, rest, j - 1, i);
    }
  }

  /** The last piece in front of which every cut is safe. */
  lemma SafeUpTo(cs: seq<string>, pieces: seq<string>) returns (j: nat)
    requires pieces != []
    ensures j < |pieces| && forall k :: 0 < k <= j ==> SafeAt(cs, |Joined(pieces[..k])|)
    ensures j + 1 < |pieces| ==> !SafeAt(cs, |Joined(pieces[..j + 1])|)
  {
    j := 0;
    while j + 1 < |pieces| && SafeAt(cs, |Joined(pieces[..j + 1])|)
      invariant j < |pieces| && forall k :: 0 < k <= j ==> SafeAt(cs, |Joined(pieces[..k])|)
    {
      j := j + 1;
    }
  }

  lemma LastPiece(r: Req, cs: seq<string>, pieces: seq<string>, rest: string, j: nat, i: nat)
    requires Between(r) && SendableChunks(cs) && Joined(pieces) == Chunks(cs) + (LAST + rest)
    requires Reached(r, cs, pieces, j, i) && j + 1 == |pieces|
    ensures Feed(r, "", pieces) == Fed(Complete(r, cs, rest), |pieces|)
  {
    StillToCome(cs, pieces, rest, j, i);
    var last := pieces[j..];
    assert Joined(last) == last[0] + "" == last[0] && "" + last[0] == last[0];
    FeedEnds(PlaceState(r, cs, i), "", last);
    FromPlace(r, cs, i, rest);
  }

  lemma UnsafePiece(r: Req, cs: seq<string>, pieces: seq<string>, rest: string, j: nat, i: nat)
    requires Between(r) && SendableChunks(cs) && Joined(pieces) == Chunks(cs) + (LAST + rest)
    requires Reached(r, cs, pieces, j, i) && j + 1 < |pieces| && !SafeAt(cs, |Joined(pieces[..j + 1])|)
    ensures Feed(r, "", pieces) != Fed(Complete(r, cs, rest), |pieces|)
  {
    StillToCome(cs, pieces, rest, j, i);
    UnsafeNext(r, cs, i, pieces[j..], rest);
  }

  lemma Whole(r: Req, cs: seq<string>, rest: string)
    requires Between(r) && SendableChunks(cs)
    ensures Parse(r, Chunks(cs) + (LAST + rest)) == Complete(r, cs, rest)
  {
    GroupEnds(r, cs, rest);
  }

  /** A chunked body in any number of pieces is read as in one, with every piece used,
      exactly when every cut is between two chunks or behind the last size line:
      whatever the chunks hold, and whatever follows. */
  lemma ChunkCutsExactly(r: Req, cs: seq<string>, pieces: seq<string>, rest: string)
    requires Between(r) && SendableChunks(cs) && pieces != [] && Joined(pieces) == Chunks(cs) + (LAST + rest)
    ensures Feed(r, "", pieces) == Fed(Parse(r, Chunks(cs) + (LAST + rest)), |pieces|) <==> SafeCuts(cs, pieces)
  {
    Whole(r, cs, rest);
    var j := SafeUpTo(cs, pieces);
    Reach(r, cs, pieces, rest, j);
    var i :| Reached(r, cs, pieces, j, i);
    if j + 1 == |pieces| {
      LastPiece(r, cs, pieces, rest, j, i);
    } else {
      UnsafePiece(r, cs, pieces, rest, j, i);
    }
  }

  /** One cut. */
  lemma ChunkCutExactly(r: Req, cs: seq<string>, n: nat, rest: string)
    requires Between(r) && SendableChunks(cs) && n < |Chunks(cs) + LAST|
    ensures var w := Chunks(cs) + LAST;
            Feed(r, "", [w[..n], w[n..] + rest]) == Fed(Parse(r, w + rest), 2) <==> SafeAt(cs, n)
  {
    var w := Chunks(cs) + LAST;
    assert w[..n] + w[n..] == w;
    Assoc(w[..n], w[n..], rest);
    Assoc(Chunks(cs), LAST, rest);
    TwoPieces(r, cs, w[..n], w[n..] + rest, rest);
  }

  lemma TwoPieces(r: Req, cs: seq<string>, a: string, b: string, rest: string)
    requires Between(r) && SendableChunks(cs) && a + b == Chunks(cs) + (LAST + rest)
    ensures Feed(r, "", [a, b]) == Fed(Parse(r, Chunks(cs) + (LAST + rest)), 2) <==> SafeAt(cs, |a|)
  {
    JoinedTwo(a, b);
    ChunkCutsExactly(r, cs, [a, b], rest);
    OneCut(cs, a, b);
  }

  lemma OneCut(cs: seq<string>, a: string, b: string)
    ensures SafeCuts(cs, [a, b]) <==> SafeAt(cs, |a|)
  {
    JoinedTwo(a, b);
  }
}
