/**
 A request in any number of pieces (http/request.cc 6-127): it is read as in one
 exactly when every cut is one that a request survives.
 */
module ManyCuts {
  import opened Text
  import opened Message
  import opened RoundTrip
  import opened Delivery

  /** Every place between two pieces is inside the request and safe. */
  ghost predicate SafeCuts(x: Sent, pieces: seq<string>)
    requires Ok(x)
  {
    forall j :: 0 < j < |pieces| ==> SafeInside(x, |Joined(pieces[..j])|)
  }

  ghost predicate SafeInside(x: Sent, m: nat)
    requires Ok(x)
  {
    m < |SendTo(x.q, x.order)| && SafeAt(x, m)
  }

  /** Not what one delivery gives. */
  predicate Differs(f: Fed, pieces: nat, rest: string) {
    f.used != pieces || f.step.outcome != AllRead || f.step.left != rest
  }

  // ---------------------------------------------------------------------------
  // Once the headers have ended too early

  /** In the body with the wrong bytes, however these are cut further. */
  lemma {:induction false} BodyFeeds(x: Sent, r: Req, left: string, pieces: seq<string>, rest: string)
    requires InBodyOf(x, r) && pieces != []
    requires Get(r.headers, CL) == "" || |left| + |Joined(pieces)| > |x.q.body| + |rest|
    ensures Differs(Feed(r, left, pieces), |pieces|, rest)
    decreases |pieces|
  {
    var b := left + pieces[0];
    var s := Parse(r, b);
    BodyCall(x, r, b);
    FeedUnfold(r, left, pieces);
    if |pieces| > 1 && s.outcome == NeedMore {
      BodyFeeds(x, s.req, s.left, pieces[1..], rest);
    }
  }

  lemma EndedFeeds(x: Sent, i: nat, b: string, pieces: seq<string>, rest: string)
    requires Ok(x) && i <= |x.order| && pieces != [] && |b| + |Joined(pieces)| > |x.q.body| + |rest|
    ensures var s := Ended(x, i, b);
            s.outcome == NeedMore ==> Differs(Feed(s.req, s.left, pieces), |pieces|, rest)
  {
    if x.q.verb == POST {
      var r := HeadersRead(x, i).(status := Body);
      EndedInBody(x, i);
      BodyCall(x, r, b);
      var s := Parse(r, b);
      if s.outcome == NeedMore {
        BodyFeeds(x, s.req, s.left, pieces, rest);
      }
    }
  }

  /** The headers ended in the call before. */
  lemma EarlyFeeds(x: Sent, r: Req, left: string, i: nat, b: string, pieces: seq<string>, rest: string)
    requires Ok(x) && i <= |x.order| && |pieces| > 1 && |b| + |Joined(pieces[1..])| > |x.q.body| + |rest|
    ensures Parse(r, left + pieces[0]) == Ended(x, i, b) ==> Differs(Feed(r, left, pieces), |pieces|, rest)
  {
    FeedUnfold(r, left, pieces);
    EndedFeeds(x, i, b, pieces[1..], rest);
  }

  /** The headers end at the LF that comes next. */
  lemma {:induction false} LateFeeds(x: Sent, i: nat, pieces: seq<string>, rest: string)
    requires Ok(x) && i <= |x.order| && pieces != []
    requires |Joined(pieces)| > |x.q.body| + |rest| + 2 && Joined(pieces)[0] == LF
    ensures Differs(Feed(HeadersRead(x, i), "", pieces), |pieces|, rest)
    decreases |pieces|
  {
    var r, p := HeadersRead(x, i), pieces[0];
    assert "" + p == p;
    FeedUnfold(r, "", pieces);
    if p == "" {
      EmptyPiece(r);
      assert Joined(pieces) == Joined(pieces[1..]);
      LateFeeds(x, i, pieces[1..], rest);
    } else {
      var more := p[1..];
      var b := if more != "" && more[0] == CR then more[1..] else more;
      assert Joined(pieces)[0] == p[0] && p == [LF] + more;
      CutInsideLineEnd(x, i, more);
      EndedCall(x, i, b);
      if |pieces| > 1 {
        EarlyFeeds(x, r, "", i, b, pieces, rest);
      } else {
        assert Joined(pieces[1..]) == "";
      }
    }
  }

  lemma EmptyPiece(r: Req)
    requires r.status == Headers
    ensures Parse(r, "") == Step(NeedMore, r, "")
  {
    HeaderLoopStep(r, "", "", "");
  }

  // ---------------------------------------------------------------------------
  // Reading on to an unsafe place

  /** A line that is no continuation is read whatever was read before. */
  lemma FreshLine(r: Req, b: string, k: string, v: string)
    requires b == "" || !IsBlank(b[0])
    ensures HeaderLoop(r, b, k, v) == HeaderLoop(r, b, "", "")
  {
    HeaderLoopStep(r, b, k, v);
    HeaderLoopStep(r, b, "", "");
    if b != "" {
      TextBegins(b);
    }
  }

  /** Behind the first `i` headers the parser goes on as if all had come at once. */
  lemma ResumesAny(x: Sent, i: nat, piece: string)
    requires Ok(x) && i <= |x.order| && (piece == "" || !IsBlank(piece[0]))
    ensures Parse(HeadersRead(x, i), piece) ==
            Parse(x.p, TextOf(x) + CRLF + (HeaderLines(x.q.headers, x.order[..i]) + piece))
  {
    var b := HeaderLines(x.q.headers, x.order[..i]) + piece;
    RequestLineReads(x.p, x.q.verb, x.target, x.q.minor);
    FirstLineRead(x.p, TextOf(x), FirstRead(x).(status := FirstLine), b);
    var k, v := HeaderLoopOver(FirstRead(x), x.q.headers, x.order[..i], piece, "", "");
    FreshLine(HeadersRead(x, i), piece, k, v);
  }

  /** What comes behind whole headers begins a line. */
  lemma {:induction false} BeginsLine(h: map<string, string>, order: seq<string>)
    requires (forall k :: k in order ==> k in h) && CleanHeaders(h)
    ensures !IsBlank((HeaderLines(h, order) + CRLF)[0])
    decreases |order|
  {
    if order != [] {
      LinesUnfold(h, order, CRLF);
      if h[order[0]] == "" {
        BeginsLine(h, order[1..]);
      } else {
        var k := order[0];
        assert CleanHeader(k, h[k]);
        assert HeaderLine(k, h[k])[0] == if k == "" then ':' else k[0];
      }
    }
  }

  /** The state behind the first call that reaches an unsafe place. */
  lemma UnsafeState(x: Sent, m: nat) returns (early: bool, i: nat, b: string)
    requires Ok(x) && !SafeAt(x, m)
    ensures m < |HeadText(x)| && i <= |x.order|
    ensures early ==> Parse(x.p, HeadText(x)[..m]) == Ended(x, i, b)
    ensures !early ==> m + 3 <= |HeadText(x)| && HeadText(x)[m] == LF
    ensures !early ==> Parse(x.p, HeadText(x)[..m]) == Step(NeedMore, HeadersRead(x, i), "")
  {
    if m == |TextOf(x)| + 1 {
      assert HeadText(x)[..m] == TextOf(x) + [CR] && HeadText(x)[m] == LF;
      CutInsideFirstEnd(x);
      early, i, b := false, 0, "";
    } else {
      var s := UnsafeSpot(x, m);
      if s.inEnd && s.headers < |x.order| {
        CutInsideHeaderEnd(x, s.headers);
        early, i, b := false, s.headers + 1, "";
      } else if s.inEnd {
        assert x.order[..|x.order|] == x.order && s.part + [CR] == [CR];
        CutInsideEmptyLine(x);
        early, i, b := true, |x.order|, "";
      } else {
        assert s.part + "" == s.part;
        CutInsideHeader(x, s.headers, s.part);
        early, i, b := true, s.headers, s.part;
      }
    }
  }

  // ---------------------------------------------------------------------------
  // Any pieces

  /** The bytes that have come are a front part of the request. */
  lemma FrontOf(w: string, rest: string, a: string, b: string)
    requires a + b == w + rest
    ensures |a| <= |w| ==> a == w[..|a|] && b == w[|a|..] + rest
    ensures |a| >= |w| ==> a == w + a[|w|..] && a[|w|..] + b == rest
  {
    var all := w + rest;
    assert a == all[..|a|] && b == all[|a|..];
    if |a| >= |w| {
      assert a[..|w|] == all[..|w|] == w && a == a[..|w|] + a[|w|..];
      assert a[|w|..] + b == all[|w|..] == rest;
    }
  }

  /** The next safe place, as a cut behind the one before. */
  lemma NextCut(x: Sent, c: Cut, m: nat) returns (d: Cut)
    requires Ok(x) && ValidCut(x, c) && !c.Whole? && |Prefix(x, c)| <= m < |SendTo(x.q, x.order)| && SafeAt(x, m)
    requires Prefix(x, c) <= SendTo(x.q, x.order)
    ensures ValidCut(x, d) && !d.Whole? && Before(c, d) && Prefix(x, d) == SendTo(x.q, x.order)[..m]
  {
    if m == |Prefix(x, c)| {
      d := c;
    } else {
      d := SafeCut(x, m);
      LaterCut(x, c, d);
    }
  }

  lemma PrefixSize(x: Sent, c: Cut)
    requires Ok(x) && ValidCut(x, c) && !c.Whole?
    ensures |Prefix(x, c)| ==
            match c
            case InFirstLine(n) => n
            case AfterHeaders(n) => |TextOf(x)| + 2 + |HeaderLines(x.q.headers, x.order[..n])|
            case InBody(n) => |HeadText(x)| + n
            case Whole(_) => 0
  {
    assert x.order[..|x.order|] == x.order;
  }

  lemma LinesGrow(h: map<string, string>, order: seq<string>, i: nat, j: nat)
    requires (forall k :: k in order ==> k in h) && i <= j <= |order|
    ensures |HeaderLines(h, order[..i])| <= |HeaderLines(h, order[..j])|
  {
    assert order[..j] == order[..i] + order[i..j];
    LinesAppend(h, order[..i], order[i..j]);
  }

  lemma LaterCut(x: Sent, c: Cut, d: Cut)
    requires Ok(x) && ValidCut(x, c) && ValidCut(x, d) && !c.Whole? && !d.Whole?
    requires |Prefix(x, c)| < |Prefix(x, d)|
    ensures Before(c, d)
  {
    PrefixSize(x, c);
    PrefixSize(x, d);
    if c.AfterHeaders? && d.AfterHeaders? && d.n < c.n {
      LinesGrow(x.q.headers, x.order, d.n, c.n);
      assert false;
    } else if c.InBody? && d.AfterHeaders? {
      assert x.order[..|x.order|] == x.order;
      LinesGrow(x.q.headers, x.order, d.n, |x.order|);
      assert false;
    }
  }

  lemma CompletesEarly(x: Sent, c: Cut, pieces: seq<string>, rest: string)
    requires Ok(x) && ValidCut(x, c) && !c.Whole? && |pieces| > 1
    requires Prefix(x, c) + Joined(pieces) == SendTo(x.q, x.order) + rest
    requires |Prefix(x, c)| + |pieces[0]| >= |SendTo(x.q, x.order)|
    ensures Differs(Feed(StateAt(x, c), LeftAt(x, c), pieces), |pieces|, rest)
  {
    var w, a := SendTo(x.q, x.order), Prefix(x, c) + pieces[0];
    JoinedUnfold(pieces, Prefix(x, c));
    FrontOf(w, rest, a, Joined(pieces[1..]));
    WholeIsSendTo(x, a[|w|..]);
    Resumes(x, c, Whole(a[|w|..]), pieces[0]);
    RequestRoundTrip(x.q, x.target, x.order, x.p, a[|w|..]);
    FeedUnfold(StateAt(x, c), LeftAt(x, c), pieces);
  }

  /** The call that comes to an unsafe place, from a safe one. */
  lemma ReachesUnsafe(x: Sent, c: Cut, piece: string, m: nat)
    requires Ok(x) && ValidCut(x, c) && !c.Whole? && !SafeAt(x, m) && m < |HeadText(x)|
    requires |Prefix(x, c)| <= m && Prefix(x, c) + piece == HeadText(x)[..m]
    ensures Parse(StateAt(x, c), LeftAt(x, c) + piece) == Parse(x.p, HeadText(x)[..m])
  {
    PrefixSize(x, c);
    if c.AfterHeaders? {
      var lines := HeaderLines(x.q.headers, x.order[..c.n]);
      assert lines + "" == lines && "" + piece == piece;
      Assoc(TextOf(x) + CRLF, lines, piece);
      PieceBegins(x, c.n, piece, m);
      ResumesAny(x, c.n, piece);
    }
  }

  lemma PieceBegins(x: Sent, i: nat, piece: string, m: nat)
    requires Ok(x) && i <= |x.order| && m <= |HeadText(x)|
    requires TextOf(x) + CRLF + HeaderLines(x.q.headers, x.order[..i]) + piece == HeadText(x)[..m]
    ensures piece == "" || !IsBlank(piece[0])
  {
    var start := TextOf(x) + CRLF + HeaderLines(x.q.headers, x.order[..i]);
    var more := HeaderLines(x.q.headers, x.order[i..]) + CRLF;
    LinesSplit(x.q.headers, x.order, i, TextOf(x) + CRLF);
    assert HeadText(x) == start + more;
    assert forall k :: k in x.order[i..] ==> k in x.order;
    BeginsLine(x.q.headers, x.order[i..]);
    if piece != "" {
      assert piece[0] == (start + piece)[|start|] == HeadText(x)[|start|] == more[0];
    }
  }

  lemma UnsafeFeeds(x: Sent, c: Cut, pieces: seq<string>, rest: string)
    requires Ok(x) && ValidCut(x, c) && !c.Whole? && |pieces| > 1
    requires Prefix(x, c) + Joined(pieces) == SendTo(x.q, x.order) + rest
    requires var m := |Prefix(x, c)| + |pieces[0]|; m < |SendTo(x.q, x.order)| && !SafeAt(x, m)
    ensures Differs(Feed(StateAt(x, c), LeftAt(x, c), pieces), |pieces|, rest)
  {
    var a, b := Prefix(x, c) + pieces[0], Joined(pieces[1..]);
    var m := |a|;
    JoinedUnfold(pieces, Prefix(x, c));
    var early, i, left := UnsafeState(x, m);
    CutParts(x, m, a, b, rest);
    ReachesUnsafe(x, c, pieces[0], m);
    if early {
      EarlyFeeds(x, StateAt(x, c), LeftAt(x, c), i, left, pieces, rest);
    } else {
      FeedUnfold(StateAt(x, c), LeftAt(x, c), pieces);
      LateFeeds(x, i, pieces[1..], rest);
    }
  }

  lemma OnePiece(x: Sent, c: Cut, pieces: seq<string>, rest: string)
    requires Ok(x) && ValidCut(x, c) && !c.Whole? && |pieces| == 1
    requires Prefix(x, c) + Joined(pieces) == SendTo(x.q, x.order) + rest
    ensures Feed(StateAt(x, c), LeftAt(x, c), pieces) == Fed(Parse(x.p, SendTo(x.q, x.order) + rest), 1)
  {
    assert Joined(pieces) == pieces[0] + "" == pieces[0];
    WholeIsSendTo(x, rest);
    Resumes(x, c, Whole(rest), pieces[0]);
    FeedEnds(StateAt(x, c), LeftAt(x, c), pieces);
  }

  /** The cut behind the next piece. */
  lemma CutBehind(x: Sent, c: Cut, pieces: seq<string>, rest: string) returns (d: Cut)
    requires Ok(x) && ValidCut(x, c) && !c.Whole? && |pieces| > 1
    requires Prefix(x, c) + Joined(pieces) == SendTo(x.q, x.order) + rest
    requires var m := |Prefix(x, c)| + |pieces[0]|; m < |SendTo(x.q, x.order)| && SafeAt(x, m)
    ensures ValidCut(x, d) && !d.Whole? && Before(c, d) && Prefix(x, d) == Prefix(x, c) + pieces[0]
    ensures Prefix(x, d) + Joined(pieces[1..]) == SendTo(x.q, x.order) + rest
  {
    var w, a := SendTo(x.q, x.order), Prefix(x, c) + pieces[0];
    JoinedUnfold(pieces, Prefix(x, c));
    FrontOf(w, rest, a, Joined(pieces[1..]));
    assert Prefix(x, c) == a[..|Prefix(x, c)|] == w[..|Prefix(x, c)|];
    d := NextCut(x, c, |a|);
  }

  lemma SafePiece(x: Sent, c: Cut, d: Cut, pieces: seq<string>)
    requires Ok(x) && ValidCut(x, c) && ValidCut(x, d) && !c.Whole? && !d.Whole? && |pieces| > 1
    requires Before(c, d) && Prefix(x, d) == Prefix(x, c) + pieces[0]
    ensures var f := Feed(StateAt(x, d), LeftAt(x, d), pieces[1..]);
            Feed(StateAt(x, c), LeftAt(x, c), pieces) == Fed(f.step, f.used + 1)
  {
    Resumes(x, c, d, pieces[0]);
    Stops(x, d);
    FeedWaits(StateAt(x, c), LeftAt(x, c), pieces, StateAt(x, d), LeftAt(x, d));
  }

  /** The first `j` pieces have brought the parser to the cut `c`. */
  ghost predicate Reached(x: Sent, pieces: seq<string>, j: nat, c: Cut) {
    && Ok(x) && ValidCut(x, c) && !c.Whole? && j < |pieces|
    && Prefix(x, c) == Joined(pieces[..j])
    && var f := Feed(StateAt(x, c), LeftAt(x, c), pieces[j..]); Feed(x.p, "", pieces) == Fed(f.step, f.used + j)
  }

  lemma ReachStart(x: Sent, pieces: seq<string>)
    requires Ok(x) && pieces != []
    ensures Reached(x, pieces, 0, InFirstLine(0))
  {
    var c := InFirstLine(0);
    assert Prefix(x, c) == "" && LeftAt(x, c) == "" && pieces[0..] == pieces;
  }

  /** What is still to come behind a cut that was reached. */
  lemma StillToCome(x: Sent, pieces: seq<string>, rest: string, j: nat, c: Cut)
    requires Ok(x) && ValidCut(x, c) && j < |pieces| && Prefix(x, c) == Joined(pieces[..j])
    requires Joined(pieces) == SendTo(x.q, x.order) + rest
    ensures Prefix(x, c) + Joined(pieces[j..]) == SendTo(x.q, x.order) + rest
    ensures pieces[j..][0] == pieces[j] && |pieces[j..]| == |pieces| - j
    ensures |Prefix(x, c)| + |pieces[j]| == |Joined(pieces[..j + 1])|
  {
    JoinedSplit(pieces, j);
    JoinedNext(pieces, j);
  }

  lemma FeedNext(x: Sent, pieces: seq<string>, j: nat, c: Cut, d: Cut)
    requires Ok(x) && ValidCut(x, c) && ValidCut(x, d) && !c.Whole? && !d.Whole? && j + 1 < |pieces|
    requires Before(c, d) && Prefix(x, d) == Prefix(x, c) + pieces[j]
    ensures var f := Feed(StateAt(x, d), LeftAt(x, d), pieces[j + 1..]);
            Feed(StateAt(x, c), LeftAt(x, c), pieces[j..]) == Fed(f.step, f.used + 1)
  {
    assert pieces[j..][0] == pieces[j] && pieces[j..][1..] == pieces[j + 1..];
    SafePiece(x, c, d, pieces[j..]);
  }

  lemma ReachOne(x: Sent, pieces: seq<string>, j: nat, c: Cut, d: Cut)
    requires Ok(x) && ValidCut(x, c) && ValidCut(x, d) && !c.Whole? && !d.Whole? && j + 1 < |pieces|
    requires Before(c, d) && Prefix(x, d) == Prefix(x, c) + pieces[j]
    ensures Reached(x, pieces, j, c) ==> Reached(x, pieces, j + 1, d)
  {
    FeedNext(x, pieces, j, c, d);
    JoinedNext(pieces, j);
  }

  lemma ReachNext(x: Sent, pieces: seq<string>, rest: string, j: nat, c: Cut) returns (d: Cut)
    requires Ok(x) && Joined(pieces) == SendTo(x.q, x.order) + rest && j + 1 < |pieces|
    requires SafeInside(x, |Joined(pieces[..j + 1])|)
    ensures Reached(x, pieces, j, c) ==> Reached(x, pieces, j + 1, d)
  {
    d := c;
    if Reached(x, pieces, j, c) {
      StillToCome(x, pieces, rest, j, c);
      d := CutBehind(x, c, pieces[j..], rest);
      ReachOne(x, pieces, j, c, d);
    }
  }

  lemma {:induction false} Reach(x: Sent, pieces: seq<string>, rest: string, j: nat)
    requires Ok(x) && j < |pieces| && Joined(pieces) == SendTo(x.q, x.order) + rest
    requires forall i :: 0 < i <= j ==> SafeInside(x, |Joined(pieces[..i])|)
    ensures exists c :: Reached(x, pieces, j, c)
  {
    if j == 0 {
      ReachStart(x, pieces);
    } else {
      Reach(x, pieces, rest, j - 1);
      var c :| Reached(x, pieces, j - 1, c);
      var d := ReachNext(x, pieces, rest, j - 1, c);
    }
  }

  /** The last piece in front of which every cut is safe. */
  lemma SafeUpTo(x: Sent, pieces: seq<string>) returns (j: nat)
    requires Ok(x) && pieces != []
    ensures j < |pieces| && forall i :: 0 < i <= j ==> SafeInside(x, |Joined(pieces[..i])|)
    ensures j + 1 < |pieces| ==> !SafeInside(x, |Joined(pieces[..j + 1])|)
  {
    j := 0;
    while j + 1 < |pieces| && SafeInside(x, |Joined(pieces[..j + 1])|)
      invariant j < |pieces| && forall i :: 0 < i <= j ==> SafeInside(x, |Joined(pieces[..i])|)
    {
      j := j + 1;
    }
  }

  ghost predicate SameAsOne(x: Sent, pieces: seq<string>, rest: string)
    requires Ok(x) && pieces != []
  {
    Feed(x.p, "", pieces) == Fed(Parse(x.p, SendTo(x.q, x.order) + rest), |pieces|)
  }

  lemma LastPiece(x: Sent, pieces: seq<string>, rest: string, j: nat, c: Cut)
    requires Ok(x) && Joined(pieces) == SendTo(x.q, x.order) + rest && j + 1 == |pieces|
    ensures Reached(x, pieces, j, c) ==> SameAsOne(x, pieces, rest)
  {
    if Reached(x, pieces, j, c) {
      StillToCome(x, pieces, rest, j, c);
      OnePiece(x, c, pieces[j..], rest);
    }
  }

  lemma UnsafePiece(x: Sent, pieces: seq<string>, rest: string, j: nat, c: Cut)
    requires Ok(x) && Joined(pieces) == SendTo(x.q, x.order) + rest && j + 1 < |pieces|
    requires !SafeInside(x, |Joined(pieces[..j + 1])|)
    ensures Reached(x, pieces, j, c) ==> !SameAsOne(x, pieces, rest)
  {
    if Reached(x, pieces, j, c) {
      StillToCome(x, pieces, rest, j, c);
      RequestRoundTrip(x.q, x.target, x.order, x.p, rest);
      if |Joined(pieces[..j + 1])| >= |SendTo(x.q, x.order)| {
        CompletesEarly(x, c, pieces[j..], rest);
      } else {
        UnsafeFeeds(x, c, pieces[j..], rest);
      }
    }
  }

  /** A request in any number of pieces ends as in one delivery, with every piece used,
      exactly when every cut is in the text of the first line, at the end of a header
      line, or in the body. */
  lemma ManyCutsExactly(x: Sent, pieces: seq<string>, rest: string)
    requires Ok(x) && pieces != [] && Joined(pieces) == SendTo(x.q, x.order) + rest
    ensures Feed(x.p, "", pieces) == Fed(Parse(x.p, SendTo(x.q, x.order) + rest), |pieces|) <==> SafeCuts(x, pieces)
  {
    var j := SafeUpTo(x, pieces);
    Reach(x, pieces, rest, j);
    var c :| Reached(x, pieces, j, c);
    if j + 1 == |pieces| {
      LastPiece(x, pieces, rest, j, c);
    } else {
      UnsafePiece(x, pieces, rest, j, c);
    }
  }

  /** However many pieces the request comes in, cut in the first line's text,
      between headers or in the body: every call but the last asks for more, and
      the last leaves the object and the buffer as one delivery does. */
  lemma DeliveryIndependence(x: Sent, pieces: seq<string>, rest: string)
    requires Ok(x) && pieces != [] && Joined(pieces) == SendTo(x.q, x.order) + rest && SafeCuts(x, pieces)
    ensures var f := Feed(x.p, "", pieces);
            && f == Fed(Parse(x.p, SendTo(x.q, x.order) + rest), |pieces|)
            && f.step.outcome == AllRead && Received(f.step.req, x.q, x.target) && f.step.left == rest
  {
    ManyCutsExactly(x, pieces, rest);
    RequestRoundTrip(x.q, x.target, x.order, x.p, rest);
  }

  lemma OneCut(x: Sent, a: string, b: string)
    requires Ok(x)
    ensures SafeCuts(x, [a, b]) <==> SafeInside(x, |a|)
  {
    JoinedTwo(a, b);
  }

  lemma TwoPieces(x: Sent, a: string, b: string, rest: string)
    requires Ok(x) && a + b == SendTo(x.q, x.order) + rest
    ensures Feed(x.p, "", [a, b]) == Fed(Parse(x.p, SendTo(x.q, x.order) + rest), 2) <==> SafeInside(x, |a|)
  {
    JoinedTwo(a, b);
    ManyCutsExactly(x, [a, b], rest);
    OneCut(x, a, b);
  }

  /** A request in two pieces is read as in one exactly when it is cut in the text of
      its first line, behind a whole header line, or in its body. */
  lemma SingleCutExactly(x: Sent, n: nat, rest: string)
    requires Ok(x) && n < |SendTo(x.q, x.order)|
    ensures var w := SendTo(x.q, x.order);
            Feed(x.p, "", [w[..n], w[n..] + rest]) == Fed(Parse(x.p, w + rest), 2) <==> SafeAt(x, n)
  {
    var w := SendTo(x.q, x.order);
    assert w[..n] + w[n..] == w;
    Assoc(w[..n], w[n..], rest);
    TwoPieces(x, w[..n], w[n..] + rest, rest);
  }
}
