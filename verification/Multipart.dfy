/** The Content-Length framed parser for VOICEVOX streaming responses
    (server/hot_path/model_executor.py), a subset of the multipart syntax of
    section 5.1 of RFC 2046. */
module Multipart {
  import opened Wrappers
  import opened MultipartHeaders

  // ----- one step of the parser -----

  datatype Framing = Framing(boundary: bytes) {
    /** `--boundary CR LF` */
    function Open(): (r: bytes)
      ensures |r| == |boundary| + 4 && r[|boundary| + 2] == 13
    {
      [45, 45] + boundary + CRLF
    }

    /** `--boundary-- CR LF` */
    function Close(): (r: bytes)
      ensures |r| == |boundary| + 6 && r[|boundary| + 2] == 45
    {
      [45, 45] + boundary + [45, 45] + CRLF
    }
  }

  /** What the front of the buffer says: the offset just after the header and the length it announces. */
  datatype Front =
    | Absent
    | Final
    | Unreadable(error: Error)
    | Announces(bodyStart: nat, length: int)
  {
    /** Offset just after the part and its CR LF; negative when the length is very negative. */
    function PartEnd(): int
      requires Announces?
    {
      bodyStart + length + 2
    }

    /** The announced length does not reach back past the start of the buffer. */
    predicate Reaches() { Announces? ==> PartEnd() >= 0 }
  }

  function FrontOf(f: Framing, b: bytes): (r: Front)
    ensures r.Announces? ==> r.bodyStart <= |b|
    ensures r.Final? ==> |f.Close()| <= |b|
  {
    if f.Close() <= b then Final
    else if !(f.Open() <= b) then Absent
    else
      match Find(b, HEADER_END, |f.Open()|)
      case None => Absent
      case Some(headerEnd) =>
        match ContentLength(b[|f.Open()|..headerEnd])
        case Raised(e) => Unreadable(e)
        case Ok(n) => Announces(headerEnd + 4, n)
  }

  datatype Step =
    | NeedMore
    | Closing
    | Part(body: bytes, taken: nat)
    | Broken(error: Error)

  function NextStep(f: Framing, b: bytes): (s: Step)
    ensures s.Part? ==> 2 <= s.taken <= |b|
    ensures s.Closing? ==> |f.Close()| <= |b|
  {
    match FrontOf(f, b)
    case Absent => NeedMore
    case Final => Closing
    case Unreadable(e) => Broken(e)
    case Announces(bodyStart, length) => TakePart(b, bodyStart, bodyStart + length)
  }

  function TakePart(b: bytes, bodyStart: nat, bodyEnd: int): (s: Step)
    ensures s.Part? ==> 2 <= s.taken <= |b|
    ensures !s.Closing?
  {
    if |b| < bodyEnd + 2 then NeedMore
    else if Slice(b, bodyEnd, bodyEnd + 2) != CRLF then Broken(PartNotFollowedByCrlf)
    else
      assert |Slice(b, bodyEnd, bodyEnd + 2)| == 2;
      Part(Slice(b, bodyStart, bodyEnd), Bound(bodyEnd + 2, |b|))
  }

  // ----- draining a buffer -----

  datatype Drained = Drained(parts: seq<bytes>, rest: bytes, closed: bool, error: Option<Error>)

  /** What `_parse_available` does to an open parser holding `b`. */
  function Drain(f: Framing, b: bytes): Drained
    decreases |b|
  {
    match NextStep(f, b)
    case NeedMore => Drained([], b, false, None)
    case Closing => Drained([], b[|f.Close()|..], true, None)
    case Broken(e) => Drained([], b, false, Some(e))
    case Part(body, taken) => Then(body, Drain(f, b[taken..]))
  }

  function Then(body: bytes, d: Drained): Drained { d.(parts := [body] + d.parts) }

  function Prepend(parts: seq<bytes>, d: Drained): Drained { d.(parts := parts + d.parts) }

  /** No part header met while draining `b` announces a length that reaches before the buffer. */
  ghost predicate LengthsReach(f: Framing, b: bytes)
    decreases |b|
  {
    && FrontOf(f, b).Reaches()
    && (NextStep(f, b).Part? ==> LengthsReach(f, b[NextStep(f, b).taken..]))
  }

  /** A decided step stays decided when more bytes arrive, unless a negative length made the
      slices count from the end of the buffer. */
  lemma {:induction false} StepStable(f: Framing, b: bytes, x: bytes)
    requires NextStep(f, b) != NeedMore
    requires FrontOf(f, b).Reaches()
    ensures NextStep(f, b + x) == NextStep(f, b)
    ensures FrontOf(f, b + x) == FrontOf(f, b)
  {
    FrontStable(f, b, x);
    var front := FrontOf(f, b);
    if front.Announces? {
      TakeStable(b, x, front.bodyStart, front.bodyStart + front.length);
    }
  }

  lemma FrontStable(f: Framing, b: bytes, x: bytes)
    requires FrontOf(f, b) != Absent
    ensures FrontOf(f, b + x) == FrontOf(f, b)
  {
    if !(f.Close() <= b) {
      DelimiterStable(f, b, x);
      var k := Find(b, HEADER_END, |f.Open()|).value;
      FindStable(b, x, HEADER_END, |f.Open()|);
      assert (b + x)[|f.Open()|..k] == b[|f.Open()|..k];
    }
  }

  lemma TakeStable(b: bytes, x: bytes, bodyStart: nat, bodyEnd: int)
    requires bodyStart <= |b| && 0 <= bodyEnd + 2 <= |b|
    ensures TakePart(b + x, bodyStart, bodyEnd) == TakePart(b, bodyStart, bodyEnd)
  {
    if bodyEnd >= 0 {
      assert (b + x)[bodyEnd..bodyEnd + 2] == b[bodyEnd..bodyEnd + 2];
      if bodyStart <= bodyEnd {
        assert (b + x)[bodyStart..bodyEnd] == b[bodyStart..bodyEnd];
      }
    } else {
      assert |Slice(b, bodyEnd, bodyEnd + 2)| < 2;
      assert |Slice(b + x, bodyEnd, bodyEnd + 2)| < 2;
    }
  }

  lemma DelimiterStable(f: Framing, b: bytes, x: bytes)
    requires f.Open() <= b
    ensures !(f.Close() <= b) && !(f.Close() <= b + x) && f.Open() <= b + x
  {
    var at := |f.boundary| + 2;
    assert b[at] == f.Open()[at] && (b + x)[at] == b[at];
  }

  lemma FindStable(b: bytes, x: bytes, pattern: bytes, from: nat)
    requires Find(b, pattern, from).Some?
    ensures Find(b + x, pattern, from) == Find(b, pattern, from)
  {
    var k := Find(b, pattern, from).value;
    assert (b + x)[k..k + |pattern|] == b[k..k + |pattern|];
    assert OccursAt(b + x, pattern, k);
    var r := Find(b + x, pattern, from).value;
    assert (b + x)[r..r + |pattern|] == b[r..r + |pattern|];
    assert OccursAt(b, pattern, r);
  }

  /** Exactly the lengths that reach past the start of the buffer make the decision depend on
      bytes that arrive later: for any other length some continuation changes it. */
  lemma StableExactlyWhenReaching(f: Framing, b: bytes)
    requires FrontOf(f, b).Announces?
    ensures (forall x: bytes :: NextStep(f, b) != NeedMore ==> NextStep(f, b + x) == NextStep(f, b))
            <==> FrontOf(f, b).Reaches()
  {
    var front := FrontOf(f, b);
    if front.Reaches() {
      forall x: bytes | NextStep(f, b) != NeedMore
        ensures NextStep(f, b + x) == NextStep(f, b)
      {
        StepStable(f, b, x);
      }
    } else {
      var good, bad := PastTheStart(f, b);
    }
  }

  /** Two continuations of a buffer whose header reaches before its start, with different outcomes. */
  lemma {:induction false} PastTheStart(f: Framing, b: bytes) returns (good: bytes, bad: bytes)
    requires FrontOf(f, b).Announces? && !FrontOf(f, b).Reaches()
    ensures NextStep(f, b).Part? || NextStep(f, b).Broken?
    ensures NextStep(f, b + good).Part? && NextStep(f, b + bad).Broken?
  {
    hide FrontOf;
    var pad := seq(-FrontOf(f, b).PartEnd(), i => 0 as byte);
    good, bad := CRLF + pad, [0, 0] + pad;
    FrontStable(f, b, good);
    FrontStable(f, b, bad);
    hide Slice;
    SliceFromEnd(b, CRLF, pad);
    SliceFromEnd(b, [0, 0], pad);
    assert [0 as byte, 0 as byte][0] != CRLF[0];
  }

  lemma SliceFromEnd(b: bytes, mid: bytes, pad: bytes)
    requires |mid| == 2 && 0 < |pad|
    ensures Slice(b + (mid + pad), -|pad| - 2, -|pad|) == mid
  {
    assert (b + (mid + pad))[|b|..|b| + 2] == mid;
  }

  lemma {:induction false} DrainExtends(f: Framing, b: bytes, x: bytes)
    requires LengthsReach(f, b)
    ensures var d := Drain(f, b);
            Drain(f, b + x) ==
              if d.error.Some? then d.(rest := d.rest + x)
              else if d.closed then d.(rest := d.rest + x)
              else Prepend(d.parts, Drain(f, d.rest + x))
    decreases |b|
  {
    hide FrontOf, TakePart;
    match NextStep(f, b)
    case NeedMore =>
      assert Prepend([], Drain(f, b + x)) == Drain(f, b + x);
    case Closing =>
      StepStable(f, b, x);
      assert (b + x)[|f.Close()|..] == b[|f.Close()|..] + x;
    case Broken(e) =>
      StepStable(f, b, x);
    case Part(body, taken) =>
      StepStable(f, b, x);
      assert (b + x)[taken..] == b[taken..] + x;
      DrainExtends(f, b[taken..], x);
      var d := Drain(f, b[taken..]);
      PrependThen(body, d.parts, Drain(f, d.rest + x));
  }

  lemma PrependThen(body: bytes, parts: seq<bytes>, d: Drained)
    ensures Then(body, Prepend(parts, d)) == Prepend([body] + parts, d)
  {
    assert [body] + (parts + d.parts) == [body] + parts + d.parts;
  }

  lemma {:induction false} LengthsReachPrefix(f: Framing, b: bytes, x: bytes)
    requires LengthsReach(f, b + x)
    ensures LengthsReach(f, b)
    ensures var d := Drain(f, b); d.error.None? && !d.closed ==> LengthsReach(f, d.rest + x)
    decreases |b|
  {
    hide Find, ContentLength, TakePart;
    if FrontOf(f, b) != Absent {
      FrontStable(f, b, x);
    }
    if NextStep(f, b).Part? {
      StepStable(f, b, x);
      var taken := NextStep(f, b).taken;
      assert (b + x)[taken..] == b[taken..] + x;
      LengthsReachPrefix(f, b[taken..], x);
    }
  }

  // ----- the parser over a run of feeds -----

  datatype State = State(buffer: bytes, closed: bool)

  const INITIAL := State([], false)

  /** What one call returns and leaves behind; the parts of a raising call are lost. */
  datatype Outcome = Outcome(result: Result<seq<bytes>, Error>, state: State)

  function Available(f: Framing, s: State): Outcome {
    if s.closed then Outcome(Ok([]), s)
    else
      var d := Drain(f, s.buffer);
      Outcome(if d.error.Some? then Raised(d.error.value) else Ok(d.parts), State(d.rest, d.closed))
  }

  function Fed(f: Framing, s: State, data: bytes): Outcome {
    Available(f, s.(buffer := s.buffer + data))
  }

  function Finished(f: Framing, s: State): Outcome {
    var o := Available(f, s);
    if o.result.Ok? && o.state.buffer != [] && !o.state.closed then o.(result := Raised(Incomplete)) else o
  }

  function Flatten(chunks: seq<bytes>): bytes {
    if chunks == [] then [] else chunks[0] + Flatten(chunks[1..])
  }

  /** Feeding chunk after chunk until one call raises. */
  function FeedAll(f: Framing, s: State, chunks: seq<bytes>): Outcome
    decreases |chunks|
  {
    if chunks == [] then Outcome(Ok([]), s)
    else
      var first := Fed(f, s, chunks[0]);
      match first.result
      case Raised(_) => first
      case Ok(parts) =>
        var later := FeedAll(f, first.state, chunks[1..]);
        later.(result := After(parts, later.result))
  }

  /** The result of a run whose calls so far returned `parts` and whose later calls give `later`. */
  function After(parts: seq<bytes>, later: Result<seq<bytes>, Error>): Result<seq<bytes>, Error> {
    match later
    case Raised(_) => later
    case Ok(more) => Ok(parts + more)
  }

  lemma AfterTwice(a: seq<bytes>, b: seq<bytes>, later: Result<seq<bytes>, Error>)
    ensures After(a, After(b, later)) == After(a + b, later)
    ensures After([], later) == later
  {
    if later.Ok? {
      assert a + (b + later.value) == a + b + later.value;
      assert [] + later.value == later.value;
    }
  }

  ghost predicate SameOutcome(a: Outcome, b: Outcome) {
    && a.result == b.result
    && (a.result.Ok? ==> a.state == b.state)
  }

  /** Nothing is left to parse; true of the initial state and after every call that returns. */
  predicate Quiescent(f: Framing, s: State) { s.closed || NextStep(f, s.buffer) == NeedMore }

  lemma {:induction false} DrainQuiesces(f: Framing, b: bytes)
    ensures var d := Drain(f, b); d.error.None? ==> d.closed || NextStep(f, d.rest) == NeedMore
    decreases |b|
  {
    if NextStep(f, b).Part? {
      DrainQuiesces(f, b[NextStep(f, b).taken..]);
    }
  }

  /** Two consecutive feeds are one feed of the joined bytes. */
  lemma FeedTwice(f: Framing, s: State, x: bytes, y: bytes)
    requires !s.closed ==> LengthsReach(f, s.buffer + x)
    ensures var first := Fed(f, s, x);
            var whole := Fed(f, s, x + y);
            if first.result.Raised? then whole.result == first.result
            else
              var second := Fed(f, first.state, y);
              if second.result.Raised? then whole.result == second.result
              else whole == second.(result := Ok(first.result.value + second.result.value))
  {
    hide Drain, LengthsReach;
    assert s.buffer + (x + y) == s.buffer + x + y;
    var none: seq<bytes> := [];
    if s.closed {
      assert none + none == none;
    } else {
      DrainExtends(f, s.buffer + x, y);
      var d := Drain(f, s.buffer + x);
      assert d.parts + none == d.parts;
    }
  }

  lemma {:induction false} BrokenRest(f: Framing, b: bytes)
    requires LengthsReach(f, b) && Drain(f, b).error.Some?
    ensures var d := Drain(f, b);
            !d.closed && NextStep(f, d.rest) == Broken(d.error.value) && FrontOf(f, d.rest).Reaches()
    decreases |b|
  {
    hide FrontOf, TakePart;
    if NextStep(f, b).Part? {
      BrokenRest(f, b[NextStep(f, b).taken..]);
    }
  }

  /** A stream that is broken stays broken: whatever is fed after a call that raised, the same error is raised. */
  lemma BrokenStaysBroken(f: Framing, s: State, x: bytes, y: bytes)
    requires !s.closed && LengthsReach(f, s.buffer + x) && Fed(f, s, x).result.Raised?
    ensures Fed(f, Fed(f, s, x).state, y).result == Fed(f, s, x).result
  {
    hide NextStep, FrontOf, LengthsReach;
    BrokenRest(f, s.buffer + x);
    var d := Drain(f, s.buffer + x);
    StepStable(f, d.rest, y);
    BrokenDrain(f, d.rest + y);
    hide Drain;
  }

  lemma FeedKeepsReach(f: Framing, s: State, x: bytes, y: bytes)
    requires !s.closed ==> LengthsReach(f, s.buffer + x + y)
    requires Fed(f, s, x).result.Ok?
    ensures var t := Fed(f, s, x).state;
            Quiescent(f, t) && (!t.closed ==> LengthsReach(f, t.buffer + y))
  {
    if !s.closed {
      LengthsReachPrefix(f, s.buffer + x, y);
      DrainQuiesces(f, s.buffer + x);
    }
  }

  lemma {:induction false} FeedAllIsFeed(f: Framing, s: State, chunks: seq<bytes>)
    requires Quiescent(f, s)
    requires !s.closed ==> LengthsReach(f, s.buffer + Flatten(chunks))
    ensures SameOutcome(FeedAll(f, s, chunks), Fed(f, s, Flatten(chunks)))
    decreases |chunks|
  {
    if chunks == [] {
      assert s.buffer + [] == s.buffer;
    } else {
      var x, y := chunks[0], Flatten(chunks[1..]);
      assert s.buffer + (x + y) == s.buffer + x + y;
      if !s.closed {
        LengthsReachPrefix(f, s.buffer + x, y);
      }
      FeedTwice(f, s, x, y);
      var first := Fed(f, s, x);
      if first.result.Ok? {
        FeedKeepsReach(f, s, x, y);
        FeedAllIsFeed(f, first.state, chunks[1..]);
      }
    }
  }

  /** Parsing does not depend on how the network cut the stream. */
  lemma ChunkingIndependence(f: Framing, chunks: seq<bytes>)
    requires LengthsReach(f, Flatten(chunks))
    ensures SameOutcome(FeedAll(f, INITIAL, chunks), Fed(f, INITIAL, Flatten(chunks)))
  {
    assert INITIAL.buffer + Flatten(chunks) == Flatten(chunks);
    FeedAllIsFeed(f, INITIAL, chunks);
  }

  /** `iter_voicevox_streaming_chunks` on a multipart response: feed everything, then finish. */
  function CompleteAll(f: Framing, chunks: seq<bytes>): Result<seq<bytes>, Error> {
    var fed := FeedAll(f, INITIAL, chunks);
    match fed.result
    case Raised(_) => fed.result
    case Ok(parts) => After(parts, Finished(f, fed.state).result)
  }

  // ----- exact acceptance -----

  /** Boundary line, header lines, blank line, body, CR LF. */
  function PartText(f: Framing, lines: seq<bytes>, body: bytes): bytes
    requires lines != []
  {
    Ascii("--") + f.boundary + Ascii("\r\n") + JoinCrlf(lines) + Ascii("\r\n\r\n") + body + Ascii("\r\n")
  }

  function ClosingText(f: Framing): bytes { Ascii("--") + f.boundary + Ascii("--\r\n") }

  /** A part whose header lines announce as many bytes as its body has. */
  ghost predicate IsPart(f: Framing, s: bytes, lines: seq<bytes>, body: bytes) {
    Announce(lines, |body|) && s == PartText(f, lines, body)
  }

  ghost predicate WholeParts(f: Framing, s: bytes, bodies: seq<bytes>)
    decreases |bodies|
  {
    if bodies == [] then s == []
    else
      exists cut, lines ::
        && 0 < cut <= |s|
        && IsPart(f, s[..cut], lines, bodies[0])
        && WholeParts(f, s[cut..], bodies[1..])
  }

  /** Whole parts, or whole parts and then the closing delimiter and anything. */
  ghost predicate Accepted(f: Framing, s: bytes, bodies: seq<bytes>) {
    || WholeParts(f, s, bodies)
    || exists cut :: 0 <= cut <= |s| && WholeParts(f, s[..cut], bodies) && ClosingText(f) <= s[cut..]
  }

  lemma Delimiters(f: Framing)
    ensures Ascii("--") + f.boundary + Ascii("\r\n") == f.Open()
    ensures ClosingText(f) == f.Close()
    ensures Ascii("\r\n\r\n") == HEADER_END && Ascii("\r\n") == CRLF
  {
    assert Ascii("--") == [45, 45] && Ascii("--\r\n") == [45, 45] + CRLF;
  }

  /** What the parser sees of a part. */
  lemma PartReads(f: Framing, s: bytes, lines: seq<bytes>, body: bytes)
    requires IsPart(f, s, lines, body)
    ensures lines != []
    ensures var header := JoinCrlf(lines);
            && s == f.Open() + header + HEADER_END + body + CRLF
            && Find(header + HEADER_END, HEADER_END, 0) == Some(|header|)
            && ContentLength(header) == Ok(|body|)
  {
    hide Ascii, Framing.Open, Framing.Close, Find, ContentLength, Announced, IsAscii;
    Delimiters(f);
    AnnounceExactly(lines, |body|);
    BlankLineEnds(lines);
  }

  lemma ReadsAsPart(f: Framing, s: bytes, header: bytes, body: bytes)
    requires s == f.Open() + header + HEADER_END + body + CRLF && ContentLength(header) == Ok(|body|)
    ensures Lines(header) != [] && IsPart(f, s, Lines(header), body)
  {
    hide Ascii, Framing.Open, Framing.Close, Lines, ContentLength, Announce, NoCrlf;
    Delimiters(f);
    JoinOfLines(header);
    AnnounceExactly(Lines(header), |body|);
  }

  ghost predicate LengthsNonNegative(f: Framing, b: bytes)
    decreases |b|
  {
    && (FrontOf(f, b).Announces? ==> FrontOf(f, b).length >= 0)
    && (NextStep(f, b).Part? ==> LengthsNonNegative(f, b[NextStep(f, b).taken..]))
  }

  lemma {:induction false} NonNegativeReaches(f: Framing, b: bytes)
    requires LengthsNonNegative(f, b)
    ensures LengthsReach(f, b)
    decreases |b|
  {
    hide ContentLength, Find, TakePart;
    if NextStep(f, b).Part? {
      NonNegativeReaches(f, b[NextStep(f, b).taken..]);
    }
  }

  lemma FindShift(a: bytes, b: bytes, pattern: bytes)
    requires Find(b, pattern, 0).Some?
    ensures Find(a + b, pattern, |a|) == Some(|a| + Find(b, pattern, 0).value)
  {
    hide Find, OccursAt;
    var k := Find(b, pattern, 0).value;
    OccursShift(a, b, pattern, k);
    var r := Find(a + b, pattern, |a|).value;
    OccursShift(a, b, pattern, r - |a|);
  }

  lemma HeaderFound(f: Framing, header: bytes, x: bytes)
    requires Find(header + HEADER_END, HEADER_END, 0) == Some(|header|)
    ensures Find(f.Open() + (header + HEADER_END + x), HEADER_END, |f.Open()|) == Some(|f.Open()| + |header|)
  {
    FindStable(header + HEADER_END, x, HEADER_END, 0);
    FindShift(f.Open(), header + HEADER_END + x, HEADER_END);
  }

  lemma FrontIs(f: Framing, b: bytes, e: nat, n: int)
    requires f.Open() <= b && Find(b, HEADER_END, |f.Open()|) == Some(e)
    requires ContentLength(b[|f.Open()|..e]) == Ok(n)
    ensures FrontOf(f, b) == Announces(e + 4, n)
  {
    hide Find, ContentLength;
    DelimiterStable(f, b, []);
  }

  lemma HeaderFront(f: Framing, header: bytes, x: bytes, n: int)
    requires Find(header + HEADER_END, HEADER_END, 0) == Some(|header|) && ContentLength(header) == Ok(n)
    ensures FrontOf(f, f.Open() + (header + HEADER_END + x)) == Announces(|f.Open()| + |header| + 4, n)
  {
    hide Find, ContentLength, FrontOf, Framing.Open, OccursAt, HEADER_END;
    HeaderFound(f, header, x);
    Middle(f.Open(), header, HEADER_END, x);
    FrontIs(f, f.Open() + (header + HEADER_END + x), |f.Open()| + |header|, n);
  }

  lemma Middle(a: bytes, b: bytes, c: bytes, d: bytes)
    ensures var s := a + (b + c + d); a <= s && s[|a|..|a| + |b|] == b
  {
  }

  lemma PartFront(f: Framing, s: bytes, lines: seq<bytes>, body: bytes, x: bytes)
    requires IsPart(f, s, lines, body)
    ensures lines != [] && s == f.Open() + JoinCrlf(lines) + HEADER_END + body + CRLF
    ensures FrontOf(f, s + x) == Announces(|f.Open()| + |JoinCrlf(lines)| + 4, |body|)
  {
    PartReads(f, s, lines, body);
    hide Find, ContentLength, FrontOf, Framing.Open, IsPart, JoinCrlf, HEADER_END, CRLF, Announce;
    var header := JoinCrlf(lines);
    HeaderFront(f, header, body + CRLF + x, |body|);
    Regroup(f.Open(), header, HEADER_END, body, CRLF, x);
  }

  lemma Regroup(a: bytes, b: bytes, c: bytes, d: bytes, e: bytes, x: bytes)
    ensures a + b + c + d + e + x == a + (b + c + (d + e + x))
  {
  }

  lemma BodyTaken(before: bytes, body: bytes, after: bytes)
    ensures TakePart(before + body + CRLF + after, |before|, |before| + |body|)
            == Part(body, |before| + |body| + 2)
  {
    var b, n := before + body + CRLF + after, |before|;
    assert b[n..n + |body|] == body;
    assert b[n + |body|..n + |body| + 2] == CRLF;
  }

  lemma PartParses(f: Framing, s: bytes, lines: seq<bytes>, body: bytes, x: bytes)
    requires IsPart(f, s, lines, body)
    ensures NextStep(f, s + x) == Part(body, |s|)
    ensures FrontOf(f, s + x).Announces? && FrontOf(f, s + x).length >= 0
  {
    hide Find, ContentLength, FrontOf, TakePart, IsPart;
    PartFront(f, s, lines, body, x);
    BodyTaken(f.Open() + JoinCrlf(lines) + HEADER_END, body, x);
  }

  lemma {:induction false} WholePartsDrain(f: Framing, s: bytes, bodies: seq<bytes>, x: bytes)
    requires WholeParts(f, s, bodies)
    ensures Drain(f, s + x) == Prepend(bodies, Drain(f, x))
    ensures LengthsNonNegative(f, x) ==> LengthsNonNegative(f, s + x)
    decreases |bodies|
  {
    hide FrontOf, NextStep, IsPart;
    if bodies == [] {
      assert s + x == x;
      assert Prepend([], Drain(f, x)) == Drain(f, x);
    } else {
      var cut, lines :| && 0 < cut <= |s|
                        && IsPart(f, s[..cut], lines, bodies[0])
                        && WholeParts(f, s[cut..], bodies[1..]);
      PartParses(f, s[..cut], lines, bodies[0], s[cut..] + x);
      assert s[..cut] + (s[cut..] + x) == s + x;
      assert (s + x)[cut..] == s[cut..] + x;
      WholePartsDrain(f, s[cut..], bodies[1..], x);
      PrependThen(bodies[0], bodies[1..], Drain(f, x));
      assert [bodies[0]] + bodies[1..] == bodies;
    }
  }

  lemma PartIsPart(f: Framing, b: bytes) returns (lines: seq<bytes>)
    requires FrontOf(f, b).Announces? && FrontOf(f, b).length >= 0 && NextStep(f, b).Part?
    ensures IsPart(f, b[..NextStep(f, b).taken], lines, NextStep(f, b).body)
  {
    hide Find, ContentLength, Framing.Open, TakePart, OccursAt, IsPart, Lines;
    var h := |f.Open()|;
    var e := Find(b, HEADER_END, h).value;
    lines := Lines(b[h..e]);
    TakenIs(b, e + 4, e + 4 + FrontOf(f, b).length);
    BlankLineIs(b, e);
    PiecesOfPart(b, h, e, NextStep(f, b).taken);
    ReadsAsPart(f, b[..NextStep(f, b).taken], b[h..e], NextStep(f, b).body);
  }

  lemma BlankLineIs(b: bytes, e: nat)
    requires OccursAt(b, HEADER_END, e)
    ensures e + 4 <= |b| && b[e..e + 4] == HEADER_END
  {
  }

  lemma PiecesOfPart(b: bytes, h: nat, e: nat, taken: nat)
    requires h <= e && e + 6 <= taken <= |b|
    ensures b[..taken] == b[..h] + b[h..e] + b[e..e + 4] + b[e + 4..taken - 2] + b[taken - 2..taken]
  {
  }

  lemma TakenIs(b: bytes, bodyStart: nat, bodyEnd: nat)
    requires bodyStart <= bodyEnd && TakePart(b, bodyStart, bodyEnd).Part?
    ensures var Part(body, taken) := TakePart(b, bodyStart, bodyEnd);
            && taken == bodyEnd + 2 && body == b[bodyStart..bodyEnd] && b[bodyEnd..taken] == CRLF
  {
  }

  lemma PartAnnounces(f: Framing, b: bytes)
    requires NextStep(f, b).Part?
    ensures FrontOf(f, b).Announces?
  {
    hide FrontOf, TakePart;
  }

  lemma DrainPart(f: Framing, b: bytes)
    requires NextStep(f, b).Part?
    ensures Drain(f, b) == Then(NextStep(f, b).body, Drain(f, b[NextStep(f, b).taken..]))
  {
  }

  lemma {:induction false} DrainIsWholeParts(f: Framing, b: bytes) returns (cut: nat)
    requires LengthsNonNegative(f, b) && Drain(f, b).error.None?
    ensures var d := Drain(f, b);
            && cut <= |b|
            && WholeParts(f, b[..cut], d.parts)
            && b[cut..] == if d.closed then f.Close() + d.rest else d.rest
    decreases |b|
  {
    hide NextStep, IsPart, FrontOf, WholeParts, Framing.Close, Framing.Open;
    if NextStep(f, b).Part? {
      DrainPart(f, b);
      PartAnnounces(f, b);
      hide Drain;
      var body, taken := NextStep(f, b).body, NextStep(f, b).taken;
      var lines := PartIsPart(f, b);
      var more := DrainIsWholeParts(f, b[taken..]);
      cut := taken + more;
      AddPart(f, b, taken, lines, body, more, Drain(f, b[taken..]).parts);
      assert b[cut..] == b[taken..][more..];
    } else {
      cut := 0;
      NoMoreParts(f, b);
    }
  }

  lemma NoMoreParts(f: Framing, b: bytes)
    requires !NextStep(f, b).Part? && Drain(f, b).error.None?
    ensures var d := Drain(f, b);
            WholeParts(f, b[..0], d.parts) && b[0..] == if d.closed then f.Close() + d.rest else d.rest
  {
    hide Find, ContentLength, TakePart;
  }

  lemma AddPart(f: Framing, b: bytes, taken: nat, lines: seq<bytes>, body: bytes, more: nat, parts: seq<bytes>)
    requires 0 < taken && taken + more <= |b|
    requires IsPart(f, b[..taken], lines, body) && WholeParts(f, b[taken..][..more], parts)
    ensures WholeParts(f, b[..taken + more], [body] + parts)
  {
    hide IsPart;
    var s := b[..taken + more];
    assert s[..taken] == b[..taken] && s[taken..] == b[taken..][..more];
    assert ([body] + parts)[1..] == parts && ([body] + parts)[0] == body;
  }

  lemma WholeStream(f: Framing, s: bytes)
    ensures var d := Drain(f, s);
            CompleteAll(f, [s]) ==
              if d.error.Some? then Raised(d.error.value)
              else if d.closed || d.rest == [] then Ok(d.parts)
              else Raised(Incomplete)
  {
    hide NextStep, Drain;
    var d := Drain(f, s);
    var none: seq<bytes> := [];
    assert INITIAL.buffer + s == s && [s][1..] == none;
    assert d.parts + none == d.parts;
    if d.error.None? {
      var state := State(d.rest, d.closed);
      assert FeedAll(f, state, none) == Outcome(Ok(none), state);
      assert FeedAll(f, INITIAL, [s]) == Outcome(Ok(d.parts), state);
      DrainQuiesces(f, s);
      if !d.closed {
        QuietDrain(f, d.rest);
      }
    }
  }

  lemma QuietDrain(f: Framing, b: bytes)
    requires NextStep(f, b) == NeedMore
    ensures Drain(f, b) == Drained([], b, false, None)
  {
  }

  /** Completing a response does not depend on the cuts either. */
  lemma CompletionIgnoresChunking(f: Framing, chunks: seq<bytes>)
    requires LengthsReach(f, Flatten(chunks))
    ensures CompleteAll(f, chunks) == CompleteAll(f, [Flatten(chunks)])
  {
    hide LengthsReach, Drain, NextStep;
    var s := Flatten(chunks);
    ChunkingIndependence(f, chunks);
    assert [s][1..] == [] && s + [] == s;
    assert Flatten([s]) == s;
    ChunkingIndependence(f, [s]);
  }

  /** However the stream is cut, `finish` is reached without an error and the bodies are `bodies`
      exactly when the stream is whole parts with those bodies, optionally closed. */
  lemma {:induction false} ExactAcceptance(f: Framing, chunks: seq<bytes>, bodies: seq<bytes>)
    requires LengthsNonNegative(f, Flatten(chunks))
    ensures CompleteAll(f, chunks) == Ok(bodies) <==> Accepted(f, Flatten(chunks), bodies)
  {
    hide LengthsReach, LengthsNonNegative, Drain, NextStep, WholeParts, CompleteAll, Framing.Close, ClosingText;
    Delimiters(f);
    var s := Flatten(chunks);
    if CompleteAll(f, chunks) == Ok(bodies) {
      NonNegativeReaches(f, s);
      CompletionIgnoresChunking(f, chunks);
      WholeStream(f, s);
      var cut := DrainIsWholeParts(f, s);
      if !Drain(f, s).closed {
        assert s[..cut] == s;
      }
    }
    hide Accepted;
    if Accepted(f, s, bodies) {
      AcceptedStreams(f, chunks, bodies);
    }
  }

  /** Accepted streams parse to their bodies; no assumption about lengths is needed. */
  lemma AcceptedStreams(f: Framing, chunks: seq<bytes>, bodies: seq<bytes>)
    requires Accepted(f, Flatten(chunks), bodies)
    ensures CompleteAll(f, chunks) == Ok(bodies)
  {
    hide WholeParts, CompleteAll, Drain, LengthsReach, LengthsNonNegative;
    Delimiters(f);
    var s := Flatten(chunks);
    var cut := |s|;
    assert s[..|s|] == s;
    if !WholeParts(f, s, bodies) {
      cut :| 0 <= cut <= |s| && WholeParts(f, s[..cut], bodies) && ClosingText(f) <= s[cut..];
    }
    assert s[..cut] + s[cut..] == s;
    WholePartsDrain(f, s[..cut], bodies, s[cut..]);
    EndDrain(f, s[cut..]);
    assert bodies + [] == bodies;
    NonNegativeReaches(f, s);
    CompletionIgnoresChunking(f, chunks);
    WholeStream(f, s);
  }

  lemma EndDrain(f: Framing, b: bytes)
    requires b == [] || f.Close() <= b
    ensures LengthsNonNegative(f, b)
    ensures var d := Drain(f, b); d.parts == [] && d.error.None? && (d.closed || d.rest == [])
  {
    hide Find, ContentLength;
  }

  // ----- round trip -----

  function Decimal(n: nat): (r: bytes)
    ensures r != []
  {
    if n < 10 then [48 + n as byte] else Decimal(n / 10) + [48 + (n % 10) as byte]
  }

  lemma {:induction false} DecimalDenotes(n: nat)
    ensures forall i :: 0 <= i < |Decimal(n)| ==> IsDigit(Decimal(n)[i])
    ensures WellFormed(Decimal(n)) && ValueOf(Decimal(n)) == n
  {
    if n >= 10 {
      DecimalDenotes(n / 10);
      var d := Decimal(n);
      assert d[..|d| - 1] == Decimal(n / 10);
    } else {
      assert Decimal(n)[..0] == [];
    }
  }

  /** A part as a server may write it: any header lines around the one with the length, whose name is in any letter
      case and whose value may stand behind blanks. */
  datatype Piece = Piece(before: seq<bytes>, name: bytes, pad: bytes, after: seq<bytes>, body: bytes) {
    function LengthLine(): bytes { name + Ascii(":") + pad + Decimal(|body|) }

    function HeaderLines(): (lines: seq<bytes>)
      ensures lines != []
    {
      before + [LengthLine()] + after
    }

    ghost predicate Valid() {
      && SameLetters(name, Ascii("content-length"))
      && (forall i :: 0 <= i < |pad| ==> pad[i] == 32 || pad[i] == 9)
      && (forall i :: 0 <= i < |before| ==> IsHeaderLine(before[i]))
      && (forall i :: 0 <= i < |after| ==> IsHeaderLine(after[i]) && !Names(after[i], Ascii("content-length")))
    }
  }

  predicate SameLetters(s: bytes, lower: bytes) {
    |s| == |lower| && forall i :: 0 <= i < |s| ==> SameLetter(s[i], lower[i])
  }

  function Encode(f: Framing, pieces: seq<Piece>): bytes {
    if pieces == [] then []
    else PartText(f, pieces[0].HeaderLines(), pieces[0].body) + Encode(f, pieces[1..])
  }

  function Bodies(pieces: seq<Piece>): seq<bytes> { seq(|pieces|, i requires 0 <= i < |pieces| => pieces[i].body) }

  predicate Printable(s: bytes) { forall i :: 0 <= i < |s| ==> s[i] < 128 && s[i] != 13 }

  lemma PrintableLine(s: bytes)
    requires Printable(s)
    ensures NoCrlf(s) && IsAscii(s)
  {
  }

  /** The line with the length, whatever follows the colon. */
  lemma NamedLine(name: bytes, value: bytes)
    requires SameLetters(name, Ascii("content-length")) && Printable(value)
    ensures var line := name + [58] + value;
            IsHeaderLine(line) && Names(line, Ascii("content-length")) && line[15..] == value
  {
    hide IsAscii;
    LengthName();
    var line := name + [58] + value;
    assert forall i :: 0 <= i < 14 ==> line[i] == name[i];
    assert line[14] == 58;
    PlainName(name);
    PrintableLine(line);
  }

  lemma PlainName(name: bytes)
    requires SameLetters(name, CONTENT_LENGTH)
    ensures forall i :: 0 <= i < |name| ==> 32 < name[i] < 128 && name[i] != 58
  {
  }

  lemma Padded(pad: bytes, digits: bytes, n: int)
    requires forall i :: 0 <= i < |pad| ==> pad[i] == 32 || pad[i] == 9
    requires Denotes(digits, n) && digits != [] && !IsSpace(digits[0]) && !IsSpace(digits[|digits| - 1])
    ensures Reads(pad + digits, n)
  {
    var s := pad + digits;
    assert s[..|pad|] == pad && s[|pad|..|s|] == digits && s[|s|..] == [];
    assert Around(s, digits, |pad|, |s|);
  }

  lemma PieceAnnounces(p: Piece)
    requires p.Valid()
    ensures Announce(p.HeaderLines(), |p.body|)
  {
    hide IsAscii, NoCrlf, Names, Reads, Decimal, Denotes, SameLetters;
    var digits := Decimal(|p.body|);
    var value := p.pad + digits;
    var lines := p.HeaderLines();
    DecimalDenotes(|p.body|);
    assert Denotes(digits, |p.body|) by { DecimalIs(|p.body|); }
    Padded(p.pad, digits, |p.body|);
    NamedLine(p.name, value);
    assert Ascii(":") == [58];
    assert p.LengthLine() == p.name + [58] + value;
    LengthName();
    assert lines[|p.before|] == p.LengthLine();
    assert LastNaming(lines, Ascii("content-length"), |p.before|);
  }

  lemma DecimalIs(n: nat)
    ensures Denotes(Decimal(n), n)
  {
    DecimalDenotes(n);
  }

  lemma {:induction false} EncodedParts(f: Framing, pieces: seq<Piece>)
    requires forall i :: 0 <= i < |pieces| ==> pieces[i].Valid()
    ensures WholeParts(f, Encode(f, pieces), Bodies(pieces))
  {
    hide PartText, Piece.HeaderLines, Piece.Valid, Announce;
    if pieces != [] {
      var p := pieces[0];
      var part := PartText(f, p.HeaderLines(), p.body);
      PieceAnnounces(p);
      EncodedParts(f, pieces[1..]);
      var s := Encode(f, pieces);
      assert s[..|part|] == part && s[|part|..] == Encode(f, pieces[1..]);
      assert Bodies(pieces)[0] == p.body && Bodies(pieces)[1..] == Bodies(pieces[1..]);
      PartLonger(f, p.HeaderLines(), p.body);
      assert IsPart(f, s[..|part|], p.HeaderLines(), Bodies(pieces)[0]);
    }
  }

  lemma PartLonger(f: Framing, lines: seq<bytes>, body: bytes)
    requires lines != []
    ensures |PartText(f, lines, body)| > 0
  {
  }

  /** Any list of bodies, whatever bytes they hold, comes back from any cut of its encoding under any headers that
      announce their lengths, with or without a closing delimiter and what follows it. */
  lemma {:induction false} RoundTrip(f: Framing, pieces: seq<Piece>, chunks: seq<bytes>, epilogue: bytes)
    requires forall i :: 0 <= i < |pieces| ==> pieces[i].Valid()
    requires Flatten(chunks) == Encode(f, pieces) || Flatten(chunks) == Encode(f, pieces) + ClosingText(f) + epilogue
    ensures CompleteAll(f, chunks) == Ok(Bodies(pieces))
  {
    hide Encode, WholeParts, ClosingText, Piece.Valid, CompleteAll;
    EncodedParts(f, pieces);
    var s, cut := Flatten(chunks), |Encode(f, pieces)|;
    if s != Encode(f, pieces) {
      assert s[..cut] == Encode(f, pieces) && s[cut..] == ClosingText(f) + epilogue;
    }
    AcceptedStreams(f, chunks, Bodies(pieces));
  }

  // ----- a negative length makes the cuts matter -----

  lemma {:induction false} DecimalLength(n: nat)
    ensures |Decimal(n)| <= n / 10 + 1
  {
    if n >= 10 {
      DecimalLength(n / 10);
    }
  }

  function NegativeHeader(n: nat): bytes { CONTENT_LENGTH + [58, 45] + Decimal(n) }

  lemma NegativeReads(n: nat)
    ensures Printable([45] + Decimal(n)) && Reads([45] + Decimal(n), -(n as int))
  {
    hide Decimal, WellFormed, ValueOf, Reads;
    var value := [45] + Decimal(n);
    DecimalDenotes(n);
    assert value[1..] == Decimal(n);
    Padded([], value, -(n as int));
    assert [] + value == value;
  }

  lemma NegativeLength(n: nat)
    ensures var header := NegativeHeader(n);
            && ContentLength(header) == Ok(-(n as int))
            && Find(header + HEADER_END, HEADER_END, 0) == Some(|header|)
  {
    hide Decimal, WellFormed, ValueOf, Find, ContentLength, NoCrlf, IsAscii, Names, Reads, Denotes, CONTENT_LENGTH;
    var value, header := [45] + Decimal(n), NegativeHeader(n);
    NegativeReads(n);
    LengthName();
    NamedLine(CONTENT_LENGTH, value);
    assert header == CONTENT_LENGTH + [58] + value;
    assert LastNaming([header], Ascii("content-length"), 0);
    AnnounceExactly([header], -(n as int));
    BlankLineEnds([header]);
  }

  lemma DeepHeader(f: Framing, b: bytes, n: nat)
    requires b == f.Open() + NegativeHeader(n) + HEADER_END
    ensures FrontOf(f, b) == Announces(|b|, -(n as int))
  {
    hide FrontOf, Find, ContentLength, Framing.Open, NegativeHeader;
    NegativeLength(n);
    var header := NegativeHeader(n);
    HeaderFront(f, header, [], -(n as int));
    assert b == f.Open() + (header + HEADER_END + []);
  }

  /** For every boundary there is a stream, with a header announcing a very negative length, that
      parses in one feed and raises when it is cut after that header. */
  lemma {:induction false} CutsMatterForNegativeLengths(f: Framing) returns (first: bytes, second: bytes)
    ensures Fed(f, INITIAL, first + second).result.Ok?
    ensures FeedAll(f, INITIAL, [first, second]).result == Raised(PartNotFollowedByCrlf)
  {
    hide FrontOf, NextStep, Drain, FeedAll, Decimal, Framing.Open, NegativeHeader;
    var n := 4 * (|f.boundary| + 40);
    first := f.Open() + NegativeHeader(n) + HEADER_END;
    DeepStep(f, first, n);
    BrokenDrain(f, first);
    var k := n - |first| - 2;
    second := CRLF + seq(k, i => 0 as byte);
    DeepDrain(f, first, second, k);
    TwoFeeds(f, first, second);
    assert [] + first == first && [] + (first + second) == first + second;
  }

  /** Such a header alone is an error: what should follow its body lies before the buffer. */
  lemma DeepStep(f: Framing, first: bytes, n: nat)
    requires first == f.Open() + NegativeHeader(n) + HEADER_END && n == 4 * (|f.boundary| + 40)
    ensures FrontOf(f, first) == Announces(|first|, -(n as int)) && n > 2 * |first|
    ensures NextStep(f, first) == Broken(PartNotFollowedByCrlf)
  {
    DecimalLength(n);
    DeepHeader(f, first, n);
    var k := n - |first| - 2;
    assert n >= 2 * |first| + 1;
    ShortSlice(first, k);
    hide FrontOf, Slice, Decimal;
  }

  lemma ShortSlice(b: bytes, k: int)
    requires k >= |b|
    ensures Slice(b, -k - 2, -k) == []
  {
  }

  lemma BrokenDrain(f: Framing, b: bytes)
    requires NextStep(f, b).Broken?
    ensures Drain(f, b).error == Some(NextStep(f, b).error)
  {
  }

  /** With the right bytes behind it, a header that reaches too far back gives one part and leaves the padding. */
  lemma DeepDrain(f: Framing, b: bytes, second: bytes, k: int)
    requires 0 < k && FrontOf(f, b).Announces? && FrontOf(f, b).PartEnd() == -k
    requires second == CRLF + seq(k, i => 0 as byte)
    ensures var d := Drain(f, b + second);
            d.error.None? && !d.closed && |d.parts| == 1 && |d.rest| == k
  {
    hide FrontOf;
    FrontStable(f, b, second);
    var pad := seq(k, i => 0 as byte);
    SliceFromEnd(b, CRLF, pad);
    hide Slice;
    var taken := NextStep(f, b + second).taken;
    assert (b + second)[taken..] == pad;
    ForeignBytes(f, pad);
    QuietDrain(f, pad);
  }

  lemma ForeignBytes(f: Framing, b: bytes)
    requires b != [] && b[0] != 45
    ensures NextStep(f, b) == NeedMore
  {
    hide Find, ContentLength;
    assert f.Open()[0] == 45 && f.Close()[0] == 45;
  }

  /** Parsing `b`, then `x` behind what that left, is not parsing them at once. */
  ghost predicate CutChanges(f: Framing, b: bytes, x: bytes) {
    var d, whole := Drain(f, b), Drain(f, b + x);
    && whole.error.None? && !whole.closed
    && (d.error.None? && !d.closed ==>
          var more := Drain(f, d.rest + x);
          more.error.None? && !more.closed ==> d.parts + more.parts != whole.parts || more.rest != whole.rest)
  }

  lemma NoPartsNoLoss(f: Framing, b: bytes)
    ensures var d := Drain(f, b); d.error.None? && !d.closed && d.parts == [] ==> d.rest == b
  {
    hide FrontOf, TakePart;
  }

  lemma DeepCutChanges(f: Framing, b: bytes, x: bytes)
    requires FrontOf(f, b).Announces? && FrontOf(f, b).PartEnd() < 0
    requires x == CRLF + seq(-FrontOf(f, b).PartEnd(), i => 0 as byte)
    ensures CutChanges(f, b, x)
  {
    var k := -FrontOf(f, b).PartEnd();
    DeepDrain(f, b, x, k);
    var good, bad := PastTheStart(f, b);
    hide FrontOf, NextStep;
    if NextStep(f, b).Part? {
      var rest := b[NextStep(f, b).taken..];
      var d := Drain(f, rest);
      assert Drain(f, b) == Then(NextStep(f, b).body, d);
      var more := Drain(f, d.rest + x);
      NoPartsNoLoss(f, rest);
      NoPartsNoLoss(f, d.rest + x);
      hide Drain;
      if d.parts != [] || more.parts != [] {
        assert |Drain(f, b).parts + more.parts| == 1 + |d.parts| + |more.parts| > 1;
      }
    } else {
      assert Drain(f, b).error.Some?;
    }
  }

  lemma PrefixCancels(body: bytes, a: seq<bytes>, b: seq<bytes>, c: seq<bytes>)
    ensures [body] + a + b == [body] + c <==> a + b == c
  {
    assert [body] + a + b == [body] + (a + b);
    assert ([body] + (a + b))[1..] == a + b && ([body] + c)[1..] == c;
  }

  lemma CutCarriesOver(f: Framing, b: bytes, x: bytes)
    requires NextStep(f, b).Part? && NextStep(f, b + x) == NextStep(f, b)
    requires CutChanges(f, b[NextStep(f, b).taken..], x)
    ensures CutChanges(f, b, x)
  {
    hide Drain, FrontOf, TakePart;
    var body, taken := NextStep(f, b).body, NextStep(f, b).taken;
    assert (b + x)[taken..] == b[taken..] + x;
    DrainPart(f, b);
    DrainPart(f, b + x);
    hide NextStep;
    var d := Drain(f, b[taken..]);
    PrefixCancels(body, d.parts, Drain(f, d.rest + x).parts, Drain(f, b[taken..] + x).parts);
  }

  lemma {:induction false} CutAtReach(f: Framing, b: bytes) returns (x: bytes)
    requires !LengthsReach(f, b)
    ensures CutChanges(f, b, x)
    decreases |b|
  {
    if FrontOf(f, b).Reaches() {
      var taken := NextStep(f, b).taken;
      x := CutAtReach(f, b[taken..]);
      StepStable(f, b, x);
      hide FrontOf, NextStep, LengthsReach, CutChanges;
      CutCarriesOver(f, b, x);
    } else {
      x := CRLF + seq(-FrontOf(f, b).PartEnd(), i => 0 as byte);
      DeepCutChanges(f, b, x);
    }
  }

  /** The condition is exact, stream by stream: cutting behind `s` never matters, whatever follows, if and only if
      no header met in `s` announces a length that reaches back past the start of the buffer. */
  lemma CutsMatterExactly(f: Framing, s: bytes)
    ensures (forall x :: SameOutcome(FeedAll(f, INITIAL, [s, x]), Fed(f, INITIAL, s + x))) <==> LengthsReach(f, s)
  {
    hide Drain, LengthsReach;
    assert INITIAL.buffer + s == s;
    if LengthsReach(f, s) {
      forall x
        ensures SameOutcome(FeedAll(f, INITIAL, [s, x]), Fed(f, INITIAL, s + x))
      {
        FeedTwice(f, INITIAL, s, x);
        TwoFeeds(f, s, x);
      }
    } else {
      var x := CutAtReach(f, s);
      TwoFeeds(f, s, x);
      assert INITIAL.buffer + (s + x) == s + x;
      assert !SameOutcome(FeedAll(f, INITIAL, [s, x]), Fed(f, INITIAL, s + x));
    }
  }

  lemma OneFeed(f: Framing, s: State, x: bytes)
    ensures FeedAll(f, s, [x]) == Fed(f, s, x)
  {
    hide Fed;
    var fed, none: seq<bytes> := Fed(f, s, x), [];
    assert [x][1..] == [];
    assert FeedAll(f, fed.state, []) == Outcome(Ok([]), fed.state);
    if fed.result.Ok? {
      assert fed.result.value + none == fed.result.value;
    }
  }

  lemma TwoFeeds(f: Framing, s: bytes, x: bytes)
    ensures var first, all := Fed(f, INITIAL, s), FeedAll(f, INITIAL, [s, x]);
            && (first.result.Raised? ==> all == first)
            && (first.result.Ok? ==>
                  var second := Fed(f, first.state, x);
                  all == second.(result := After(first.result.value, second.result)))
  {
    hide Fed;
    assert [s, x][1..] == [x];
    OneFeed(f, Fed(f, INITIAL, s).state, x);
  }

  // ----- the parser object -----

  class MultipartMixedParser {
    const framing: Framing
    var buffer: bytes
    var closed: bool

    function View(): State
      reads this
    {
      State(buffer, closed)
    }

    constructor (boundary: bytes)
      ensures framing == Framing(boundary) && View() == INITIAL
    {
      framing, buffer, closed := Framing(boundary), [], false;
    }

    method Feed(data: bytes) returns (r: Result<seq<bytes>, Error>)
      modifies this
      ensures Outcome(r, View()) == Fed(framing, old(View()), data)
    {
      buffer := buffer + data;
      r := ParseAvailable();
    }

    method Finish() returns (r: Result<seq<bytes>, Error>)
      modifies this
      ensures Outcome(r, View()) == Finished(framing, old(View()))
    {
      r := ParseAvailable();
      if r.Ok? && buffer != [] && !closed {
        r := Raised(Incomplete);
      }
    }

    /** The parsing loop; every turn shortens the buffer. */
    method ParseAvailable() returns (r: Result<seq<bytes>, Error>)
      modifies this
      ensures Outcome(r, View()) == Available(framing, old(View()))
    {
      hide NextStep;
      var chunks := [];
      ghost var start := buffer;
      while true
        invariant closed == old(closed)
        invariant closed ==> chunks == [] && buffer == start
        invariant !closed ==> Drain(framing, start) == Prepend(chunks, Drain(framing, buffer))
        decreases |buffer|
      {
        if closed {
          return Ok(chunks);
        }
        match NextStep(framing, buffer) {
          case NeedMore =>
            assert chunks + [] == chunks;
            return Ok(chunks);
          case Closing =>
            assert chunks + [] == chunks;
            buffer := buffer[|framing.Close()|..];
            closed := true;
            return Ok(chunks);
          case Broken(e) =>
            return Raised(e);
          case Part(body, taken) =>
            ghost var later := Drain(framing, buffer[taken..]);
            assert chunks + ([body] + later.parts) == chunks + [body] + later.parts;
            buffer := buffer[taken..];
            chunks := chunks + [body];
        }
      }
    }
  }

  /** The streaming loop over one response. */
  method IterChunks(boundary: bytes, response: seq<bytes>) returns (r: Result<seq<bytes>, Error>)
    ensures r == CompleteAll(Framing(boundary), response)
  {
    hide Fed, Finished;
    var parser := new MultipartMixedParser(boundary);
    var chunks: seq<bytes> := [];
    ghost var whole := FeedAll(parser.framing, INITIAL, response);
    AfterTwice([], [], whole.result);
    for n := 0 to |response|
      invariant parser.framing == Framing(boundary)
      invariant var later := FeedAll(parser.framing, parser.View(), response[n..]);
                whole.state == later.state && whole.result == After(chunks, later.result)
    {
      assert response[n..][1..] == response[n + 1..];
      var fed := parser.Feed(response[n]);
      match fed {
        case Raised(e) =>
          return fed;
        case Ok(parts) =>
          AfterTwice(chunks, parts, FeedAll(parser.framing, parser.View(), response[n + 1..]).result);
          chunks := chunks + parts;
      }
    }
    assert chunks + [] == chunks;
    var last := parser.Finish();
    match last {
      case Raised(e) => return last;
      case Ok(parts) => return Ok(chunks + parts);
    }
  }
}
