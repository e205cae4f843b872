/** Cutting an audio stream into speech segments (server/audio/vad.py). */
module Vad {
  import opened Wrappers

  type Chunk = seq<real>
  datatype Item = Item(at: real, chunk: Chunk)

  datatype Config = Config(sampleRate: int, speechThreshold: real, silenceMs: int, preRollMs: int)

  /** One call of `process_chunk`. */
  datatype Input = Input(chunk: Chunk, probability: real, now: real, recommendedSilenceMs: Option<int>)

  datatype State = State(
    preRoll: seq<Item>,
    speech: seq<Item>,
    startedAt: Option<real>,
    lastSpeech: Option<real>)

  const IDLE := State([], [], None, None)

  datatype Segment = Segment(samples: seq<real>, startedAt: real, endedAt: real)

  function Duration(c: Config, chunk: Chunk): (d: real)
    requires c.sampleRate > 0
    ensures chunk != [] ==> d > 0.0
    ensures d >= 0.0
  {
    |chunk| as real / c.sampleRate as real * 1000.0
  }

  /** A recommendation of zero counts as none. */
  function EffectiveSilence(c: Config, i: Input): int {
    if i.recommendedSilenceMs.Some? && i.recommendedSilenceMs.value != 0
    then i.recommendedSilenceMs.value else c.silenceMs
  }

  predicate IsSpeech(c: Config, i: Input) { i.probability >= c.speechThreshold }

  /** Still within the pre-roll window at `now`. */
  predicate Recent(c: Config, item: Item, now: real) { now - item.at <= c.preRollMs as real }

  function RecentOnly(c: Config, items: seq<Item>, now: real): (r: seq<Item>)
    ensures forall k :: 0 <= k < |r| ==> r[k] in items && Recent(c, r[k], now)
  {
    if items == [] then []
    else (if Recent(c, items[0], now) then [items[0]] else []) + RecentOnly(c, items[1..], now)
  }

  /** The popleft loop: only a stale prefix goes. */
  function Trim(c: Config, items: seq<Item>, now: real): seq<Item> {
    if items != [] && !Recent(c, items[0], now) then Trim(c, items[1..], now) else items
  }

  function Samples(items: seq<Item>): seq<real> {
    if items == [] then [] else items[0].chunk + Samples(items[1..])
  }

  predicate Closes(c: Config, s: State, i: Input) {
    && !IsSpeech(c, i) && s.startedAt.Some? && s.lastSpeech.Some?
    && i.now - s.lastSpeech.value >= EffectiveSilence(c, i) as real
  }

  function Step(c: Config, s: State, i: Input): State
    requires c.sampleRate > 0
  {
    var item := Item(i.now, i.chunk);
    if IsSpeech(c, i) then
      State(
        Trim(c, s.preRoll, i.now),
        s.speech + (if s.startedAt.None? then RecentOnly(c, s.preRoll, i.now) else []) + [item],
        if s.startedAt.None? then Some(i.now) else s.startedAt,
        Some(i.now + Duration(c, i.chunk)))
    else if s.startedAt.None? then s.(preRoll := Trim(c, s.preRoll + [item], i.now))
    else if Closes(c, s, i) then State(Trim(c, s.preRoll, i.now), [], None, None)
    else s.(speech := s.speech + [item])
  }

  /** The segment returned by a closing call. */
  function Emitted(c: Config, s: State, i: Input): Option<Segment> {
    if Closes(c, s, i) then
      Some(Segment(Samples(s.speech), if s.speech != [] then s.speech[0].at else s.startedAt.value, i.now))
    else None
  }

  class VADProcessor {
    const config: Config
    var preRoll: seq<Item>
    var speechChunks: seq<Item>
    var speechStartedMs: Option<real>
    var lastSpeechMs: Option<real>

    function View(): State
      reads this
    {
      State(preRoll, speechChunks, speechStartedMs, lastSpeechMs)
    }

    constructor (config: Config)
      ensures this.config == config && View() == IDLE
    {
      this.config := config;
      preRoll, speechChunks, speechStartedMs, lastSpeechMs := [], [], None, None;
    }

    method Reset()
      modifies this
      ensures View() == IDLE
    {
      preRoll, speechChunks, speechStartedMs, lastSpeechMs := [], [], None, None;
    }

    method ProcessChunk(i: Input) returns (segment: Option<Segment>)
      requires config.sampleRate > 0
      modifies this
      ensures View() == Step(config, old(View()), i)
      ensures segment == Emitted(config, old(View()), i)
    {
      var duration := Duration(config, i.chunk);
      if i.probability >= config.speechThreshold {
        if speechStartedMs.None? {
          speechStartedMs := Some(i.now);
          var retained := RecentOnly(config, preRoll, i.now);
          speechChunks := speechChunks + retained;
        }
        speechChunks := speechChunks + [Item(i.now, i.chunk)];
        lastSpeechMs := Some(i.now + duration);
        TrimPreRoll(i.now);
        return None;
      }
      if speechStartedMs.None? {
        preRoll := preRoll + [Item(i.now, i.chunk)];
        TrimPreRoll(i.now);
        return None;
      }
      if lastSpeechMs.Some? && i.now - lastSpeechMs.value >= EffectiveSilence(config, i) as real {
        var finished := FinishSegment(i.now);
        return Some(finished);
      }
      speechChunks := speechChunks + [Item(i.now, i.chunk)];
      return None;
    }

    method TrimPreRoll(now: real)
      modifies this`preRoll
      ensures preRoll == Trim(config, old(preRoll), now)
    {
      while preRoll != [] && now - preRoll[0].at > config.preRollMs as real
        invariant Trim(config, preRoll, now) == Trim(config, old(preRoll), now)
        decreases |preRoll|
      {
        preRoll := preRoll[1..];
      }
    }

    method FinishSegment(endedMs: real) returns (segment: Segment)
      requires speechStartedMs.Some?
      modifies this
      ensures segment.samples == Samples(old(speechChunks)) && segment.endedAt == endedMs
      ensures segment.startedAt == old(if speechChunks != [] then speechChunks[0].at else speechStartedMs.value)
      ensures View() == State(Trim(config, old(preRoll), endedMs), [], None, None)
    {
      var samples := [];
      var startedMs := if speechChunks != [] then speechChunks[0].at else speechStartedMs.value;
      for n := 0 to |speechChunks|
        invariant speechChunks == old(speechChunks) && preRoll == old(preRoll)
        invariant samples + Samples(speechChunks[n..]) == Samples(speechChunks)
      {
        assert speechChunks[n..][1..] == speechChunks[n + 1..];
        samples := samples + speechChunks[n].chunk;
      }
      segment := Segment(samples, startedMs, endedMs);
      speechChunks := [];
      speechStartedMs, lastSpeechMs := None, None;
      TrimPreRoll(endedMs);
    }
  }

  // ----- whole runs -----

  function ItemOf(i: Input): Item { Item(i.now, i.chunk) }

  function ItemsOf(inputs: seq<Input>): (r: seq<Item>)
    ensures |r| == |inputs| && forall k :: 0 <= k < |r| ==> r[k] == ItemOf(inputs[k])
  {
    seq(|inputs|, k requires 0 <= k < |inputs| => ItemOf(inputs[k]))
  }

  /** The chunks of one segment, closed or still open, and the call that started it. */
  datatype Span = Span(first: nat, items: seq<Item>)

  datatype Trace = Trace(state: State, closed: seq<Span>, first: nat)

  /** The trace after call number `n`. */
  function Next(c: Config, t: Trace, i: Input, n: nat): Trace
    requires c.sampleRate > 0
  {
    Trace(
      Step(c, t.state, i),
      if Closes(c, t.state, i) then t.closed + [Span(t.first, t.state.speech)] else t.closed,
      if IsSpeech(c, i) && t.state.startedAt.None? then n else t.first)
  }

  function Run(c: Config, inputs: seq<Input>): Trace
    requires c.sampleRate > 0
    decreases |inputs|
  {
    if inputs == [] then Trace(IDLE, [], 0)
    else
      var n := |inputs| - 1;
      Next(c, Run(c, inputs[..n]), inputs[n], n)
  }

  function Spans(t: Trace): seq<Span> {
    t.closed + if t.state.startedAt.Some? then [Span(t.first, t.state.speech)] else []
  }

  datatype Role = Speech | Trailing | Closing | Idle

  function RoleIn(c: Config, s: State, i: Input): Role {
    if IsSpeech(c, i) then Speech
    else if s.startedAt.None? then Idle
    else if Closes(c, s, i) then Closing
    else Trailing
  }

  /** The part call `k` plays, given the calls before it. */
  function RoleOf(c: Config, inputs: seq<Input>, k: nat): Role
    requires c.sampleRate > 0 && k < |inputs|
  {
    RoleIn(c, Run(c, inputs[..k]).state, inputs[k])
  }

  /** Every chunk heard while no segment was open. */
  function IdleItems(c: Config, inputs: seq<Input>): (r: seq<Item>)
    requires c.sampleRate > 0
    decreases |inputs|
  {
    if inputs == [] then []
    else
      var n := |inputs| - 1;
      IdleItems(c, inputs[..n]) + if RoleOf(c, inputs, n).Idle? then [ItemOf(inputs[n])] else []
  }

  ghost predicate Increasing(inputs: seq<Input>) {
    forall i, j :: 0 <= i < j < |inputs| ==> inputs[i].now < inputs[j].now
  }

  // ----- trimming never loses a chunk that a later segment could use -----

  lemma {:induction false} RecentConcat(c: Config, a: seq<Item>, b: seq<Item>, now: real)
    ensures RecentOnly(c, a + b, now) == RecentOnly(c, a, now) + RecentOnly(c, b, now)
  {
    if a == [] {
      assert a + b == b;
    } else {
      assert (a + b)[1..] == a[1..] + b;
      RecentConcat(c, a[1..], b, now);
      var head, x, y := if Recent(c, a[0], now) then [a[0]] else [], RecentOnly(c, a[1..], now), RecentOnly(c, b, now);
      assert head + (x + y) == head + x + y;
    }
  }

  lemma {:induction false} TrimKeepsRecent(c: Config, items: seq<Item>, now: real, later: real)
    requires now <= later
    ensures RecentOnly(c, Trim(c, items, now), later) == RecentOnly(c, items, later)
  {
    if items != [] && !Recent(c, items[0], now) {
      TrimKeepsRecent(c, items[1..], now, later);
    }
  }

  ghost predicate SameRecent(c: Config, a: seq<Item>, b: seq<Item>, now: real) {
    forall later :: now < later ==> RecentOnly(c, a, later) == RecentOnly(c, b, later)
  }

  /** After any run the deque offers a future segment the same chunks as if nothing had been trimmed. */
  lemma {:induction false} DequeIsEnough(c: Config, inputs: seq<Input>, now: real)
    requires c.sampleRate > 0 && Increasing(inputs)
    requires forall k :: 0 <= k < |inputs| ==> inputs[k].now <= now
    ensures SameRecent(c, Run(c, inputs).state.preRoll, IdleItems(c, inputs), now)
    decreases |inputs|
  {
    if inputs != [] {
      var n := |inputs| - 1;
      var i, s := inputs[n], Run(c, inputs[..n]).state;
      DequeIsEnough(c, inputs[..n], now);
      var all := IdleItems(c, inputs[..n]);
      assert Run(c, inputs).state == Step(c, s, i);
      assert IdleItems(c, inputs) == all + if RoleIn(c, s, i).Idle? then [ItemOf(i)] else [];
      hide RecentOnly, Trim, SameRecent, Run, IdleItems, Duration;
      assert s.preRoll + [] == s.preRoll && all + [] == all;
      SameRecentStep(c, s.preRoll, all, if RoleIn(c, s, i).Idle? then [ItemOf(i)] else [], i.now, now);
    }
  }

  lemma SameRecentStep(c: Config, kept: seq<Item>, all: seq<Item>, added: seq<Item>, at: real, now: real)
    requires SameRecent(c, kept, all, now) && at <= now
    ensures SameRecent(c, Trim(c, kept + added, at), all + added, now)
  {
    hide RecentOnly, Trim;
    forall later | now < later
      ensures RecentOnly(c, Trim(c, kept + added, at), later) == RecentOnly(c, all + added, later)
    {
      RecentConcat(c, kept, added, later);
      RecentConcat(c, all, added, later);
      TrimKeepsRecent(c, kept + added, at, later);
    }
  }

  // ----- what a segment is made of -----

  function Retained(c: Config, inputs: seq<Input>, first: nat): seq<Item>
    requires c.sampleRate > 0 && first < |inputs|
  {
    RecentOnly(c, IdleItems(c, inputs[..first]), inputs[first].now)
  }

  /** The idle chunks of the last `preRollMs` before the first speech chunk, then every chunk from
      there to `end`. */
  ghost predicate SpanIs(c: Config, inputs: seq<Input>, span: Span, end: nat)
    requires c.sampleRate > 0
  {
    && span.first < end <= |inputs|
    && IsSpeech(c, inputs[span.first])
    && span.items == Retained(c, inputs, span.first) + ItemsOf(inputs[span.first..end])
  }

  ghost predicate IsSpan(c: Config, inputs: seq<Input>, span: Span)
    requires c.sampleRate > 0
  {
    exists end: nat :: SpanIs(c, inputs, span, end)
  }

  ghost predicate OpenOk(c: Config, inputs: seq<Input>, t: Trace)
    requires c.sampleRate > 0
  {
    if t.state.startedAt.None? then t.state.speech == []
    else
      && SpanIs(c, inputs, Span(t.first, t.state.speech), |inputs|)
      && t.state.startedAt.value == inputs[t.first].now
      && t.state.lastSpeech.Some?
      && t.state.startedAt.value <= t.state.lastSpeech.value
  }

  ghost predicate ClosedOk(c: Config, inputs: seq<Input>, closed: seq<Span>)
    requires c.sampleRate > 0
  {
    forall j :: 0 <= j < |closed| ==> IsSpan(c, inputs, closed[j])
  }

  lemma SpanExtends(c: Config, inputs: seq<Input>, n: nat, span: Span, end: nat)
    requires c.sampleRate > 0 && n <= |inputs| && SpanIs(c, inputs[..n], span, end)
    ensures SpanIs(c, inputs, span, end)
  {
    assert inputs[..n][..span.first] == inputs[..span.first];
    assert inputs[..n][span.first..end] == inputs[span.first..end];
  }

  lemma SpanGrows(c: Config, inputs: seq<Input>, n: nat, span: Span)
    requires c.sampleRate > 0 && n + 1 == |inputs| && SpanIs(c, inputs[..n], span, n)
    ensures SpanIs(c, inputs, Span(span.first, span.items + [ItemOf(inputs[n])]), n + 1)
  {
    SpanExtends(c, inputs, n, span, n);
    assert ItemsOf(inputs[span.first..n + 1]) == ItemsOf(inputs[span.first..n]) + [ItemOf(inputs[n])];
  }

  lemma SpanStarts(c: Config, inputs: seq<Input>, n: nat)
    requires c.sampleRate > 0 && n + 1 == |inputs| && Increasing(inputs) && IsSpeech(c, inputs[n])
    ensures var retained := RecentOnly(c, Run(c, inputs[..n]).state.preRoll, inputs[n].now);
            SpanIs(c, inputs, Span(n, retained + [ItemOf(inputs[n])]), n + 1)
  {
    var now := if n == 0 then inputs[n].now - 1.0 else inputs[n - 1].now;
    DequeIsEnough(c, inputs[..n], now);
    assert ItemsOf(inputs[n..n + 1]) == [ItemOf(inputs[n])];
  }

  lemma OpenStep(c: Config, inputs: seq<Input>, n: nat)
    requires c.sampleRate > 0 && n + 1 == |inputs| && Increasing(inputs)
    requires OpenOk(c, inputs[..n], Run(c, inputs[..n]))
    ensures OpenOk(c, inputs, Run(c, inputs))
  {
    var before := Run(c, inputs[..n]);
    assert Run(c, inputs) == Next(c, before, inputs[n], n);
    hide Run, Trim, RecentOnly, Duration, SpanIs;
    if before.state.startedAt.Some? {
      OpenGrows(c, inputs, n, before);
    } else if IsSpeech(c, inputs[n]) {
      OpenStarts(c, inputs, n);
    }
  }

  lemma OpenStarts(c: Config, inputs: seq<Input>, n: nat)
    requires c.sampleRate > 0 && n + 1 == |inputs| && Increasing(inputs) && IsSpeech(c, inputs[n])
    requires OpenOk(c, inputs[..n], Run(c, inputs[..n])) && Run(c, inputs[..n]).state.startedAt.None?
    ensures OpenOk(c, inputs, Trace(Step(c, Run(c, inputs[..n]).state, inputs[n]), [], n))
  {
    SpanStarts(c, inputs, n);
    var s, i := Run(c, inputs[..n]).state, inputs[n];
    StepFinds(c, s, i);
    hide Run, Trim, RecentOnly, Duration, SpanIs, Increasing;
    var retained := RecentOnly(c, s.preRoll, i.now);
    assert Step(c, s, i).speech == retained + [ItemOf(i)] by {
      assert [] + retained + [ItemOf(i)] == retained + [ItemOf(i)];
    }
    assert Step(c, s, i).startedAt == Some(i.now);
  }

  lemma StepFinds(c: Config, s: State, i: Input)
    requires c.sampleRate > 0 && IsSpeech(c, i)
    ensures Step(c, s, i).lastSpeech.Some? && i.now <= Step(c, s, i).lastSpeech.value
  {
    hide Trim, RecentOnly;
  }

  lemma OpenGrows(c: Config, inputs: seq<Input>, n: nat, before: Trace)
    requires c.sampleRate > 0 && n + 1 == |inputs| && Increasing(inputs)
    requires OpenOk(c, inputs[..n], before) && before.state.startedAt.Some?
    ensures OpenOk(c, inputs, Trace(Step(c, before.state, inputs[n]), [], before.first))
  {
    SpanWithin(c, inputs[..n], before);
    hide SpanIs;
    SpanGrows(c, inputs, n, Span(before.first, before.state.speech));
    assert inputs[..n][before.first] == inputs[before.first];
    assert inputs[before.first].now < inputs[n].now;
    assert before.state.speech + [] + [ItemOf(inputs[n])] == before.state.speech + [ItemOf(inputs[n])];
  }

  lemma SpanWithin(c: Config, inputs: seq<Input>, t: Trace)
    requires c.sampleRate > 0 && OpenOk(c, inputs, t) && t.state.startedAt.Some?
    ensures t.first < |inputs|
    ensures inputs[t.first].now <= t.state.lastSpeech.value
  {
  }

  lemma {:induction false} RunShape(c: Config, inputs: seq<Input>)
    requires c.sampleRate > 0 && Increasing(inputs)
    ensures OpenOk(c, inputs, Run(c, inputs)) && ClosedOk(c, inputs, Run(c, inputs).closed)
    decreases |inputs|
  {
    if inputs != [] {
      var n := |inputs| - 1;
      RunShape(c, inputs[..n]);
      OpenStep(c, inputs, n);
      var before, closed := Run(c, inputs[..n]), Run(c, inputs).closed;
      assert closed == Next(c, before, inputs[n], n).closed;
      hide SpanIs, Step, Run;
      forall j | 0 <= j < |closed|
        ensures IsSpan(c, inputs, closed[j])
      {
        if j < |before.closed| {
          assert IsSpan(c, inputs[..n], before.closed[j]);
        }
        var end: nat :| SpanIs(c, inputs[..n], closed[j], end);
        SpanExtends(c, inputs, n, closed[j], end);
      }
    }
  }

  /** Every segment, the open one included, is exactly the recent idle chunks and the unbroken run
      of chunks from its first speech chunk on. */
  lemma {:induction false} SegmentsExact(c: Config, inputs: seq<Input>, j: nat)
    requires c.sampleRate > 0 && Increasing(inputs) && j < |Spans(Run(c, inputs))|
    ensures IsSpan(c, inputs, Spans(Run(c, inputs))[j])
  {
    RunShape(c, inputs);
    hide Run, SpanIs;
    var t := Run(c, inputs);
    if j == |t.closed| {
      assert SpanIs(c, inputs, Spans(t)[j], |inputs|);
    }
  }

  // ----- order within a segment -----

  ghost predicate InOrder(items: seq<Item>) {
    forall i, j :: 0 <= i < j < |items| ==> items[i].at < items[j].at
  }

  ghost predicate Before(items: seq<Item>, now: real) { forall i :: 0 <= i < |items| ==> items[i].at < now }

  lemma {:induction false} RecentInOrder(c: Config, items: seq<Item>, now: real)
    requires InOrder(items)
    ensures InOrder(RecentOnly(c, items, now))
  {
    if items != [] {
      RecentInOrder(c, items[1..], now);
      assert forall k :: 0 <= k < |items[1..]| ==> items[0].at < items[1..][k].at;
    }
  }

  lemma {:induction false} IdleInOrder(c: Config, inputs: seq<Input>, now: real)
    requires c.sampleRate > 0 && Increasing(inputs)
    requires forall k :: 0 <= k < |inputs| ==> inputs[k].now < now
    ensures InOrder(IdleItems(c, inputs)) && Before(IdleItems(c, inputs), now)
    decreases |inputs|
  {
    if inputs != [] {
      var n := |inputs| - 1;
      IdleInOrder(c, inputs[..n], inputs[n].now);
    }
  }

  /** The chunks of a segment are in time order. */
  lemma SegmentInOrder(c: Config, inputs: seq<Input>, j: nat)
    requires c.sampleRate > 0 && Increasing(inputs) && j < |Spans(Run(c, inputs))|
    ensures InOrder(Spans(Run(c, inputs))[j].items)
  {
    SegmentsExact(c, inputs, j);
    hide Run, SpanIs, InOrder;
    var end: nat :| SpanIs(c, inputs, Spans(Run(c, inputs))[j], end);
    SpanInOrder(c, inputs, Spans(Run(c, inputs))[j], end);
  }

  lemma SpanInOrder(c: Config, inputs: seq<Input>, span: Span, end: nat)
    requires c.sampleRate > 0 && Increasing(inputs) && SpanIs(c, inputs, span, end)
    ensures InOrder(span.items)
  {
    hide Retained, Increasing;
    RetainedInOrder(c, inputs, span.first);
    ItemsInOrder(inputs, span.first, end);
    InOrderConcat(Retained(c, inputs, span.first), ItemsOf(inputs[span.first..end]));
  }

  lemma InOrderConcat(a: seq<Item>, b: seq<Item>)
    requires InOrder(a) && InOrder(b) && b != [] && Before(a, b[0].at)
    ensures InOrder(a + b)
  {
  }

  lemma ItemsInOrder(inputs: seq<Input>, first: nat, end: nat)
    requires Increasing(inputs) && first <= end <= |inputs|
    ensures InOrder(ItemsOf(inputs[first..end]))
    ensures first < end ==> ItemsOf(inputs[first..end])[0].at == inputs[first].now
  {
  }

  lemma RetainedInOrder(c: Config, inputs: seq<Input>, first: nat)
    requires c.sampleRate > 0 && Increasing(inputs) && first < |inputs|
    ensures InOrder(Retained(c, inputs, first)) && Before(Retained(c, inputs, first), inputs[first].now)
  {
    IdleInOrder(c, inputs[..first], inputs[first].now);
    RecentInOrder(c, IdleItems(c, inputs[..first]), inputs[first].now);
  }

  // ----- the deque holds no more than it needs -----

  lemma {:induction false} TrimFresh(c: Config, items: seq<Item>, now: real)
    requires InOrder(items)
    ensures var kept := Trim(c, items, now);
            && InOrder(kept) && |kept| <= |items| && kept == items[|items| - |kept|..]
            && forall k :: 0 <= k < |kept| ==> now - kept[k].at <= c.preRollMs as real
  {
    if items != [] && !Recent(c, items[0], now) {
      TrimFresh(c, items[1..], now);
    }
  }

  ghost predicate UpTo(items: seq<Item>, now: real) { forall k :: 0 <= k < |items| ==> items[k].at <= now }

  lemma StepTrims(c: Config, s: State, i: Input)
    requires c.sampleRate > 0
    ensures var role := RoleIn(c, s, i);
            Step(c, s, i).preRoll ==
              if role.Trailing? then s.preRoll else Trim(c, s.preRoll + if role.Idle? then [ItemOf(i)] else [], i.now)
  {
    hide Trim, RecentOnly, Duration;
    assert s.preRoll + [] == s.preRoll;
  }

  lemma TrimUpTo(c: Config, items: seq<Item>, now: real)
    requires InOrder(items) && UpTo(items, now)
    ensures UpTo(Trim(c, items, now), now)
  {
    TrimFresh(c, items, now);
  }

  ghost predicate AllRecent(c: Config, items: seq<Item>, now: real) {
    forall k :: 0 <= k < |items| ==> now - items[k].at <= c.preRollMs as real
  }

  lemma DequeStep(c: Config, s: State, i: Input)
    requires c.sampleRate > 0 && InOrder(s.preRoll) && Before(s.preRoll, i.now)
    ensures var kept := Step(c, s, i).preRoll;
            && InOrder(kept) && UpTo(kept, i.now)
            && (!RoleIn(c, s, i).Trailing? ==> AllRecent(c, kept, i.now))
  {
    hide Trim, RecentOnly, Duration, Step;
    StepTrims(c, s, i);
    var added := if RoleIn(c, s, i).Idle? then [ItemOf(i)] else [];
    hide RoleIn;
    TrimFresh(c, s.preRoll + added, i.now);
    TrimUpTo(c, s.preRoll + added, i.now);
  }

  lemma RunLast(c: Config, inputs: seq<Input>, n: nat)
    requires c.sampleRate > 0 && |inputs| == n + 1
    ensures Run(c, inputs).state == Step(c, Run(c, inputs[..n]).state, inputs[n])
    ensures n == 0 ==> Run(c, inputs[..n]).state == IDLE
  {
    hide Step;
  }

  /** After every call but a silent one inside a segment, which leaves the deque alone, all in the deque is at most
      `preRollMs` old. */
  lemma {:induction false} DequeIsRecent(c: Config, inputs: seq<Input>)
    requires c.sampleRate > 0 && Increasing(inputs) && inputs != []
    ensures var n, kept := |inputs| - 1, Run(c, inputs).state.preRoll;
            && InOrder(kept) && UpTo(kept, inputs[n].now)
            && (!RoleOf(c, inputs, n).Trailing? ==> AllRecent(c, kept, inputs[n].now))
    decreases |inputs|
  {
    hide Run, Step, RoleIn, InOrder, AllRecent;
    var n := |inputs| - 1;
    var i, s := inputs[n], Run(c, inputs[..n]).state;
    RunLast(c, inputs, n);
    if n > 0 {
      DequeIsRecent(c, inputs[..n]);
      assert inputs[n - 1].now < i.now;
    } else {
      NothingInOrder();
    }
    DequeStep(c, s, i);
  }

  lemma NothingInOrder()
    ensures InOrder([])
  {
  }

  // ----- how often a chunk is emitted -----

  predicate Holds(items: seq<Item>, at: real) { exists k :: 0 <= k < |items| && items[k].at == at }

  function Count(spans: seq<Span>, at: real): nat {
    if spans == [] then 0
    else Count(spans[..|spans| - 1], at) + if Holds(spans[|spans| - 1].items, at) then 1 else 0
  }

  lemma {:induction false} RecentHolds(c: Config, items: seq<Item>, now: real, at: real)
    ensures Holds(RecentOnly(c, items, now), at) <==> Holds(items, at) && now - at <= c.preRollMs as real
  {
    if items != [] {
      RecentHolds(c, items[1..], now, at);
      HoldsCons(items[0], items[1..], at);
      HoldsCons(items[0], RecentOnly(c, items[1..], now), at);
      assert [items[0]] + items[1..] == items;
      assert [] + RecentOnly(c, items[1..], now) == RecentOnly(c, items[1..], now);
    }
  }

  lemma HoldsCons(item: Item, rest: seq<Item>, at: real)
    ensures Holds([item] + rest, at) <==> item.at == at || Holds(rest, at)
  {
    HoldsConcat([item], rest, at);
    HoldsOne(item, at);
  }

  lemma HoldsConcat(a: seq<Item>, b: seq<Item>, at: real)
    ensures Holds(a + b, at) <==> Holds(a, at) || Holds(b, at)
  {
    if Holds(a, at) {
      var k :| 0 <= k < |a| && a[k].at == at;
      assert (a + b)[k].at == at;
    }
    if Holds(b, at) {
      var k :| 0 <= k < |b| && b[k].at == at;
      assert (a + b)[|a| + k].at == at;
    }
  }

  /** Among the chunks of increasing calls, the idle ones are found again among the idle items. */
  lemma {:induction false} IdleHolds(c: Config, inputs: seq<Input>, k: nat)
    requires c.sampleRate > 0 && Increasing(inputs) && k < |inputs|
    ensures Holds(IdleItems(c, inputs), inputs[k].now) <==> RoleOf(c, inputs, k).Idle?
    decreases |inputs|
  {
    hide Run, RoleOf, RecentOnly;
    var n := |inputs| - 1;
    var added := if RoleOf(c, inputs, n).Idle? then [ItemOf(inputs[n])] else [];
    HoldsConcat(IdleItems(c, inputs[..n]), added, inputs[k].now);
    assert added != [] ==> added[0].at == inputs[n].now;
    if k < n {
      IdleHolds(c, inputs[..n], k);
      RoleOfPrefix(c, inputs, n, k);
    } else {
      IdleInOrder(c, inputs[..n], inputs[n].now);
    }
  }

  lemma RoleOfPrefix(c: Config, inputs: seq<Input>, n: nat, k: nat)
    requires c.sampleRate > 0 && k < n <= |inputs|
    ensures RoleOf(c, inputs[..n], k) == RoleOf(c, inputs, k)
  {
    assert inputs[..n][..k] == inputs[..k];
  }

  /** No chunk of a segment is later than the calls so far. */
  lemma SpansBefore(c: Config, inputs: seq<Input>, now: real)
    requires c.sampleRate > 0 && Increasing(inputs)
    requires forall k :: 0 <= k < |inputs| ==> inputs[k].now < now
    ensures Count(Spans(Run(c, inputs)), now) == 0
  {
    var spans := Spans(Run(c, inputs));
    hide Run;
    forall j | 0 <= j < |spans|
      ensures !Holds(spans[j].items, now)
    {
      SegmentsExact(c, inputs, j);
      var end: nat :| SpanIs(c, inputs, spans[j], end);
      RetainedInOrder(c, inputs, spans[j].first);
      hide Retained;
    }
    CountNone(spans, now);
  }

  lemma {:induction false} CountNone(spans: seq<Span>, at: real)
    requires forall j :: 0 <= j < |spans| ==> !Holds(spans[j].items, at)
    ensures Count(spans, at) == 0
  {
    if spans != [] {
      CountNone(spans[..|spans| - 1], at);
    }
  }

  lemma CountSnoc(spans: seq<Span>, span: Span, at: real)
    ensures Count(spans + [span], at) == Count(spans, at) + if Holds(span.items, at) then 1 else 0
  {
    assert (spans + [span])[..|spans|] == spans;
  }

  lemma CountGrown(spans: seq<Span>, span: Span, item: Item, at: real)
    requires item.at != at
    ensures Count(spans + [span.(items := span.items + [item])], at) == Count(spans + [span], at)
  {
    CountSnoc(spans, span, at);
    CountSnoc(spans, span.(items := span.items + [item]), at);
    HoldsConcat(span.items, [item], at);
  }

  lemma SpansStep(c: Config, t: Trace, i: Input, n: nat)
    requires c.sampleRate > 0 && (t.state.startedAt.None? ==> t.state.speech == [])
    ensures Spans(Next(c, t, i, n)) ==
              if t.state.startedAt.None? then
                if IsSpeech(c, i) then t.closed + [Span(n, RecentOnly(c, t.state.preRoll, i.now) + [ItemOf(i)])]
                else Spans(t)
              else if Closes(c, t.state, i) then Spans(t)
              else t.closed + [Span(t.first, t.state.speech + [ItemOf(i)])]
  {
    hide Trim, RecentOnly, Duration;
    var retained := RecentOnly(c, t.state.preRoll, i.now);
    assert t.state.speech + [] == t.state.speech && [] + retained == retained;
    var closed := t.closed + [Span(t.first, t.state.speech)];
    assert closed + [] == closed;
  }

  /** How one call changes the number of segments that hold a chunk heard earlier. */
  lemma CountStep(c: Config, inputs: seq<Input>, n: nat, k: nat)
    requires c.sampleRate > 0 && n + 1 == |inputs| && Increasing(inputs) && k < n
    ensures var before, after := Run(c, inputs[..n]), Run(c, inputs);
            var at := inputs[k].now;
            Count(Spans(after), at) == Count(Spans(before), at)
              + if before.state.startedAt.None? && IsSpeech(c, inputs[n]) && RoleOf(c, inputs, k).Idle?
                   && inputs[n].now - at <= c.preRollMs as real then 1 else 0
  {
    RunShape(c, inputs[..n]);
    var before, i, at := Run(c, inputs[..n]), inputs[n], inputs[k].now;
    assert Run(c, inputs) == Next(c, before, i, n);
    hide Run, SpanIs, Next, Closes, RoleOf;
    SpansStep(c, before, i, n);
    assert before.closed + [] == before.closed;
    if before.state.startedAt.Some? {
      CountGrown(before.closed, Span(before.first, before.state.speech), ItemOf(i), at);
    } else if IsSpeech(c, i) {
      CountSnoc(before.closed, Span(n, RecentOnly(c, before.state.preRoll, i.now) + [ItemOf(i)]), at);
      RetainedHolds(c, inputs, n, k);
    }
  }

  lemma RetainedHolds(c: Config, inputs: seq<Input>, n: nat, k: nat)
    requires c.sampleRate > 0 && n + 1 == |inputs| && Increasing(inputs) && k < n
    ensures Holds(RecentOnly(c, Run(c, inputs[..n]).state.preRoll, inputs[n].now) + [ItemOf(inputs[n])], inputs[k].now)
            <==> RoleOf(c, inputs, k).Idle? && inputs[n].now - inputs[k].now <= c.preRollMs as real
  {
    DequeIsEnough(c, inputs[..n], inputs[n - 1].now);
    hide Run, RecentOnly, Holds;
    var at, now := inputs[k].now, inputs[n].now;
    HoldsConcat(RecentOnly(c, IdleItems(c, inputs[..n]), now), [ItemOf(inputs[n])], at);
    RecentHolds(c, IdleItems(c, inputs[..n]), now, at);
    IdleHolds(c, inputs[..n], k);
    RoleOfPrefix(c, inputs, n, k);
    HoldsOne(ItemOf(inputs[n]), at);
  }

  lemma HoldsOne(item: Item, at: real)
    ensures Holds([item], at) <==> item.at == at
  {
    assert [item][0] == item;
  }

  // ----- how often in all -----

  /** The times at which a segment was opened. */
  function Starts(c: Config, inputs: seq<Input>): seq<real>
    requires c.sampleRate > 0
    decreases |inputs|
  {
    if inputs == [] then []
    else
      var n := |inputs| - 1;
      Starts(c, inputs[..n])
      + if Run(c, inputs[..n]).state.startedAt.None? && IsSpeech(c, inputs[n]) then [inputs[n].now] else []
  }

  /** How many of these times lie after `at` and no later than `limit`. */
  function Within(times: seq<real>, at: real, limit: real): nat {
    if times == [] then 0
    else Within(times[..|times| - 1], at, limit) + if at < times[|times| - 1] <= limit then 1 else 0
  }

  lemma WithinSnoc(times: seq<real>, t: real, at: real, limit: real)
    ensures Within(times + [t], at, limit) == Within(times, at, limit) + if at < t <= limit then 1 else 0
    ensures Within(times + [], at, limit) == Within(times, at, limit)
  {
    assert (times + [t])[..|times|] == times;
    assert times + [] == times;
  }

  lemma {:induction false} NoStartAfter(c: Config, inputs: seq<Input>, now: real, limit: real)
    requires c.sampleRate > 0 && forall k :: 0 <= k < |inputs| ==> inputs[k].now < now
    ensures Within(Starts(c, inputs), now, limit) == 0
    decreases |inputs|
  {
    hide Run;
    if inputs != [] {
      var n := |inputs| - 1;
      NoStartAfter(c, inputs[..n], now, limit);
      WithinSnoc(Starts(c, inputs[..n]), inputs[n].now, now, limit);
    }
  }

  /** The segments a newly heard chunk is in. */
  lemma CountFresh(c: Config, inputs: seq<Input>, n: nat)
    requires c.sampleRate > 0 && n + 1 == |inputs| && Increasing(inputs)
    ensures Count(Spans(Run(c, inputs)), inputs[n].now)
            == if RoleOf(c, inputs, n).Speech? || RoleOf(c, inputs, n).Trailing? then 1 else 0
  {
    hide SpanIs, Next, Count, Spans, RoleIn, ClosedOk;
    RunShape(c, inputs[..n]);
    SpansBefore(c, inputs[..n], inputs[n].now);
    CountFreshStep(c, Run(c, inputs[..n]), inputs[n], n);
  }

  lemma CountFreshStep(c: Config, t: Trace, i: Input, n: nat)
    requires c.sampleRate > 0 && (t.state.startedAt.None? ==> t.state.speech == [])
    requires Count(Spans(t), i.now) == 0
    ensures var role := RoleIn(c, t.state, i);
            Count(Spans(Next(c, t, i, n)), i.now) == if role.Speech? || role.Trailing? then 1 else 0
  {
    hide Next, Count, Closes, RecentOnly;
    SpansStep(c, t, i, n);
    assert t.state.startedAt.None? ==> Spans(t) == t.closed;
    if t.state.startedAt.Some? {
      FreshItem(t.closed, t.first, t.state.speech, ItemOf(i), Spans(t));
    } else if IsSpeech(c, i) {
      FreshItem(t.closed, n, RecentOnly(c, t.state.preRoll, i.now), ItemOf(i), Spans(t));
    }
    assert Closes(c, t.state, i) ==> !IsSpeech(c, i) by { SpeechNeverCloses(c, t.state, i); }
  }

  lemma SpeechNeverCloses(c: Config, s: State, i: Input)
    ensures Closes(c, s, i) ==> !IsSpeech(c, i)
  {
  }

  lemma FreshItem(closed: seq<Span>, first: nat, items: seq<Item>, item: Item, spans: seq<Span>)
    requires Count(spans, item.at) == 0
    requires spans == closed || spans == closed + [Span(first, items)]
    ensures Count(closed + [Span(first, items + [item])], item.at) == 1
  {
    CountSnoc(closed, Span(first, items), item.at);
    CountSnoc(closed, Span(first, items + [item]), item.at);
    HoldsConcat(items, [item], item.at);
    HoldsOne(item, item.at);
  }

  lemma WithinStarts(c: Config, inputs: seq<Input>, n: nat, at: real, limit: real)
    requires c.sampleRate > 0 && n + 1 == |inputs|
    ensures Within(Starts(c, inputs), at, limit) == Within(Starts(c, inputs[..n]), at, limit)
              + if Run(c, inputs[..n]).state.startedAt.None? && IsSpeech(c, inputs[n]) && at < inputs[n].now <= limit
                then 1 else 0
  {
    hide Run, Within;
    WithinSnoc(Starts(c, inputs[..n]), inputs[n].now, at, limit);
  }

  /** Conservation: a speech chunk, and a silent one inside a segment, is in exactly one segment;
      the silent chunk that closes a segment is in none; an idle chunk is in exactly those that
      start within `preRollMs` of it. */
  lemma {:induction false} EveryChunkAccountedFor(c: Config, inputs: seq<Input>, k: nat)
    requires c.sampleRate > 0 && Increasing(inputs) && k < |inputs|
    ensures var at := inputs[k].now;
            Count(Spans(Run(c, inputs)), at) ==
              match RoleOf(c, inputs, k)
              case Speech => 1
              case Trailing => 1
              case Closing => 0
              case Idle => Within(Starts(c, inputs), at, at + c.preRollMs as real)
    decreases |inputs|
  {
    hide Run, RoleOf, Spans, Count, Within, Starts;
    var n, at := |inputs| - 1, inputs[k].now;
    WithinStarts(c, inputs, n, at, at + c.preRollMs as real);
    if k < n {
      EveryChunkAccountedFor(c, inputs[..n], k);
      RoleOfPrefix(c, inputs, n, k);
      CountStep(c, inputs, n, k);
    } else {
      CountFresh(c, inputs, n);
      NoStartAfter(c, inputs[..n], at, at + c.preRollMs as real);
    }
  }

  // ----- what a call returns, told from the calls alone -----

  ghost predicate SpeechAt(c: Config, inputs: seq<Input>, k: int) {
    0 <= k < |inputs| && inputs[k].probability >= c.speechThreshold
  }

  /** At call `k` the effective silence has passed since the end of chunk `l`: the recommended one if there is one
      and it is not zero, and the configured one otherwise. */
  ghost predicate Elapsed(c: Config, inputs: seq<Input>, l: int, k: int)
    requires c.sampleRate > 0 && 0 <= l < |inputs| && 0 <= k < |inputs|
  {
    var heard := inputs[l].now + |inputs[l].chunk| as real / c.sampleRate as real * 1000.0;
    match inputs[k].recommendedSilenceMs
    case Some(ms) => inputs[k].now >= heard + (if ms == 0 then c.silenceMs else ms) as real
    case None => inputs[k].now >= heard + c.silenceMs as real
  }

  /** Before call `n`, chunk `l` is the last speech, and the silence since has never been long enough. */
  ghost predicate OpenSince(c: Config, inputs: seq<Input>, n: int, l: int)
    requires c.sampleRate > 0 && n <= |inputs|
  {
    && 0 <= l < n && SpeechAt(c, inputs, l)
    && forall k :: l < k < n ==> !SpeechAt(c, inputs, k) && !Elapsed(c, inputs, l, k)
  }

  ghost predicate IsOpen(c: Config, inputs: seq<Input>, n: int)
    requires c.sampleRate > 0 && n <= |inputs|
  {
    exists l :: OpenSince(c, inputs, n, l)
  }

  /** Call `n` ends a segment. */
  ghost predicate Ends(c: Config, inputs: seq<Input>, n: int)
    requires c.sampleRate > 0 && 0 <= n < |inputs|
  {
    !SpeechAt(c, inputs, n) && exists l :: OpenSince(c, inputs, n, l) && Elapsed(c, inputs, l, n)
  }

  /** Call `n` is the first speech chunk of a segment. */
  ghost predicate Begins(c: Config, inputs: seq<Input>, n: int)
    requires c.sampleRate > 0 && 0 <= n < |inputs|
  {
    SpeechAt(c, inputs, n) && !IsOpen(c, inputs, n)
  }

  /** Call `k` brings silence while no segment is open. */
  ghost predicate IdleAt(c: Config, inputs: seq<Input>, k: int)
    requires c.sampleRate > 0 && 0 <= k < |inputs|
  {
    !SpeechAt(c, inputs, k) && !IsOpen(c, inputs, k)
  }

  /** Chunk `k` belongs to the segment from `first` to the call before `n`: it lies between them, or it came at most
      `preRollMs` before, while no segment was open. */
  ghost predicate BelongsTo(c: Config, inputs: seq<Input>, first: int, n: int, k: int)
    requires c.sampleRate > 0 && 0 <= first < n <= |inputs| && 0 <= k < n
  {
    first <= k || (IdleAt(c, inputs, k) && inputs[first].now - inputs[k].now <= c.preRollMs as real)
  }

  /** These are the chunks that belong to it, in time order. */
  ghost predicate AllOf(c: Config, inputs: seq<Input>, first: int, n: int, items: seq<Item>)
    requires c.sampleRate > 0 && 0 <= first < n <= |inputs|
  {
    && InOrder(items) && items != []
    && forall item :: item in items <==>
         exists k :: 0 <= k < n && item == Item(inputs[k].now, inputs[k].chunk) && BelongsTo(c, inputs, first, n, k)
  }

  /** Where chunk `j` begins when the chunks are laid end to end. */
  function Offset(items: seq<Item>, j: nat): nat
    requires j <= |items|
  {
    if j == 0 then 0 else Offset(items, j - 1) + |items[j - 1].chunk|
  }

  ghost predicate EndToEnd(items: seq<Item>, samples: seq<real>) {
    && |samples| == Offset(items, |items|)
    && forall j, i :: 0 <= j < |items| && 0 <= i < |items[j].chunk| ==>
         SampleIs(samples, Offset(items, j) + i, items[j].chunk[i])
  }

  predicate SampleIs(samples: seq<real>, at: nat, sample: real) { at < |samples| && samples[at] == sample }

  lemma {:induction false} SamplesSnoc(items: seq<Item>, item: Item)
    ensures Samples(items + [item]) == Samples(items) + item.chunk
  {
    if items == [] {
      assert [] + [item] == [item] && [item][1..] == [];
    } else {
      assert (items + [item])[1..] == items[1..] + [item];
      SamplesSnoc(items[1..], item);
    }
  }

  lemma {:induction false} OffsetPrefix(items: seq<Item>, n: nat, j: nat)
    requires j <= n <= |items|
    ensures Offset(items[..n], j) == Offset(items, j) <= Offset(items, n)
    decreases n, j
  {
    if j > 0 {
      OffsetPrefix(items, n, j - 1);
    }
    if j < n {
      OffsetPrefix(items, n - 1, j);
    }
  }

  lemma EndToEndSnoc(items: seq<Item>, item: Item, samples: seq<real>)
    requires EndToEnd(items, samples)
    ensures EndToEnd(items + [item], samples + item.chunk)
  {
    var all, n, joined := items + [item], |items|, samples + item.chunk;
    assert all[..n] == items;
    OffsetOne(all, n);
    OffsetPrefix(all, n, n);
    forall j: nat | j <= n ensures Offset(all, j) == Offset(items, j) {
      OffsetPrefix(all, n, j);
    }
    hide Offset;
    forall j, i | 0 <= j < |all| && 0 <= i < |all[j].chunk|
      ensures SampleIs(joined, Offset(all, j) + i, all[j].chunk[i])
    {
      if j < n {
        assert all[j] == items[j];
        assert SampleIs(samples, Offset(items, j) + i, items[j].chunk[i]);
      } else {
        assert Offset(all, j) + i == |samples| + i && joined[|samples| + i] == item.chunk[i];
      }
    }
    assert |joined| == |samples| + |item.chunk| == Offset(all, n + 1);
  }

  /** The joined samples are the chunks end to end. */
  lemma {:induction false} SamplesEndToEnd(items: seq<Item>)
    ensures EndToEnd(items, Samples(items))
  {
    if items != [] {
      var n := |items| - 1;
      SamplesEndToEnd(items[..n]);
      SamplesSnoc(items[..n], items[n]);
      assert items[..n] + [items[n]] == items;
      hide EndToEnd, Samples;
      EndToEndSnoc(items[..n], items[n], Samples(items[..n]));
    }
  }

  lemma OffsetOne(items: seq<Item>, n: nat)
    requires n < |items|
    ensures Offset(items, n + 1) == Offset(items, n) + |items[n].chunk|
  {
  }

  lemma RunNothing(c: Config, inputs: seq<Input>)
    requires c.sampleRate > 0
    ensures Run(c, inputs[..0]) == Trace(IDLE, [], 0)
  {
    assert inputs[..0] == [];
  }

  lemma NeverOpen(c: Config, inputs: seq<Input>)
    requires c.sampleRate > 0
    ensures forall l :: !OpenSince(c, inputs, 0, l)
  {
  }

  lemma RunSnoc(c: Config, inputs: seq<Input>, n: nat)
    requires c.sampleRate > 0 && n < |inputs|
    ensures Run(c, inputs[..n + 1]) == Next(c, Run(c, inputs[..n]), inputs[n], n)
  {
    assert inputs[..n + 1][..n] == inputs[..n];
  }

  ghost predicate SpokenAt(c: Config, s: State, inputs: seq<Input>, l: int)
    requires c.sampleRate > 0 && 0 <= l < |inputs|
  {
    s.lastSpeech == Some(inputs[l].now + Duration(c, inputs[l].chunk))
  }

  lemma ClosesElapsed(c: Config, s: State, inputs: seq<Input>, l: int, n: int)
    requires c.sampleRate > 0 && 0 <= l < |inputs| && 0 <= n < |inputs|
    requires s.startedAt.Some? && SpokenAt(c, s, inputs, l)
    ensures Closes(c, s, inputs[n]) <==> !SpeechAt(c, inputs, n) && Elapsed(c, inputs, l, n)
  {
  }

  lemma OpenOnce(c: Config, inputs: seq<Input>, n: int, l: int, m: int)
    requires c.sampleRate > 0 && n <= |inputs| && OpenSince(c, inputs, n, l) && OpenSince(c, inputs, n, m)
    ensures l == m
  {
    hide Elapsed;
  }

  ghost predicate OpenAgrees(c: Config, inputs: seq<Input>, n: int, s: State)
    requires c.sampleRate > 0 && n <= |inputs|
  {
    && (s.startedAt.Some? <==> IsOpen(c, inputs, n))
    && forall l :: OpenSince(c, inputs, n, l) ==> SpokenAt(c, s, inputs, l)
  }

  /** The two time fields say exactly whether a segment is open, and since when it is silent. */
  lemma {:induction false} OpenExactly(c: Config, inputs: seq<Input>, n: nat)
    requires c.sampleRate > 0 && n <= |inputs|
    ensures OpenAgrees(c, inputs, n, Run(c, inputs[..n]).state)
  {
    hide Run, OpenSince;
    if n == 0 {
      RunNothing(c, inputs);
      NeverOpen(c, inputs);
    } else {
      hide OpenAgrees;
      OpenExactly(c, inputs, n - 1);
      RunSnoc(c, inputs, n - 1);
      OpenAgreesNext(c, inputs, n - 1, Run(c, inputs[..n - 1]).state);
    }
  }

  lemma OpenAgreesNext(c: Config, inputs: seq<Input>, n: nat, s: State)
    requires c.sampleRate > 0 && n < |inputs| && OpenAgrees(c, inputs, n, s)
    ensures OpenAgrees(c, inputs, n + 1, Step(c, s, inputs[n]))
  {
    hide SpokenAt, OpenSince, Elapsed, Step, Closes;
    StepSpoken(c, s, inputs, n);
    var next := n + 1;
    OpenNext(c, inputs, n, next);
    if !SpeechAt(c, inputs, n) && s.startedAt.Some? {
      var l :| OpenSince(c, inputs, n, l);
      StillOpen(c, inputs, n, l);
      InRange(c, inputs, n, l);
      ClosesElapsed(c, s, inputs, l, n);
      forall m | OpenSince(c, inputs, next, m) ensures m == l {
        OpenOnce(c, inputs, n, l, m);
      }
      SpokenStays(c, s, Step(c, s, inputs[n]), inputs, l);
    }
  }

  lemma InRange(c: Config, inputs: seq<Input>, n: int, l: int)
    requires c.sampleRate > 0 && n <= |inputs| && OpenSince(c, inputs, n, l)
    ensures 0 <= l < n
  {
  }

  lemma SpokenStays(c: Config, s: State, t: State, inputs: seq<Input>, l: int)
    requires c.sampleRate > 0 && 0 <= l < |inputs| && SpokenAt(c, s, inputs, l)
    ensures t.lastSpeech == s.lastSpeech ==> SpokenAt(c, t, inputs, l)
  {
  }

  lemma StepSpoken(c: Config, s: State, inputs: seq<Input>, n: nat)
    requires c.sampleRate > 0 && n < |inputs|
    ensures var t := Step(c, s, inputs[n]);
            && (SpeechAt(c, inputs, n) ==> t.startedAt.Some? && SpokenAt(c, t, inputs, n))
            && (!SpeechAt(c, inputs, n) && s.startedAt.None? ==> t.startedAt.None?)
            && (!SpeechAt(c, inputs, n) && s.startedAt.Some? ==>
                  if Closes(c, s, inputs[n]) then t.startedAt.None?
                  else t.startedAt.Some? && t.lastSpeech == s.lastSpeech)
  {
    hide Trim, RecentOnly, Duration;
  }

  lemma StillOpen(c: Config, inputs: seq<Input>, n: nat, l: int)
    requires c.sampleRate > 0 && n < |inputs| && OpenSince(c, inputs, n, l) && !SpeechAt(c, inputs, n)
    ensures OpenSince(c, inputs, n + 1, l) <==> !Elapsed(c, inputs, l, n)
  {
    hide Elapsed;
  }

  lemma OpenNext(c: Config, inputs: seq<Input>, n: nat, next: nat)
    requires c.sampleRate > 0 && n < |inputs| && next == n + 1
    ensures SpeechAt(c, inputs, n) <==> OpenSince(c, inputs, next, n)
    ensures forall l :: OpenSince(c, inputs, next, l) && l != n ==>
              OpenSince(c, inputs, n, l) && !SpeechAt(c, inputs, n)
  {
    hide Elapsed;
  }

  /** A call ends a segment exactly when the effective silence has passed since the last speech for the first time,
      and an idle chunk is one heard while no segment is open. */
  lemma RolesExactly(c: Config, inputs: seq<Input>, n: nat)
    requires c.sampleRate > 0 && n < |inputs|
    ensures RoleOf(c, inputs, n) ==
      if SpeechAt(c, inputs, n) then Speech
      else if !IsOpen(c, inputs, n) then Idle
      else if Ends(c, inputs, n) then Closing
      else Trailing
  {
    OpenExactly(c, inputs, n);
    var s := Run(c, inputs[..n]).state;
    hide Run, OpenSince, Elapsed, SpokenAt, Closes;
    if s.startedAt.Some? {
      var l :| OpenSince(c, inputs, n, l);
      InRange(c, inputs, n, l);
      ClosesElapsed(c, s, inputs, l, n);
      OpenAlways(c, inputs, n, l);
    }
  }

  lemma OpenAlways(c: Config, inputs: seq<Input>, n: int, l: int)
    requires c.sampleRate > 0 && n <= |inputs| && OpenSince(c, inputs, n, l)
    ensures forall m :: OpenSince(c, inputs, n, m) ==> m == l
  {
    hide OpenSince;
    forall m | OpenSince(c, inputs, n, m) ensures m == l {
      OpenOnce(c, inputs, n, l, m);
    }
  }

  // ----- which chunks those are -----

  lemma {:induction false} IdleExactly(c: Config, inputs: seq<Input>, n: nat, item: Item)
    requires c.sampleRate > 0 && n <= |inputs|
    ensures item in IdleItems(c, inputs[..n]) <==>
            exists k :: 0 <= k < n && item == Item(inputs[k].now, inputs[k].chunk) && IdleAt(c, inputs, k)
  {
    hide Run, RoleOf, SpeechAt, IsOpen, Ends, IdleItems;
    if n == 0 {
      IdleNothing(c, inputs);
    } else {
      IdleExactly(c, inputs, n - 1, item);
      RolesExactly(c, inputs, n - 1);
      IdleSnoc(c, inputs, n - 1);
    }
  }

  lemma IdleNothing(c: Config, inputs: seq<Input>)
    requires c.sampleRate > 0
    ensures IdleItems(c, inputs[..0]) == []
  {
    assert inputs[..0] == [];
  }

  lemma IdleSnoc(c: Config, inputs: seq<Input>, n: nat)
    requires c.sampleRate > 0 && n < |inputs|
    ensures IdleItems(c, inputs[..n + 1]) == IdleItems(c, inputs[..n]) +
            if RoleOf(c, inputs, n).Idle? then [ItemOf(inputs[n])] else []
  {
    hide RoleOf;
    RoleOfPrefix(c, inputs, n + 1, n);
    assert inputs[..n + 1][..n] == inputs[..n];
  }

  lemma {:induction false} RecentExactly(c: Config, items: seq<Item>, now: real, item: Item)
    ensures item in RecentOnly(c, items, now) <==> item in items && now - item.at <= c.preRollMs as real
  {
    if items != [] {
      RecentExactly(c, items[1..], now, item);
    }
  }

  lemma SpanHolds(c: Config, inputs: seq<Input>, span: Span, n: nat, item: Item)
    requires c.sampleRate > 0 && SpanIs(c, inputs, span, n)
    ensures item in span.items <==>
            exists k :: 0 <= k < n && item == Item(inputs[k].now, inputs[k].chunk)
                        && BelongsTo(c, inputs, span.first, n, k)
  {
    hide RecentOnly, IdleItems, SpeechAt, IsOpen;
    var first, now := span.first, inputs[span.first].now;
    IdleExactly(c, inputs, first, item);
    RecentExactly(c, IdleItems(c, inputs[..first]), now, item);
    var run := ItemsOf(inputs[first..n]);
    assert item in span.items <==> item in Retained(c, inputs, first) || item in run;
    InRun(inputs, first, n, item);
  }

  lemma SpanAllOf(c: Config, inputs: seq<Input>, span: Span, n: nat)
    requires c.sampleRate > 0 && Increasing(inputs) && SpanIs(c, inputs, span, n)
    ensures AllOf(c, inputs, span.first, n, span.items)
  {
    SpanInOrder(c, inputs, span, n);
    assert span.items != [];
    hide SpanIs, InOrder, BelongsTo, Increasing;
    forall item
      ensures item in span.items <==>
              exists k :: 0 <= k < n && item == Item(inputs[k].now, inputs[k].chunk)
                          && BelongsTo(c, inputs, span.first, n, k)
    {
      SpanHolds(c, inputs, span, n, item);
    }
  }

  lemma InRun(inputs: seq<Input>, first: nat, n: nat, item: Item)
    requires first < n <= |inputs|
    ensures item in ItemsOf(inputs[first..n]) <==>
            exists k :: first <= k < n && item == Item(inputs[k].now, inputs[k].chunk)
  {
    var run := ItemsOf(inputs[first..n]);
    if item in run {
      var j :| 0 <= j < |run| && run[j] == item;
      assert item == Item(inputs[first + j].now, inputs[first + j].chunk);
    }
    if exists k :: first <= k < n && item == Item(inputs[k].now, inputs[k].chunk) {
      var k :| first <= k < n && item == Item(inputs[k].now, inputs[k].chunk);
      assert run[k - first] == item;
    }
  }

  ghost predicate FirstIs(c: Config, inputs: seq<Input>, n: int, first: int)
    requires c.sampleRate > 0 && n <= |inputs|
  {
    0 <= first < n && Begins(c, inputs, first) && forall k :: first < k < n ==> !Begins(c, inputs, k)
  }

  /** The open segment began at the call the trace names, and none began since. */
  lemma {:induction false} FirstBegins(c: Config, inputs: seq<Input>, n: nat)
    requires c.sampleRate > 0 && n <= |inputs|
    ensures var t := Run(c, inputs[..n]);
            t.state.startedAt.Some? ==> FirstIs(c, inputs, n, t.first)
  {
    hide Run, SpokenAt, OpenSince, IsOpen, Next, FirstIs;
    if n == 0 {
      RunNothing(c, inputs);
    } else {
      FirstBegins(c, inputs, n - 1);
      RunSnoc(c, inputs, n - 1);
      OpenExactly(c, inputs, n - 1);
      FirstNext(c, inputs, n - 1, Run(c, inputs[..n - 1]));
    }
  }

  lemma FirstNext(c: Config, inputs: seq<Input>, n: nat, t: Trace)
    requires c.sampleRate > 0 && n < |inputs| && (t.state.startedAt.Some? <==> IsOpen(c, inputs, n))
    requires t.state.startedAt.Some? ==> FirstIs(c, inputs, n, t.first)
    ensures var u := Next(c, t, inputs[n], n);
            u.state.startedAt.Some? ==> FirstIs(c, inputs, n + 1, u.first)
  {
    hide SpokenAt, IsOpen, Step, Closes;
    StepSpoken(c, t.state, inputs, n);
  }

  /** The segment call `n` returns, if any: it is the one that began last, its samples are the chunks that belong to
      it laid end to end, it starts with its first chunk and ends at this call. */
  ghost predicate Returned(c: Config, inputs: seq<Input>, n: nat, segment: Segment, first: int, items: seq<Item>)
    requires c.sampleRate > 0 && n < |inputs|
  {
    && FirstIs(c, inputs, n, first) && AllOf(c, inputs, first, n, items) && EndToEnd(items, segment.samples)
    && segment.startedAt == items[0].at && segment.endedAt == inputs[n].now
  }

  /** For every run and every call of it: whether it returns a segment, and which. */
  lemma SegmentExactly(c: Config, inputs: seq<Input>, n: nat)
    requires c.sampleRate > 0 && Increasing(inputs) && n < |inputs|
    ensures var result := Emitted(c, Run(c, inputs[..n]).state, inputs[n]);
            && (result.Some? <==> Ends(c, inputs, n))
            && (result.Some? ==> exists first, items :: Returned(c, inputs, n, result.value, first, items))
  {
    RolesExactly(c, inputs, n);
    RunShape(c, inputs[..n]);
    FirstBegins(c, inputs, n);
    var t := Run(c, inputs[..n]);
    hide Run, SpeechAt, IsOpen, SpanIs, Samples, Ends, AllOf, EndToEnd, Begins;
    var result := Emitted(c, t.state, inputs[n]);
    assert RoleOf(c, inputs, n).Closing? <==> result.Some?;
    if result.Some? {
      SpanExtends(c, inputs, n, Span(t.first, t.state.speech), n);
      SpanAllOf(c, inputs, Span(t.first, t.state.speech), n);
      SamplesEndToEnd(t.state.speech);
      assert Returned(c, inputs, n, result.value, t.first, t.state.speech);
    }
  }

  // ----- the bound -----

  ghost predicate SilenceAtLeast(c: Config, inputs: seq<Input>, m: int) {
    forall k :: 0 <= k < |inputs| ==> m <= EffectiveSilence(c, inputs[k])
  }

  ghost predicate Spaced(times: seq<real>, m: int) {
    forall j :: 0 < j < |times| ==> times[j - 1] + m as real < times[j]
  }

  /** Open since the last of these times, or closed the least silence after it. */
  ghost predicate LastStart(s: State, times: seq<real>, m: int, now: real) {
    if s.startedAt.Some? then times != [] && times[|times| - 1] == s.startedAt.value
    else times != [] ==> times[|times| - 1] + m as real <= now
  }

  lemma StartsNext(c: Config, s: State, i: Input, times: seq<real>, m: int, now: real)
    requires c.sampleRate > 0 && m <= EffectiveSilence(c, i) && now < i.now
    requires Spaced(times, m) && LastStart(s, times, m, now)
    requires s.startedAt.Some? ==> s.lastSpeech.Some? && s.startedAt.value <= s.lastSpeech.value
    ensures var later := times + if s.startedAt.None? && IsSpeech(c, i) then [i.now] else [];
            Spaced(later, m) && LastStart(Step(c, s, i), later, m, i.now)
  {
    hide EffectiveSilence, Trim, RecentOnly, Duration;
  }

  /** Segments start more than the smallest effective silence apart. */
  lemma {:induction false} StartsSpaced(c: Config, inputs: seq<Input>, m: int)
    requires c.sampleRate > 0 && Increasing(inputs) && SilenceAtLeast(c, inputs, m)
    ensures Spaced(Starts(c, inputs), m)
    ensures var now := if inputs == [] then 0.0 else inputs[|inputs| - 1].now;
            LastStart(Run(c, inputs).state, Starts(c, inputs), m, now)
    decreases |inputs|
  {
    if inputs != [] {
      var n := |inputs| - 1;
      StartsSpaced(c, inputs[..n], m);
      RunShape(c, inputs[..n]);
      var s, times := Run(c, inputs[..n]).state, Starts(c, inputs[..n]);
      assert Run(c, inputs).state == Step(c, s, inputs[n]);
      hide SpanIs, ClosedOk, Run, Step, Spaced, EffectiveSilence;
      StartsNext(c, s, inputs[n], times, m, if n == 0 then inputs[n].now - 1.0 else inputs[n - 1].now);
      assert Starts(c, inputs) == times + if s.startedAt.None? && IsSpeech(c, inputs[n]) then [inputs[n].now] else [];
    }
  }

  lemma {:induction false} WithinLimit(times: seq<real>, m: int, at: real, low: real, limit: real)
    requires 0 <= m && Spaced(times, m) && low <= limit
    requires times != [] ==> times[|times| - 1] <= low
    ensures Within(times, at, low) == Within(times, at, limit)
  {
    if times != [] {
      WithinLimit(times[..|times| - 1], m, at, low, limit);
    }
  }

  lemma {:induction false} SpacedBound(times: seq<real>, m: int, at: real, limit: real)
    requires 0 <= m && Spaced(times, m)
    ensures var k := Within(times, at, limit); k >= 1 ==> ((k - 1) * m) as real < limit - at
  {
    if times != [] {
      var front, last := times[..|times| - 1], times[|times| - 1];
      if at < last <= limit {
        var low := last - m as real;
        WithinLimit(front, m, at, low, limit);
        SpacedBound(front, m, at, low);
        OneFurther(Within(front, at, low), m);
      } else {
        SpacedBound(front, m, at, limit);
      }
    }
  }

  lemma OneFurther(k: nat, m: int)
    ensures ((k + 1 - 1) * m) as real == ((k - 1) * m) as real + m as real
  {
    assert k * m == (k - 1) * m + m;
  }

  /** An idle chunk heard `k` times satisfies `(k - 1) * silence < preRollMs`. */
  lemma {:induction false} PreRollBound(c: Config, inputs: seq<Input>, k: nat, m: int)
    requires c.sampleRate > 0 && Increasing(inputs) && k < |inputs|
    requires 0 <= m && SilenceAtLeast(c, inputs, m)
    ensures var heard := Count(Spans(Run(c, inputs)), inputs[k].now);
            heard >= 2 ==> RoleOf(c, inputs, k).Idle? && (heard - 1) * m < c.preRollMs
  {
    hide Run, RoleOf, Spans, Count, Within, Starts, Spaced;
    EveryChunkAccountedFor(c, inputs, k);
    StartsSpaced(c, inputs, m);
    SpacedBound(Starts(c, inputs), m, inputs[k].now, inputs[k].now + c.preRollMs as real);
  }

  /** At most twice with the defaults, and never twice when silence covers the pre-roll. */
  lemma {:induction false} HeardAtMost(c: Config, inputs: seq<Input>, k: nat, m: int)
    requires c.sampleRate > 0 && Increasing(inputs) && k < |inputs|
    requires 0 < m && SilenceAtLeast(c, inputs, m)
    ensures c.preRollMs <= 500 && m >= 400 ==> Count(Spans(Run(c, inputs)), inputs[k].now) <= 2
    ensures c.preRollMs <= m ==> Count(Spans(Run(c, inputs)), inputs[k].now) <= 1
  {
    hide Run, RoleOf, Spans, Count, SilenceAtLeast, Increasing;
    PreRollBound(c, inputs, k, m);
    var heard := Count(Spans(Run(c, inputs)), inputs[k].now);
    if heard >= 3 {
      assert (heard - 1) * m >= 2 * m;
    } else if heard == 2 {
      assert (heard - 1) * m == m;
    }
  }

  /** Non-empty chunks timed by the audio clock arrive at increasing times. */
  lemma ClockIncreases(c: Config, inputs: seq<Input>)
    requires c.sampleRate > 0
    requires forall k :: 0 <= k < |inputs| ==> inputs[k].chunk != []
    requires forall k :: 0 < k < |inputs| ==> inputs[k].now == inputs[k - 1].now + Duration(c, inputs[k - 1].chunk)
    ensures Increasing(inputs)
  {
    for n := 0 to |inputs|
      invariant Increasing(inputs[..n])
    {
      assert n > 0 ==> inputs[..n][n - 1].now < inputs[n].now;
      assert inputs[..n + 1] == inputs[..n] + [inputs[n]];
    }
    assert inputs[..|inputs|] == inputs;
  }
}