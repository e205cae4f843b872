/** The lane of partial transcriptions (server/hot_path/app.py): a bounded drop-oldest queue with
    generations, coalescing and an idle flag. Each stretch between two awaits is one step. */
module PartialLane {
  import opened Wrappers

  type Samples = seq<real>

  datatype Entry = Entry(generation: nat, samples: Samples, nowMs: real)

  /** A call of the conversation's `process_streaming_partial`. */
  datatype Handed = Handed(samples: Samples, nowMs: real)

  datatype Runner = Waiting | Busy(generation: nat) | Dead

  datatype Lane<R> = Lane(
    maxSize: int,            // a bound below one means no bound, as for `asyncio.Queue`
    queue: seq<Entry>,
    generation: nat,
    idle: bool,
    unfinished: int,         // the queue's count of unfinished tasks
    runner: Runner,
    handed: seq<Handed>,     // the calls made so far
    results: seq<R>)         // what was put on the result queue

  datatype Event<R> =
    | Submit(samples: Samples, nowMs: real)
    | Invalidate
    | Take                       // the runner resumes on a non-empty queue
    | Finish(result: Option<R>)  // the call in flight returns
    | Fail                       // the call in flight raises
    | Cancel                     // `stop`

  function Initial<R>(maxSize: int): Lane<R> { Lane(maxSize, [], 0, true, 0, Waiting, [], []) }

  // ----- the steps -----

  predicate Full<R>(l: Lane<R>) { 1 <= l.maxSize <= |l.queue| }

  function Submitted<R>(l: Lane<R>, samples: Samples, nowMs: real): Lane<R> {
    var entry := Entry(l.generation, samples, nowMs);
    if Full(l) then l.(idle := false, queue := l.queue[1..] + [entry])
    else l.(idle := false, queue := l.queue + [entry], unfinished := l.unfinished + 1)
  }

  function Invalidated<R>(l: Lane<R>): Lane<R> {
    l.(generation := l.generation + 1, queue := [], unfinished := l.unfinished - |l.queue|)
  }

  /** The samples of the entries of one generation, end to end. */
  function Coalesced(entries: seq<Entry>, generation: nat): Samples {
    if entries == [] then []
    else
      var rest := Coalesced(entries[..|entries| - 1], generation);
      var last := entries[|entries| - 1];
      if last.generation == generation then rest + last.samples else rest
  }

  /** The `finally` of the runner: one task done, and idle again when nothing is queued. */
  function Done<R>(l: Lane<R>): Lane<R> { l.(unfinished := l.unfinished - 1, idle := l.idle || l.queue == []) }

  function Taken<R>(l: Lane<R>): Lane<R>
    requires l.queue != []
  {
    var first := l.queue[0];
    var drained := l.(queue := [], unfinished := l.unfinished - (|l.queue| - 1));
    if first.generation != l.generation then Done(drained)
    else drained.(
      runner := Busy(first.generation),
      handed := l.handed + [Handed(Coalesced(l.queue, first.generation), first.nowMs)])
  }

  function Finished<R>(l: Lane<R>, result: Option<R>): Lane<R>
    requires l.runner.Busy?
  {
    Done(l.(runner := Waiting,
            results := l.results + if result.Some? && l.runner.generation == l.generation then [result.value] else []))
  }

  function Cancelled<R>(l: Lane<R>): Lane<R> {
    if l.runner.Busy? then Done(l.(runner := Dead)) else l.(runner := Dead)
  }

  function Step<R>(l: Lane<R>, e: Event<R>): Lane<R> {
    match e
    case Submit(samples, nowMs) => Submitted(l, samples, nowMs)
    case Invalidate => Invalidated(l)
    case Take => if l.runner.Waiting? && l.queue != [] then Taken(l) else l
    case Finish(result) => if l.runner.Busy? then Finished(l, result) else l
    case Fail => if l.runner.Busy? then Cancelled(l) else l
    case Cancel => Cancelled(l)
  }

  // ----- a lane together with what has become of every submission -----

  datatype Outcome = Dropped(entry: Entry) | Discarded(entries: seq<Entry>) | Processed(entries: seq<Entry>)

  /** A result that was enqueued: which call gave it, and the generation at that moment. */
  datatype Emission<R> = Emission(call: nat, generation: nat, value: R)

  datatype World<R> = World(
    lane: Lane<R>,
    submitted: seq<Entry>,
    outcomes: seq<Outcome>,
    emitted: seq<Emission<R>>,
    stranded: bool)  // see `IdleExactly`

  function Start<R>(maxSize: int): World<R> { World(Initial(maxSize), [], [], [], false) }

  function Next<R>(w: World<R>, e: Event<R>): World<R> {
    var l, t := w.lane, Step(w.lane, e);
    match e
    case Submit(samples, nowMs) =>
      w.(lane := t,
         submitted := w.submitted + [Entry(l.generation, samples, nowMs)],
         outcomes := w.outcomes + if Full(l) then [Dropped(l.queue[0])] else [])
    case Invalidate =>
      w.(lane := t, outcomes := w.outcomes + [Discarded(l.queue)],
         stranded := w.stranded || (l.queue != [] && !l.runner.Busy?))
    case Take =>
      if l.runner.Waiting? && l.queue != [] then w.(lane := t, outcomes := w.outcomes + [Processed(l.queue)]) else w
    case Finish(result) =>
      if l.runner.Busy? then
        w.(lane := t, stranded := w.stranded && l.queue != [],
           emitted := w.emitted + if result.Some? && l.runner.generation == l.generation
                                  then [Emission(|l.handed|, l.generation, result.value)] else [])
      else w
    case Fail => if l.runner.Busy? then w.(lane := t, stranded := w.stranded && l.queue != []) else w
    case Cancel => w.(lane := t, stranded := w.stranded && (!l.runner.Busy? || l.queue != []))
  }

  function Run<R>(w: World<R>, events: seq<Event<R>>): World<R>
    decreases |events|
  {
    if events == [] then w else Run(Next(w, events[0]), events[1..])
  }

  function EntriesOf(o: Outcome): seq<Entry> {
    match o
    case Dropped(entry) => [entry]
    case Discarded(entries) => entries
    case Processed(entries) => entries
  }

  function Resolved(outcomes: seq<Outcome>): seq<Entry> {
    if outcomes == [] then [] else Resolved(outcomes[..|outcomes| - 1]) + EntriesOf(outcomes[|outcomes| - 1])
  }

  function AllSamples(entries: seq<Entry>): Samples {
    if entries == [] then [] else AllSamples(entries[..|entries| - 1]) + entries[|entries| - 1].samples
  }

  /** Where the samples of entry `j` begin when they are laid end to end. */
  function Offset(entries: seq<Entry>, j: nat): nat
    requires j <= |entries|
  {
    if j == 0 then 0 else Offset(entries, j - 1) + |entries[j - 1].samples|
  }

  predicate StandsAt(all: Samples, at: nat, samples: Samples) {
    at + |samples| <= |all| && all[at..at + |samples|] == samples
  }

  lemma {:induction false} OffsetPrefix(entries: seq<Entry>, n: nat, j: nat)
    requires j <= n <= |entries|
    ensures Offset(entries[..n], j) == Offset(entries, j)
  {
    if j > 0 {
      OffsetPrefix(entries, n, j - 1);
    }
  }

  ghost predicate EndToEnd(entries: seq<Entry>, all: Samples) {
    && |all| == Offset(entries, |entries|)
    && forall j :: 0 <= j < |entries| ==> StandsAt(all, Offset(entries, j), entries[j].samples)
  }

  lemma EndToEndSnoc(entries: seq<Entry>, entry: Entry, all: Samples)
    requires EndToEnd(entries, all)
    ensures EndToEnd(entries + [entry], all + entry.samples)
  {
    hide Offset, StandsAt;
    var more, n := entries + [entry], |entries|;
    OffsetsOfMore(entries, entry, more);
    forall j | 0 <= j < |more|
      ensures StandsAt(all + entry.samples, Offset(more, j), more[j].samples)
    {
      if j < n {
        StandsInFront(all, entry.samples, Offset(entries, j), entries[j].samples);
      } else {
        StandsLast(all, entry.samples);
      }
    }
  }

  lemma OffsetsOfMore(entries: seq<Entry>, entry: Entry, more: seq<Entry>)
    requires more == entries + [entry]
    ensures forall j :: 0 <= j <= |entries| ==> Offset(more, j) == Offset(entries, j)
    ensures Offset(more, |more|) == Offset(entries, |entries|) + |entry.samples|
  {
    forall j | 0 <= j <= |entries| ensures Offset(more, j) == Offset(entries, j) {
      OffsetPrefix(more, |entries|, j);
      assert more[..|entries|] == entries;
    }
  }

  lemma NothingEndToEnd()
    ensures EndToEnd([], AllSamples([]))
  {
  }

  lemma StandsLast(all: Samples, samples: Samples)
    ensures StandsAt(all + samples, |all|, samples)
  {
  }

  /** The joined samples of a batch hold each entry's samples at the sum of the lengths before it, and nothing else. */
  lemma {:induction false} SamplesEndToEnd(entries: seq<Entry>)
    ensures EndToEnd(entries, AllSamples(entries))
  {
    hide EndToEnd;
    if entries == [] {
      NothingEndToEnd();
    } else {
      var n := |entries| - 1;
      SamplesEndToEnd(entries[..n]);
      assert entries[..n] + [entries[n]] == entries;
      EndToEndSnoc(entries[..n], entries[n], AllSamples(entries[..n]));
    }
  }

  lemma StandsInFront(front: Samples, rest: Samples, at: nat, samples: Samples)
    requires StandsAt(front, at, samples)
    ensures StandsAt(front + rest, at, samples)
  {
    assert (front + rest)[at..at + |samples|] == front[at..at + |samples|];
  }

  /** The calls the processed batches amount to. */
  function CallsOf(outcomes: seq<Outcome>): seq<Handed> {
    if outcomes == [] then []
    else
      var last := outcomes[|outcomes| - 1];
      CallsOf(outcomes[..|outcomes| - 1])
      + if last.Processed? && last.entries != [] then [Handed(AllSamples(last.entries), last.entries[0].nowMs)] else []
  }

  function Values<R>(emitted: seq<Emission<R>>): seq<R> {
    seq(|emitted|, i requires 0 <= i < |emitted| => emitted[i].value)
  }

  // ----- what every interleaving keeps -----

  ghost predicate Bounded<R>(l: Lane<R>) {
    && (l.maxSize >= 1 ==> |l.queue| <= l.maxSize)
    && (forall i :: 0 <= i < |l.queue| ==> l.queue[i].generation == l.generation)
    && l.unfinished == |l.queue| + (if l.runner.Busy? then 1 else 0)
    && (l.runner.Busy? ==> l.runner.generation <= l.generation)
  }

  /** Submissions are, in order, the processed, discarded and dropped ones and then those still queued;
      each call handed over the samples of one processed batch. */
  ghost predicate Conserved<R>(w: World<R>) {
    Resolved(w.outcomes) + w.lane.queue == w.submitted && CallsOf(w.outcomes) == w.lane.handed
  }

  ghost predicate EmissionsOk<R>(w: World<R>) {
    && Values(w.emitted) == w.lane.results
    && (forall i :: 0 <= i < |w.emitted| ==>
          w.emitted[i].generation <= w.lane.generation
          && w.emitted[i].call <= |w.lane.handed| - if w.lane.runner.Busy? then 1 else 0)
    && (forall i, j :: 0 <= i < j < |w.emitted| ==>
          w.emitted[i].generation <= w.emitted[j].generation && w.emitted[i].call < w.emitted[j].call)
  }

  /** Idle exactly when nothing is queued or in flight, unless an invalidation stranded the flag: it
      emptied the queue before the runner took anything, and no processing has ended idle since. */
  ghost predicate IdleExactly<R>(w: World<R>) {
    w.lane.idle <==> w.lane.queue == [] && !w.lane.runner.Busy? && !w.stranded
  }

  ghost predicate Inv<R>(w: World<R>) {
    Bounded(w.lane) && Conserved(w) && EmissionsOk(w) && IdleExactly(w)
  }

  lemma StepKeepsBounded<R>(l: Lane<R>, e: Event<R>)
    requires Bounded(l)
    ensures Bounded(Step(l, e))
  {
    hide Coalesced;
  }

  /** Coalescing drops nothing: the queue holds one generation only, and the runner's generation check never fails. */
  lemma {:induction false} CoalescedIsAll(entries: seq<Entry>, generation: nat)
    requires forall i :: 0 <= i < |entries| ==> entries[i].generation == generation
    ensures Coalesced(entries, generation) == AllSamples(entries)
  {
    if entries != [] {
      CoalescedIsAll(entries[..|entries| - 1], generation);
    }
  }

  lemma TakeNeverSkips<R>(l: Lane<R>)
    requires Bounded(l) && l.runner.Waiting? && l.queue != []
    ensures Step(l, Take).runner == Busy(l.generation)
    ensures Step(l, Take).handed == l.handed + [Handed(AllSamples(l.queue), l.queue[0].nowMs)]
  {
    CoalescedIsAll(l.queue, l.generation);
  }

  /** Whatever the queue holds, nothing of another generation is ever handed over. */
  lemma NothingForeign<R>(l: Lane<R>, entries: seq<Entry>, entry: Entry, generation: nat)
    requires l.runner.Waiting? && l.queue != []
    ensures l.queue[0].generation != l.generation ==>
              Step(l, Take).handed == l.handed && Step(l, Take).runner.Waiting? && Step(l, Take).queue == []
    ensures entry.generation != generation ==>
              Coalesced(entries + [entry], generation) == Coalesced(entries, generation)
  {
    assert (entries + [entry])[..|entries|] == entries;
  }

  lemma ResolvedSnoc(outcomes: seq<Outcome>, o: Outcome)
    ensures Resolved(outcomes + [o]) == Resolved(outcomes) + EntriesOf(o)
  {
    assert (outcomes + [o])[..|outcomes|] == outcomes;
  }

  lemma CallsSnoc(outcomes: seq<Outcome>, o: Outcome)
    ensures CallsOf(outcomes + [o])
         == CallsOf(outcomes)
            + if o.Processed? && o.entries != [] then [Handed(AllSamples(o.entries), o.entries[0].nowMs)] else []
  {
    assert (outcomes + [o])[..|outcomes|] == outcomes;
  }

  /** Dropping the oldest moves it from the front of the queue to the end of what is settled. */
  lemma DropShifts(settled: seq<Entry>, queue: seq<Entry>, entry: Entry)
    requires queue != []
    ensures (settled + [queue[0]]) + (queue[1..] + [entry]) == (settled + queue) + [entry]
  {
  }

  lemma SubmitConserves<R>(w: World<R>, samples: Samples, nowMs: real)
    requires Conserved(w)
    ensures Conserved(Next(w, Submit(samples, nowMs)))
  {
    hide Resolved, CallsOf;
    var l, o := w.lane, w.outcomes;
    var entry := Entry(l.generation, samples, nowMs);
    var t := Next(w, Submit(samples, nowMs));
    if Full(l) {
      ResolvedSnoc(o, Dropped(l.queue[0]));
      CallsSnoc(o, Dropped(l.queue[0]));
      DropShifts(Resolved(o), l.queue, entry);
      assert t.outcomes == o + [Dropped(l.queue[0])] && t.lane.queue == l.queue[1..] + [entry];
    } else {
      assert t.outcomes == o && t.lane.queue == l.queue + [entry];
      assert Resolved(o) + (l.queue + [entry]) == (Resolved(o) + l.queue) + [entry];
    }
  }

  lemma StepConserves<R>(w: World<R>, e: Event<R>)
    requires Bounded(w.lane) && Conserved(w)
    ensures Conserved(Next(w, e))
  {
    hide Coalesced, Resolved, CallsOf, AllSamples;
    var l := w.lane;
    if e.Submit? {
      SubmitConserves(w, e.samples, e.nowMs);
    } else if e.Invalidate? {
      ResolvedSnoc(w.outcomes, Discarded(l.queue));
      CallsSnoc(w.outcomes, Discarded(l.queue));
    } else if e.Take? {
      if l.runner.Waiting? && l.queue != [] {
        TakeNeverSkips(l);
        ResolvedSnoc(w.outcomes, Processed(l.queue));
        CallsSnoc(w.outcomes, Processed(l.queue));
      }
    }
  }

  lemma ValuesSnoc<R>(emitted: seq<Emission<R>>, e: Emission<R>)
    ensures Values(emitted + [e]) == Values(emitted) + [e.value]
  {
  }

  lemma StepKeepsEmissions<R>(w: World<R>, e: Event<R>)
    requires Bounded(w.lane) && EmissionsOk(w)
    ensures EmissionsOk(Next(w, e))
  {
    hide Coalesced, Values;
    if e.Finish? && w.lane.runner.Busy? {
      if e.result.Some? && w.lane.runner.generation == w.lane.generation {
        ValuesSnoc(w.emitted, Emission(|w.lane.handed|, w.lane.generation, e.result.value));
      } else {
        assert w.emitted + [] == w.emitted;
      }
    }
  }

  lemma StepKeepsIdle<R>(w: World<R>, e: Event<R>)
    requires Bounded(w.lane) && IdleExactly(w)
    ensures IdleExactly(Next(w, e))
  {
    hide Coalesced;
  }

  lemma NextLane<R>(w: World<R>, e: Event<R>)
    ensures Next(w, e).lane == Step(w.lane, e)
  {
    hide Submitted, Invalidated, Taken, Finished, Cancelled;
  }

  lemma StepKeepsInv<R>(w: World<R>, e: Event<R>)
    requires Inv(w)
    ensures Inv(Next(w, e))
  {
    hide Bounded, Conserved, EmissionsOk, IdleExactly, Step, Next;
    NextLane(w, e);
    StepKeepsBounded(w.lane, e);
    StepConserves(w, e);
    StepKeepsEmissions(w, e);
    StepKeepsIdle(w, e);
  }

  lemma {:induction false} RunKeepsInv<R>(w: World<R>, events: seq<Event<R>>)
    requires Inv(w)
    ensures Inv(Run(w, events))
    decreases |events|
  {
    hide Inv, Next;
    if events != [] {
      StepKeepsInv(w, events[0]);
      RunKeepsInv(Next(w, events[0]), events[1..]);
    }
  }

  /** Every interleaving: the queue never exceeds its bound and holds only the current generation, the
      unfinished count is right, submissions are conserved in order, and the idle flag is exact. */
  lemma EveryRunIsSafe<R>(maxSize: int, events: seq<Event<R>>)
    ensures Inv(Run(Start(maxSize), events))
  {
    var w: World<R> := Start(maxSize);
    assert Inv(w);
    RunKeepsInv(w, events);
  }

  /** Idle always means empty and not busy. */
  lemma IdleMeansIdle<R>(maxSize: int, events: seq<Event<R>>)
    ensures var l := Run(Start(maxSize), events).lane;
            l.idle ==> l.queue == [] && !l.runner.Busy? && l.unfinished == 0
  {
    hide Run, Conserved, EmissionsOk;
    EveryRunIsSafe(maxSize, events);
  }

  // ----- generations -----

  lemma StepEmits<R>(w: World<R>, e: Event<R>)
    ensures w.emitted <= Next(w, e).emitted && w.lane.generation <= Next(w, e).lane.generation
    ensures forall i :: |w.emitted| <= i < |Next(w, e).emitted| ==>
              Next(w, e).emitted[i].generation >= w.lane.generation
  {
    hide Coalesced;
  }

  lemma {:induction false} RunEmits<R>(w: World<R>, events: seq<Event<R>>)
    ensures w.emitted <= Run(w, events).emitted && w.lane.generation <= Run(w, events).lane.generation
    ensures forall i :: |w.emitted| <= i < |Run(w, events).emitted| ==>
              Run(w, events).emitted[i].generation >= w.lane.generation
    decreases |events|
  {
    hide Next;
    if events != [] {
      var t := Next(w, events[0]);
      StepEmits(w, events[0]);
      RunEmits(t, events[1..]);
      assert forall i :: |w.emitted| <= i < |t.emitted| ==> Run(t, events[1..]).emitted[i] == t.emitted[i];
    }
  }

  /** After an invalidation nothing of an older generation is enqueued: every result so far is older than
      every later one, and the call in flight, if there is one, enqueues nothing. */
  lemma NothingOldAfterInvalidate<R>(maxSize: int, before: seq<Event<R>>, after: seq<Event<R>>)
    ensures var w := Run(Start(maxSize), before);
            var t := Run(Next(w, Invalidate), after);
            && w.emitted <= t.emitted
            && forall i, j :: 0 <= i < |w.emitted| <= j < |t.emitted| ==>
                 t.emitted[i].generation < t.emitted[j].generation
    ensures var w := Run(Start(maxSize), before);
            w.lane.runner.Busy? ==> forall r :: Next(Next(w, Invalidate), Finish(r)).emitted == w.emitted
  {
    hide Run, Conserved, IdleExactly;
    EveryRunIsSafe(maxSize, before);
    var w := Run(Start(maxSize), before);
    RunEmits(Next(w, Invalidate), after);
  }

  function Invalidations<R>(events: seq<Event<R>>): nat {
    if events == [] then 0 else (if events[0].Invalidate? then 1 else 0) + Invalidations(events[1..])
  }

  /** The generation counts the invalidations. */
  lemma {:induction false} GenerationCounts<R>(w: World<R>, events: seq<Event<R>>)
    ensures Run(w, events).lane.generation == w.lane.generation + Invalidations(events)
    ensures w.lane == Initial(w.lane.maxSize) ==> Run(w, events).lane.generation == Invalidations(events)
    decreases |events|
  {
    if events != [] {
      GenerationCounts(Next(w, events[0]), events[1..]);
    }
  }

  /** Once the runner is cancelled, or its call raises, nothing is handed over or enqueued any more. */
  lemma {:induction false} NothingAfterDeath<R>(w: World<R>, e: Event<R>, events: seq<Event<R>>)
    requires e.Cancel? || (e.Fail? && w.lane.runner.Busy?)
    ensures var t := Run(Next(w, e), events);
            t.lane.runner.Dead? && t.lane.handed == w.lane.handed && t.emitted == w.emitted
  {
    DeadStaysDead(Next(w, e), events);
  }

  lemma {:induction false} DeadStaysDead<R>(w: World<R>, events: seq<Event<R>>)
    requires w.lane.runner.Dead?
    ensures var t := Run(w, events);
            t.lane.runner.Dead? && t.lane.handed == w.lane.handed && t.emitted == w.emitted
    decreases |events|
  {
    if events != [] {
      DeadStaysDead(Next(w, events[0]), events[1..]);
    }
  }

  // ----- the idle flag can stay cleared -----

  predicate Completes<R>(e: Event<R>) { e.Finish? || e.Fail? || e.Cancel? }

  /** A stranded flag stays cleared until something is processed to its end. */
  lemma {:induction false} StrandedStaysCleared<R>(w: World<R>, events: seq<Event<R>>)
    requires Inv(w) && w.stranded && forall i :: 0 <= i < |events| ==> !Completes(events[i])
    ensures Run(w, events).stranded && !Run(w, events).lane.idle
    decreases |events|
  {
    hide Bounded, Conserved, EmissionsOk;
    if events != [] {
      StepKeepsInv(w, events[0]);
      hide Step, Inv;
      StrandedStaysCleared(Next(w, events[0]), events[1..]);
    }
  }

  /** An item submitted and invalidated before the runner resumes strands the flag, from any idle lane. */
  lemma InvalidatedAtOnceStrands<R>(w: World<R>, samples: Samples, nowMs: real)
    requires Inv(w) && w.lane.idle
    ensures var t := Next(Next(w, Submit(samples, nowMs)), Invalidate);
            t.stranded && !t.lane.idle && t.lane.queue == [] && !t.lane.runner.Busy?
  {
    hide Conserved, EmissionsOk;
  }

  // ----- the lane object -----

  class AudioPartialLane<R> {
    const maxSize: int
    var queue: seq<Entry>
    var generation: nat
    var idle: bool
    var unfinished: int
    var runner: Runner
    var handed: seq<Handed>
    var results: seq<R>

    function View(): Lane<R>
      reads this
    {
      Lane(maxSize, queue, generation, idle, unfinished, runner, handed, results)
    }

    constructor (maxSize: int)
      ensures View() == Initial(maxSize)
    {
      this.maxSize, queue, generation, idle, unfinished, runner := maxSize, [], 0, true, 0, Waiting;
      handed, results := [], [];
    }

    method Submit(samples: Samples, nowMs: real)
      modifies this
      ensures View() == Step(old(View()), Event.Submit(samples, nowMs))
    {
      idle := false;
      var item := Entry(generation, samples, nowMs);
      if 1 <= maxSize <= |queue| {
        queue := queue[1..];
        unfinished := unfinished - 1;
      }
      queue := queue + [item];
      unfinished := unfinished + 1;
    }

    method Invalidate()
      modifies this
      ensures View() == Step(old(View()), Event.Invalidate)
    {
      generation := generation + 1;
      while queue != []
        invariant generation == old(generation) + 1 && idle == old(idle) && runner == old(runner)
        invariant handed == old(handed) && results == old(results)
        invariant unfinished - |queue| == old(unfinished - |queue|)
      {
        queue := queue[1..];
        unfinished := unfinished - 1;
      }
    }

    /** `_run` from a returned `get` to the call of the conversation. */
    method Resume()
      requires runner.Waiting? && queue != []
      modifies this
      ensures View() == Step(old(View()), Take)
    {
      var first := queue[0];
      queue := queue[1..];
      var samples := first.samples;
      ghost var all := old(queue);
      ghost var n := 1;
      assert all[..1][..0] == all[..0];
      while queue != []
        invariant 1 <= n <= |all| && queue == all[n..] && samples == Coalesced(all[..n], first.generation)
        invariant unfinished == old(unfinished) - (n - 1)
        invariant generation == old(generation) && idle == old(idle) && runner == old(runner)
        invariant handed == old(handed) && results == old(results)
      {
        var item := queue[0];
        queue := queue[1..];
        if item.generation == first.generation {
          samples := samples + item.samples;
        }
        unfinished := unfinished - 1;
        n := n + 1;
        assert all[..n][..n - 1] == all[..n - 1];
      }
      assert all[..n] == all;
      if first.generation != generation {
        unfinished := unfinished - 1;
        idle := true;
      } else {
        runner := Busy(first.generation);
        handed := handed + [Handed(samples, first.nowMs)];
      }
    }

    /** `_run` from the return of the call to the next `get`. */
    method Complete(result: Option<R>)
      requires runner.Busy?
      modifies this
      ensures View() == Step(old(View()), Finish(result))
    {
      if result.Some? && runner.generation == generation {
        results := results + [result.value];
      }
      runner := Waiting;
      unfinished := unfinished - 1;
      if queue == [] {
        idle := true;
      }
    }

    /** A cancellation, or a call that raises. */
    method Die()
      modifies this
      ensures View() == Step(old(View()), Event.Cancel)
      ensures old(runner.Busy?) ==> View() == Step(old(View()), Event.Fail)
    {
      if runner.Busy? {
        unfinished := unfinished - 1;
        if queue == [] {
          idle := true;
        }
      }
      runner := Dead;
    }
  }
}
