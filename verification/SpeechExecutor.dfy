/** Executing speech orders against in-flight synthesis (server/hot_path/speech_executor.py).
    Each stretch of code between two awaits is one atomic step, and any number of
    `execute_stream` calls may be suspended in their synthesis loop at the same time. */
module SpeechExecutor {
  import opened Wrappers

  datatype Mode = ReplaceCurrent | AppendAfterCurrent | Stop

  /** Orders compare by value, as the dataclass does. */
  datatype Order = Order(id: int, text: string, mode: Mode, priority: int)

  type bytes = seq<bv8>

  /** At least twelve bytes, `RIFF` in front and `WAVE` at offset eight. */
  predicate IsCompleteWav(chunk: bytes) {
    |chunk| >= 12 && chunk[..4] == [0x52, 0x49, 0x46, 0x46] && chunk[8..12] == [0x57, 0x41, 0x56, 0x45]
  }

  /** The marks are the ASCII letters of "RIFF" and "WAVE", four bytes between them. */
  lemma CompleteWavExactly(chunk: bytes)
    ensures IsCompleteWav(chunk) <==>
            && |chunk| >= 12
            && chunk[0] == 'R' as bv8 && chunk[1] == 'I' as bv8 && chunk[2] == 'F' as bv8 && chunk[3] == 'F' as bv8
            && chunk[8] == 'W' as bv8 && chunk[9] == 'A' as bv8 && chunk[10] == 'V' as bv8 && chunk[11] == 'E' as bv8
  {
    if |chunk| >= 12 {
      assert chunk[..4] == [chunk[0], chunk[1], chunk[2], chunk[3]];
      assert chunk[8..12] == [chunk[8], chunk[9], chunk[10], chunk[11]];
      Letters();
    }
  }

  lemma Letters()
    ensures 'R' as bv8 == 0x52 && 'I' as bv8 == 0x49 && 'F' as bv8 == 0x46
    ensures 'W' as bv8 == 0x57 && 'A' as bv8 == 0x41 && 'V' as bv8 == 0x56 && 'E' as bv8 == 0x45
  {
  }

  datatype AudioChunk = AudioChunk(requestId: int, chunk: bytes, isFinal: bool)

  /** The locals of a suspended `_synthesize_current`, and what its backend has yielded so far. */
  datatype Call = Call(order: Order, generation: nat, chunks: seq<bytes>, discarded: nat, yielded: seq<bytes>)

  datatype Report = Report(order: Order, audio: seq<AudioChunk>, discarded: nat, generation: nat)

  datatype State = State(
    currentOrder: Option<Order>,
    currentScore: real,
    appendQueue: seq<Order>,
    generation: nat,
    protectInflightReplace: bool,
    calls: map<nat, Call>,  // suspended calls, by call number
    ended: map<nat, Call>,  // calls whose backend was exhausted, as they then stood
    nextCall: nat)

  datatype Event =
    | Execute(order: Order)
    | Yield(call: nat, chunk: bytes)  // the backend of a suspended call yields
    | EndOfStream(call: nat)          // the backend of a suspended call is exhausted
    | Abandon(call: nat)              // the backend or the chunk callback raises, or the call is cancelled
    | StopPlayback
    | ReplaceGeneration
    | BeginExternalPlayback(order: Order, score: real)

  function Initial(protect: bool): State {
    State(None, 0.0, [], 0, protect, map[], map[], 0)
  }

  // ----- the steps -----

  /** An order that is only reported as queued. */
  predicate Defers(s: State, order: Order) {
    && s.currentOrder.Some?
    && (order.mode.AppendAfterCurrent? || (order.mode.ReplaceCurrent? && s.protectInflightReplace))
  }

  predicate Synthesizes(s: State, order: Order) { !order.mode.Stop? && !Defers(s, order) }

  function Stopped(s: State): State {
    s.(generation := s.generation + 1, currentOrder := None, currentScore := 0.0, appendQueue := [])
  }

  function Executed(s: State, order: Order): State {
    if order.mode.Stop? then Stopped(s)
    else if Defers(s, order) then
      if order.mode.AppendAfterCurrent? then s.(appendQueue := s.appendQueue + [order]) else s
    else
      var t := if order.mode.ReplaceCurrent? then s.(generation := s.generation + 1, appendQueue := []) else s;
      Started(t, order)
  }

  function Started(s: State, order: Order): State {
    s.(currentOrder := Some(order),
       calls := s.calls[s.nextCall := Call(order, s.generation, [], 0, [])],
       nextCall := s.nextCall + 1)
  }

  function Without(s: State, call: nat): State { s.(calls := s.calls - {call}) }

  function Yielded(s: State, call: nat, chunk: bytes): State
    requires call in s.calls
  {
    var c := s.calls[call].(yielded := s.calls[call].yielded + [chunk]);
    if c.generation != s.generation then s.(calls := s.calls[call := c.(discarded := c.discarded + 1)])
    else if !IsCompleteWav(chunk) then Without(s, call)
    else s.(calls := s.calls[call := c.(chunks := c.chunks + [chunk])])
  }

  /** The audio of a finished call: its chunks, the last one marked final. */
  function Audio(c: Call): seq<AudioChunk> {
    seq(|c.chunks|, i requires 0 <= i < |c.chunks| => AudioChunk(c.order.id, c.chunks[i], i == |c.chunks| - 1))
  }

  function ReportOf(c: Call): Report { Report(c.order, Audio(c), c.discarded, c.generation) }

  function Ended(s: State, call: nat): State
    requires call in s.calls
  {
    var c, t := s.calls[call], Without(s, call).(ended := s.ended[call := s.calls[call]]);
    if c.generation == s.generation && s.currentOrder == Some(c.order)
    then t.(currentOrder := None, currentScore := 0.0)
    else t
  }

  function Step(s: State, e: Event): State {
    match e
    case Execute(order) => Executed(s, order)
    case Yield(call, chunk) => if call in s.calls then Yielded(s, call, chunk) else s
    case EndOfStream(call) => if call in s.calls then Ended(s, call) else s
    case Abandon(call) => Without(s, call)
    case StopPlayback => Stopped(s)
    case ReplaceGeneration => s.(generation := s.generation + 1)
    case BeginExternalPlayback(order, score) => s.(currentOrder := Some(order), currentScore := score)
  }

  function Run(s: State, events: seq<Event>): State
    decreases |events|
  {
    if events == [] then s else Run(Step(s, events[0]), events[1..])
  }

  // ----- safety of every interleaving -----

  /** What one synthesis has done: it keeps a prefix of what its backend yielded and discards the
      rest, and discards nothing while its generation is current. */
  ghost predicate CallOk(generation: nat, c: Call) {
    && c.chunks <= c.yielded
    && |c.chunks| + c.discarded == |c.yielded|
    && (c.generation == generation ==> c.discarded == 0)
    && forall i :: 0 <= i < |c.chunks| ==> IsCompleteWav(c.chunks[i])
  }

  ghost predicate Current(s: State, id: nat) { id in s.calls && s.calls[id].generation == s.generation }

  ghost predicate CallsOk(s: State) {
    && (forall id :: id in s.calls ==>
          && id < s.nextCall && id !in s.ended
          && s.calls[id].generation <= s.generation
          && CallOk(s.generation, s.calls[id]))
    && (forall id :: id in s.ended ==>
          id < s.nextCall && s.ended[id].generation <= s.generation && CallOk(s.generation, s.ended[id]))
  }

  ghost predicate Inv(s: State) {
    && CallsOk(s)
    && (forall a, b :: Current(s, a) && Current(s, b) ==> a == b)
    && (forall id :: Current(s, id) ==> s.currentOrder.Some?)
  }

  lemma CallOkLater(c: Call, g: nat, h: nat)
    requires CallOk(g, c) && c.generation <= g <= h
    ensures CallOk(h, c)
  {
  }

  lemma NewCallOk(order: Order, g: nat)
    ensures CallOk(g, Call(order, g, [], 0, []))
  {
  }

  lemma YieldedCallOk(s: State, call: nat, chunk: bytes)
    requires CallsOk(s) && call in s.calls
    ensures CallsOk(Yielded(s, call, chunk))
  {
    hide IsCompleteWav;
    var t := Yielded(s, call, chunk);
    var c := s.calls[call];
    assert c.chunks + [chunk] <= c.yielded + [chunk] || c.chunks != c.yielded;
    if call in t.calls {
      assert CallOk(t.generation, t.calls[call]);
    }
  }

  /** Nothing but calls gone, a later generation or a new call number changes. */
  lemma OthersStayOk(s: State, t: State)
    requires CallsOk(s) && s.generation <= t.generation && s.nextCall <= t.nextCall && t.ended == s.ended
    requires forall id :: id in t.calls ==> id in s.calls && t.calls[id] == s.calls[id]
    ensures CallsOk(t)
  {
    hide CallOk;
    forall id | id in s.calls
      ensures CallOk(t.generation, s.calls[id])
    {
      CallOkLater(s.calls[id], s.generation, t.generation);
    }
    forall id | id in s.ended
      ensures CallOk(t.generation, s.ended[id])
    {
      CallOkLater(s.ended[id], s.generation, t.generation);
    }
  }

  lemma StartedCallOk(s: State, order: Order)
    requires CallsOk(s)
    ensures CallsOk(Started(s, order))
  {
    hide CallOk;
    NewCallOk(order, s.generation);
  }

  lemma SettledCallsOk(s: State, t: State)
    requires CallsOk(s) && t.calls == s.calls && t.ended == s.ended && t.nextCall == s.nextCall
    requires s.generation <= t.generation
    ensures CallsOk(t)
  {
    OthersStayOk(s, t);
  }

  lemma ExecutedCallsOk(s: State, order: Order)
    requires CallsOk(s)
    ensures CallsOk(Executed(s, order))
  {
    hide CallsOk, Started;
    if Synthesizes(s, order) {
      var t := if order.mode.ReplaceCurrent? then s.(generation := s.generation + 1, appendQueue := []) else s;
      SettledCallsOk(s, t);
      StartedCallOk(t, order);
    } else {
      SettledCallsOk(s, Executed(s, order));
    }
  }

  lemma EndedCallsOk(s: State, call: nat)
    requires CallsOk(s) && call in s.calls
    ensures CallsOk(Ended(s, call))
  {
    hide CallOk;
  }

  lemma StepKeepsCallsOk(s: State, e: Event)
    requires CallsOk(s)
    ensures CallsOk(Step(s, e))
  {
    hide CallsOk, Executed, Ended, Yielded;
    if e.Execute? {
      ExecutedCallsOk(s, e.order);
    } else if e.Yield? {
      if e.call in s.calls {
        YieldedCallOk(s, e.call, e.chunk);
      }
    } else if e.EndOfStream? {
      if e.call in s.calls {
        EndedCallsOk(s, e.call);
      }
    } else {
      OthersStayOk(s, Step(s, e));
    }
  }

  /** A call that is current after a step was current before it or has just been started by it. */
  lemma CurrentBefore(s: State, e: Event, id: nat)
    requires Inv(s) && Current(Step(s, e), id)
    ensures Current(s, id) || (e.Execute? && Synthesizes(s, e.order) && id == s.nextCall)
  {
    hide CallOk, IsCompleteWav;
  }

  lemma StepKeepsInv(s: State, e: Event)
    requires Inv(s)
    ensures Inv(Step(s, e))
  {
    hide CallOk, IsCompleteWav;
    var t := Step(s, e);
    StepKeepsCallsOk(s, e);
    forall id | Current(t, id)
      ensures Current(s, id) || (e.Execute? && Synthesizes(s, e.order) && id == s.nextCall)
      ensures e.Execute? && Synthesizes(s, e.order) && Current(s, id) ==> id == s.nextCall
    {
      CurrentBefore(s, e, id);
      if e.Execute? && Synthesizes(s, e.order) {
        StartedAlone(s, e, id);
      }
    }
    if e.EndOfStream? && e.call in s.calls {
      assert Current(s, e.call) ==> forall id :: Current(t, id) ==> id != e.call;
    }
  }

  /** When a synthesis starts, no other one stays current. */
  lemma StartedAlone(s: State, e: Event, id: nat)
    requires Inv(s) && Current(Step(s, e), id) && e.Execute? && Synthesizes(s, e.order)
    ensures id == s.nextCall
  {
    hide CallOk, IsCompleteWav;
    assert id in s.calls ==> s.calls[id].generation <= s.generation && (Current(s, id) ==> s.currentOrder.Some?);
  }

  lemma {:induction false} RunKeepsInv(s: State, events: seq<Event>)
    requires Inv(s)
    ensures Inv(Run(s, events))
    decreases |events|
  {
    if events != [] {
      StepKeepsInv(s, events[0]);
      RunKeepsInv(Step(s, events[0]), events[1..]);
    }
  }

  /** In every interleaving at most one suspended synthesis has the current generation, some order
      is current while one does, and each keeps a prefix of what its backend yielded. */
  lemma EveryRunIsSafe(protect: bool, events: seq<Event>)
    ensures Inv(Run(Initial(protect), events))
  {
    RunKeepsInv(Initial(protect), events);
  }

  /** What a finished call has returned, in every interleaving: its audio is a prefix of what its backend
      yielded, the last chunk alone marked final, and audio plus discarded is the total. */
  lemma EveryReportIsPrefix(protect: bool, events: seq<Event>, id: nat)
    requires id in Run(Initial(protect), events).ended
    ensures var c := Run(Initial(protect), events).ended[id];
            var r := ReportOf(c);
            && |r.audio| + r.discarded == |c.yielded|
            && forall i :: 0 <= i < |r.audio| ==>
                 && r.audio[i] == AudioChunk(c.order.id, c.yielded[i], i == |r.audio| - 1)
                 && IsCompleteWav(r.audio[i].chunk)
  {
    EveryRunIsSafe(protect, events);
    hide Run, IsCompleteWav;
    var s := Run(Initial(protect), events);
    assert CallOk(s.generation, s.ended[id]);
    var c := s.ended[id];
    assert forall i :: 0 <= i < |c.chunks| ==> c.chunks[i] == c.yielded[i];
  }

  // ----- nothing is kept after a stop or a replace -----

  predicate EndsGeneration(s: State, e: Event) {
    || e.StopPlayback? || e.ReplaceGeneration?
    || (e.Execute? && (e.order.mode.Stop? || (e.order.mode.ReplaceCurrent? && !Defers(s, e.order))))
  }

  /** The generation counts exactly these: a stop, a bare change, and an executed replace. */
  lemma GenerationCounts(s: State, e: Event)
    ensures Step(s, e).generation == s.generation + if EndsGeneration(s, e) then 1 else 0
  {
  }

  lemma {:induction false} ScoreStaysZero(s: State, events: seq<Event>)
    requires s.currentOrder.None? ==> s.currentScore == 0.0
    ensures var t := Run(s, events); t.currentOrder.None? ==> t.currentScore == 0.0
    decreases |events|
  {
    if events != [] {
      ScoreStaysZero(Step(s, events[0]), events[1..]);
    }
  }

  /** In every run the score is zero while no order is current. */
  lemma NothingScoresNothing(protect: bool, events: seq<Event>)
    ensures var t := Run(Initial(protect), events); t.currentOrder.None? ==> t.currentScore == 0.0
  {
    ScoreStaysZero(Initial(protect), events);
  }

  /** A call whose generation is over keeps what it has and discards whatever still arrives. */
  ghost predicate Frozen(before: Call, after: Call) {
    && after.order == before.order
    && after.generation == before.generation
    && after.chunks == before.chunks
    && before.yielded <= after.yielded
    && after.discarded - before.discarded == |after.yielded| - |before.yielded|
  }

  /** The report of a call that had only stale chunks left to come. */
  ghost predicate ReportsOnly(c: Call, r: Report) {
    r.order == c.order && r.audio == Audio(c) && r.generation == c.generation && c.discarded <= r.discarded
  }

  lemma StaleStep(s: State, id: nat, e: Event)
    requires id < s.nextCall && id in s.calls && s.calls[id].generation < s.generation && id !in s.ended
    ensures var t := Step(s, e);
            && id < t.nextCall
            && (id in t.calls ==>
                  id !in t.ended && Frozen(s.calls[id], t.calls[id]) && t.calls[id].generation < t.generation)
            && (id in t.ended ==> t.ended[id] == s.calls[id])
  {
    hide IsCompleteWav;
  }

  lemma {:induction false} StaleCallsAreFrozen(s: State, id: nat, events: seq<Event>)
    requires id < s.nextCall && id in s.calls && s.calls[id].generation < s.generation
    requires id !in s.ended
    ensures var t := Run(s, events);
            && (id in t.calls ==> Frozen(s.calls[id], t.calls[id]))
            && (id in t.ended ==> ReportsOnly(s.calls[id], ReportOf(t.ended[id])))
    decreases |events|
  {
    if events != [] {
      hide Step;
      var t := Step(s, events[0]);
      StaleStep(s, id, events[0]);
      if id in t.calls {
        StaleCallsAreFrozen(t, id, events[1..]);
      } else {
        GoneStaysGone(t, id, events[1..]);
      }
    }
  }

  lemma GoneStep(s: State, id: nat, e: Event)
    requires id < s.nextCall && id !in s.calls
    ensures var t := Step(s, e);
            && id < t.nextCall && id !in t.calls && (id in t.ended <==> id in s.ended)
            && (id in t.ended ==> t.ended[id] == s.ended[id])
  {
    hide IsCompleteWav;
  }

  lemma {:induction false} GoneStaysGone(s: State, id: nat, events: seq<Event>)
    requires id < s.nextCall && id !in s.calls
    ensures var t := Run(s, events);
            id !in t.calls && (id in t.ended <==> id in s.ended)
            && (id in t.ended ==> t.ended[id] == s.ended[id])
    decreases |events|
  {
    if events != [] {
      hide Step;
      GoneStep(s, id, events[0]);
      GoneStaysGone(Step(s, events[0]), id, events[1..]);
    }
  }

  /** Once a stop or a replace has been processed, no call suspended before it keeps another chunk,
      however the rest of the run goes, and its report holds exactly what it had kept by then. */
  lemma NothingKeptAfterStop(protect: bool, before: seq<Event>, e: Event, after: seq<Event>, id: nat)
    requires EndsGeneration(Run(Initial(protect), before), e)
    requires id in Run(Initial(protect), before).calls
    ensures var s := Run(Initial(protect), before);
            var t := Run(Step(s, e), after);
            && (id in t.calls ==> Frozen(s.calls[id], t.calls[id]))
            && (id in t.ended ==> ReportsOnly(s.calls[id], ReportOf(t.ended[id])))
  {
    hide IsCompleteWav;
    var s := Run(Initial(protect), before);
    EveryRunIsSafe(protect, before);
    StaleCallsAreFrozen(Step(s, e), id, after);
  }

  // ----- the executor can wedge -----

  /** An order is current and nothing is being synthesised at the current generation. */
  ghost predicate Wedged(s: State) { s.currentOrder.Some? && forall id :: !Current(s, id) }

  /** The steps that leave an order current with nothing in flight: the call in flight raises, is cancelled,
      ends while another order is current or loses its generation, or playback begins with nothing current. */
  ghost predicate Wedges(s: State, e: Event) {
    || (e.Yield? && Current(s, e.call) && !IsCompleteWav(e.chunk))
    || (e.Abandon? && Current(s, e.call))
    || (e.EndOfStream? && Current(s, e.call) && s.currentOrder != Some(s.calls[e.call].order))
    || (e.ReplaceGeneration? && s.currentOrder.Some?)
    || (e.BeginExternalPlayback? && s.currentOrder.None?)
  }

  predicate IsStop(e: Event) { e.StopPlayback? || (e.Execute? && e.order.mode.Stop?) }

  /** The steps that get a wedged executor going again. */
  predicate Revives(s: State, e: Event) {
    IsStop(e) || (e.Execute? && e.order.mode.ReplaceCurrent? && !s.protectInflightReplace)
  }

  lemma OnlyCurrent(s: State, a: nat, b: nat)
    requires Inv(s) && Current(s, a) && Current(s, b)
    ensures a == b
  {
  }

  lemma SomeCurrent(s: State) returns (call: nat)
    requires s.currentOrder.Some? && !Wedged(s)
    ensures Current(s, call)
  {
    call :| Current(s, call);
  }

  lemma NothingCurrent(s: State)
    requires Inv(s) && s.currentOrder.None?
    ensures forall id :: !Current(s, id)
  {
  }

  /** A call is current after a step about it exactly when the step leaves it in place. */
  lemma CurrentAfter(s: State, e: Event, id: nat)
    requires Inv(s) && !e.Execute?
    ensures Current(Step(s, e), id) <==>
              && Current(s, id)
              && !e.StopPlayback? && !e.ReplaceGeneration?
              && !(e.Abandon? && e.call == id)
              && !(e.EndOfStream? && e.call == id)
              && !(e.Yield? && e.call == id && !IsCompleteWav(e.chunk))
  {
    hide IsCompleteWav, CallOk;
  }

  lemma ExecuteNeverWedges(s: State, order: Order)
    requires Inv(s) && !Wedged(s)
    ensures !Wedged(Step(s, Execute(order)))
  {
    hide IsCompleteWav, CallOk;
    var t := Step(s, Execute(order));
    if Defers(s, order) {
      var call := SomeCurrent(s);
      assert Current(t, call);
    } else if !order.mode.Stop? {
      assert Current(t, s.nextCall);
    }
  }

  /** The order that is current after a step. */
  lemma OrderAfter(s: State, e: Event)
    requires !e.Execute?
    ensures Step(s, e).currentOrder ==
              if e.StopPlayback? then None
              else if e.BeginExternalPlayback? then Some(e.order)
              else if e.EndOfStream? && Current(s, e.call) && s.currentOrder == Some(s.calls[e.call].order) then None
              else s.currentOrder
  {
    hide IsCompleteWav;
  }

  /** Exactly these steps wedge an executor that is not wedged, protected or not. */
  lemma WedgesExactly(s: State, e: Event)
    requires Inv(s) && !Wedged(s)
    ensures Wedged(Step(s, e)) <==> Wedges(s, e)
  {
    hide Step, Inv, IsCompleteWav;
    if e.Execute? {
      ExecuteNeverWedges(s, e.order);
    } else {
      var t := Step(s, e);
      OrderAfter(s, e);
      forall id ensures Current(t, id) ==> Current(s, id) {
        CurrentAfter(s, e, id);
      }
      if s.currentOrder.None? {
        NothingCurrent(s);
      } else {
        var call := SomeCurrent(s);
        CurrentAfter(s, e, call);
        forall id ensures Current(s, id) ==> id == call {
          if Current(s, id) {
            OnlyCurrent(s, id, call);
          }
        }
      }
    }
  }

  /** Exactly these steps get a wedged executor going again: with in-flight protection, a stop alone. */
  lemma RevivesExactly(s: State, e: Event)
    requires Inv(s) && Wedged(s)
    ensures Wedged(Step(s, e)) <==> !Revives(s, e)
    ensures Wedged(Step(s, e)) ==> Step(s, e).nextCall == s.nextCall
  {
    hide IsCompleteWav, CallOk;
    var t := Step(s, e);
    if e.Execute? {
      if e.order.mode.ReplaceCurrent? && !s.protectInflightReplace {
        assert Current(t, s.nextCall);
      } else {
        assert !e.order.mode.Stop? ==> Defers(s, e.order);
        assert forall id :: Current(t, id) ==> Current(s, id);
      }
    } else {
      OrderAfter(s, e);
      forall id ensures !Current(t, id) {
        CurrentAfter(s, e, id);
      }
    }
  }

  /** The state before event `k` of a run. */
  function Before(protect: bool, events: seq<Event>, k: nat): State
    requires k <= |events|
  {
    Run(Initial(protect), events[..k])
  }

  lemma {:induction false} RunSnoc(s: State, events: seq<Event>, e: Event)
    ensures Run(s, events + [e]) == Step(Run(s, events), e)
    decreases |events|
  {
    hide Step;
    if events == [] {
      assert [e][1..] == [] && events + [e] == [e];
    } else {
      assert (events + [e])[1..] == events[1..] + [e];
      RunSnoc(Step(s, events[0]), events[1..], e);
    }
  }

  lemma BeforeNext(protect: bool, events: seq<Event>, k: nat)
    requires k < |events|
    ensures Before(protect, events, k + 1) == Step(Before(protect, events, k), events[k])
    ensures Inv(Before(protect, events, k))
  {
    hide Run, Step, Inv;
    assert events[..k + 1] == events[..k] + [events[k]];
    RunSnoc(Initial(protect), events[..k], events[k]);
    EveryRunIsSafe(protect, events[..k]);
  }

  /** Some event before `n` has set a flag and none since has reset it. */
  ghost predicate LastSet(sets: nat -> bool, resets: nat -> bool, n: nat) {
    exists k: nat :: k < n && sets(k) && forall j: nat :: k < j < n ==> !resets(j)
  }

  lemma {:induction false} LastSetExactly(flag: nat -> bool, sets: nat -> bool, resets: nat -> bool, n: nat)
    requires !flag(0)
    requires forall k: nat :: k < n ==> (sets(k) ==> !flag(k))
    requires forall k: nat :: k < n ==> (flag(k + 1) <==> if flag(k) then !resets(k) else sets(k))
    ensures flag(n) <==> LastSet(sets, resets, n)
  {
    if n > 0 {
      LastSetExactly(flag, sets, resets, n - 1);
      if flag(n - 1) {
        var k: nat :| k < n - 1 && sets(k) && forall j: nat :: k < j < n - 1 ==> !resets(j);
        assert flag(n) ==> forall j: nat :: k < j < n ==> !resets(j);
      }
    }
  }

  /** Event `k` wedges the executor. */
  ghost predicate WedgesAt(protect: bool, events: seq<Event>, k: nat) {
    k < |events| && !Wedged(Before(protect, events, k)) && Wedges(Before(protect, events, k), events[k])
  }

  predicate RevivesAt(protect: bool, events: seq<Event>, k: nat) {
    k < |events| && Revives(Before(protect, events, k), events[k])
  }

  lemma WedgedEnds(protect: bool, events: seq<Event>)
    ensures !Wedged(Before(protect, events, 0)) && Before(protect, events, |events|) == Run(Initial(protect), events)
  {
    assert events[..|events|] == events && events[..0] == [];
    hide Step;
  }

  /** A run ends wedged if and only if some step of it wedged the executor and nothing since revived it. */
  lemma WedgedRunsExactly(protect: bool, events: seq<Event>)
    ensures Wedged(Run(Initial(protect), events))
       <==> LastSet((k: nat) => WedgesAt(protect, events, k), (k: nat) => RevivesAt(protect, events, k), |events|)
  {
    hide Wedged, Wedges, Revives, Inv, Step, Run, LastSet;
    var flag: nat -> bool := (k: nat) => k <= |events| && Wedged(Before(protect, events, k));
    WedgedEnds(protect, events);
    forall k: nat | k < |events|
      ensures flag(k + 1) <==> if flag(k) then !RevivesAt(protect, events, k) else WedgesAt(protect, events, k)
    {
      BeforeNext(protect, events, k);
      if flag(k) {
        RevivesExactly(Before(protect, events, k), events[k]);
      } else {
        WedgesExactly(Before(protect, events, k), events[k]);
      }
    }
    LastSetExactly(flag, (k: nat) => WedgesAt(protect, events, k), (k: nat) => RevivesAt(protect, events, k), |events|);
  }

  // ----- playback outside the executor, and lost synthesis -----

  /** Who set the order that is current. */
  datatype Owner = Nobody | Playback | Synthesis(call: nat)

  function NextOwner(s: State, o: Owner, e: Event): Owner {
    match e
    case Execute(order) =>
      if order.mode.Stop? then Nobody else if Defers(s, order) then o else Synthesis(s.nextCall)
    case Yield(call, chunk) => o
    case EndOfStream(call) =>
      if call in s.calls && s.calls[call].generation == s.generation && s.currentOrder == Some(s.calls[call].order)
      then Nobody else o
    case Abandon(call) => o
    case StopPlayback => Nobody
    case ReplaceGeneration => o
    case BeginExternalPlayback(order, score) => Playback
  }

  function OwnerAt(protect: bool, events: seq<Event>, n: nat): Owner
    requires n <= |events|
  {
    if n == 0 then Nobody
    else NextOwner(Before(protect, events, n - 1), OwnerAt(protect, events, n - 1), events[n - 1])
  }

  ghost predicate OwnerOk(s: State, o: Owner) {
    && (s.currentOrder.None? <==> o.Nobody?)
    && (o.Synthesis? ==> o.call < s.nextCall)
    && (forall id :: Current(s, id) ==> o == Playback || o == Synthesis(id))
    && (o.Synthesis? && Current(s, o.call) ==> s.currentOrder == Some(s.calls[o.call].order))
  }

  /** Wedged by playback that goes on outside the executor. */
  ghost predicate PlaysOutside(s: State, o: Owner) { Wedged(s) && o.Playback? }

  /** Wedged by an order whose synthesis is gone: nothing plays it and nothing will clear it. */
  ghost predicate Lost(s: State, o: Owner) { Wedged(s) && o.Synthesis? }

  /** The steps that lose the synthesis of the current order. */
  ghost predicate Loses(s: State, o: Owner, e: Event) {
    && o.Synthesis? && Current(s, o.call)
    && ((e.Yield? && e.call == o.call && !IsCompleteWav(e.chunk))
        || (e.Abandon? && e.call == o.call)
        || e.ReplaceGeneration?)
  }

  predicate EndsLoss(s: State, e: Event) { Revives(s, e) || e.BeginExternalPlayback? }

  lemma ExecuteKeepsOwner(s: State, o: Owner, e: Event)
    requires Inv(s) && OwnerOk(s, o) && e.Execute?
    ensures OwnerOk(Step(s, e), NextOwner(s, o, e))
  {
    hide IsCompleteWav, CallOk;
    var t, p := Step(s, e), NextOwner(s, o, e);
    forall id | Current(t, id)
      ensures p == Playback || p == Synthesis(id)
    {
      CurrentBefore(s, e, id);
      if Synthesizes(s, e.order) {
        StartedAlone(s, e, id);
      }
    }
  }

  lemma StepKeepsOwner(s: State, o: Owner, e: Event)
    requires Inv(s) && OwnerOk(s, o)
    ensures OwnerOk(Step(s, e), NextOwner(s, o, e))
  {
    hide IsCompleteWav, CallOk;
    var t := Step(s, e);
    if e.Execute? {
      hide Step, NextOwner, OwnerOk, Inv;
      ExecuteKeepsOwner(s, o, e);
    } else {
      OrderAfter(s, e);
      forall id
        ensures Current(t, id) ==> Current(s, id) && t.calls[id].order == s.calls[id].order
      {
        CurrentAfter(s, e, id);
      }
      if e.EndOfStream? && Current(s, e.call) {
        forall id ensures !Current(t, id) {
          CurrentAfter(s, e, id);
          if Current(s, id) {
            OnlyCurrent(s, id, e.call);
          }
        }
      }
    }
  }

  /** Exactly these steps lose a synthesis, and exactly a reviving step or playback outside ends the loss. */
  lemma LosesExactly(s: State, o: Owner, e: Event)
    requires Inv(s) && OwnerOk(s, o)
    ensures Lost(Step(s, e), NextOwner(s, o, e)) <==> if Lost(s, o) then !EndsLoss(s, e) else Loses(s, o, e)
  {
    hide Inv, Step, Defers, IsCompleteWav;
    StepKeepsOwner(s, o, e);
    if Wedged(s) {
      RevivesExactly(s, e);
      if e.Execute? && !Revives(s, e) {
        WedgedDefers(s, e.order);
      }
    } else {
      WedgesExactly(s, e);
      if s.currentOrder.Some? {
        var call := SomeCurrent(s);
        forall id ensures Current(s, id) ==> id == call {
          if Current(s, id) {
            OnlyCurrent(s, id, call);
          }
        }
      }
    }
  }

  lemma WedgedDefers(s: State, order: Order)
    requires Wedged(s) && !Revives(s, Execute(order))
    ensures Defers(s, order)
  {
  }

  /** In every run an order is current exactly while playback outside or a synthesis owns it, and a run ends with
      a lost synthesis if and only if some step lost it and nothing since ended the loss. */
  lemma LostRunsExactly(protect: bool, events: seq<Event>)
    ensures OwnerOk(Run(Initial(protect), events), OwnerAt(protect, events, |events|))
    ensures var s, o := Run(Initial(protect), events), OwnerAt(protect, events, |events|);
            Wedged(s) <==> PlaysOutside(s, o) || Lost(s, o)
    ensures Lost(Run(Initial(protect), events), OwnerAt(protect, events, |events|))
       <==> LastSet((k: nat) => LosesAt(protect, events, k), (k: nat) => EndsLossAt(protect, events, k), |events|)
  {
    hide LastSet, Lost, Inv, Step, Run, OwnerAt, OwnerOk, Loses, EndsLoss, NextOwner, Wedged, PlaysOutside, Before;
    var flag: nat -> bool :=
      (k: nat) => k <= |events| && Lost(Before(protect, events, k), OwnerAt(protect, events, k));
    WholeBefore(protect, events);
    OwnerKept(protect, events, |events|);
    OutsideOrLost(Before(protect, events, |events|), OwnerAt(protect, events, |events|));
    NobodyLost(protect, events);
    forall k: nat | k < |events|
      ensures flag(k + 1) <==> if flag(k) then !EndsLossAt(protect, events, k) else LosesAt(protect, events, k)
    {
      BeforeNext(protect, events, k);
      OwnerKept(protect, events, k);
      OwnerNext(protect, events, k);
      LosesExactly(Before(protect, events, k), OwnerAt(protect, events, k), events[k]);
    }
    LastSetExactly(flag, (k: nat) => LosesAt(protect, events, k), (k: nat) => EndsLossAt(protect, events, k), |events|);
  }

  lemma WholeBefore(protect: bool, events: seq<Event>)
    ensures Before(protect, events, |events|) == Run(Initial(protect), events)
  {
    assert events[..|events|] == events;
    hide Run;
  }

  lemma OutsideOrLost(s: State, o: Owner)
    requires OwnerOk(s, o)
    ensures Wedged(s) <==> PlaysOutside(s, o) || Lost(s, o)
  {
  }

  ghost predicate LosesAt(protect: bool, events: seq<Event>, k: nat) {
    && k < |events|
    && !Lost(Before(protect, events, k), OwnerAt(protect, events, k))
    && Loses(Before(protect, events, k), OwnerAt(protect, events, k), events[k])
  }

  predicate EndsLossAt(protect: bool, events: seq<Event>, k: nat) {
    k < |events| && EndsLoss(Before(protect, events, k), events[k])
  }

  lemma NobodyLost(protect: bool, events: seq<Event>)
    ensures !Lost(Before(protect, events, 0), OwnerAt(protect, events, 0))
  {
  }

  lemma OwnerNext(protect: bool, events: seq<Event>, k: nat)
    requires k < |events|
    ensures OwnerAt(protect, events, k + 1)
         == NextOwner(Before(protect, events, k), OwnerAt(protect, events, k), events[k])
  {
  }

  lemma {:induction false} OwnerKept(protect: bool, events: seq<Event>, n: nat)
    requires n <= |events|
    ensures OwnerOk(Before(protect, events, n), OwnerAt(protect, events, n))
  {
    if n > 0 {
      hide Before, Step, Inv, OwnerOk, NextOwner;
      OwnerKept(protect, events, n - 1);
      BeforeNext(protect, events, n - 1);
      StepKeepsOwner(Before(protect, events, n - 1), OwnerAt(protect, events, n - 1), events[n - 1]);
    }
  }

  /** A run that loses its synthesis: an order is executed and its call is cancelled. Until a stop or playback
      outside, a protected executor then answers every further order that it is queued. */
  lemma AbandonedOrderIsLost(order: Order)
    requires !order.mode.Stop?
    ensures var events := [Execute(order), Abandon(0)];
            var s := Run(Initial(true), events);
            && Lost(s, OwnerAt(true, events, 2)) && s.currentOrder == Some(order) && s.calls == map[]
            && forall next: Order :: !next.mode.Stop? ==> Defers(s, next)
  {
    var events := [Execute(order), Abandon(0)];
    BeforeNext(true, events, 0);
    BeforeNext(true, events, 1);
    OwnerNext(true, events, 0);
    OwnerNext(true, events, 1);
    assert events[..2] == events && events[..0] == [];
    assert Before(true, events, 0) == Initial(true);
    hide Run, OwnerAt, IsCompleteWav;
    var s := Before(true, events, 1);
    assert s == Executed(Initial(true), order) && s.currentOrder == Some(order);
    assert Before(true, events, 2) == Without(s, 0);
  }

  // ----- what waits while the executor is wedged -----

  function Waiting(s: State, events: seq<Event>): seq<Order> {
    if events == [] then []
    else
      var n := |events| - 1;
      Waiting(s, events[..n])
      + if events[n].Execute? && events[n].order.mode.AppendAfterCurrent? then [events[n].order] else []
  }

  /** While nothing revives a wedged executor it starts no synthesis: append orders pile up in the queue, all of
      them and in order, and with protection replace orders vanish. Without protection the next replace revives it
      and empties the queue, so append orders that waited are never synthesised. */
  lemma {:induction false} WedgedUntilRevived(s: State, events: seq<Event>)
    requires Inv(s) && Wedged(s)
    requires forall i :: 0 <= i < |events| ==> !Revives(s, events[i])
    ensures var t := Run(s, events);
            && Inv(t) && Wedged(t) && t.nextCall == s.nextCall && t.protectInflightReplace == s.protectInflightReplace
            && t.appendQueue == s.appendQueue + Waiting(s, events)
    decreases |events|
  {
    if events == [] {
      assert s.appendQueue + [] == s.appendQueue;
    } else {
      var n := |events| - 1;
      WedgedUntilRevived(s, events[..n]);
      hide Inv, Wedged, CallOk;
      var t := Run(s, events[..n]);
      assert events == events[..n] + [events[n]];
      RunSnoc(s, events[..n], events[n]);
      StepKeepsInv(t, events[n]);
      RevivesExactly(t, events[n]);
      hide Run;
      QueueWhileWedged(t, events[n]);
    }
  }

  lemma QueueWhileWedged(s: State, e: Event)
    requires Wedged(s) && !Revives(s, e)
    ensures Step(s, e).protectInflightReplace == s.protectInflightReplace
    ensures Step(s, e).appendQueue ==
              s.appendQueue + if e.Execute? && e.order.mode.AppendAfterCurrent? then [e.order] else []
  {
    hide IsCompleteWav;
    assert s.appendQueue + [] == s.appendQueue;
  }

  /** Reviving empties the queue without starting what waited in it. */
  lemma RevivingForgetsTheQueue(s: State, e: Event)
    requires Inv(s) && Revives(s, e)
    ensures var t := Step(s, e);
            && t.appendQueue == []
            && forall id :: id in t.calls && id !in s.calls ==> e.Execute? && t.calls[id].order == e.order
  {
    hide IsCompleteWav, CallOk;
  }

  // ----- the executor object -----

  /** How `execute_stream` answers before its first await. */
  datatype Reply = HasStopped(generation: nat) | Queued | Synthesizing(call: nat)

  class SpeechOrderExecutor {
    var currentOrder: Option<Order>
    var currentScore: real
    var appendQueue: seq<Order>
    var currentGeneration: nat
    const protectInflightReplace: bool
    var calls: map<nat, Call>
    var ended: map<nat, Call>
    var nextCall: nat

    function View(): State
      reads this
    {
      State(currentOrder, currentScore, appendQueue, currentGeneration, protectInflightReplace, calls, ended, nextCall)
    }

    constructor (protect: bool)
      ensures View() == Initial(protect)
    {
      currentOrder, currentScore, appendQueue, currentGeneration := None, 0.0, [], 0;
      protectInflightReplace, calls, ended, nextCall := protect, map[], map[], 0;
    }

    method ReplaceGeneration()
      modifies this
      ensures View() == Step(old(View()), Event.ReplaceGeneration)
    {
      currentGeneration := currentGeneration + 1;
    }

    method StopPlayback()
      modifies this
      ensures View() == Step(old(View()), Event.StopPlayback)
    {
      ReplaceGeneration();
      currentOrder := None;
      currentScore := 0.0;
      appendQueue := [];
    }

    method BeginExternalPlayback(order: Order, score: real)
      modifies this
      ensures View() == Step(old(View()), Event.BeginExternalPlayback(order, score))
    {
      currentOrder := Some(order);
      currentScore := score;
    }

    /** `execute_stream` up to its first await. */
    method ExecuteStream(order: Order) returns (reply: Reply)
      modifies this
      ensures View() == Step(old(View()), Execute(order))
      ensures reply.HasStopped? <==> order.mode.Stop?
      ensures reply.HasStopped? ==> reply.generation == old(currentGeneration) + 1
      ensures reply.Synthesizing? <==> Synthesizes(old(View()), order)
      ensures reply.Synthesizing? ==>
                reply.call == old(nextCall) && reply.call in calls
                && calls[reply.call] == Call(order, currentGeneration, [], 0, [])
    {
      if order.mode.Stop? {
        StopPlayback();
        return HasStopped(currentGeneration);
      }
      if order.mode.AppendAfterCurrent? && currentOrder.Some? {
        appendQueue := appendQueue + [order];
        return Queued;
      }
      if order.mode.ReplaceCurrent? && protectInflightReplace && currentOrder.Some? {
        return Queued;
      }
      if order.mode.ReplaceCurrent? {
        ReplaceGeneration();
        appendQueue := [];
      }
      reply := Synthesizing(nextCall);
      currentOrder := Some(order);
      calls := calls[nextCall := Call(order, currentGeneration, [], 0, [])];
      nextCall := nextCall + 1;
    }

    /** One turn of the synthesis loop; returns the chunk handed to the callback, if any. */
    method OnYield(call: nat, chunk: bytes) returns (emitted: Option<AudioChunk>, raised: bool)
      requires call in calls
      modifies this
      ensures View() == Step(old(View()), Yield(call, chunk))
      ensures raised <==> old(calls[call].generation == currentGeneration) && !IsCompleteWav(chunk)
      ensures emitted == if old(calls[call].generation == currentGeneration) && !raised
                         then Some(AudioChunk(old(calls[call]).order.id, chunk, false)) else None
    {
      var c := calls[call];
      c := c.(yielded := c.yielded + [chunk]);
      if c.generation != currentGeneration {
        calls := calls[call := c.(discarded := c.discarded + 1)];
        return None, false;
      }
      if !IsCompleteWav(chunk) {
        calls := calls - {call};
        return None, true;
      }
      calls := calls[call := c.(chunks := c.chunks + [chunk])];
      return Some(AudioChunk(c.order.id, chunk, false)), false;
    }

    /** The end of `_synthesize_current`. */
    method OnEndOfStream(call: nat) returns (report: Report)
      requires call in calls
      modifies this
      ensures View() == Step(old(View()), EndOfStream(call))
      ensures report == ReportOf(old(calls[call]))
    {
      var c := calls[call];
      report := ReportOf(c);
      calls, ended := calls - {call}, ended[call := c];
      if c.generation == currentGeneration && currentOrder == Some(c.order) {
        currentOrder := None;
        currentScore := 0.0;
      }
    }
  }
}
