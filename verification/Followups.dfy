/** The follow-up order lane of the conversation core (server/tomoko/conversation.py) and its poller
    (server/hot_path/app.py): background tasks, cancellation and polling. Each stretch between two
    awaits is one step; a cancelled task only unwinds, as asyncio throws into it where it waits. */
module Followups {
  import opened Wrappers
  import opened Text

  datatype Source = FromTask(id: nat) | Calendar

  datatype Order = Order(text: string, source: Source)

  datatype Status = Running | Unwinding | Ended

  datatype State = State(
    continuation: Option<nat>,  // `_continuation_task`
    sense: Option<nat>,         // `_sense_task`
    pending: seq<Order>,        // `_pending_followup_orders`
    tasks: seq<Status>)         // every background task so far, by number

  datatype Event =
    | CancelOnly                    // a STOP order, or a partial acknowledgement
    | StartContinuation             // a final reply: cancel, then continue it in the background
    | StartSense                    // a sense request: cancel, then run it in the background
    | AppendCalendar(text: string)  // a reconciled final still announces the calendar
    | Returns(id: nat, text: string)  // a running task comes to its end with this text
    | EndsEmpty(id: nat)                // a task ends without a text: it raises, has nothing, or has unwound
    | Poll

  predicate IsTurn(e: Event) { e.CancelOnly? || e.StartContinuation? || e.StartSense? || e.AppendCalendar? }

  const INITIAL := State(None, None, [], [])

  // ----- the steps -----

  predicate Live(s: State, task: Option<nat>) {
    task.Some? && task.value < |s.tasks| && s.tasks[task.value] != Ended
  }

  function CancelTask(tasks: seq<Status>, task: Option<nat>): seq<Status> {
    if task.Some? && task.value < |tasks| && tasks[task.value] != Ended then tasks[task.value := Unwinding] else tasks
  }

  function Cancelled(s: State): State {
    State(None, None, [], CancelTask(CancelTask(s.tasks, s.continuation), s.sense))
  }

  predicate IsRunning(s: State, id: nat) { id < |s.tasks| && s.tasks[id] == Running }

  function Returned(s: State, id: nat, text: string): State
    requires id < |s.tasks|
  {
    var t := s.(tasks := s.tasks[id := Ended]);
    if Strip(text) == "" then t else t.(pending := t.pending + [Order(Strip(text), FromTask(id))])
  }

  /** What a poll answers besides the orders: is a task still at work? */
  predicate AtWork(s: State) { Live(s, s.continuation) || Live(s, s.sense) }

  predicate HasWork(s: State) { s.pending != [] || AtWork(s) }

  function Step(s: State, e: Event): State {
    match e
    case CancelOnly => Cancelled(s)
    case StartContinuation => var t := Cancelled(s); t.(continuation := Some(|t.tasks|), tasks := t.tasks + [Running])
    case StartSense => var t := Cancelled(s); t.(sense := Some(|t.tasks|), tasks := t.tasks + [Running])
    case AppendCalendar(text) => s.(pending := s.pending + [Order(text, Calendar)])
    case Returns(id, text) => if IsRunning(s, id) then Returned(s, id, text) else s
    case EndsEmpty(id) => if id < |s.tasks| then s.(tasks := s.tasks[id := Ended]) else s
    case Poll => s.(pending := [])
  }

  // ----- the lane together with what has become of every order -----

  datatype Outcome = Polled(orders: seq<Order>, more: bool) | Cleared(orders: seq<Order>)

  datatype World = World(core: State, appended: seq<Order>, outcomes: seq<Outcome>)

  const START := World(INITIAL, [], [])

  function NewOrders(s: State, e: Event): seq<Order> {
    match e
    case AppendCalendar(text) => [Order(text, Calendar)]
    case Returns(id, text) => if IsRunning(s, id) && Strip(text) != "" then [Order(Strip(text), FromTask(id))] else []
    case CancelOnly => []
    case StartContinuation => []
    case StartSense => []
    case EndsEmpty(id) => []
    case Poll => []
  }

  function NewOutcomes(s: State, e: Event): seq<Outcome> {
    if e.CancelOnly? || e.StartContinuation? || e.StartSense? then [Cleared(s.pending)]
    else if e.Poll? then [Polled(s.pending, AtWork(s))]
    else []
  }

  function Next(w: World, e: Event): World {
    World(Step(w.core, e), w.appended + NewOrders(w.core, e), w.outcomes + NewOutcomes(w.core, e))
  }

  function Run(w: World, events: seq<Event>): World
    decreases |events|
  {
    if events == [] then w else Run(Next(w, events[0]), events[1..])
  }

  /** A run takes one event after the other. */
  lemma {:induction false} RunSnoc(w: World, events: seq<Event>, e: Event)
    ensures Run(w, events + [e]) == Next(Run(w, events), e)
    decreases |events|
  {
    hide Next;
    if events == [] {
      assert [] + [e] == [e] && [e][1..] == [];
    } else {
      assert (events + [e])[1..] == events[1..] + [e];
      RunSnoc(Next(w, events[0]), events[1..], e);
    }
  }

  function Settled(outcomes: seq<Outcome>): seq<Order> {
    if outcomes == [] then [] else Settled(outcomes[..|outcomes| - 1]) + outcomes[|outcomes| - 1].orders
  }

  // ----- what every interleaving keeps -----

  ghost predicate Tracked(s: State, id: nat) { s.continuation == Some(id) || s.sense == Some(id) }

  /** Every running task is the one in a field, and only one field is in use. */
  ghost predicate Alone(s: State) {
    && (s.continuation.None? || s.sense.None?)
    && (forall id :: IsRunning(s, id) ==> Tracked(s, id))
  }

  /** Every order ever appended, in order, has been polled once, or cleared, or is pending. */
  ghost predicate Conserved(w: World) { Settled(w.outcomes) + w.core.pending == w.appended }

  lemma StepKeepsAlone(s: State, e: Event)
    requires Alone(s)
    ensures Alone(Step(s, e))
  {
    hide Strip;
    var t := Step(s, e);
    forall id: nat | IsRunning(t, id)
      ensures Tracked(t, id)
    {
      assert id < |s.tasks| ==> IsRunning(s, id);
    }
  }

  lemma SettledSnoc(outcomes: seq<Outcome>, o: Outcome)
    ensures Settled(outcomes + [o]) == Settled(outcomes) + o.orders
  {
    assert (outcomes + [o])[..|outcomes|] == outcomes;
  }

  lemma StepConserves(w: World, e: Event)
    requires Conserved(w)
    ensures Conserved(Next(w, e))
  {
    hide Strip, Settled, AtWork;
    var more := NewOutcomes(w.core, e);
    if more == [] {
      assert w.outcomes + more == w.outcomes;
    } else {
      SettledSnoc(w.outcomes, more[0]);
    }
  }

  lemma {:induction false} RunKeeps(w: World, events: seq<Event>)
    requires Alone(w.core) && Conserved(w)
    ensures Alone(Run(w, events).core) && Conserved(Run(w, events))
    decreases |events|
  {
    hide Alone, Conserved, Step, NewOrders, NewOutcomes;
    if events != [] {
      StepKeepsAlone(w.core, events[0]);
      StepConserves(w, events[0]);
      RunKeeps(Next(w, events[0]), events[1..]);
    }
  }

  /** In every interleaving at most one uncancelled background task is live, and every appended order is
      in exactly one place: in one poll's answer, cleared by one cancellation, or still pending. */
  lemma EveryRunIsSafe(events: seq<Event>)
    ensures var w := Run(START, events);
            && (forall a, b :: IsRunning(w.core, a) && IsRunning(w.core, b) ==> a == b)
            && Settled(w.outcomes) + w.core.pending == w.appended
  {
    assert Alone(START.core) && Conserved(START);
    RunKeeps(START, events);
    hide Run, Settled;
    var w := Run(START, events);
    forall a, b | IsRunning(w.core, a) && IsRunning(w.core, b)
      ensures a == b
    {
      assert Tracked(w.core, a) && Tracked(w.core, b);
    }
  }

  // ----- a poll that says there is no more -----

  /** Nothing pending, nothing at work. */
  ghost predicate Quiet(s: State) { Alone(s) && s.pending == [] && forall id :: !IsRunning(s, id) }

  lemma NotAtWorkIsQuiet(s: State)
    requires Alone(s) && !AtWork(s)
    ensures Quiet(s.(pending := []))
  {
    var t := s.(pending := []);
    forall id
      ensures !IsRunning(t, id)
    {
      assert IsRunning(t, id) ==> IsRunning(s, id) && Tracked(s, id);
    }
    assert Alone(t) by {
      assert forall id :: IsRunning(t, id) ==> IsRunning(s, id);
    }
  }

  lemma QuietStep(s: State, e: Event)
    requires Quiet(s) && !IsTurn(e)
    ensures Quiet(Step(s, e)) && NewOrders(s, e) == []
  {
    StepKeepsAlone(s, e);
    assert forall id :: IsRunning(Step(s, e), id) ==> IsRunning(s, id);
  }

  lemma {:induction false} QuietUntilTurn(w: World, events: seq<Event>)
    requires Quiet(w.core) && forall i :: 0 <= i < |events| ==> !IsTurn(events[i])
    ensures Quiet(Run(w, events).core) && Run(w, events).appended == w.appended
    decreases |events|
  {
    hide Quiet, Step, NewOrders, NewOutcomes;
    if events != [] {
      QuietStep(w.core, events[0]);
      var t := Next(w, events[0]);
      assert t.appended == w.appended;
      QuietUntilTurn(t, events[1..]);
    }
  }

  /** Once a poll answers that nothing is at work, no order appears before the next turn, so the poller
      that stops on that answer misses none. */
  lemma PollerMissesNothing(before: seq<Event>, after: seq<Event>)
    requires !AtWork(Run(START, before).core)
    requires forall i :: 0 <= i < |after| ==> !IsTurn(after[i])
    ensures var w := Next(Run(START, before), Poll);
            Run(w, after).appended == w.appended && !(Run(w, after).core.pending != [])
  {
    assert Alone(START.core) && Conserved(START);
    hide Run, Settled, Conserved, Live;
    RunKeeps(START, before);
    var s := Run(START, before).core;
    NotAtWorkIsQuiet(s);
    QuietUntilTurn(Next(Run(START, before), Poll), after);
  }

  /** `has_pending_followup_work` is true exactly when the next poll would return an order or promise one. */
  lemma HasWorkExactly(w: World)
    ensures HasWork(w.core) <==> NewOutcomes(w.core, Poll) != [Polled([], false)]
  {
  }

  // ----- what is started is delivered -----

  /** Neither a cancellation nor the end of task `id`. */
  predicate Spares(e: Event, id: nat) {
    !Cancels(e) && !(e.Returns? && e.id == id) && !(e.EndsEmpty? && e.id == id)
  }

  ghost predicate AtWorkAs(s: State, id: nat) { IsRunning(s, id) && Tracked(s, id) }

  lemma {:induction false} StaysAtWork(w: World, id: nat, events: seq<Event>)
    requires AtWorkAs(w.core, id) && forall i :: 0 <= i < |events| ==> Spares(events[i], id)
    ensures AtWorkAs(Run(w, events).core, id) && AtWork(Run(w, events).core)
    decreases |events|
  {
    if events != [] {
      StaysAtWork(Next(w, events[0]), id, events[1..]);
    }
  }

  lemma {:induction false} StaysPending(w: World, o: Order, events: seq<Event>)
    requires o in w.core.pending && forall i :: 0 <= i < |events| ==> !Cancels(events[i]) && !events[i].Poll?
    ensures o in Run(w, events).core.pending
    decreases |events|
  {
    if events != [] {
      hide Strip;
      StaysPending(Next(w, events[0]), o, events[1..]);
    }
  }

  /** A reply or a sense request starts a task that stays at work, and every poll says so, until it returns; and then
      the next poll has its text, unless something cancels in between. */
  lemma StartedIsDelivered(w: World, start: Event, during: seq<Event>, text: string, after: seq<Event>)
    requires start.StartContinuation? || start.StartSense?
    requires forall i :: 0 <= i < |during| ==> Spares(during[i], |w.core.tasks|)
    requires Strip(text) != "" && forall i :: 0 <= i < |after| ==> !Cancels(after[i]) && !after[i].Poll?
    ensures var id := |w.core.tasks|;
            var x := Run(Next(w, start), during);
            var y := Run(Next(x, Returns(id, text)), after);
            AtWork(x.core) && Order(Strip(text), FromTask(id)) in y.core.pending
            && NewOutcomes(y.core, Poll) == [Polled(y.core.pending, AtWork(y.core))]
  {
    hide Run, Strip, Step, AtWork, AtWorkAs, NewOrders;
    var id := |w.core.tasks|;
    StartsWork(w.core, start);
    StaysAtWork(Next(w, start), id, during);
    var x := Run(Next(w, start), during);
    ReturnsText(x.core, id, text);
    StaysPending(Next(x, Returns(id, text)), Order(Strip(text), FromTask(id)), after);
  }

  lemma StartsWork(s: State, start: Event)
    requires start.StartContinuation? || start.StartSense?
    ensures AtWorkAs(Step(s, start), |s.tasks|)
  {
    var t := Cancelled(s);
    assert |t.tasks| == |s.tasks|;
    assert (t.tasks + [Running])[|s.tasks|] == Running;
  }

  lemma ReturnsText(s: State, id: nat, text: string)
    requires AtWorkAs(s, id) && Strip(text) != ""
    ensures Order(Strip(text), FromTask(id)) in Step(s, Returns(id, text)).pending
  {
    hide Strip;
    var o := Order(Strip(text), FromTask(id));
    assert (s.pending + [o])[|s.pending|] == o;
  }

  /** Once the task in use has ended, with a text or without, nothing is at work. */
  lemma WorkEnds(s: State, id: nat, e: Event)
    requires Alone(s) && IsRunning(s, id) && ((e.Returns? && e.id == id) || (e.EndsEmpty? && e.id == id))
    ensures !AtWork(Step(s, e))
  {
    hide Strip;
    assert Tracked(s, id);
  }

  // ----- what a cancellation ends -----

  predicate Cancels(e: Event) { e.CancelOnly? || e.StartContinuation? || e.StartSense? }

  /** Every running task was started after the first `n`. */
  ghost predicate OnlyNewer(s: State, n: nat) { n <= |s.tasks| && forall id :: IsRunning(s, id) ==> n <= id }

  ghost predicate NewSource(o: Order, n: nat) { o.source.FromTask? ==> n <= o.source.id }

  lemma CancelReaches(s: State, id: nat)
    requires Alone(s) && id < |s.tasks|
    ensures !IsRunning(Cancelled(s), id)
  {
    assert IsRunning(s, id) ==> Tracked(s, id);
  }

  lemma CancelLeavesNone(s: State, e: Event)
    requires Alone(s) && Cancels(e)
    ensures Step(s, e).pending == [] && OnlyNewer(Step(s, e), |s.tasks|)
  {
    forall id: nat | id < |s.tasks|
      ensures !IsRunning(Step(s, e), id)
    {
      CancelReaches(s, id);
    }
  }

  lemma OnlyNewerStep(s: State, e: Event, n: nat)
    requires OnlyNewer(s, n)
    ensures OnlyNewer(Step(s, e), n)
    ensures forall i :: 0 <= i < |NewOrders(s, e)| ==> NewSource(NewOrders(s, e)[i], n)
  {
    hide Strip;
    assert forall id :: IsRunning(Step(s, e), id) ==> IsRunning(s, id) || id == |s.tasks|;
  }

  lemma {:induction false} OnlyNewerRun(w: World, events: seq<Event>, n: nat)
    requires OnlyNewer(w.core, n)
    ensures w.appended <= Run(w, events).appended && w.outcomes <= Run(w, events).outcomes
    ensures forall i :: |w.appended| <= i < |Run(w, events).appended| ==> NewSource(Run(w, events).appended[i], n)
    decreases |events|
  {
    hide Step, NewOrders, NewOutcomes, OnlyNewer, NewSource;
    if events != [] {
      var t := Next(w, events[0]);
      OnlyNewerStep(w.core, events[0], n);
      OnlyNewerRun(t, events[1..], n);
      assert forall i :: |w.appended| <= i < |t.appended| ==>
          && t.appended[i] == NewOrders(w.core, events[0])[i - |w.appended|]
          && Run(t, events[1..]).appended[i] == t.appended[i];
    }
  }

  /** The orders settled after the first `k` outcomes. */
  function SettledFrom(outcomes: seq<Outcome>, k: nat): seq<Order>
    requires k <= |outcomes|
  {
    Settled(outcomes[k..])
  }

  lemma {:induction false} SettledConcat(a: seq<Outcome>, b: seq<Outcome>)
    ensures Settled(a + b) == Settled(a) + Settled(b)
    decreases |b|
  {
    if b == [] {
      assert a + b == a;
    } else {
      var n := |b| - 1;
      assert (a + b)[..|a + b| - 1] == a + b[..n];
      SettledConcat(a, b[..n]);
    }
  }

  lemma CancelSettlesAll(w: World, e: Event)
    requires Alone(w.core) && Conserved(w) && Cancels(e)
    ensures var t := Next(w, e);
            && Alone(t.core) && Conserved(t) && Settled(t.outcomes) == t.appended
            && OnlyNewer(t.core, |w.core.tasks|)
  {
    hide Settled, Live, OnlyNewer, Alone;
    StepKeepsAlone(w.core, e);
    StepConserves(w, e);
    CancelLeavesNone(w.core, e);
  }

  lemma SettledLater(w: World, t: World)
    requires Settled(w.outcomes) == w.appended && Conserved(t)
    requires w.outcomes <= t.outcomes && w.appended <= t.appended
    ensures SettledFrom(t.outcomes, |w.outcomes|) + t.core.pending == t.appended[|w.appended|..]
  {
    hide Settled;
    var rest := t.outcomes[|w.outcomes|..];
    assert t.outcomes == w.outcomes + rest;
    SettledConcat(w.outcomes, rest);
    assert w.appended + (Settled(rest) + t.core.pending) == t.appended;
  }

  /** Nothing that was pending or in progress when a cancellation was processed - a STOP order, an
      acknowledgement or a new reply - is polled at any later time: whatever is settled or pending from then
      on was appended after it, by a task started after it or by the calendar. */
  lemma NothingOldAfterCancel(before: seq<Event>, e: Event, after: seq<Event>)
    requires Cancels(e)
    ensures var w := Next(Run(START, before), e);
            var t := Run(w, after);
            && w.outcomes <= t.outcomes && w.appended <= t.appended
            && SettledFrom(t.outcomes, |w.outcomes|) + t.core.pending == t.appended[|w.appended|..]
            && forall i :: |w.appended| <= i < |t.appended| ==>
                 NewSource(t.appended[i], |Run(START, before).core.tasks|)
  {
    assert Alone(START.core) && Conserved(START);
    RunKeeps(START, before);
    hide Run, SettledFrom, Next, OnlyNewer, NewSource, Alone, Cancels;
    var v := Run(START, before);
    var w := Next(v, e);
    CancelSettlesAll(v, e);
    OnlyNewerRun(w, after, |v.core.tasks|);
    RunKeeps(w, after);
    SettledLater(w, Run(w, after));
  }

  // ----- the core object -----

  class ConversationCore {
    var continuationTask: Option<nat>
    var senseTask: Option<nat>
    var pendingFollowupOrders: seq<Order>
    var tasks: seq<Status>

    function View(): State
      reads this
    {
      State(continuationTask, senseTask, pendingFollowupOrders, tasks)
    }

    constructor ()
      ensures View() == INITIAL
    {
      continuationTask, senseTask, pendingFollowupOrders, tasks := None, None, [], [];
    }

    predicate AtWorkNow()
      reads this
    {
      AtWork(View())
    }

    method CancelReplyContinuation()
      modifies this
      ensures View() == Cancelled(old(View()))
    {
      var both := [continuationTask, senseTask];
      for i := 0 to 2
        invariant both == [old(continuationTask), old(senseTask)]
        invariant continuationTask == old(continuationTask) && senseTask == old(senseTask)
        invariant i == 0 ==> tasks == old(tasks)
        invariant i == 1 ==> tasks == CancelTask(old(tasks), both[0])
        invariant i == 2 ==> tasks == CancelTask(CancelTask(old(tasks), both[0]), both[1])
      {
        if both[i].Some? && both[i].value < |tasks| && tasks[both[i].value] != Ended {
          tasks := tasks[both[i].value := Unwinding];
        }
      }
      continuationTask := None;
      senseTask := None;
      pendingFollowupOrders := [];
    }

    method StopTurn()
      modifies this
      ensures View() == Step(old(View()), CancelOnly)
    {
      CancelReplyContinuation();
    }

    method ReplyTurn()
      modifies this
      ensures View() == Step(old(View()), StartContinuation)
    {
      CancelReplyContinuation();
      continuationTask := Some(|tasks|);
      tasks := tasks + [Running];
    }

    method SenseTurn()
      modifies this
      ensures View() == Step(old(View()), StartSense)
    {
      CancelReplyContinuation();
      senseTask := Some(|tasks|);
      tasks := tasks + [Running];
    }

    method AppendCalendarFollowup(text: string)
      modifies this
      ensures View() == Step(old(View()), AppendCalendar(text))
    {
      pendingFollowupOrders := pendingFollowupOrders + [Order(text, Calendar)];
    }

    /** The end of `_consume_reply_continuation` or `_run_sense_followup`. */
    method Finish(id: nat, text: string)
      requires IsRunning(View(), id)
      modifies this
      ensures View() == Step(old(View()), Returns(id, text))
    {
      hide Strip;
      tasks := tasks[id := Ended];
      if Strip(text) == "" {
        return;
      }
      pendingFollowupOrders := pendingFollowupOrders + [Order(Strip(text), FromTask(id))];
    }

    method PollFollowupOrders() returns (orders: seq<Order>, pending: bool)
      modifies this
      ensures View() == Step(old(View()), Poll)
      ensures [Polled(orders, pending)] == NewOutcomes(old(View()), Poll)
    {
      orders := pendingFollowupOrders;
      pendingFollowupOrders := [];
      pending := AtWorkNow();
    }
  }
}
