/** The request, acknowledgement and orders protocol over one shared socket
    (server/hot_path/ws_control.py). The peer answers requests in the order they arrive, each with
    an acknowledgement and then the orders (server/tomoko/realtime.py); a receive may deliver the
    next message, time out, or find the connection closed, whichever the script says. */
module WsControl {
  import opened Wrappers

  datatype Kind = TurnMaterials | PlaybackState | Observation | InitiativeTick | PollOrders | Reset | Fixture

  /** The fields of an acknowledgement the client reads; `valid` and `intentValid` when its action
      and its text intent convert. */
  datatype AckBody = AckBody(orderCount: Option<int>, pending: bool, valid: bool, intentValid: bool)

  /** What may follow an acknowledgement; `valid` when the payload converts to an order. */
  datatype Event = SpeechOrder(valid: bool) | CancelOrder(valid: bool) | ErrorEvent | Garbage | Unknown

  /** The peer's answer to one request. */
  datatype Answer = Answer(ack: Option<AckBody>, events: seq<Event>)

  /** A message in flight, marked with the request it answers and its place in that answer.
      The marks are not on the wire and the client does not look at them. */
  datatype Message =
    | Ready
    | Ack(kind: Kind, request: nat, body: AckBody)
    | Push(event: Event, request: nat, index: nat)

  datatype Order = Order(stop: bool, request: nat, index: nat)

  /** What the network does to one send or receive. `Cancel` is a cancellation from outside that lands there; on
      a send, the request may already be out. */
  datatype Signal = Deliver | TimeOut | Close | Answers(answer: Answer) | Cancel(sent: Option<Answer>)

  /** The client's fields, the messages its socket will still deliver, the number of requests sent, what the peer
      answered to them (history the code does not look at), and the script of the network. */
  datatype Client = Client(
    ws: Option<seq<Message>>,
    materials: bool,
    followupsPending: bool,
    sent: nat,
    log: map<nat, Answer>,
    script: seq<Signal>)

  datatype Outcome<+T> = Done(value: T) | ConnectionClosed | TimedOut | Error | Cancelled

  datatype Step<+T> = Step(client: Client, outcome: Outcome<T>)

  // ----- the network -----

  function Pushes(events: seq<Event>, request: nat): (r: seq<Message>)
    ensures |r| == |events|
    ensures forall k :: 0 <= k < |r| ==> r[k] == Push(events[k], request, k)
  {
    seq(|events|, k requires 0 <= k < |events| => Push(events[k], request, k))
  }

  function Marked(kind: Kind, request: nat, answer: Answer): seq<Message> {
    (if answer.ack.Some? then [Ack(kind, request, answer.ack.value)] else []) + Pushes(answer.events, request)
  }

  function Signalled(c: Client): Signal { if c.script == [] then Close else c.script[0] }

  function Tick(c: Client): Client { if c.script == [] then c else c.(script := c.script[1..]) }

  /** The peer's answer on its way. */
  function Replies(c: Client, kind: Kind, request: nat, answer: Answer): Client
    requires c.ws.Some?
  {
    c.(ws := Some(c.ws.value + Marked(kind, request, answer)), log := c.log[request := answer])
  }

  /** `ws.send`, marking the answer the peer will give. */
  function Send(c: Client, kind: Kind): (r: Step<()>)
    requires c.ws.Some?
    ensures r.client.ws.Some?
  {
    var d := Tick(c).(sent := c.sent + 1);
    match Signalled(c)
    case Answers(answer) => Step(Replies(d, kind, c.sent, answer), Done(()))
    case Cancel(sent) => Step(if sent.Some? then Replies(d, kind, c.sent, sent.value) else d, Cancelled)
    case _ => Step(d, ConnectionClosed)
  }

  /** `ws.recv` under a timeout. */
  function Recv(c: Client): (r: Step<Message>)
    requires c.ws.Some?
    ensures r.client.ws.Some?
    ensures r.outcome.Done? ==> |r.client.script| < |c.script|
  {
    match Signalled(c)
    case Close => Step(Tick(c), ConnectionClosed)
    case Cancel(_) => Step(Tick(c), Cancelled)
    case Deliver =>
      if c.ws.value == [] then Step(Tick(c), TimedOut)
      else Step(Tick(c).(ws := Some(c.ws.value[1..])), Done(c.ws.value[0]))
    case _ => Step(Tick(c), TimedOut)
  }

  // ----- the client's building blocks -----

  function ReceiveReady(c: Client): Step<()>
    requires c.ws.Some?
  {
    var r := Recv(c);
    match r.outcome
    case Done(m) => Step(r.client, if m.Ready? then Done(()) else Error)
    case _ => Fail(r.client, r.outcome)
  }

  /** `_receive_expected` for an acknowledgement. */
  function ReceiveAck(c: Client, kind: Kind): (r: Step<AckBody>)
    requires c.ws.Some?
    ensures r.client.ws.Some?
  {
    var r := Recv(c);
    match r.outcome
    case Done(m) => Step(r.client, if m.Ack? && m.kind == kind then Done(m.body) else Error)
    case _ => Fail(r.client, r.outcome)
  }

  /** A request and its acknowledgement. */
  function Exchange(c: Client, kind: Kind): (r: Step<AckBody>)
    requires c.ws.Some?
    ensures r.client.ws.Some?
  {
    var s := Send(c, kind);
    if s.outcome.Done? then ReceiveAck(s.client, kind) else Fail(s.client, s.outcome)
  }

  function SendLatestMaterials(c: Client): (r: Step<()>)
    requires c.ws.Some?
    ensures r.client.ws.Some?
  {
    if !c.materials then Step(c, Done(()))
    else
      var first := Exchange(c, TurnMaterials);
      if !first.outcome.Done? then Fail(first.client, first.outcome)
      else
        var second := Exchange(first.client, PlaybackState);
        if second.outcome.Done? then Step(second.client, Done(())) else Fail(second.client, second.outcome)
  }

  function Fail<T, U>(c: Client, o: Outcome<T>): Step<U>
    requires !o.Done?
  {
    Step(c, match o
            case ConnectionClosed => ConnectionClosed
            case TimedOut => TimedOut
            case Error => Error
            case Cancelled => Cancelled)
  }

  /** The loop that reads orders until the announced count, or the first one when none is announced. */
  function ReadOrders(c: Client, expected: Option<int>, orders: seq<Order>): (r: Step<seq<Order>>)
    requires c.ws.Some?
    ensures r.client.ws.Some?
    decreases |c.script|
  {
    if if expected.Some? then |orders| >= expected.value else orders != [] then Step(c, Done(orders))
    else
      var r := Recv(c);
      match r.outcome
      case TimedOut => Step(r.client, Done(orders))
      case Done(Push(SpeechOrder(valid), request, index)) =>
        if valid then ReadOrders(r.client, expected, orders + [Order(false, request, index)])
        else Step(r.client, Error)
      case Done(Push(CancelOrder(valid), request, index)) =>
        if valid then ReadOrders(r.client, expected, orders + [Order(true, request, index)])
        else Step(r.client, Error)
      case Done(Push(ErrorEvent, _, _)) => Step(r.client, Error)
      case Done(Push(Garbage, _, _)) => Step(r.client, Error)
      case Done(_) => ReadOrders(r.client, expected, orders)
      case _ => Fail(r.client, r.outcome)
  }

  /** The loop of a poll: exactly `count` speech orders. */
  function ReadExactly(c: Client, count: int, orders: seq<Order>): (r: Step<seq<Order>>)
    requires c.ws.Some?
    ensures r.client.ws.Some?
    decreases |c.script|
  {
    if |orders| >= count then Step(c, Done(orders))
    else
      var r := Recv(c);
      match r.outcome
      case Done(Push(SpeechOrder(valid), request, index)) =>
        if valid then ReadExactly(r.client, count, orders + [Order(false, request, index)])
        else Step(r.client, Error)
      case Done(_) => Step(r.client, Error)
      case _ => Fail(r.client, r.outcome)
  }

  // ----- the operations on a connected socket -----

  /** What an operation returns: the number of its own request, and the orders read for it. */
  datatype Reply = Reply(request: nat, orders: seq<Order>, pending: bool)

  function Operate(c: Client, kind: Kind): (r: Step<Reply>)
    requires c.ws.Some?
    ensures r.client.ws.Some?
  {
    var ready := if kind.Observation? || kind.InitiativeTick? then SendLatestMaterials(c) else Step(c, Done(()));
    if !ready.outcome.Done? then Fail(ready.client, ready.outcome)
    else
      var request := ready.client.sent;
      var ack := Exchange(ready.client, kind);
      if !ack.outcome.Done? then Fail(ack.client, ack.outcome)
      else Answered(ack.client, kind, request, ack.outcome.value)
  }

  /** What an operation does once its acknowledgement is in. */
  function Answered(c: Client, kind: Kind, request: nat, ack: AckBody): (r: Step<Reply>)
    requires c.ws.Some?
    ensures r.client.ws.Some?
  {
    match kind
    case Observation =>
      var d := c.(followupsPending := ack.pending);
      if !ack.valid then Step(d, Error) else Replied(ReadOrders(d, ack.orderCount, []), request, ack.pending)
    case InitiativeTick =>
      if !ack.valid then Step(c, Error)
      else
        var r := Replied(ReadOrders(c, ack.orderCount, []), request, ack.pending);
        if r.outcome.Done? && !ack.intentValid then Step(r.client, Error) else r
    case PollOrders =>
      var count := if ack.orderCount.Some? then ack.orderCount.value else 0;
      Replied(ReadExactly(c, count, []), request, ack.pending)
    case _ => Step(c, Done(Reply(request, [], false)))
  }

  function Replied(r: Step<seq<Order>>, request: nat, pending: bool): Step<Reply> {
    if r.outcome.Done? then Step(r.client, Done(Reply(request, r.outcome.value, pending)))
    else Fail(r.client, r.outcome)
  }

  // ----- connecting and reconnecting -----

  /** `_ensure_ws`: a new socket will first deliver the peer's banner. */
  function EnsureWs(c: Client): (r: Step<()>)
    ensures r.outcome.Done? ==> r.client.ws.Some?
  {
    if c.ws.Some? then Step(c, Done(()))
    else if Signalled(c).Cancel? then Step(Tick(c), Cancelled)
    else if Signalled(c) != Deliver then Step(Tick(c), Error)
    else ReceiveReady(Tick(c).(ws := Some([Ready])))
  }

  function Drop(c: Client): Client { c.(ws := None) }

  /** `_with_reconnect`: one more attempt after a closed connection, on a new socket. A cancellation is not an
      `Exception`, so it leaves the socket as it is. */
  function WithReconnect(c: Client, kind: Kind, attempt: nat): Step<Reply>
    requires attempt <= 1
    decreases 1 - attempt
  {
    var ready := EnsureWs(c);
    if !ready.outcome.Done? then Fail(ready.client, ready.outcome)
    else
      var r := Operate(ready.client, kind);
      match r.outcome
      case Done(_) => r
      case ConnectionClosed =>
        if attempt == 1 then Step(Drop(r.client), ConnectionClosed)
        else WithReconnect(Drop(r.client), kind, attempt + 1)
      case Cancelled => r
      case _ => Step(Drop(r.client), r.outcome)
  }

  /** One call of the public interface; the lock makes the calls follow each other. */
  datatype Call =
    | Request(kind: Kind)
    | CancelledPoll  // the shielded poll runs on and its result is lost; only a second cancellation reaches it
    | UpdateTurnMaterials
    | AClose

  function Perform(c: Client, call: Call): Step<Option<Reply>> {
    match call
    case Request(kind) =>
      var r := WithReconnect(c, kind, 0);
      (match r.outcome
       case Done(reply) =>
         var d := if kind.PollOrders? then r.client.(followupsPending := reply.pending)
                  else if kind.Reset? then r.client.(materials := false)
                  else r.client;
         Step(d, Done(Some(reply)))
       case _ => Fail(r.client, r.outcome))
    case CancelledPoll =>
      var r := WithReconnect(c, PollOrders, 0);
      Step(r.client, if r.outcome.Cancelled? then Cancelled else Done(None))
    case UpdateTurnMaterials => Step(c.(materials := true), Done(None))
    case AClose => Step(Drop(c), Done(None))
  }

  // ----- safety -----

  /** Nothing unread on the socket could be taken for an acknowledgement. */
  ghost predicate NoAck(inbox: seq<Message>) { forall k :: 0 <= k < |inbox| ==> !inbox[k].Ack? }

  ghost predicate Quiet(c: Client) { c.ws.Some? ==> NoAck(c.ws.value) }

  /** All that is unread is the rest of the answer to request `request`, from event `index` on. */
  ghost predicate Only(inbox: seq<Message>, request: nat, events: seq<Event>, index: nat) {
    && index + |inbox| == |events|
    && forall k :: 0 <= k < |inbox| ==> inbox[k] == Push(events[index + k], request, index + k)
  }

  /** What a completed exchange has read and left. */
  lemma ExchangeReads(c: Client, kind: Kind)
    requires c.ws.Some? && Exchange(c, kind).outcome.Done?
    ensures var answer := Signalled(c).answer;
            var all := c.ws.value + Marked(kind, c.sent, answer);
            && Signalled(c).Answers? && all != [] && all[0].Ack? && all[0].kind == kind
            && var r := Exchange(c, kind);
               && r.client.ws == Some(all[1..]) && r.client.sent == c.sent + 1
               && r.client.log == c.log[c.sent := answer] && r.outcome.value == all[0].body
  {
    hide Marked;
  }

  /** An acknowledgement can only be received when nothing older was left unread, so it is the
      one of the request just sent. */
  lemma ExchangeIsOwn(c: Client, kind: Kind)
    requires c.ws.Some? && Quiet(c)
    ensures var r := Exchange(c, kind);
            r.outcome.Done? ==>
              && Quiet(r.client) && r.client.sent == c.sent + 1 && c.sent in r.client.log
              && Some(r.outcome.value) == r.client.log[c.sent].ack
              && Only(r.client.ws.value, c.sent, r.client.log[c.sent].events, 0)
  {
    if Exchange(c, kind).outcome.Done? {
      ExchangeReads(c, kind);
      hide Exchange;
      var inbox, answer := c.ws.value, Signalled(c).answer;
      var marked := Marked(kind, c.sent, answer);
      if inbox == [] {
        assert inbox + marked == marked;
        if answer.ack.Some? {
          assert marked[1..] == Pushes(answer.events, c.sent);
        }
      }
      FirstUnread(inbox, marked);
    }
  }

  lemma FirstUnread(inbox: seq<Message>, more: seq<Message>)
    ensures inbox != [] ==> (inbox + more)[0] == inbox[0]
  {
  }

  lemma ExchangeStaysQuiet(c: Client, kind: Kind)
    requires c.ws.Some? && Quiet(c)
    ensures var r := Exchange(c, kind).client; c.sent <= r.sent && r.materials == c.materials
  {
    hide Marked, NoAck, Recv;
    SendNumbers(c, kind);
    var s := Send(c, kind);
    if s.outcome.Done? {
      RecvKeepsSent(s.client);
    }
    hide Send;
  }

  lemma SendNumbers(c: Client, kind: Kind)
    requires c.ws.Some?
    ensures var d := Send(c, kind).client; d.sent == c.sent + 1 && d.materials == c.materials
  {
    hide Marked;
  }

  lemma RecvKeepsSent(c: Client)
    requires c.ws.Some?
    ensures var d := Recv(c).client; d.sent == c.sent && d.materials == c.materials
  {
  }

  /** What the peer announces by an event: a `speech_order` to speak, a `cancel_order` to stop. */
  predicate Carries(event: Event, stop: bool) {
    event == if stop then CancelOrder(true) else SpeechOrder(true)
  }

  /** The events an order can be read among. */
  predicate Readable(event: Event) { Carries(event, true) || Carries(event, false) || event.Unknown? }

  /** The orders among events, in their order. */
  function OrdersOf(events: seq<Event>, request: nat): (orders: seq<Order>)
    ensures |orders| <= |events|
  {
    if events == [] then []
    else
      var last := |events| - 1;
      OrdersOf(events[..last], request) +
      (if Carries(events[last], true) then [Order(true, request, last)]
       else if Carries(events[last], false) then [Order(false, request, last)]
       else [])
  }

  /** An order is in that list exactly when its event carries it, and the list follows the events. */
  lemma {:induction false} OrdersOfExactly(events: seq<Event>, request: nat)
    ensures var orders := OrdersOf(events, request);
            && (forall o: Order :: o in orders <==>
                  o.request == request && o.index < |events| && Carries(events[o.index], o.stop))
            && forall j, k :: 0 <= j < k < |orders| ==> orders[j].index < orders[k].index
  {
    if events != [] {
      var init := events[..|events| - 1];
      OrdersOfExactly(init, request);
      OneMore(OrdersOf(init, request), init, events[|init|], request);
      hide OrdersOf;
      OrdersOfSnoc(init, events[|init|], request);
      assert init + [events[|init|]] == events;
    }
  }

  lemma OneMore(before: seq<Order>, events: seq<Event>, event: Event, request: nat)
    requires forall o: Order :: o in before <==>
               o.request == request && o.index < |events| && Carries(events[o.index], o.stop)
    requires forall j, k :: 0 <= j < k < |before| ==> before[j].index < before[k].index
    ensures var orders := before + (if Carries(event, true) then [Order(true, request, |events|)]
                                    else if Carries(event, false) then [Order(false, request, |events|)] else []);
            var all := events + [event];
            && (forall o: Order :: o in orders <==>
                  o.request == request && o.index < |all| && Carries(all[o.index], o.stop))
            && forall j, k :: 0 <= j < k < |orders| ==> orders[j].index < orders[k].index
  {
    assert forall k :: 0 <= k < |before| ==> before[k] in before;
  }

  lemma OrdersOfSnoc(events: seq<Event>, event: Event, request: nat)
    ensures OrdersOf(events + [event], request) == OrdersOf(events, request) +
            (if Carries(event, true) then [Order(true, request, |events|)]
             else if Carries(event, false) then [Order(false, request, |events|)] else [])
  {
    assert (events + [event])[..|events|] == events;
  }

  /** The orders are all the orders among the first `limit` events. */
  ghost predicate Owned(orders: seq<Order>, request: nat, events: seq<Event>, limit: nat) {
    && limit <= |events| && orders == OrdersOf(events[..limit], request)
    && forall i :: 0 <= i < limit ==> Readable(events[i])
  }

  lemma RecvKeeps(c: Client, request: nat, events: seq<Event>, index: nat)
    requires c.ws.Some? && Only(c.ws.value, request, events, index)
    ensures var r := Recv(c);
            if r.outcome.Done? then
              && index < |events| && r.outcome.value == Push(events[index], request, index)
              && Only(r.client.ws.value, request, events, index + 1)
            else Only(r.client.ws.value, request, events, index)
    ensures Recv(c).client.sent == c.sent && Recv(c).client.log == c.log && !Recv(c).outcome.Error?
  {
  }

  lemma OwnedNext(orders: seq<Order>, request: nat, events: seq<Event>, index: nat)
    requires Owned(orders, request, events, index) && index < |events| && Readable(events[index])
    ensures var event := events[index];
            Owned(orders + (if Carries(event, true) then [Order(true, request, index)]
                            else if Carries(event, false) then [Order(false, request, index)] else []),
                  request, events, index + 1)
  {
    OrdersOfSnoc(events[..index], events[index], request);
    assert events[..index] + [events[index]] == events[..index + 1];
  }

  lemma {:induction false} ReadOrdersOwned(c: Client, expected: Option<int>, orders: seq<Order>,
                                             request: nat, events: seq<Event>, index: nat)
    requires c.ws.Some? && Only(c.ws.value, request, events, index) && Owned(orders, request, events, index)
    ensures var r := ReadOrders(c, expected, orders);
            && r.client.sent == c.sent && r.client.log == c.log
            && (r.outcome.Done? ==>
                  Quiet(r.client) && exists limit: nat :: Owned(r.outcome.value, request, events, limit))
    decreases |c.script|
  {
    var r := Recv(c);
    RecvKeeps(c, request, events, index);
    hide Only, Recv, Owned;
    if r.outcome.Done? {
      var event := events[index];
      if Readable(event) {
        OwnedNext(orders, request, events, index);
        assert orders + [] == orders;
        var more := if Carries(event, true) then [Order(true, request, index)]
                    else if Carries(event, false) then [Order(false, request, index)] else [];
        ReadOrdersOwned(r.client, expected, orders + more, request, events, index + 1);
      }
    }
    OnlyIsQuiet(c, request, events, index);
    OnlyIsQuiet(r.client, request, events, if r.outcome.Done? then index + 1 else index);
  }

  lemma OnlyIsQuiet(c: Client, request: nat, events: seq<Event>, index: nat)
    requires c.ws.Some? && Only(c.ws.value, request, events, index)
    ensures Quiet(c)
  {
  }

  /** A poll reads nothing but speech orders, and as many as are announced. */
  ghost predicate Spoken(orders: seq<Order>, request: nat, events: seq<Event>, count: int) {
    && |orders| <= |events| && (orders != [] ==> |orders| <= count)
    && forall k :: 0 <= k < |orders| ==> orders[k] == Order(false, request, k) && events[k] == SpeechOrder(true)
  }

  lemma {:induction false} ReadExactlyOwned(c: Client, count: int, orders: seq<Order>, request: nat, events: seq<Event>)
    requires c.ws.Some? && Only(c.ws.value, request, events, |orders|) && Spoken(orders, request, events, count)
    ensures var r := ReadExactly(c, count, orders);
            && r.client.sent == c.sent && r.client.log == c.log
            && (r.outcome.Done? ==>
                  && Quiet(r.client) && |r.outcome.value| >= count && Spoken(r.outcome.value, request, events, count))
    decreases |c.script|
  {
    var r := Recv(c);
    RecvKeeps(c, request, events, |orders|);
    hide Only, Recv;
    if r.outcome.Done? && r.outcome.value.event == SpeechOrder(true) && |orders| < count {
      ReadExactlyOwned(r.client, count, orders + [Order(false, request, |orders|)], request, events);
    }
    OnlyIsQuiet(c, request, events, |orders|);
  }

  lemma {:induction false} SpokenOwned(orders: seq<Order>, request: nat, events: seq<Event>, n: nat)
    requires n == |orders| <= |events|
    requires forall k :: 0 <= k < n ==> orders[k] == Order(false, request, k) && events[k] == SpeechOrder(true)
    ensures Owned(orders, request, events, n)
  {
    if n > 0 {
      SpokenOwned(orders[..n - 1], request, events, n - 1);
      OwnedNext(orders[..n - 1], request, events, n - 1);
      assert orders == orders[..n - 1] + [Order(false, request, n - 1)];
    }
  }

  /** The reply's orders are orders of its own request as the peer sent them: those of the first events of that
      answer, all of them, and each to stop exactly when its event is a `cancel_order`. */
  ghost predicate IsOwn(reply: Reply, c: Client) {
    && reply.request in c.log
    && exists limit: nat :: Owned(reply.orders, reply.request, c.log[reply.request].events, limit)
  }

  /** Event by event what `IsOwn` says of a returned order. */
  lemma OwnOrder(reply: Reply, c: Client, k: nat)
    requires IsOwn(reply, c) && k < |reply.orders|
    ensures var o, events := reply.orders[k], c.log[reply.request].events;
            && o.request == reply.request && o.index < |events|
            && (if o.stop then events[o.index] == CancelOrder(true) else events[o.index] == SpeechOrder(true))
            && (k > 0 ==> reply.orders[k - 1].index < o.index)
            && forall i :: 0 <= i <= o.index && (events[i].CancelOrder? || events[i].SpeechOrder?) ==>
                 Order(events[i].CancelOrder?, reply.request, i) in reply.orders
  {
    hide OrdersOf;
    var events := c.log[reply.request].events;
    var limit: nat :| Owned(reply.orders, reply.request, events, limit);
    OrdersOfExactly(events[..limit], reply.request);
    assert reply.orders[k] in reply.orders;
  }

  lemma AnsweredIsOwn(c: Client, kind: Kind, request: nat, ack: AckBody)
    requires c.ws.Some? && request in c.log && Only(c.ws.value, request, c.log[request].events, 0)
    ensures var r := Answered(c, kind, request, ack);
            && r.client.sent == c.sent && r.client.log == c.log
            && (r.outcome.Done? ==>
                  Quiet(r.client) && r.outcome.value.request == request && IsOwn(r.outcome.value, r.client))
  {
    var events := c.log[request].events;
    OnlyIsQuiet(c, request, events, 0);
    NothingOwned(request, events);
    hide ReadOrders, ReadExactly, Owned, Only, NoAck;
    match kind
    case Observation => ReadOrdersOwned(c.(followupsPending := ack.pending), ack.orderCount, [], request, events, 0);
    case InitiativeTick => ReadOrdersOwned(c, ack.orderCount, [], request, events, 0);
    case PollOrders => PollIsOwn(c, if ack.orderCount.Some? then ack.orderCount.value else 0, request);
    case _ =>
  }

  lemma PollIsOwn(c: Client, count: int, request: nat)
    requires c.ws.Some? && request in c.log && Only(c.ws.value, request, c.log[request].events, 0)
    ensures var r := ReadExactly(c, count, []);
            && r.client.sent == c.sent && r.client.log == c.log
            && (r.outcome.Done? ==>
                  Quiet(r.client) && exists limit: nat :: Owned(r.outcome.value, request, c.log[request].events, limit))
  {
    hide ReadExactly, Only, NoAck;
    var r, events := ReadExactly(c, count, []), c.log[request].events;
    ReadExactlyOwned(c, count, [], request, events);
    if r.outcome.Done? {
      SpokenOwned(r.outcome.value, request, events, |r.outcome.value|);
    }
  }

  lemma NothingOwned(request: nat, events: seq<Event>)
    ensures Owned([], request, events, 0)
  {
    assert events[..0] == [];
  }

  /** A poll that returns has exactly the announced number of speech orders, the first ones of the answer. */
  lemma PollIsExact(c: Client)
    requires c.ws.Some? && Quiet(c)
    ensures var r := Operate(c, PollOrders);
            r.outcome.Done? ==>
              var reply := r.outcome.value;
              && c.sent in r.client.log && r.client.log[c.sent].ack.Some? && reply.request == c.sent
              && var answer := r.client.log[c.sent];
                 var count := if answer.ack.value.orderCount.Some? then answer.ack.value.orderCount.value else 0;
                 && |reply.orders| == (if count > 0 then count else 0) <= |answer.events|
                 && reply.pending == answer.ack.value.pending
                 && forall k :: 0 <= k < |reply.orders| ==>
                      reply.orders[k] == Order(false, c.sent, k) && answer.events[k] == SpeechOrder(true)
  {
    hide Exchange, ReadExactly;
    ExchangeIsOwn(c, PollOrders);
    var ack := Exchange(c, PollOrders);
    if ack.outcome.Done? {
      var count := if ack.outcome.value.orderCount.Some? then ack.outcome.value.orderCount.value else 0;
      ReadExactlyOwned(ack.client, count, [], c.sent, ack.client.log[c.sent].events);
    }
  }

  lemma OperateIsOwn(c: Client, kind: Kind)
    requires c.ws.Some? && Quiet(c)
    ensures var r := Operate(c, kind);
            && c.sent <= r.client.sent
            && (r.outcome.Done? ==>
                  && Quiet(r.client) && IsOwn(r.outcome.value, r.client)
                  && c.sent <= r.outcome.value.request < r.client.sent)
  {
    hide Exchange, Answered, IsOwn, Only;
    var d := c;
    if kind.Observation? || kind.InitiativeTick? {
      ExchangeIsOwn(c, TurnMaterials);
      ExchangeStaysQuiet(c, TurnMaterials);
      var first := Exchange(c, TurnMaterials);
      if first.outcome.Done? {
        ExchangeIsOwn(first.client, PlaybackState);
        ExchangeStaysQuiet(first.client, PlaybackState);
      }
      d := SendLatestMaterials(c).client;
      if !SendLatestMaterials(c).outcome.Done? {
        return;
      }
    }
    ExchangeIsOwn(d, kind);
    ExchangeStaysQuiet(d, kind);
    var ack := Exchange(d, kind);
    if ack.outcome.Done? {
      AnsweredIsOwn(ack.client, kind, d.sent, ack.outcome.value);
    }
  }

  lemma EnsureIsQuiet(c: Client)
    requires Quiet(c)
    ensures var r := EnsureWs(c); Quiet(r.client) && r.client.sent == c.sent && r.client.materials == c.materials
  {
  }

  /** A call that is not cancelled leaves no unread acknowledgement, and its orders answer its own request. */
  lemma {:induction false} WithReconnectIsOwn(c: Client, kind: Kind, attempt: nat)
    requires attempt <= 1 && Quiet(c)
    ensures var r := WithReconnect(c, kind, attempt);
            && c.sent <= r.client.sent
            && (!r.outcome.Cancelled? ==> Quiet(r.client))
            && (r.outcome.Done? ==>
                  IsOwn(r.outcome.value, r.client) && c.sent <= r.outcome.value.request < r.client.sent)
    decreases 1 - attempt
  {
    EnsureIsQuiet(c);
    var ready := EnsureWs(c);
    hide Operate, EnsureWs, IsOwn;
    if ready.outcome.Done? {
      OperateIsOwn(ready.client, kind);
      var r := Operate(ready.client, kind);
      if r.outcome.ConnectionClosed? && attempt == 0 {
        WithReconnectIsOwn(Drop(r.client), kind, 1);
      }
    }
  }

  // ----- whole runs -----

  function Run(c: Client, calls: seq<Call>): (r: (Client, seq<Outcome<Option<Reply>>>))
    ensures |r.1| == |calls|
    decreases |calls|
  {
    if calls == [] then (c, [])
    else
      var first := Perform(c, calls[0]);
      var (d, later) := Run(first.client, calls[1..]);
      (d, [first.outcome] + later)
  }

  /** The client as call `k` of a run finds it. */
  function ClientBefore(c: Client, calls: seq<Call>, k: nat): Client
    requires k <= |calls|
  {
    Run(c, calls[..k]).0
  }

  lemma PerformIsOwn(c: Client, call: Call)
    requires Quiet(c)
    ensures var r := Perform(c, call);
            && (!r.outcome.Cancelled? ==> Quiet(r.client))
            && (r.outcome.Done? && r.outcome.value.Some? ==>
                  var reply := r.outcome.value.value;
                  IsOwn(reply, r.client) && c.sent <= reply.request < r.client.sent)
  {
    hide WithReconnect;
    WithReconnectIsOwn(c, if call.Request? then call.kind else PollOrders, 0);
  }

  /** In every run, whatever the network does and however the peer answers, as long as no earlier call has been
      cancelled from outside, the orders a call returns all answer a request that call itself sent, in the order
      the peer sent them. */
  lemma {:induction false} EveryReplyIsOwn(c: Client, calls: seq<Call>, k: nat)
    requires Quiet(c) && k < |calls| && forall j :: 0 <= j < k ==> !Run(c, calls).1[j].Cancelled?
    ensures var before := ClientBefore(c, calls, k);
            var r := Perform(before, calls[k]);
            && Run(c, calls).1[k] == r.outcome
            && (r.outcome.Done? && r.outcome.value.Some? ==>
                  var reply := r.outcome.value.value;
                  IsOwn(reply, r.client) && before.sent <= reply.request < r.client.sent)
    decreases |calls|
  {
    hide Perform, IsOwn, Quiet;
    PerformIsOwn(c, calls[0]);
    if k > 0 {
      var later := Run(Perform(c, calls[0]).client, calls[1..]).1;
      assert forall j :: 0 <= j < k - 1 ==> later[j] == Run(c, calls).1[j + 1];
      assert !Run(c, calls).1[0].Cancelled?;
      EveryReplyIsOwn(Perform(c, calls[0]).client, calls[1..], k - 1);
      assert calls[..k][1..] == calls[1..][..k - 1];
    }
  }

  // ----- an honest peer and a prompt network lose nothing -----

  /** How many orders an operation reads at most: the announced number, or one when none is announced (a poll then
      reads none). */
  function Wanted(kind: Kind, announced: Option<int>): nat {
    match announced
    case Some(n) => if n < 0 then 0 else n
    case None => if kind.PollOrders? then 0 else 1
  }

  function First(orders: seq<Order>, n: nat): seq<Order> { if n < |orders| then orders[..n] else orders }

  /** What such an operation can read: any mix of orders and events it skips; for a poll, speech orders only, and
      enough of them. */
  ghost predicate Serves(events: seq<Event>, kind: Kind, announced: Option<int>) {
    && (forall i :: 0 <= i < |events| ==> Readable(events[i]))
    && (kind.PollOrders? ==> Wanted(kind, announced) <= |events| && forall i :: 0 <= i < |events| ==>
          events[i] == SpeechOrder(true))
  }

  /** All events are delivered, and after them there is silence. */
  function Reading(n: nat): seq<Signal> { seq(n, k => Deliver) + [TimeOut] }

  lemma {:induction false} OrdersOfPrefix(events: seq<Event>, n: nat, request: nat)
    requires n <= |events|
    ensures OrdersOf(events[..n], request) <= OrdersOf(events, request)
  {
    if n == |events| {
      assert events[..n] == events;
    } else {
      OrdersOfPrefix(events[..|events| - 1], n, request);
      assert events[..|events| - 1][..n] == events[..n];
    }
  }

  lemma FirstOfPrefix(orders: seq<Order>, all: seq<Order>)
    requires orders <= all
    ensures First(all, |orders|) == orders
  {
  }

  lemma NextOrder(events: seq<Event>, got: nat, request: nat)
    requires got < |events|
    ensures OrdersOf(events[..got + 1], request) == OrdersOf(events[..got], request) +
            (if Carries(events[got], true) then [Order(true, request, got)]
             else if Carries(events[got], false) then [Order(false, request, got)] else [])
  {
    OrdersOfSnoc(events[..got], events[got], request);
    assert events[..got] + [events[got]] == events[..got + 1];
  }

  lemma RecvNext(c: Client, events: seq<Event>, got: nat, request: nat)
    requires got <= |events| && c.ws == Some(Pushes(events, request)[got..]) && c.script == Reading(|events| - got)
    ensures var r := Recv(c);
            if got == |events| then r.outcome == TimedOut
            else
              && r.outcome == Done(Push(events[got], request, got))
              && r.client.ws == Some(Pushes(events, request)[got + 1..])
              && r.client.script == Reading(|events| - got - 1)
  {
    var script := Reading(|events| - got);
    if got < |events| {
      assert script[0] == Deliver && script[1..] == Reading(|events| - got - 1);
    } else {
      assert script[0] == TimeOut;
    }
  }

  lemma {:induction false} ReadsFirst(c: Client, events: seq<Event>, got: nat, request: nat, kind: Kind,
                                        expected: Option<int>)
    requires got <= |events| && c.ws == Some(Pushes(events, request)[got..]) && c.script == Reading(|events| - got)
    requires Serves(events, kind, expected) && !kind.PollOrders?
    requires |OrdersOf(events[..got], request)| <= Wanted(kind, expected)
    ensures ReadOrders(c, expected, OrdersOf(events[..got], request)).outcome
         == Done(First(OrdersOf(events, request), Wanted(kind, expected)))
    decreases |events| - got
  {
    hide OrdersOf, Recv, Reading;
    var orders := OrdersOf(events[..got], request);
    OrdersOfPrefix(events, got, request);
    FirstOfPrefix(orders, OrdersOf(events, request));
    RecvNext(c, events, got, request);
    if |orders| < Wanted(kind, expected) {
      if got < |events| {
        NextOrder(events, got, request);
        assert Readable(events[got]);
        assert orders + [] == orders;
        ReadsFirst(Recv(c).client, events, got + 1, request, kind, expected);
      } else {
        assert events[..got] == events;
      }
    }
  }

  lemma {:induction false} ReadsSpoken(c: Client, events: seq<Event>, got: nat, request: nat, count: int)
    requires got <= |events| && c.ws == Some(Pushes(events, request)[got..]) && c.script == Reading(|events| - got)
    requires forall i :: 0 <= i < |events| ==> events[i] == SpeechOrder(true)
    requires count <= |events| && (got > 0 ==> got <= count) && |OrdersOf(events[..got], request)| == got
    ensures ReadExactly(c, count, OrdersOf(events[..got], request)).outcome
         == Done(First(OrdersOf(events, request), if count < 0 then 0 else count))
    decreases |events| - got
  {
    hide OrdersOf, Recv, Reading;
    var orders := OrdersOf(events[..got], request);
    OrdersOfPrefix(events, got, request);
    FirstOfPrefix(orders, OrdersOf(events, request));
    RecvNext(c, events, got, request);
    if got < count {
      NextOrder(events, got, request);
      ReadsSpoken(Recv(c).client, events, got + 1, request, count);
    }
  }

  const PRELUDE_ANSWER := Answer(Some(AckBody(None, false, true, true)), [])

  /** A network that delivers everything, and a peer that acknowledges each request. */
  function PromptScript(c: Client, kind: Kind, events: seq<Event>, announced: Option<int>, pending: bool)
    : seq<Signal>
  {
    (if c.ws.None? then [Deliver, Deliver] else [])
    + ((if c.materials && !kind.PollOrders?
        then [Answers(PRELUDE_ANSWER), Deliver, Answers(PRELUDE_ANSWER), Deliver] else [])
       + MainScript(events, announced, pending))
  }

  function MainScript(events: seq<Event>, announced: Option<int>, pending: bool): seq<Signal> {
    [Answers(Answer(Some(AckBody(announced, pending, true, true)), events)), Deliver] + Reading(|events|)
  }

  lemma PromptExchange(c: Client, kind: Kind, body: AckBody, events: seq<Event>, rest: seq<Signal>)
    requires c.ws == Some([]) && c.script == [Answers(Answer(Some(body), events)), Deliver] + rest
    ensures var r := Exchange(c, kind);
            && r.outcome == Done(body) && r.client.ws == Some(Pushes(events, c.sent))
            && r.client.sent == c.sent + 1 && r.client.script == rest && r.client.materials == c.materials
  {
    var marked := [Ack(kind, c.sent, body)] + Pushes(events, c.sent);
    assert [] + marked == marked && marked[1..] == Pushes(events, c.sent);
    assert c.script[1..][0] == Deliver && c.script[1..][1..] == rest;
  }

  lemma PromptPrelude(c: Client, rest: seq<Signal>)
    requires c.ws == Some([]) && c.materials
    requires c.script == [Answers(PRELUDE_ANSWER), Deliver, Answers(PRELUDE_ANSWER), Deliver] + rest
    ensures var r := SendLatestMaterials(c);
            r.outcome == Done(()) && r.client.ws == Some([]) && r.client.sent == c.sent + 2 && r.client.script == rest
  {
    hide Exchange;
    var later := [Answers(PRELUDE_ANSWER), Deliver] + rest;
    assert c.script == [Answers(PRELUDE_ANSWER), Deliver] + later;
    PromptExchange(c, TurnMaterials, PRELUDE_ANSWER.ack.value, [], later);
    var d := Exchange(c, TurnMaterials).client;
    assert Pushes([], c.sent) == [] && Pushes([], d.sent) == [];
    PromptExchange(d, PlaybackState, PRELUDE_ANSWER.ack.value, [], rest);
  }

  /** The reply to a request on a prompt network: the first orders of the answer, as many as are announced. */
  function PromptReply(kind: Kind, events: seq<Event>, announced: Option<int>, pending: bool, request: nat): Reply {
    Reply(request, First(OrdersOf(events, request), Wanted(kind, announced)), pending)
  }

  lemma PromptAnswered(c: Client, kind: Kind, events: seq<Event>, announced: Option<int>, pending: bool, request: nat)
    requires kind in {Observation, InitiativeTick, PollOrders} && Serves(events, kind, announced)
    requires c.ws == Some(Pushes(events, request)) && c.script == Reading(|events|)
    ensures Answered(c, kind, request, AckBody(announced, pending, true, true)).outcome
         == Done(PromptReply(kind, events, announced, pending, request))
  {
    hide ReadOrders, ReadExactly, Reading;
    assert Pushes(events, request)[0..] == Pushes(events, request) && events[..0] == [];
    assert OrdersOf(events[..0], request) == [];
    if kind.PollOrders? {
      ReadsSpoken(c, events, 0, request, if announced.Some? then announced.value else 0);
    } else {
      ReadsFirst(c, events, 0, request, kind, announced);
      ReadsFirst(c.(followupsPending := pending), events, 0, request, kind, announced);
    }
  }

  lemma OperateFrom(c: Client, kind: Kind, d: Client)
    requires c.ws.Some? && d.ws.Some? && Exchange(d, kind).outcome.Done?
    requires if kind.Observation? || kind.InitiativeTick? then SendLatestMaterials(c) == Step(d, Done(())) else d == c
    ensures Operate(c, kind) == Answered(Exchange(d, kind).client, kind, d.sent, Exchange(d, kind).outcome.value)
  {
    hide Exchange, Answered, SendLatestMaterials;
  }

  lemma PromptMain(c: Client, kind: Kind, d: Client, events: seq<Event>, announced: Option<int>, pending: bool)
    requires kind in {Observation, InitiativeTick, PollOrders} && c.ws.Some? && d.ws == Some([])
    requires if kind.Observation? || kind.InitiativeTick? then SendLatestMaterials(c) == Step(d, Done(())) else d == c
    requires d.script == MainScript(events, announced, pending) && Serves(events, kind, announced)
    ensures Operate(c, kind).outcome == Done(PromptReply(kind, events, announced, pending, d.sent))
  {
    hide Operate, Exchange, Answered, SendLatestMaterials, PromptReply, Reading, Serves;
    PromptExchange(d, kind, AckBody(announced, pending, true, true), events, Reading(|events|));
    OperateFrom(c, kind, d);
    PromptAnswered(Exchange(d, kind).client, kind, events, announced, pending, d.sent);
  }

  lemma PromptOperation(c: Client, kind: Kind, events: seq<Event>, announced: Option<int>, pending: bool)
    requires kind in {Observation, InitiativeTick, PollOrders} && c.ws == Some([]) && Serves(events, kind, announced)
    requires c.script == PromptScript(c, kind, events, announced, pending)
    ensures var request := c.sent + if c.materials && !kind.PollOrders? then 2 else 0;
            Operate(c, kind).outcome == Done(PromptReply(kind, events, announced, pending, request))
  {
    hide Operate, SendLatestMaterials, PromptReply, MainScript, Serves;
    var main := MainScript(events, announced, pending);
    if c.materials && !kind.PollOrders? {
      var prelude := [Answers(PRELUDE_ANSWER), Deliver, Answers(PRELUDE_ANSWER), Deliver];
      assert c.script == prelude + main;
      PromptPrelude(c, main);
      PromptMain(c, kind, SendLatestMaterials(c).client, events, announced, pending);
    } else {
      assert c.script == main;
      if !c.materials {
        NoMaterials(c);
      }
      PromptMain(c, kind, c, events, announced, pending);
    }
  }

  lemma NoMaterials(c: Client)
    requires c.ws.Some? && !c.materials
    ensures SendLatestMaterials(c) == Step(c, Done(()))
  {
  }

  /** A client with an empty socket or none, with or without materials to send, any mix of orders to speak, orders to
      stop and events it skips, and any announced number: on a prompt network the call returns the orders of the
      answer to its own request, in the peer's order and as many as are announced, with the peer's word on what is
      pending. */
  lemma PromptNetworkDeliversAll(c: Client, kind: Kind, events: seq<Event>, announced: Option<int>, pending: bool)
    requires kind in {Observation, InitiativeTick, PollOrders} && (c.ws.None? || c.ws == Some([]))
    requires c.script == PromptScript(c, kind, events, announced, pending) && Serves(events, kind, announced)
    ensures var request := c.sent + if c.materials && !kind.PollOrders? then 2 else 0;
            Perform(c, Request(kind)).outcome == Done(Some(PromptReply(kind, events, announced, pending, request)))
  {
    hide Operate, PromptReply, MainScript, Serves;
    var d := c;
    if c.ws.None? {
      var script := PromptScript(c.(ws := Some([])), kind, events, announced, pending);
      assert c.script == [Deliver, Deliver] + script;
      EnsuresEmpty(c, script);
      hide EnsureWs;
      d := OnEmptySocket(c, c.sent, script);
      PromptOperation(d, kind, events, announced, pending);
    } else {
      PromptOperation(c, kind, events, announced, pending);
    }
  }

  // ----- what an outside cancellation breaks -----

  /** At most one acknowledgement is unread, and it is of this kind. */
  ghost predicate Owes(inbox: seq<Message>, kind: Kind) {
    && (forall k :: 0 <= k < |inbox| && inbox[k].Ack? ==> inbox[k].kind == kind)
    && (forall j, k :: 0 <= j < k < |inbox| && inbox[j].Ack? ==> !inbox[k].Ack?)
  }

  predicate CarriesOrders(kind: Kind) { kind.Observation? || kind.InitiativeTick? || kind.PollOrders? }

  /** An operation that sends the cached materials first. */
  predicate Preludes(c: Client, kind: Kind) { c.materials && (kind.Observation? || kind.InitiativeTick?) }

  /** The acknowledgements an operation waits for. */
  predicate Awaits(c: Client, kind: Kind, awaited: Kind) {
    awaited == kind || (Preludes(c, kind) && (awaited.TurnMaterials? || awaited.PlaybackState?))
  }

  lemma CancelledInbox(c: Client, kind: Kind)
    requires c.ws.Some? && Exchange(c, kind).outcome.Cancelled?
    ensures var left := Exchange(c, kind).client.ws.value;
            left == c.ws.value || exists answer :: left == c.ws.value + Marked(kind, c.sent, answer)
  {
    hide Marked;
    assert Signalled(c).Cancel? || Signalled(c).Answers?;
  }

  /** A cancelled exchange leaves at most its own acknowledgement behind. */
  lemma ExchangeCancelled(c: Client, kind: Kind)
    requires c.ws.Some? && Quiet(c)
    ensures var r := Exchange(c, kind);
            r.client.materials == c.materials && (r.outcome.Cancelled? ==> Owes(r.client.ws.value, kind))
  {
    ExchangeKeepsMaterials(c, kind);
    hide Exchange, Marked, Owes;
    if Exchange(c, kind).outcome.Cancelled? {
      CancelledInbox(c, kind);
      QuietOwes(c, kind);
      var left := Exchange(c, kind).client.ws.value;
      if left != c.ws.value {
        var answer :| left == c.ws.value + Marked(kind, c.sent, answer);
        MarkedOwes(c.ws.value, kind, c.sent, answer);
      }
    }
  }

  lemma OwesAfterFirst(inbox: seq<Message>, owed: Kind)
    requires Owes(inbox, owed) && inbox != [] && inbox[0].Ack?
    ensures NoAck(inbox[1..])
  {
  }

  lemma MarkedOwes(inbox: seq<Message>, kind: Kind, request: nat, answer: Answer)
    requires NoAck(inbox)
    ensures Owes(inbox + Marked(kind, request, answer), kind)
  {
  }

  /** An exchange on a socket that owes an acknowledgement of another kind fails or was not affected. */
  lemma ExchangeOwing(c: Client, kind: Kind, owed: Kind)
    requires c.ws.Some? && Owes(c.ws.value, owed)
    ensures var r := Exchange(c, kind);
            && (r.outcome.Done? ==> Owes(r.client.ws.value, kind) && r.client.sent == c.sent + 1)
            && (r.outcome.Done? ==> c.sent in r.client.log)
            && (r.outcome.Done? && kind != owed ==>
                  Only(r.client.ws.value, c.sent, r.client.log[c.sent].events, 0) && Quiet(r.client))
  {
    if Exchange(c, kind).outcome.Done? {
      ExchangeReads(c, kind);
      var inbox, answer := c.ws.value, Signalled(c).answer;
      var marked := Marked(kind, c.sent, answer);
      if inbox == [] {
        ExchangeIsOwn(c, kind);
        hide Exchange, Marked, Owes, Quiet;
        QuietOwes(Exchange(c, kind).client, kind);
      } else {
        hide Exchange, Marked;
        assert (inbox + marked)[0] == inbox[0];
        assert (inbox + marked)[1..] == inbox[1..] + marked;
        OwesAfterFirst(inbox, owed);
        MarkedOwes(inbox[1..], kind, c.sent, answer);
      }
    }
  }

  lemma {:induction false} ReadOrdersQuiet(c: Client, expected: Option<int>, orders: seq<Order>)
    requires c.ws.Some? && Quiet(c)
    ensures var r := ReadOrders(c, expected, orders).client; Quiet(r) && r.materials == c.materials
    decreases |c.script|
  {
    var r := Recv(c);
    RecvQuiet(c);
    hide Quiet, Recv;
    if r.outcome.Done? {
      ReadOrdersQuiet(r.client, expected, orders);
      if r.outcome.value.Push? {
        var m := r.outcome.value;
        ReadOrdersQuiet(r.client, expected, orders + [Order(false, m.request, m.index)]);
        ReadOrdersQuiet(r.client, expected, orders + [Order(true, m.request, m.index)]);
      }
    }
  }

  lemma {:induction false} ReadExactlyQuiet(c: Client, count: int, orders: seq<Order>)
    requires c.ws.Some? && Quiet(c)
    ensures var r := ReadExactly(c, count, orders).client; Quiet(r) && r.materials == c.materials
    decreases |c.script|
  {
    var r := Recv(c);
    RecvQuiet(c);
    hide Quiet, Recv;
    if r.outcome.Done? && r.outcome.value.Push? {
      ReadExactlyQuiet(r.client, count, orders + [Order(false, r.outcome.value.request, r.outcome.value.index)]);
    }
  }

  lemma RecvQuiet(c: Client)
    requires c.ws.Some? && Quiet(c)
    ensures Quiet(Recv(c).client) && Recv(c).client.materials == c.materials
  {
  }

  lemma AnsweredQuiet(c: Client, kind: Kind, request: nat, ack: AckBody)
    requires c.ws.Some? && Quiet(c)
    ensures var r := Answered(c, kind, request, ack).client; Quiet(r) && r.materials == c.materials
  {
    hide ReadOrders, ReadExactly;
    ReadOrdersQuiet(c, ack.orderCount, []);
    ReadOrdersQuiet(c.(followupsPending := ack.pending), ack.orderCount, []);
    ReadExactlyQuiet(c, if ack.orderCount.Some? then ack.orderCount.value else 0, []);
  }

  lemma QuietOwes(c: Client, kind: Kind)
    requires c.ws.Some? && Quiet(c)
    ensures Owes(c.ws.value, kind)
  {
  }

  /** What a cancelled call can leave: the materials as they were, and on the socket, if there is one, at most one
      acknowledgement, of a kind the call was waiting for. */
  ghost predicate LeftOwing(before: Client, kind: Kind, after: Client) {
    && after.materials == before.materials
    && (after.ws.Some? ==> exists awaited :: Awaits(before, kind, awaited) && Owes(after.ws.value, awaited))
  }

  /** A cancelled operation leaves at most one acknowledgement behind, of a kind it was waiting for. */
  lemma OperateCancelled(c: Client, kind: Kind)
    requires c.ws.Some? && Quiet(c)
    ensures var r := Operate(c, kind);
            r.outcome.Cancelled? ==> LeftOwing(c, kind, r.client)
  {
    OperateKeepsMaterials(c, kind);
    hide Exchange, Answered, Owes, Quiet;
    var r := Operate(c, kind);
    var d := c;
    assert Awaits(c, kind, kind);
    if Preludes(c, kind) {
      assert Awaits(c, kind, TurnMaterials) && Awaits(c, kind, PlaybackState);
      var first := Exchange(c, TurnMaterials);
      ExchangeCancelled(c, TurnMaterials);
      ExchangeIsOwn(c, TurnMaterials);
      if !first.outcome.Done? {
        return;
      }
      var second := Exchange(first.client, PlaybackState);
      ExchangeCancelled(first.client, PlaybackState);
      ExchangeIsOwn(first.client, PlaybackState);
      if !second.outcome.Done? {
        return;
      }
      d := second.client;
    }
    var ack := Exchange(d, kind);
    ExchangeCancelled(d, kind);
    ExchangeIsOwn(d, kind);
    if ack.outcome.Done? {
      AnsweredQuiet(ack.client, kind, d.sent, ack.outcome.value);
      QuietOwes(r.client, kind);
    }
  }

  lemma SameMaterials(c: Client, d: Client, kind: Kind, after: Client)
    requires d.materials == c.materials && LeftOwing(d, kind, after)
    ensures LeftOwing(c, kind, after)
  {
    hide Owes;
    if after.ws.Some? {
      var awaited :| Awaits(d, kind, awaited) && Owes(after.ws.value, awaited);
      assert Awaits(c, kind, awaited);
    }
  }

  lemma QuietLeftOwing(c: Client, kind: Kind, after: Client)
    requires Quiet(after) && after.materials == c.materials
    ensures LeftOwing(c, kind, after)
  {
    assert Awaits(c, kind, kind);
    if after.ws.Some? {
      QuietOwes(after, kind);
    }
  }

  lemma {:induction false} WithReconnectCancelled(c: Client, kind: Kind, attempt: nat)
    requires attempt <= 1 && Quiet(c)
    ensures var r := WithReconnect(c, kind, attempt);
            r.outcome.Cancelled? ==> LeftOwing(c, kind, r.client)
    decreases 1 - attempt
  {
    hide Operate, EnsureWs, Quiet, LeftOwing;
    EnsureIsQuiet(c);
    var ready := EnsureWs(c);
    if ready.outcome.Done? {
      OperateCancelled(ready.client, kind);
      OperateKeepsMaterials(ready.client, kind);
      var r := Operate(ready.client, kind);
      if r.outcome.Cancelled? {
        SameMaterials(c, ready.client, kind, r.client);
      } else if r.outcome.ConnectionClosed? && attempt == 0 {
        DropIsQuiet(r.client);
        WithReconnectCancelled(Drop(r.client), kind, 1);
        if WithReconnect(Drop(r.client), kind, 1).outcome.Cancelled? {
          SameMaterials(c, Drop(r.client), kind, WithReconnect(Drop(r.client), kind, 1).client);
        }
      }
    } else {
      QuietLeftOwing(c, kind, ready.client);
    }
  }

  lemma DropIsQuiet(c: Client)
    ensures Quiet(Drop(c))
  {
  }

  lemma OperateKeepsMaterials(c: Client, kind: Kind)
    requires c.ws.Some?
    ensures Operate(c, kind).client.materials == c.materials
  {
    hide Exchange, Answered;
    ExchangeKeepsMaterials(c, TurnMaterials);
    var d := Exchange(c, TurnMaterials).client;
    ExchangeKeepsMaterials(d, PlaybackState);
    var e := SendLatestMaterials(c).client;
    ExchangeKeepsMaterials(e, kind);
    ExchangeKeepsMaterials(c, kind);
    forall f: Client, request: nat, ack: AckBody | f.ws.Some?
      ensures Answered(f, kind, request, ack).client.materials == f.materials
    {
      AnsweredKeepsMaterials(f, kind, request, ack);
    }
  }

  lemma ExchangeKeepsMaterials(c: Client, kind: Kind)
    requires c.ws.Some?
    ensures Exchange(c, kind).client.materials == c.materials
    ensures Exchange(c, kind).client.followupsPending == c.followupsPending
  {
    hide Marked;
  }

  lemma RecvKeepsFields(c: Client)
    requires c.ws.Some?
    ensures var d := Recv(c).client; d.materials == c.materials && d.followupsPending == c.followupsPending
  {
  }

  lemma {:induction false} OrdersKeepFields(c: Client, expected: Option<int>, orders: seq<Order>)
    requires c.ws.Some?
    ensures var d := ReadOrders(c, expected, orders).client;
            d.materials == c.materials && d.followupsPending == c.followupsPending
    decreases |c.script|
  {
    hide Recv;
    RecvKeepsFields(c);
    var r := Recv(c);
    if r.outcome.Done? {
      OrdersKeepFields(r.client, expected, orders);
      if r.outcome.value.Push? {
        var m := r.outcome.value;
        OrdersKeepFields(r.client, expected, orders + [Order(false, m.request, m.index)]);
        OrdersKeepFields(r.client, expected, orders + [Order(true, m.request, m.index)]);
      }
    }
  }

  lemma {:induction false} PollKeepsFields(c: Client, count: int, orders: seq<Order>)
    requires c.ws.Some?
    ensures var d := ReadExactly(c, count, orders).client;
            d.materials == c.materials && d.followupsPending == c.followupsPending
    decreases |c.script|
  {
    hide Recv;
    RecvKeepsFields(c);
    var r := Recv(c);
    if r.outcome.Done? && r.outcome.value.Push? {
      PollKeepsFields(r.client, count, orders + [Order(false, r.outcome.value.request, r.outcome.value.index)]);
    }
  }

  lemma AnsweredKeepsMaterials(c: Client, kind: Kind, request: nat, ack: AckBody)
    requires c.ws.Some?
    ensures var r := Answered(c, kind, request, ack);
            && r.client.materials == c.materials
            && r.client.followupsPending == if kind.Observation? then ack.pending else c.followupsPending
  {
    hide ReadOrders, ReadExactly;
    var count := if ack.orderCount.Some? then ack.orderCount.value else 0;
    OrdersKeepFields(c, ack.orderCount, []);
    OrdersKeepFields(c.(followupsPending := ack.pending), ack.orderCount, []);
    PollKeepsFields(c, count, []);
  }

  /** A socket that owes an acknowledgement is harmless to an operation that sends materials first, that waits for
      another kind, or that carries no orders. */
  lemma OperateOwing(c: Client, kind: Kind, owed: Kind)
    requires c.ws.Some? && Owes(c.ws.value, owed)
    requires Preludes(c, kind) || owed != kind || !CarriesOrders(kind)
    ensures var r := Operate(c, kind); r.outcome.Done? ==> IsOwn(r.outcome.value, r.client)
  {
    hide Exchange, Answered, Owes, Quiet, IsOwn;
    if Preludes(c, kind) {
      var first := Exchange(c, TurnMaterials);
      ExchangeOwing(c, TurnMaterials, owed);
      if first.outcome.Done? {
        var second := Exchange(first.client, PlaybackState);
        ExchangeOwing(first.client, PlaybackState, TurnMaterials);
        if second.outcome.Done? {
          var ack := Exchange(second.client, kind);
          ExchangeIsOwn(second.client, kind);
          if ack.outcome.Done? {
            AnsweredIsOwn(ack.client, kind, second.client.sent, ack.outcome.value);
          }
        }
      }
    } else {
      var ack := Exchange(c, kind);
      ExchangeOwing(c, kind, owed);
      if ack.outcome.Done? {
        if owed != kind {
          AnsweredIsOwn(ack.client, kind, c.sent, ack.outcome.value);
        } else {
          AnsweredWithout(ack.client, kind, c.sent, ack.outcome.value);
        }
      }
    }
  }

  lemma AnsweredWithout(c: Client, kind: Kind, request: nat, ack: AckBody)
    requires c.ws.Some? && !CarriesOrders(kind) && request in c.log
    ensures var r := Answered(c, kind, request, ack); r.outcome.Done? && IsOwn(r.outcome.value, r.client)
  {
    NothingOwned(request, c.log[request].events);
  }

  lemma CallOwing(c: Client, kind: Kind, owed: Kind)
    requires c.ws.Some? ==> Owes(c.ws.value, owed)
    requires Preludes(c, kind) || owed != kind || !CarriesOrders(kind)
    ensures var r := WithReconnect(c, kind, 0); r.outcome.Done? ==> IsOwn(r.outcome.value, r.client)
  {
    hide Operate, IsOwn;
    if c.ws.None? {
      WithReconnectIsOwn(c, kind, 0);
    } else {
      OperateOwing(c, kind, owed);
      var r := Operate(c, kind);
      WithReconnectIsOwn(Drop(r.client), kind, 1);
    }
  }

  /** An order of the reply answers another request. */
  ghost predicate Foreign(reply: Reply) {
    exists k :: 0 <= k < |reply.orders| && reply.orders[k].request != reply.request
  }

  /** The client after a cancelled call, the materials possibly updated since. */
  function AfterCancelled(c: Client, first: Kind, update: bool): Client {
    var d := WithReconnect(c, first, 0).client;
    if update then d.(materials := true) else d
  }

  /** A call is cancelled from outside, and the next one returns orders that are not its own. */
  ghost predicate Leaks(c: Client, first: Kind, update: bool, next: Kind) {
    && WithReconnect(c, first, 0).outcome.Cancelled?
    && var o := Perform(AfterCancelled(c, first, update), Request(next)).outcome;
       o.Done? && o.value.Some? && Foreign(o.value.value)
  }

  /** The calls between which a cancellation can leak orders. */
  predicate CanLeak(c: Client, first: Kind, update: bool, next: Kind) {
    first == next && CarriesOrders(next) && (next.PollOrders? || !(c.materials || update))
  }

  lemma PerformReply(c: Client, kind: Kind)
    ensures var o, r := Perform(c, Request(kind)).outcome, WithReconnect(c, kind, 0).outcome;
            o.Done? && o.value.Some? ==> r.Done? && o.value.value == r.value
  {
    hide WithReconnect;
  }

  lemma OwnIsNotForeign(reply: Reply, c: Client)
    requires IsOwn(reply, c)
    ensures !Foreign(reply)
  {
    hide IsOwn;
    forall k | 0 <= k < |reply.orders| ensures reply.orders[k].request == reply.request {
      OwnOrder(reply, c, k);
    }
  }

  /** A call that cannot leak is harmless after any cancellation. */
  lemma Harmless(c: Client, first: Kind, update: bool, next: Kind, awaited: Kind)
    requires !CanLeak(c, first, update, next) && Awaits(c, first, awaited)
    ensures Preludes(c.(materials := c.materials || update), next) || awaited != next || !CarriesOrders(next)
  {
  }

  lemma NextIsOwn(c: Client, first: Kind, update: bool, next: Kind)
    requires Quiet(c) && !CanLeak(c, first, update, next) && WithReconnect(c, first, 0).outcome.Cancelled?
    ensures var r := WithReconnect(AfterCancelled(c, first, update), next, 0);
            r.outcome.Done? ==> IsOwn(r.outcome.value, r.client)
  {
    WithReconnectCancelled(c, first, 0);
    var d := AfterCancelled(c, first, update);
    hide WithReconnect, Owes, IsOwn, Quiet, CanLeak;
    assert d.materials == (c.materials || update);
    if d.ws.Some? {
      var awaited :| Awaits(c, first, awaited) && Owes(d.ws.value, awaited);
      Harmless(c, first, update, next, awaited);
      CallOwing(d, next, awaited);
    } else {
      CallOwing(d, next, if next.Reset? then Fixture else Reset);
    }
  }

  lemma NoLeak(c: Client, first: Kind, update: bool, next: Kind)
    requires Quiet(c) && !CanLeak(c, first, update, next)
    ensures !Leaks(c, first, update, next)
  {
    hide WithReconnect, Perform, IsOwn, Foreign, Quiet, CanLeak, AfterCancelled;
    if WithReconnect(c, first, 0).outcome.Cancelled? {
      NextIsOwn(c, first, update, next);
      var d := AfterCancelled(c, first, update);
      PerformReply(d, next);
      var r := WithReconnect(d, next, 0);
      if r.outcome.Done? {
        OwnIsNotForeign(r.outcome.value, r.client);
      }
    }
  }

  // ----- what a call leaves in the client's fields -----

  /** A reply says what its acknowledgement said, and a malformed acknowledgement gives no reply. */
  ghost predicate Fits(reply: Reply, kind: Kind, c: Client) {
    && reply.request in c.log && c.log[reply.request].ack.Some?
    && var ack := c.log[reply.request].ack.value;
       if CarriesOrders(kind) then
         && reply.pending == ack.pending && (!kind.PollOrders? ==> ack.valid)
         && (kind.InitiativeTick? ==> ack.intentValid)
       else reply.orders == [] && !reply.pending
  }

  lemma AnsweredFits(c: Client, kind: Kind, request: nat, ack: AckBody)
    requires c.ws.Some? && request in c.log && c.log[request].ack == Some(ack)
    requires Only(c.ws.value, request, c.log[request].events, 0)
    ensures var r := Answered(c, kind, request, ack);
            r.outcome.Done? ==> Fits(r.outcome.value, kind, r.client)
  {
    AnsweredIsOwn(c, kind, request, ack);
    hide ReadOrders, ReadExactly, IsOwn, Only;
  }

  ghost predicate Leaves(before: Client, kind: Kind, r: Step<Reply>) {
    && r.client.materials == before.materials
    && (!kind.Observation? ==> r.client.followupsPending == before.followupsPending)
    && (r.outcome.Done? ==> Fits(r.outcome.value, kind, r.client))
    && (r.outcome.Done? && kind.Observation? ==> r.client.followupsPending == r.outcome.value.pending)
  }

  lemma OperateFits(c: Client, kind: Kind)
    requires c.ws.Some? && Quiet(c)
    ensures Leaves(c, kind, Operate(c, kind))
  {
    hide Exchange, Answered, Only, Fits, Quiet, EnsureWs, ReadOrders, ReadExactly;
    OperateKeepsMaterials(c, kind);
    var d := c;
    if kind.Observation? || kind.InitiativeTick? {
      ExchangeIsOwn(c, TurnMaterials);
      ExchangeKeepsMaterials(c, TurnMaterials);
      var first := Exchange(c, TurnMaterials);
      if first.outcome.Done? {
        ExchangeIsOwn(first.client, PlaybackState);
        ExchangeKeepsMaterials(first.client, PlaybackState);
      }
      d := SendLatestMaterials(c).client;
      if !SendLatestMaterials(c).outcome.Done? {
        return;
      }
    }
    ExchangeIsOwn(d, kind);
    ExchangeKeepsMaterials(d, kind);
    var ack := Exchange(d, kind);
    if ack.outcome.Done? {
      AnsweredFits(ack.client, kind, d.sent, ack.outcome.value);
      AnsweredKeepsMaterials(ack.client, kind, d.sent, ack.outcome.value);
      AnsweredPending(ack.client, kind, d.sent, ack.outcome.value);
    }
  }

  lemma AnsweredPending(c: Client, kind: Kind, request: nat, ack: AckBody)
    requires c.ws.Some?
    ensures var r := Answered(c, kind, request, ack);
            r.outcome.Done? && kind.Observation? ==> r.outcome.value.pending == ack.pending
  {
    hide ReadOrders, ReadExactly;
  }

  lemma LeavesAgain(before: Client, kind: Kind, r: Step<Reply>, again: Step<Reply>)
    requires Leaves(before, kind, r) && Leaves(Drop(r.client), kind, again)
    ensures Leaves(before, kind, again)
  {
    hide Fits;
  }

  lemma LeavesDropped(before: Client, kind: Kind, r: Step<Reply>)
    requires Leaves(before, kind, r) && !r.outcome.Done?
    ensures Leaves(before, kind, Step(Drop(r.client), r.outcome))
  {
  }

  lemma SameFields(before: Client, c: Client, kind: Kind, r: Step<Reply>)
    requires c.materials == before.materials && c.followupsPending == before.followupsPending
    requires Leaves(c, kind, r)
    ensures Leaves(before, kind, r)
  {
    hide Fits;
  }

  lemma EnsureKeepsFields(c: Client)
    ensures var r := EnsureWs(c).client; r.materials == c.materials && r.followupsPending == c.followupsPending
  {
  }

  lemma {:induction false} WithReconnectFits(c: Client, kind: Kind, attempt: nat)
    requires attempt <= 1 && Quiet(c)
    ensures Leaves(c, kind, WithReconnect(c, kind, attempt))
    decreases 1 - attempt
  {
    EnsureIsQuiet(c);
    EnsureKeepsFields(c);
    hide Operate, EnsureWs, Quiet, Fits;
    var ready := EnsureWs(c);
    if ready.outcome.Done? {
      hide Leaves;
      OperateFits(ready.client, kind);
      var r := Operate(ready.client, kind);
      SameFields(c, ready.client, kind, r);
      if !r.outcome.Done? {
        LeavesDropped(c, kind, r);
      }
      if r.outcome.ConnectionClosed? && attempt == 0 {
        DropIsQuiet(r.client);
        WithReconnectFits(Drop(r.client), kind, 1);
        LeavesAgain(c, kind, r, WithReconnect(Drop(r.client), kind, 1));
      }
    }
  }

  /** What each public call does to the fields: a reply to an observation or a poll says whether work is pending, a
      reset forgets the materials, and nothing else touches either. */
  lemma FieldsAfter(c: Client, call: Call)
    requires Quiet(c)
    ensures var r := Perform(c, call);
            match call
            case Request(kind) =>
              if r.outcome.Done? then
                && r.outcome.value.Some? && Fits(r.outcome.value.value, kind, r.client)
                && r.client.materials == (c.materials && !kind.Reset?)
                && r.client.followupsPending ==
                     if kind.Observation? || kind.PollOrders? then r.outcome.value.value.pending else c.followupsPending
              else
                && r.client.materials == c.materials
                && (!kind.Observation? ==> r.client.followupsPending == c.followupsPending)
            case CancelledPoll =>
              && r.client.materials == c.materials && r.client.followupsPending == c.followupsPending
              && r.outcome == if WithReconnect(c, PollOrders, 0).outcome.Cancelled? then Cancelled else Done(None)
            case UpdateTurnMaterials => r == Step(c.(materials := true), Done(None))
            case AClose => r == Step(c.(ws := None), Done(None))
  {
    hide WithReconnect, Fits, Quiet;
    if call.Request? {
      WithReconnectFits(c, call.kind, 0);
      var r := WithReconnect(c, call.kind, 0);
      if r.outcome.Done? {
        FitsStays(r.outcome.value, call.kind, r.client, Perform(c, call).client);
      }
    } else if call.CancelledPoll? {
      WithReconnectFits(c, PollOrders, 0);
    }
  }

  lemma FitsStays(reply: Reply, kind: Kind, c: Client, d: Client)
    requires d.log == c.log
    ensures Fits(reply, kind, c) <==> Fits(reply, kind, d)
  {
  }

  /** A client without a socket connects exactly when the network lets it and delivers the banner; what goes wrong
      there is told apart, and only then is a message read. */
  lemma ConnectsExactly(c: Client)
    requires c.ws.None?
    ensures var r, connect, banner := EnsureWs(c), Signalled(c), Signalled(Tick(c));
            && (r.outcome.Done? <==> connect.Deliver? && banner.Deliver?)
            && (r.outcome.Cancelled? <==> connect.Cancel? || (connect.Deliver? && banner.Cancel?))
            && (r.outcome.Error? <==> !connect.Deliver? && !connect.Cancel?)
            && (r.outcome.ConnectionClosed? <==> connect.Deliver? && banner.Close?)
            && (r.client.ws.Some? <==> connect.Deliver?)
            && (r.outcome.Done? ==> r.client.ws == Some([]))
  {
    assert [Ready][1..] == [];
  }

  /** A send that is cancelled may have gone out all the same, and then its whole answer is left to be read. */
  lemma CancelledSend(c: Client, kind: Kind, answer: Answer)
    requires c.ws.Some? && Signalled(c) == Cancel(Some(answer))
    ensures var r := Exchange(c, kind);
            && r.outcome == Cancelled && r.client.sent == c.sent + 1
            && r.client.ws == Some(c.ws.value + (if answer.ack.None? then [] else [Ack(kind, c.sent, answer.ack.value)])
                                   + Pushes(answer.events, c.sent))
  {
    var acks := if answer.ack.None? then [] else [Ack(kind, c.sent, answer.ack.value)];
    assert Marked(kind, c.sent, answer) == acks + Pushes(answer.events, c.sent);
    assert c.ws.value + (acks + Pushes(answer.events, c.sent)) == c.ws.value + acks + Pushes(answer.events, c.sent);
    hide Marked;
  }

  // ----- a script on which it leaks, for every quiet client -----

  const ONE_ORDER := AckBody(Some(1), false, true, true)
  const ONE_ANSWER := Answer(Some(ONE_ORDER), [SpeechOrder(true)])

  /** Whatever the client's socket, this gives it an empty one. */
  function Connecting(c: Client): seq<Signal> {
    if c.ws.None? then [Deliver, Deliver] else if c.ws.value == [] then [] else [Close, Deliver, Deliver]
  }

  /** Request and answer, cancelled before the acknowledgement is read; then the next request and its answer. */
  const LEAKING := [Answers(ONE_ANSWER), Cancel(None), Answers(ONE_ANSWER), Deliver, Deliver]

  function OnEmptySocket(c: Client, sent: nat, script: seq<Signal>): Client {
    Client(Some([]), c.materials, c.followupsPending, sent, c.log, script)
  }

  /** The first attempt, or the second one after a closed connection, runs on an empty socket. */
  lemma Connects(c: Client, kind: Kind, script: seq<Signal>) returns (sent: nat)
    requires !Preludes(c, kind)
    requires forall n: nat :: Operate(OnEmptySocket(c, n, script), kind).outcome.Cancelled?
    ensures WithReconnect(c.(script := Connecting(c) + script), kind, 0)
         == Operate(OnEmptySocket(c, sent, script), kind)
  {
    hide Operate, EnsureWs;
    var d := c.(script := Connecting(c) + script);
    if c.ws.None? {
      sent := c.sent;
      assert OnEmptySocket(d, d.sent, script) == OnEmptySocket(c, sent, script);
      NewSocket(d, kind, script, 0);
    } else if c.ws.value == [] {
      sent := c.sent;
      assert [] + script == script;
      assert d == OnEmptySocket(c, sent, script);
      OnOpenSocket(d, kind);
    } else {
      sent := c.sent + 1;
      ClosesAtOnce(d, kind);
      var e := Drop(Tick(d).(sent := c.sent + 1));
      assert d.script[1..] == [Deliver, Deliver] + script;
      assert OnEmptySocket(e, e.sent, script) == OnEmptySocket(c, sent, script);
      NewSocket(e, kind, script, 1);
      OnOpenSocket(d, kind);
    }
  }

  lemma OnOpenSocket(c: Client, kind: Kind)
    requires c.ws.Some?
    ensures var r := Operate(c, kind);
            && (r.outcome.Cancelled? || r.outcome.Done? ==> WithReconnect(c, kind, 0) == r)
            && (r.outcome.ConnectionClosed? ==> WithReconnect(c, kind, 0) == WithReconnect(Drop(r.client), kind, 1))
  {
    hide Operate;
  }

  lemma ClosesAtOnce(c: Client, kind: Kind)
    requires c.ws.Some? && Signalled(c).Close? && !Preludes(c, kind)
    ensures Operate(c, kind) == Step(Tick(c).(sent := c.sent + 1), ConnectionClosed)
  {
    hide Answered, ReceiveAck;
  }

  lemma NewSocket(c: Client, kind: Kind, script: seq<Signal>, attempt: nat)
    requires attempt <= 1 && c.ws.None? && c.script == [Deliver, Deliver] + script
    requires Operate(OnEmptySocket(c, c.sent, script), kind).outcome.Cancelled?
    ensures WithReconnect(c, kind, attempt) == Operate(OnEmptySocket(c, c.sent, script), kind)
  {
    hide Operate, EnsureWs;
    EnsuresEmpty(c, script);
  }

  lemma EnsuresEmpty(c: Client, script: seq<Signal>)
    requires c.ws.None? && c.script == [Deliver, Deliver] + script
    ensures EnsureWs(c) == Step(OnEmptySocket(c, c.sent, script), Done(()))
  {
    assert c.script[0] == Deliver && c.script[1..][0] == Deliver && c.script[1..][1..] == script;
    assert [Ready][1..] == [];
  }

  lemma CancelsUnread(c: Client, kind: Kind, sent: nat)
    requires !Preludes(c, kind)
    ensures Operate(OnEmptySocket(c, sent, LEAKING), kind)
         == Step(Client(Some(Marked(kind, sent, ONE_ANSWER)), c.materials, c.followupsPending, sent + 1,
                        c.log[sent := ONE_ANSWER], LEAKING[2..]),
                 Cancelled)
  {
    assert [] + Marked(kind, sent, ONE_ANSWER) == Marked(kind, sent, ONE_ANSWER);
    assert LEAKING[1..][0] == Cancel(None) && LEAKING[1..][1..] == LEAKING[2..];
  }

  lemma NextReadsForeign(c: Client, kind: Kind, sent: nat)
    requires CarriesOrders(kind) && !Preludes(c, kind)
    requires c.ws == Some(Marked(kind, sent, ONE_ANSWER)) && c.sent == sent + 1 && c.script == LEAKING[2..]
    ensures WithReconnect(c, kind, 0).outcome == Done(Reply(sent + 1, [Order(false, sent, 0)], false))
  {
    hide Operate, SendLatestMaterials;
    var stale, newer := Marked(kind, sent, ONE_ANSWER), Marked(kind, sent + 1, ONE_ANSWER);
    var e := Client(Some((stale + newer)[1..]), c.materials, c.followupsPending, sent + 2,
                    c.log[sent + 1 := ONE_ANSWER], [Deliver]);
    StaleAck(c, kind, e);
    if !kind.PollOrders? {
      NoMaterials(c);
    }
    OperateFrom(c, kind, c);
    ForeignAnswered(e, kind, sent);
    OnOpenSocket(c, kind);
  }

  lemma StaleAck(c: Client, kind: Kind, e: Client)
    requires e.sent >= 2 && c.sent == e.sent - 1 && c.ws == Some(Marked(kind, e.sent - 2, ONE_ANSWER))
    requires c.script == LEAKING[2..]
    requires var all := Marked(kind, e.sent - 2, ONE_ANSWER) + Marked(kind, e.sent - 1, ONE_ANSWER);
             e == Client(Some(all[1..]), c.materials, c.followupsPending, e.sent,
                         c.log[e.sent - 1 := ONE_ANSWER], [Deliver])
    ensures Exchange(c, kind) == Step(e, Done(ONE_ORDER))
  {
    assert c.script[1..][1..] == [Deliver];
  }

  lemma ForeignAnswered(e: Client, kind: Kind, sent: nat)
    requires CarriesOrders(kind) && e.script == [Deliver]
    requires e.ws == Some((Marked(kind, sent, ONE_ANSWER) + Marked(kind, sent + 1, ONE_ANSWER))[1..])
    ensures Answered(e, kind, sent + 1, ONE_ORDER).outcome == Done(Reply(sent + 1, [Order(false, sent, 0)], false))
  {
    var stale, newer := Marked(kind, sent, ONE_ANSWER), Marked(kind, sent + 1, ONE_ANSWER);
    assert stale == [Ack(kind, sent, ONE_ORDER), Push(SpeechOrder(true), sent, 0)];
    ReadsForeign(e, stale, newer, sent);
    ReadsForeign(e.(followupsPending := false), stale, newer, sent);
    hide Marked, ReadOrders, ReadExactly;
  }

  lemma ReadsForeign(e: Client, stale: seq<Message>, newer: seq<Message>, sent: nat)
    requires |stale| == 2 && stale[1] == Push(SpeechOrder(true), sent, 0)
    requires e.ws == Some((stale + newer)[1..]) && e.script == [Deliver]
    ensures ReadOrders(e, Some(1), []).outcome == Done([Order(false, sent, 0)])
    ensures ReadExactly(e, 1, []).outcome == Done([Order(false, sent, 0)])
  {
    var none: seq<Order> := [];
    assert none + [Order(false, sent, 0)] == [Order(false, sent, 0)];
    assert Recv(e).outcome == Done(stale[1]);
  }

  lemma LeakingScriptLeaks(c: Client, kind: Kind, update: bool)
    requires CanLeak(c, kind, update, kind)
    ensures Leaks(c.(script := Connecting(c) + LEAKING), kind, update, kind)
  {
    hide Operate, WithReconnect, Marked, Connecting;
    forall n: nat
      ensures Operate(OnEmptySocket(c, n, LEAKING), kind).outcome.Cancelled?
    {
      CancelsUnread(c, kind, n);
    }
    var sent := Connects(c, kind, LEAKING);
    CancelsUnread(c, kind, sent);
    var d := AfterCancelled(c.(script := Connecting(c) + LEAKING), kind, update);
    NextReadsForeign(d, kind, sent);
    var reply := Reply(sent + 1, [Order(false, sent, 0)], false);
    assert reply.orders[0].request != reply.request;
    assert Foreign(reply);
  }

  /** For every quiet client: after a call that is cancelled from outside, some behaviour of network and peer makes
      the next call return orders that are not its own if and only if both calls are of the same kind, the kind
      carries orders, and the next one does not send cached materials first. */
  lemma CancellationLeaksExactly(c: Client, first: Kind, update: bool, next: Kind)
    requires Quiet(c)
    ensures (exists script :: Leaks(c.(script := script), first, update, next)) <==> CanLeak(c, first, update, next)
  {
    hide Leaks;
    if CanLeak(c, first, update, next) {
      LeakingScriptLeaks(c, next, update);
    } else {
      forall script
        ensures !Leaks(c.(script := script), first, update, next)
      {
        NoLeak(c.(script := script), first, update, next);
      }
    }
  }

  // ----- the client object -----

  class RemoteTomokoWsCore {
    var ws: Option<seq<Message>>
    var latestMaterials: bool
    var followupsPending: bool
    var sent: nat
    var log: map<nat, Answer>
    var script: seq<Signal>

    function View(): Client
      reads this
    {
      Client(ws, latestMaterials, followupsPending, sent, log, script)
    }

    constructor (script: seq<Signal>)
      ensures View() == Client(None, false, false, 0, map[], script)
    {
      ws, latestMaterials, followupsPending, sent, log := None, false, false, 0, map[];
      this.script := script;
    }

    /** The next thing the network does. */
    method NextSignal() returns (s: Signal)
      modifies this`script
      ensures s == Signalled(old(View())) && View() == Tick(old(View()))
    {
      if script == [] {
        return Close;
      }
      s := script[0];
      script := script[1..];
    }

    method SendRequest(kind: Kind) returns (o: Outcome<()>)
      requires ws.Some?
      modifies this
      ensures Step(View(), o) == Send(old(View()), kind)
    {
      var s := NextSignal();
      var request := sent;
      sent := sent + 1;
      match s {
        case Answers(answer) =>
          ws, log := Some(ws.value + Marked(kind, request, answer)), log[request := answer];
          return Done(());
        case Cancel(out) =>
          if out.Some? {
            ws, log := Some(ws.value + Marked(kind, request, out.value)), log[request := out.value];
          }
          return Cancelled;
        case _ =>
          return ConnectionClosed;
      }
    }

    method Receive() returns (o: Outcome<Message>)
      requires ws.Some?
      modifies this
      ensures Step(View(), o) == Recv(old(View()))
    {
      var s := NextSignal();
      if s.Close? {
        return ConnectionClosed;
      }
      if s.Cancel? {
        return Cancelled;
      }
      if !s.Deliver? || ws.value == [] {
        return TimedOut;
      }
      o := Done(ws.value[0]);
      ws := Some(ws.value[1..]);
    }

    method RequestAndAck(kind: Kind) returns (o: Outcome<AckBody>)
      requires ws.Some?
      modifies this
      ensures Step(View(), o) == Exchange(old(View()), kind)
    {
      var out := SendRequest(kind);
      if !out.Done? {
        return Fail<(), AckBody>(View(), out).outcome;
      }
      var got := Receive();
      if !got.Done? {
        return Fail<Message, AckBody>(View(), got).outcome;
      }
      o := if got.value.Ack? && got.value.kind == kind then Done(got.value.body) else Error;
    }

    method SendLatest() returns (o: Outcome<()>)
      requires ws.Some?
      modifies this
      ensures Step(View(), o) == SendLatestMaterials(old(View()))
    {
      if !latestMaterials {
        return Done(());
      }
      var first := RequestAndAck(TurnMaterials);
      if !first.Done? {
        return Fail<AckBody, ()>(View(), first).outcome;
      }
      var second := RequestAndAck(PlaybackState);
      o := if second.Done? then Done(()) else Fail<AckBody, ()>(View(), second).outcome;
    }

    /** The receive loop of an observation or a tick. */
    method CollectOrders(expected: Option<int>) returns (o: Outcome<seq<Order>>)
      requires ws.Some?
      modifies this
      ensures Step(View(), o) == ReadOrders(old(View()), expected, [])
    {
      var orders: seq<Order> := [];
      while if expected.Some? then |orders| < expected.value else orders == []
        invariant ws.Some?
        invariant ReadOrders(View(), expected, orders) == ReadOrders(old(View()), expected, [])
        decreases |script|
      {
        var got := Receive();
        match got {
          case TimedOut => return Done(orders);
          case Done(Push(SpeechOrder(valid), request, index)) =>
            if !valid {
              return Error;
            }
            orders := orders + [Order(false, request, index)];
          case Done(Push(CancelOrder(valid), request, index)) =>
            if !valid {
              return Error;
            }
            orders := orders + [Order(true, request, index)];
          case Done(Push(ErrorEvent, _, _)) => return Error;
          case Done(Push(Garbage, _, _)) => return Error;
          case Done(_) =>
          case ConnectionClosed => return ConnectionClosed;
          case Error => return Error;
          case Cancelled => return Cancelled;
        }
      }
      return Done(orders);
    }

    /** The counted receive loop of a poll. */
    method CollectExactly(count: int) returns (o: Outcome<seq<Order>>)
      requires ws.Some?
      modifies this
      ensures Step(View(), o) == ReadExactly(old(View()), count, [])
    {
      var orders: seq<Order> := [];
      while |orders| < count
        invariant ws.Some?
        invariant ReadExactly(View(), count, orders) == ReadExactly(old(View()), count, [])
        decreases |script|
      {
        var got := Receive();
        match got {
          case Done(Push(SpeechOrder(valid), request, index)) =>
            if !valid {
              return Error;
            }
            orders := orders + [Order(false, request, index)];
          case Done(_) => return Error;
          case TimedOut => return TimedOut;
          case ConnectionClosed => return ConnectionClosed;
          case Error => return Error;
          case Cancelled => return Cancelled;
        }
      }
      return Done(orders);
    }

    method HandleWs(kind: Kind) returns (o: Outcome<Reply>)
      requires ws.Some?
      modifies this
      ensures Step(View(), o) == Operate(old(View()), kind)
    {
      hide Exchange, ReadOrders, ReadExactly, SendLatestMaterials;
      if kind.Observation? || kind.InitiativeTick? {
        var ready := SendLatest();
        if !ready.Done? {
          return Fail<(), Reply>(View(), ready).outcome;
        }
      }
      var request := sent;
      var ack := RequestAndAck(kind);
      if !ack.Done? {
        return Fail<AckBody, Reply>(View(), ack).outcome;
      }
      var body := ack.value;
      var got: Outcome<seq<Order>> := Done([]);
      if kind.Observation? {
        followupsPending := body.pending;
      }
      if (kind.Observation? || kind.InitiativeTick?) && !body.valid {
        return Error;
      }
      if kind.Observation? || kind.InitiativeTick? {
        got := CollectOrders(body.orderCount);
      } else if kind.PollOrders? {
        got := CollectExactly(if body.orderCount.Some? then body.orderCount.value else 0);
      } else {
        return Done(Reply(request, [], false));
      }
      if !got.Done? {
        return Fail<seq<Order>, Reply>(View(), got).outcome;
      }
      if kind.InitiativeTick? && !body.intentValid {
        return Error;
      }
      return Done(Reply(request, got.value, body.pending));
    }

    method EnsureConnected() returns (o: Outcome<()>)
      modifies this
      ensures Step(View(), o) == EnsureWs(old(View()))
    {
      if ws.Some? {
        return Done(());
      }
      var s := NextSignal();
      if s.Cancel? {
        return Cancelled;
      }
      if !s.Deliver? {
        return Error;
      }
      ws := Some([Ready]);
      var got := Receive();
      if !got.Done? {
        return Fail<Message, ()>(View(), got).outcome;
      }
      o := if got.value.Ready? then Done(()) else Error;
    }

    method DropWs()
      modifies this
      ensures View() == Drop(old(View()))
    {
      ws := None;
    }

    /** The two attempts of `_with_reconnect`. */
    method RunWithReconnect(kind: Kind) returns (o: Outcome<Reply>)
      modifies this
      ensures Step(View(), o) == WithReconnect(old(View()), kind, 0)
    {
      hide Operate, EnsureWs;
      for attempt := 0 to 2
        invariant WithReconnect(old(View()), kind, 0) ==
                    if attempt <= 1 then WithReconnect(View(), kind, attempt) else Step(View(), ConnectionClosed)
      {
        var ready := EnsureConnected();
        if !ready.Done? {
          return Fail<(), Reply>(View(), ready).outcome;
        }
        o := HandleWs(kind);
        if o.Done? || o.Cancelled? {
          return;
        }
        DropWs();
        if !o.ConnectionClosed? || attempt == 1 {
          return;
        }
      }
      o := ConnectionClosed;
    }

    /** Any public call. */
    method Call(call: Call) returns (o: Outcome<Option<Reply>>)
      modifies this
      ensures Step(View(), o) == Perform(old(View()), call)
    {
      hide WithReconnect;
      match call {
        case Request(kind) =>
          var r := RunWithReconnect(kind);
          if !r.Done? {
            return Fail<Reply, Option<Reply>>(View(), r).outcome;
          }
          if kind.PollOrders? {
            followupsPending := r.value.pending;
          }
          if kind.Reset? {
            latestMaterials := false;
          }
          return Done(Some(r.value));
        case CancelledPoll =>
          var lost := RunWithReconnect(PollOrders);
          return if lost.Cancelled? then Cancelled else Done(None);
        case UpdateTurnMaterials =>
          latestMaterials := true;
          return Done(None);
        case AClose =>
          DropWs();
          return Done(None);
      }
    }
  }
}
