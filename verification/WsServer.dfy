/** The WebSocket hub as a state machine over its atomic steps, the code between two suspension points.
    A send takes its number and its place in the connection's order in one step; whether it goes through
    is part of the event. */
module WsServer {
  import opened Options
  import opened Markets

  const MAX_CLIENTS := 20
  const THROTTLE_MS := 100

  /** The identity of a connection; never reused. */
  type ClientId = nat

  datatype Channel = Prices | Spreads | Alerts | ExchangeStatus

  const ALL_CHANNELS: set<Channel> := {Prices, Spreads, Alerts, ExchangeStatus}

  datatype Kind = Welcome | Heartbeat | Subscribed | Unsubscribed | Snapshot | UnknownType | PriceUpdate | SpreadUpdate | AlertTriggered

  /** A send that was attempted: its number if it carries one, and whether it went through. */
  datatype Frame = Frame(kind: Kind, number: Option<nat>, delivered: bool)

  datatype Client = Client(symbols: set<string>, channels: set<Channel>, seqNo: nat, sent: seq<Frame>, snapshotDue: bool)

  /** Send with the next number; the number is used up even when the send fails. */
  function SendNumbered(c: Client, kind: Kind, ok: bool): Client {
    c.(seqNo := c.seqNo + 1, sent := c.sent + [Frame(kind, Some(c.seqNo + 1), ok)])
  }

  function SendPlain(c: Client, kind: Kind, ok: bool): Client {
    c.(sent := c.sent + [Frame(kind, None, ok)])
  }

  /** Channel and symbol filter; an empty symbol set means every symbol. */
  predicate Accepts(c: Client, channel: Channel, symbol: string) {
    channel in c.channels && (c.symbols != {} ==> symbol in c.symbols)
  }

  /** What makes a connection's own coroutine act: a message, a receive timeout, or the snapshot owed after
      a subscription. */
  datatype Input = TimedOut | Subscribe(symbols: set<string>, channels: set<Channel>) | SnapshotTurn | Unsubscribe(removed: set<string>) | Pong | Other

  function Handle(c: Client, input: Input, ok: bool): Client {
    match input
    case TimedOut => SendNumbered(c, Heartbeat, ok)
    case Subscribe(symbols, channels) => SendNumbered(c.(symbols := symbols, channels := channels, snapshotDue := true), Subscribed, ok)
    case SnapshotTurn => if c.snapshotDue then SendNumbered(c.(snapshotDue := false), Snapshot, ok) else c
    case Unsubscribe(removed) => SendNumbered(c.(symbols := c.symbols - removed), Unsubscribed, ok)
    case Pong => c
    case Other => SendNumbered(c, UnknownType, ok)
  }

  const NEWCOMER := Client({}, ALL_CHANNELS, 0, [], false)

  /** A broadcast in progress: the symbols still to send, the client list as it was copied for the first of
      them, whose turn it is, and whose sends raised.  The last three fields record the client list at the
      start and who connected and disconnected since. */
  datatype Cast = Cast(kind: Kind, items: seq<string>, snapshot: seq<ClientId>, turn: nat, failed: seq<ClientId>,
                       start: seq<ClientId>, added: seq<ClientId>, gone: set<ClientId>)

  datatype Server = Server(clients: seq<ClientId>, table: map<ClientId, Client>, handshakes: set<ClientId>, nextId: ClientId,
                           cast: Option<Cast>, lastPriceSent: map<Key, int>)

  const START := Server([], map[], {}, 0, None, map[])

  datatype Event =
    | ConnectBegin
    | ConnectFinish(id: ClientId, ok: bool)
    | ConnectAbort(id: ClientId)
    | Disconnect(id: ClientId)
    | ClientActs(id: ClientId, input: Input, ok: bool)
    | PriceTick(key: Key, nowMs: int)
    | SpreadBatch(items: seq<string>)
    | AlertRaised(symbol: string)
    | CastTurn(ok: bool)

  /** The list without some clients, order kept. */
  function Without(clients: seq<ClientId>, gone: set<ClientId>): (r: seq<ClientId>)
    ensures forall id :: id in r <==> id in clients && id !in gone
  {
    if clients == [] then []
    else
      var before := Without(clients[..|clients| - 1], gone);
      if clients[|clients| - 1] in gone then before else before + [clients[|clients| - 1]]
  }

  function SetOf(ids: seq<ClientId>): set<ClientId> {
    set id | id in ids
  }

  function ChannelOf(kind: Kind): Channel {
    match kind
    case PriceUpdate => Prices
    case SpreadUpdate => Spreads
    case _ => Alerts
  }

  function Begin(s: Server, kind: Kind, items: seq<string>): Server {
    s.(cast := Some(Cast(kind, items, s.clients, 0, [], s.clients, [], {})))
  }

  function Connected(s: Server, id: ClientId, ok: bool): Server {
    s.(handshakes := s.handshakes - {id},
       clients := s.clients + [id],
       table := s.table[id := SendNumbered(NEWCOMER, Welcome, ok)],
       cast := if s.cast.Some? then Some(s.cast.value.(added := s.cast.value.added + [id])) else None)
  }

  function Disconnected(s: Server, id: ClientId): Server {
    s.(clients := Without(s.clients, {id}),
       cast := if s.cast.Some? then Some(s.cast.value.(gone := s.cast.value.gone + {id})) else None)
  }

  predicate PriceThrottleOpen(last: map<Key, int>, key: Key, nowMs: int) {
    nowMs - (if key in last then last[key] else 0) >= THROTTLE_MS
  }

  /** The broadcast's own copy of a message to one client; alert broadcasts are unnumbered. */
  function Deliver(c: Client, kind: Kind, ok: bool): Client {
    if kind.AlertTriggered? then SendPlain(c, kind, ok) else SendNumbered(c, kind, ok)
  }

  /** One step of a broadcast: a client's turn, the next symbol's copy of the list, or the cleanup.  An
      alert send swallows its own error. */
  function Turn(s: Server, b: Cast, ok: bool): Server {
    if b.items == [] then s.(clients := Without(s.clients, SetOf(b.failed)), cast := None)
    else if b.turn >= |b.snapshot| then s.(cast := Some(b.(items := b.items[1..], snapshot := s.clients, turn := 0)))
    else
      var id := b.snapshot[b.turn];
      if id in s.table && Accepts(s.table[id], ChannelOf(b.kind), b.items[0]) then
        s.(table := s.table[id := Deliver(s.table[id], b.kind, ok)],
           cast := Some(b.(turn := b.turn + 1, failed := if ok || b.kind.AlertTriggered? then b.failed else b.failed + [id])))
      else s.(cast := Some(b.(turn := b.turn + 1)))
  }

  function Step(s: Server, e: Event): Server {
    match e
    case ConnectBegin =>
      if |s.clients| >= MAX_CLIENTS then s
      else s.(handshakes := s.handshakes + {s.nextId}, nextId := s.nextId + 1)
    case ConnectFinish(id, ok) => if id in s.handshakes then Connected(s, id, ok) else s
    case ConnectAbort(id) => s.(handshakes := s.handshakes - {id})
    case Disconnect(id) => if id in s.table then Disconnected(s, id) else s
    case ClientActs(id, input, ok) => if id in s.table then s.(table := s.table[id := Handle(s.table[id], input, ok)]) else s
    case PriceTick(key, now) =>
      if s.cast.None? && s.clients != [] && PriceThrottleOpen(s.lastPriceSent, key, now)
      then Begin(s.(lastPriceSent := s.lastPriceSent[key := now]), PriceUpdate, [key.symbol]) else s
    case SpreadBatch(items) => if s.cast.None? && s.clients != [] then Begin(s, SpreadUpdate, items) else s
    case AlertRaised(symbol) => if s.cast.None? then Begin(s, AlertTriggered, [symbol]) else s
    case CastTurn(ok) => if s.cast.Some? then Turn(s, s.cast.value, ok) else s
  }

  function RunFrom(s: Server, events: seq<Event>): Server {
    if events == [] then s else Step(RunFrom(s, events[..|events| - 1]), events[|events| - 1])
  }

  function Run(events: seq<Event>): Server {
    RunFrom(START, events)
  }

  lemma RunFromSnoc(s: Server, events: seq<Event>, e: Event)
    ensures RunFrom(s, events + [e]) == Step(RunFrom(s, events), e)
  {
    assert (events + [e])[..|events|] == events;
  }

  lemma {:induction false} RunFromConcat(s: Server, first: seq<Event>, second: seq<Event>)
    ensures RunFrom(s, first + second) == RunFrom(RunFrom(s, first), second)
  {
    if second == [] {
      assert first + second == first;
    } else {
      var n := |second| - 1;
      RunFromConcat(s, first, second[..n]);
      assert first + second == first + second[..n] + [second[n]];
      RunFromSnoc(s, first + second[..n], second[n]);
    }
  }
}
