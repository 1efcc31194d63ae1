/** The connection manager in the form the program runs it: fields changed in place, and broadcasts that
    loop over a copy of the client list and let other coroutines run at every send. */
module WsManager {
  import opened Options
  import opened Markets
  import opened WsServer
  import opened WsBroadcast

  /** A step of some connection's own coroutine.  The single consumer awaits its broadcasts one at a time,
      so nothing else runs during a send. */
  predicate IsOther(e: Event) {
    e.ConnectBegin? || e.ConnectFinish? || e.ConnectAbort? || e.Disconnect? || e.ClientActs?
  }

  predicate OthersOnly(events: seq<Event>) {
    forall i :: 0 <= i < |events| ==> IsOther(events[i])
  }

  /** The run of one broadcast: its own turns and whatever happens at its awaits. */
  predicate CastTrace(events: seq<Event>) {
    forall i :: 0 <= i < |events| ==> events[i].CastTurn? || IsOther(events[i])
  }

  /** Whether the n-th send of a broadcast goes through, and what the other coroutines do meanwhile. */
  datatype Schedule = Schedule(ok: nat -> bool, meanwhile: nat -> seq<Event>)

  ghost predicate ValidSchedule(schedule: Schedule) {
    forall n :: OthersOnly(schedule.meanwhile(n))
  }

  /** list.remove: the first occurrence goes. */
  function RemoveFirst(clients: seq<ClientId>, id: ClientId): seq<ClientId> {
    if clients == [] then []
    else if clients[0] == id then clients[1..]
    else [clients[0]] + RemoveFirst(clients[1..], id)
  }

  lemma {:induction false} WithoutConcat(first: seq<ClientId>, second: seq<ClientId>, gone: set<ClientId>)
    ensures Without(first + second, gone) == Without(first, gone) + Without(second, gone)
  {
    if second == [] {
      assert first + second == first;
      assert Without(first, gone) + [] == Without(first, gone);
    } else {
      var n := |second| - 1;
      var rest, kept := second[..n], if second[n] in gone then [] else [second[n]];
      calc {
        Without(first + second, gone);
        { assert first + second == first + rest + [second[n]]; }
        Without(first + rest + [second[n]], gone);
        { WithoutAppend(first + rest, second[n], gone); }
        Without(first + rest, gone) + kept;
        { WithoutConcat(first, rest, gone); }
        Without(first, gone) + Without(rest, gone) + kept;
        Without(first, gone) + (Without(rest, gone) + kept);
        { WithoutAppend(rest, second[n], gone); assert second == rest + [second[n]]; }
        Without(first, gone) + Without(second, gone);
      }
    }
  }

  lemma WithoutCons(clients: seq<ClientId>, gone: set<ClientId>)
    requires clients != []
    ensures Without(clients, gone) == (if clients[0] in gone then [] else [clients[0]]) + Without(clients[1..], gone)
  {
    assert clients == [clients[0]] + clients[1..];
    WithoutConcat([clients[0]], clients[1..], gone);
    WithoutAppend([], clients[0], gone);
    assert [] + [clients[0]] == [clients[0]];
  }

  lemma {:induction false} WithoutAbsent(clients: seq<ClientId>, id: ClientId)
    requires id !in clients
    ensures Without(clients, {id}) == clients
  {
    if clients != [] {
      WithoutAbsent(clients[..|clients| - 1], id);
    }
  }

  lemma {:induction false} RemoveFirstIsWithout(clients: seq<ClientId>, id: ClientId)
    requires NoDuplicates(clients)
    ensures RemoveFirst(clients, id) == Without(clients, {id})
  {
    if clients != [] {
      WithoutCons(clients, {id});
      if clients[0] == id {
        WithoutAbsent(clients[1..], id);
      } else {
        RemoveFirstIsWithout(clients[1..], id);
      }
    }
  }

  /** What other coroutines leave alone in a running broadcast. */
  predicate SameCast(before: Option<Cast>, after: Option<Cast>) {
    match before
    case None => after == None
    case Some(b) => after.Some? && after.value == b.(added := after.value.added, gone := after.value.gone)
  }

  lemma OtherStepKeepsCast(s: Server, e: Event)
    requires IsOther(e)
    ensures SameCast(s.cast, Step(s, e).cast)
  {
  }

  /** The loop moves on to the next symbol, with a new copy of the list. */
  lemma NextItem(t: Server, s: Server, trace: seq<Event>, more: seq<Event>)
    requires t.cast.Some? && t.cast.value.items != [] && t.cast.value.turn == |t.cast.value.snapshot|
    requires Identities(t) && Framed(t) && t == RunFrom(RunFrom(s, trace), more) && CastTrace(more)
    ensures var b := t.cast.value;
            var next := t.(cast := Some(b.(items := b.items[1..], snapshot := t.clients, turn := 0)));
            next == RunFrom(s, trace + (more + [CastTurn(true)])) && Identities(next) && Framed(next)
    ensures CastTrace(more + [CastTurn(true)])
  {
    StepKeeps(t, CastTurn(true));
    RunMovesOn(s, trace, more);
    NextItemStep(t);
  }

  lemma NextItemStep(t: Server)
    requires t.cast.Some? && t.cast.value.items != [] && t.cast.value.turn == |t.cast.value.snapshot|
    ensures var b := t.cast.value;
            Step(t, CastTurn(true)) == t.(cast := Some(b.(items := b.items[1..], snapshot := t.clients, turn := 0)))
  {
  }

  lemma RunMovesOn(s: Server, trace: seq<Event>, more: seq<Event>)
    ensures RunFrom(s, trace + (more + [CastTurn(true)])) == Step(RunFrom(RunFrom(s, trace), more), CastTurn(true))
  {
    RunFromConcat(s, trace, more);
    RunFromSnoc(s, trace + more, CastTurn(true));
    assert trace + (more + [CastTurn(true)]) == trace + more + [CastTurn(true)];
  }

  lemma TurnThenOthers(s: Server, ok: bool, others: seq<Event>)
    requires OthersOnly(others)
    ensures CastTrace([CastTurn(ok)] + others)
    ensures RunFrom(s, [CastTurn(ok)] + others) == RunFrom(Step(s, CastTurn(ok)), others)
  {
    RunFromSnoc(s, [], CastTurn(ok));
    assert [] + [CastTurn(ok)] == [CastTurn(ok)];
    RunFromConcat(s, [CastTurn(ok)], others);
  }

  class ConnectionManager {
    var clients: seq<ClientId>
    var table: map<ClientId, Client>
    var handshakes: set<ClientId>
    var nextId: ClientId
    var lastPriceSent: map<Key, int>

    /** The machine state; a broadcast keeps its own progress in local variables. */
    ghost function State(cast: Option<Cast>): Server
      reads this
    {
      Server(clients, table, handshakes, nextId, cast, lastPriceSent)
    }

    ghost predicate Valid(cast: Option<Cast>)
      reads this
    {
      Identities(State(cast)) && Framed(State(cast))
    }

    constructor ()
      ensures State(None) == START && Valid(None)
    {
      clients, table, handshakes, nextId, lastPriceSent := [], map[], {}, 0, map[];
    }

    /** The first half of connect, up to the accept: no one past the limit. */
    method BeginConnect(ghost cast: Option<Cast>) returns (id: Option<ClientId>)
      modifies this
      ensures State(cast) == Step(old(State(cast)), ConnectBegin)
      ensures id == if |old(clients)| >= MAX_CLIENTS then None else Some(old(nextId))
    {
      if |clients| >= MAX_CLIENTS { return None; }
      id := Some(nextId);
      handshakes := handshakes + {nextId};
      nextId := nextId + 1;
    }

    /** The client's next number. */
    method NextSeq(id: ClientId) returns (n: nat)
      requires id in table
      modifies `table
      ensures n == old(table)[id].seqNo + 1 && table == old(table)[id := old(table)[id].(seqNo := n)]
    {
      n := table[id].seqNo + 1;
      table := table[id := table[id].(seqNo := n)];
    }

    /** A send that is attempted; it raises nothing the caller sees. */
    method Send(id: ClientId, kind: Kind, number: Option<nat>, ok: bool)
      requires id in table
      modifies `table
      ensures table == old(table)[id := old(table)[id].(sent := old(table)[id].sent + [Frame(kind, number, ok)])]
    {
      table := table[id := table[id].(sent := table[id].sent + [Frame(kind, number, ok)])];
    }

    method SendWithSeq(id: ClientId, kind: Kind, ok: bool)
      requires id in table
      modifies `table
      ensures table == old(table)[id := SendNumbered(old(table)[id], kind, ok)]
    {
      var n := NextSeq(id);
      Send(id, kind, Some(n), ok);
    }

    /** The second half: append to the list, then the welcome. */
    method FinishConnect(id: ClientId, ok: bool, ghost cast: Option<Cast>)
      requires id in handshakes
      modifies this
      ensures State(Step(old(State(cast)), ConnectFinish(id, ok)).cast) == Step(old(State(cast)), ConnectFinish(id, ok))
    {
      handshakes := handshakes - {id};
      clients := clients + [id];
      table := table[id := NEWCOMER];
      SendWithSeq(id, Welcome, ok);
    }

    method Disconnect(id: ClientId, ghost cast: Option<Cast>)
      requires id in table && NoDuplicates(clients)
      modifies this
      ensures State(Step(old(State(cast)), Event.Disconnect(id)).cast) == Step(old(State(cast)), Event.Disconnect(id))
    {
      RemoveFirstIsWithout(clients, id);
      if id in clients {
        clients := RemoveFirst(clients, id);
      } else {
        WithoutAbsent(clients, id);
      }
    }

    method SubscribeClient(id: ClientId, symbols: set<string>, channels: set<Channel>, ok: bool)
      requires id in table
      modifies `table
      ensures table == old(table)[id := Handle(old(table)[id], Subscribe(symbols, channels), ok)]
    {
      table := table[id := table[id].(symbols := symbols)];
      table := table[id := table[id].(channels := channels)];
      table := table[id := table[id].(snapshotDue := true)];
      SendWithSeq(id, Subscribed, ok);
    }

    /** A message of the client, or its receive timeout. */
    method HandleClient(id: ClientId, input: Input, ok: bool, ghost cast: Option<Cast>)
      requires id in table
      modifies this
      ensures State(cast) == Step(old(State(cast)), ClientActs(id, input, ok))
    {
      match input
      case TimedOut =>
        SendWithSeq(id, Heartbeat, ok);
      case Subscribe(symbols, channels) =>
        SubscribeClient(id, symbols, channels, ok);
      case SnapshotTurn =>
        if table[id].snapshotDue {
          table := table[id := table[id].(snapshotDue := false)];
          SendWithSeq(id, Snapshot, ok);
        }
      case Unsubscribe(removed) =>
        table := table[id := table[id].(symbols := table[id].symbols - removed)];
        SendWithSeq(id, Unsubscribed, ok);
      case Pong =>
      case Other =>
        SendWithSeq(id, UnknownType, ok);
    }

    method OtherStep(e: Event, ghost cast: Option<Cast>) returns (ghost after: Option<Cast>)
      requires Valid(cast) && IsOther(e)
      modifies this
      ensures State(after) == Step(old(State(cast)), e) && Valid(after) && SameCast(cast, after)
    {
      StepKeeps(State(cast), e);
      OtherStepKeepsCast(State(cast), e);
      after := Step(State(cast), e).cast;
      match e
      case ConnectBegin => var id := BeginConnect(cast);
      case ConnectFinish(id, ok) => if id in handshakes { FinishConnect(id, ok, cast); }
      case ConnectAbort(id) => handshakes := handshakes - {id};
      case Disconnect(id) => if id in table { Disconnect(id, cast); }
      case ClientActs(id, input, ok) => if id in table { HandleClient(id, input, ok, cast); }
    }

    /** The other coroutines, while a send is awaited. */
    method Others(events: seq<Event>, ghost cast: Option<Cast>) returns (ghost after: Option<Cast>)
      requires Valid(cast) && OthersOnly(events)
      modifies this
      ensures State(after) == RunFrom(old(State(cast)), events) && Valid(after) && SameCast(cast, after)
    {
      after := cast;
      for i := 0 to |events|
        invariant State(after) == RunFrom(old(State(cast)), events[..i])
        invariant Valid(after) && SameCast(cast, after)
      {
        after := OtherStep(events[i], after);
        RunFromSnoc(old(State(cast)), events[..i], events[i]);
        assert events[..i + 1] == events[..i] + [events[i]];
      }
      assert events[..|events|] == events;
    }

    /** One client's turn up to the await: filter, number, send. */
    method TakeTurn(id: ClientId, kind: Kind, symbol: string, ok: bool, ghost b: Cast) returns (sent: bool, ghost after: Cast)
      requires Valid(Some(b))
      requires b.kind == kind && b.items != [] && b.items[0] == symbol && b.turn < |b.snapshot| && b.snapshot[b.turn] == id
      modifies `table
      ensures State(Some(after)) == Step(old(State(Some(b))), CastTurn(ok)) && Valid(Some(after))
      ensures after == b.(turn := b.turn + 1, failed := if sent && !ok && !kind.AlertTriggered? then b.failed + [id] else b.failed)
    {
      StepKeeps(State(Some(b)), CastTurn(ok));
      after := Turn(State(Some(b)), b, ok).cast.value;
      sent := Accepts(table[id], ChannelOf(kind), symbol);
      if sent {
        if kind.AlertTriggered? {
          Send(id, kind, None, ok);
        } else {
          SendWithSeq(id, kind, ok);
        }
      }
    }

    /** One client's turn, and the others while its send is awaited. */
    method SendTo(id: ClientId, kind: Kind, symbol: string, ok: bool, others: seq<Event>, ghost b: Cast)
      returns (raised: bool, ghost after: Cast, ghost trace: seq<Event>)
      requires Valid(Some(b)) && OthersOnly(others)
      requires b.kind == kind && b.items != [] && b.items[0] == symbol && b.turn < |b.snapshot| && b.snapshot[b.turn] == id
      modifies this
      ensures State(Some(after)) == RunFrom(old(State(Some(b))), trace) && Valid(Some(after)) && CastTrace(trace)
      ensures trace != [] && trace[0] == CastTurn(ok)
      ensures SameCast(Some(b.(turn := b.turn + 1, failed := if raised then b.failed + [id] else b.failed)), Some(after))
    {
      ghost var s := State(Some(b));
      var sent;
      sent, after := TakeTurn(id, kind, symbol, ok, b);
      if !sent {
        TurnThenOthers(s, ok, []);
        return false, after, [CastTurn(ok)] + [];
      }
      ghost var cast := Others(others, Some(after));
      TurnThenOthers(s, ok, others);
      return !ok && !kind.AlertTriggered?, cast.value, [CastTurn(ok)] + others;
    }

    /** The loop over a copy of the list, for one symbol. */
    method SendToAll(kind: Kind, symbol: string, schedule: Schedule, first: nat, disconnected: seq<ClientId>, ghost b: Cast)
      returns (failed: seq<ClientId>, sends: nat, ghost after: Cast, ghost trace: seq<Event>)
      requires Valid(Some(b)) && ValidSchedule(schedule)
      requires b.kind == kind && b.items != [] && b.items[0] == symbol && b.turn == 0 && b.snapshot == clients && b.failed == disconnected
      modifies this
      ensures State(Some(after)) == RunFrom(old(State(Some(b))), trace) && Valid(Some(after)) && CastTrace(trace)
      ensures SameCast(Some(b.(turn := |b.snapshot|, failed := failed)), Some(after))
    {
      var copy := clients;
      failed, sends, after, trace := disconnected, first, b, [];
      for i := 0 to |copy|
        invariant State(Some(after)) == RunFrom(old(State(Some(b))), trace) && Valid(Some(after)) && CastTrace(trace)
        invariant SameCast(Some(b.(turn := i, failed := failed)), Some(after))
      {
        ghost var more: seq<Event>;
        var raised;
        raised, after, more := SendTo(copy[i], kind, symbol, schedule.ok(sends), schedule.meanwhile(sends), after);
        sends := sends + 1;
        if raised { failed := failed + [copy[i]]; }
        RunFromConcat(old(State(Some(b))), trace, more);
        trace := trace + more;
      }
    }

    /** The cleanup after the sends. */
    method RemoveFailed(disconnected: seq<ClientId>)
      requires NoDuplicates(clients)
      modifies `clients
      ensures clients == Without(old(clients), SetOf(disconnected))
    {
      WithoutNobody(clients);
      assert SetOf(disconnected[..0]) == {};
      for i := 0 to |disconnected|
        invariant clients == Without(old(clients), SetOf(disconnected[..i]))
        invariant NoDuplicates(clients)
      {
        WithoutTwice(old(clients), SetOf(disconnected[..i]), {disconnected[i]});
        assert SetOf(disconnected[..i + 1]) == SetOf(disconnected[..i]) + {disconnected[i]};
        WithoutOrder(clients, {disconnected[i]});
        RemoveFirstIsWithout(clients, disconnected[i]);
        if disconnected[i] in clients {
          clients := RemoveFirst(clients, disconnected[i]);
        } else {
          WithoutAbsent(clients, disconnected[i]);
        }
      }
      assert disconnected[..|disconnected|] == disconnected;
    }

    method FinishCast(disconnected: seq<ClientId>, ghost b: Cast)
      requires Valid(Some(b)) && b.items == [] && b.failed == disconnected
      modifies `clients
      ensures State(None) == Step(old(State(Some(b))), CastTurn(true)) && Valid(None)
    {
      StepKeeps(State(Some(b)), CastTurn(true));
      RemoveFailed(disconnected);
    }

    /** All symbols of a broadcast that has begun, then the cleanup. */
    method SendItems(kind: Kind, items: seq<string>, schedule: Schedule) returns (ghost trace: seq<Event>)
      requires Valid(None) && ValidSchedule(schedule)
      modifies this
      ensures State(None) == RunFrom(old(Begin(State(None), kind, items)), trace) && Valid(None) && CastTrace(trace)
    {
      ghost var s := Begin(State(None), kind, items);
      ghost var b := s.cast.value;
      BeginKeeps(State(None), kind, items);
      var disconnected, sends := [], 0;
      trace := [];
      for i := 0 to |items|
        invariant State(Some(b)) == RunFrom(s, trace) && Valid(Some(b)) && CastTrace(trace)
        invariant b.kind == kind && b.items == items[i..] && b.turn == 0 && b.snapshot == clients && b.failed == disconnected
      {
        ghost var more: seq<Event>;
        disconnected, sends, b, more := SendToAll(kind, items[i], schedule, sends, disconnected, b);
        NextItem(State(Some(b)), s, trace, more);
        trace := trace + (more + [CastTurn(true)]);
        b := b.(items := b.items[1..], snapshot := clients, turn := 0);
      }
      FinishCast(disconnected, b);
      RunFromSnoc(s, trace, CastTurn(true));
      trace := trace + [CastTurn(true)];
    }

    /** A price tick from the consumer: nothing without clients or within 100 ms of the last one sent. */
    method OnPrice(key: Key, nowMs: int, schedule: Schedule) returns (ghost trace: seq<Event>)
      requires Valid(None) && ValidSchedule(schedule)
      modifies this
      ensures State(None) == RunFrom(Step(old(State(None)), PriceTick(key, nowMs)), trace) && Valid(None) && CastTrace(trace)
    {
      trace := [];
      if |clients| > 0 {
        var lastSent := if key in lastPriceSent then lastPriceSent[key] else 0;
        if nowMs - lastSent < THROTTLE_MS { return; }
        lastPriceSent := lastPriceSent[key := nowMs];
        trace := SendItems(PriceUpdate, [key.symbol], schedule);
      }
    }

    /** A list of spreads from the consumer, each to its own copy of the client list, one cleanup at the end. */
    method OnSpreads(symbols: seq<string>, schedule: Schedule) returns (ghost trace: seq<Event>)
      requires Valid(None) && ValidSchedule(schedule)
      modifies this
      ensures State(None) == RunFrom(Step(old(State(None)), SpreadBatch(symbols)), trace) && Valid(None) && CastTrace(trace)
    {
      trace := [];
      if |clients| > 0 {
        trace := SendItems(SpreadUpdate, symbols, schedule);
      }
    }

    /** An alert: unnumbered, its send errors swallowed. */
    method OnAlert(symbol: string, schedule: Schedule) returns (ghost trace: seq<Event>)
      requires Valid(None) && ValidSchedule(schedule)
      modifies this
      ensures State(None) == RunFrom(Step(old(State(None)), AlertRaised(symbol)), trace) && Valid(None) && CastTrace(trace)
    {
      trace := SendItems(AlertTriggered, [symbol], schedule);
    }
  }
}
