/** What a broadcast does to the client list and to the clients while connections come and go. */
module WsBroadcast {
  import opened Options
  import opened WsServer

  predicate NoDuplicates(ids: seq<ClientId>) {
    forall i, j :: 0 <= i < j < |ids| ==> ids[i] != ids[j]
  }

  predicate AllIn(ids: seq<ClientId>, table: map<ClientId, Client>) {
    forall i :: 0 <= i < |ids| ==> ids[i] in table
  }

  lemma {:induction false} WithoutOrder(clients: seq<ClientId>, gone: set<ClientId>)
    requires NoDuplicates(clients)
    ensures NoDuplicates(Without(clients, gone))
  {
    if clients != [] {
      var n := |clients| - 1;
      WithoutOrder(clients[..n], gone);
      var before := Without(clients[..n], gone);
      forall i | 0 <= i < |before| ensures before[i] != clients[n] {
        assert before[i] in clients[..n];
      }
    }
  }

  lemma {:induction false} WithoutTwice(clients: seq<ClientId>, first: set<ClientId>, second: set<ClientId>)
    ensures Without(Without(clients, first), second) == Without(clients, first + second)
  {
    if clients != [] {
      var n := |clients| - 1;
      var before := Without(clients[..n], first);
      WithoutTwice(clients[..n], first, second);
      if clients[n] !in first {
        assert (before + [clients[n]])[..|before|] == before;
      }
    }
  }

  lemma WithoutAppend(clients: seq<ClientId>, id: ClientId, gone: set<ClientId>)
    ensures Without(clients + [id], gone) == Without(clients, gone) + (if id in gone then [] else [id])
  {
    assert (clients + [id])[..|clients|] == clients;
  }

  lemma {:induction false} WithoutNobody(clients: seq<ClientId>)
    ensures Without(clients, {}) == clients
  {
    if clients != [] {
      WithoutNobody(clients[..|clients| - 1]);
    }
  }

  /** Identities: listed clients are known and listed once, pending handshakes are new. */
  ghost predicate Identities(s: Server) {
    && NoDuplicates(s.clients) && AllIn(s.clients, s.table)
    && (forall id :: id in s.handshakes ==> id !in s.table && id < s.nextId)
    && (forall id :: id in s.table ==> id < s.nextId)
  }

  /** While a broadcast runs, the list is what it was at the start plus who connected, less who
      disconnected, in order; the broadcast itself has removed nobody yet. */
  predicate Framed(s: Server) {
    s.cast.Some? ==>
      var b := s.cast.value;
      && s.clients == Without(b.start + b.added, b.gone)
      && NoDuplicates(b.snapshot) && AllIn(b.snapshot, s.table)
      && (forall id :: id in b.gone ==> id in s.table)
      && b.turn <= |b.snapshot|
  }

  lemma ConnectedKeeps(s: Server, id: ClientId, ok: bool)
    requires Identities(s) && Framed(s) && id in s.handshakes
    ensures Identities(Connected(s, id, ok)) && Framed(Connected(s, id, ok))
  {
    if s.cast.Some? {
      var b := s.cast.value;
      assert id !in b.gone;
      WithoutAppend(b.start + b.added, id, b.gone);
      assert b.start + b.added + [id] == b.start + (b.added + [id]);
    }
  }

  lemma DisconnectedKeeps(s: Server, id: ClientId)
    requires Identities(s) && Framed(s) && id in s.table
    ensures Identities(Disconnected(s, id)) && Framed(Disconnected(s, id))
  {
    WithoutOrder(s.clients, {id});
    WithoutKnown(s.clients, {id}, s.table);
    if s.cast.Some? {
      WithoutTwice(s.cast.value.start + s.cast.value.added, s.cast.value.gone, {id});
    }
  }

  lemma WithoutKnown(clients: seq<ClientId>, gone: set<ClientId>, table: map<ClientId, Client>)
    requires AllIn(clients, table)
    ensures AllIn(Without(clients, gone), table)
  {
    forall i | 0 <= i < |Without(clients, gone)| ensures Without(clients, gone)[i] in table {
      assert Without(clients, gone)[i] in clients;
    }
  }

  lemma BeginKeeps(s: Server, kind: Kind, items: seq<string>)
    requires Identities(s)
    ensures Identities(Begin(s, kind, items)) && Framed(Begin(s, kind, items))
  {
    WithoutNobody(s.clients);
    assert s.clients + [] == s.clients;
  }

  lemma TurnKeeps(s: Server, b: Cast, ok: bool)
    requires Identities(s) && Framed(s) && s.cast == Some(b)
    ensures Identities(Turn(s, b, ok)) && Framed(Turn(s, b, ok))
  {
    if b.items == [] {
      WithoutOrder(s.clients, SetOf(b.failed));
      WithoutKnown(s.clients, SetOf(b.failed), s.table);
    } else {
      var t := Turn(s, b, ok);
      assert t.clients == s.clients && t.handshakes == s.handshakes && t.nextId == s.nextId;
      assert t.table.Keys == s.table.Keys;
      assert t.cast.value.start == b.start && t.cast.value.added == b.added && t.cast.value.gone == b.gone;
    }
  }

  lemma StepKeeps(s: Server, e: Event)
    requires Identities(s) && Framed(s)
    ensures Identities(Step(s, e)) && Framed(Step(s, e))
  {
    match e
    case ConnectFinish(id, ok) => if id in s.handshakes { ConnectedKeeps(s, id, ok); }
    case Disconnect(id) => if id in s.table { DisconnectedKeeps(s, id); }
    case PriceTick(key, now) => BeginKeeps(s.(lastPriceSent := s.lastPriceSent[key := now]), PriceUpdate, [key.symbol]);
    case SpreadBatch(items) => BeginKeeps(s, SpreadUpdate, items);
    case AlertRaised(symbol) => BeginKeeps(s, AlertTriggered, [symbol]);
    case CastTurn(ok) => if s.cast.Some? { TurnKeeps(s, s.cast.value, ok); }
    case _ =>
  }

  /** In every reachable state the client list is duplicate-free, and a running broadcast has changed it
      only by the connections and disconnections that happened meanwhile, order kept. */
  lemma {:induction false} BroadcastFrame(events: seq<Event>)
    ensures Identities(Run(events)) && Framed(Run(events))
  {
    if events != [] {
      BroadcastFrame(events[..|events| - 1]);
      StepKeeps(Run(events[..|events| - 1]), events[|events| - 1]);
    }
  }

  /** The end of a broadcast takes away the clients whose send failed and nobody else. */
  lemma CleanupRemovesTheFailed(events: seq<Event>, ok: bool)
    requires Run(events).cast.Some? && Run(events).cast.value.items == []
    ensures var b := Run(events).cast.value;
            Run(events + [CastTurn(ok)]).clients == Without(b.start + b.added, b.gone + SetOf(b.failed))
            && Run(events + [CastTurn(ok)]).cast == None
  {
    var b := Run(events).cast.value;
    BroadcastFrame(events);
    RunFromSnoc(START, events, CastTurn(ok));
    WithoutTwice(b.start + b.added, b.gone, SetOf(b.failed));
  }

  /** A numbered broadcast send to this client failed. */
  predicate SendFailed(sent: seq<Frame>) {
    exists i :: 0 <= i < |sent| && FailedAt(sent, i)
  }

  predicate FailedAt(sent: seq<Frame>, i: nat)
    requires i < |sent|
  {
    (sent[i].kind.PriceUpdate? || sent[i].kind.SpreadUpdate?) && !sent[i].delivered
  }

  lemma SendFailedGrows(sent: seq<Frame>, more: seq<Frame>)
    requires SendFailed(sent)
    ensures SendFailed(sent + more)
  {
    var i :| 0 <= i < |sent| && FailedAt(sent, i);
    assert FailedAt(sent + more, i);
  }

  /** Every step only appends to what a known client was sent. */
  function NewFrames(s: Server, e: Event, id: ClientId): seq<Frame>
    requires id in s.table && id in Step(s, e).table && |Step(s, e).table[id].sent| >= |s.table[id].sent|
  {
    Step(s, e).table[id].sent[|s.table[id].sent|..]
  }

  lemma SentGrows(s: Server, e: Event, id: ClientId)
    requires Identities(s) && id in s.table
    ensures id in Step(s, e).table && |Step(s, e).table[id].sent| >= |s.table[id].sent|
    ensures Step(s, e).table[id].sent == s.table[id].sent + NewFrames(s, e, id)
  {
  }

  /** Disconnected, or failed during a numbered broadcast. */
  predicate Excused(s: Server, events: seq<Event>, id: ClientId) {
    Disconnect(id) in events || (id in s.table && SendFailed(s.table[id].sent))
  }

  ghost predicate RemovalsExplained(s: Server, events: seq<Event>) {
    && (forall id :: id in s.table && id !in s.clients ==> Excused(s, events, id))
    && (s.cast.Some? ==> forall i :: 0 <= i < |s.cast.value.failed| ==> Excused(s, events, s.cast.value.failed[i]))
  }

  lemma ExcusedStays(s: Server, events: seq<Event>, e: Event, id: ClientId)
    requires Identities(s) && Excused(s, events, id)
    ensures Excused(Step(s, e), events + [e], id)
  {
    if Disconnect(id) !in events {
      SentGrows(s, e, id);
      SendFailedGrows(s.table[id].sent, NewFrames(s, e, id));
    }
  }

  lemma FailureIsRecorded(c: Client, kind: Kind)
    requires kind.PriceUpdate? || kind.SpreadUpdate?
    ensures SendFailed(Deliver(c, kind, false).sent)
  {
    assert FailedAt(Deliver(c, kind, false).sent, |c.sent|);
  }

  /** Only the three broadcasts start a cast. */
  predicate BroadcastKind(s: Server) {
    s.cast.Some? ==> s.cast.value.kind in {PriceUpdate, SpreadUpdate, AlertTriggered}
  }

  lemma {:induction false} CastKinds(events: seq<Event>)
    ensures BroadcastKind(Run(events))
  {
    if events != [] {
      CastKinds(events[..|events| - 1]);
    }
  }

  lemma TurnExplains(s: Server, events: seq<Event>, b: Cast, ok: bool)
    requires Identities(s) && RemovalsExplained(s, events) && BroadcastKind(s) && s.cast == Some(b)
    ensures RemovalsExplained(Step(s, CastTurn(ok)), events + [CastTurn(ok)])
  {
    var t := Step(s, CastTurn(ok));
    forall id | id in t.table && id !in t.clients ensures Excused(t, events + [CastTurn(ok)], id) {
      if id in s.clients {
        assert id in b.failed;
      }
      ExcusedStays(s, events, CastTurn(ok), id);
    }
    if t.cast.Some? {
      var failed := t.cast.value.failed;
      forall i | 0 <= i < |failed| ensures Excused(t, events + [CastTurn(ok)], failed[i]) {
        if i < |b.failed| {
          assert failed[i] == b.failed[i];
          ExcusedStays(s, events, CastTurn(ok), b.failed[i]);
        } else {
          FailureIsRecorded(s.table[failed[i]], b.kind);
        }
      }
    }
  }

  lemma OtherStepExplains(s: Server, events: seq<Event>, e: Event)
    requires Identities(s) && RemovalsExplained(s, events) && !e.CastTurn?
    ensures RemovalsExplained(Step(s, e), events + [e])
  {
    var t := Step(s, e);
    forall id | id in t.table && id !in t.clients ensures Excused(t, events + [e], id) {
      if id in s.table && id !in s.clients {
        ExcusedStays(s, events, e, id);
      }
    }
    if t.cast.Some? {
      forall i | 0 <= i < |t.cast.value.failed| ensures Excused(t, events + [e], t.cast.value.failed[i]) {
        ExcusedStays(s, events, e, s.cast.value.failed[i]);
      }
    }
  }

  /** Nobody is dropped without cause: in every reachable state, a client that connected and is no longer
      listed has disconnected or had a price or spread send fail.  In particular no broadcast removes a
      client that connected after its last copy of the list, and alerts remove nobody. */
  lemma {:induction false} OnlyFailuresAreDropped(events: seq<Event>)
    ensures RemovalsExplained(Run(events), events)
  {
    if events != [] {
      var n := |events| - 1;
      OnlyFailuresAreDropped(events[..n]);
      BroadcastFrame(events[..n]);
      CastKinds(events[..n]);
      var s := Run(events[..n]);
      assert events == events[..n] + [events[n]];
      if events[n].CastTurn? {
        if s.cast.Some? {
          TurnExplains(s, events[..n], s.cast.value, events[n].ok);
        } else {
          NoCastTurnIsIdle(s, events[..n], events[n]);
        }
      } else {
        OtherStepExplains(s, events[..n], events[n]);
      }
    }
  }

  lemma NoCastTurnIsIdle(s: Server, events: seq<Event>, e: Event)
    requires RemovalsExplained(s, events) && Step(s, e) == s
    ensures RemovalsExplained(s, events + [e])
  {
    forall id | Excused(s, events, id) ensures Excused(s, events + [e], id) {
    }
  }
}
