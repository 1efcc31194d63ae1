/** Who gets a broadcast message, and how often a price is broadcast. */
module WsDelivery {
  import opened Options
  import opened Markets
  import opened WsServer
  import opened WsBroadcast
  import opened MinGap
  import KeyedGate

  /** Messages of one kind that were attempted on a connection. */
  function Count(kind: Kind, sent: seq<Frame>): nat {
    if sent == [] then 0
    else Count(kind, sent[..|sent| - 1]) + if sent[|sent| - 1].kind == kind then 1 else 0
  }

  lemma CountSnoc(kind: Kind, sent: seq<Frame>, f: Frame)
    ensures Count(kind, sent + [f]) == Count(kind, sent) + if f.kind == kind then 1 else 0
  {
    assert (sent + [f])[..|sent|] == sent;
  }

  predicate IsBroadcast(kind: Kind) {
    kind.PriceUpdate? || kind.SpreadUpdate? || kind.AlertTriggered?
  }

  /** The run stays within one symbol of the broadcast that is running. */
  ghost predicate OneItem(s: Server, events: seq<Event>) {
    s.cast.Some? && forall k :: 0 <= k <= |events| ==> SameItems(s, RunFrom(s, events[..k]))
  }

  predicate SameItems(s: Server, t: Server) {
    s.cast.Some? && t.cast.Some? && t.cast.value.items == s.cast.value.items
  }

  /** The next turn of the broadcast is this client's. */
  predicate ItsTurn(t: Server, id: ClientId) {
    t.cast.Some? && t.cast.value.turn < |t.cast.value.snapshot| && t.cast.value.snapshot[t.cast.value.turn] == id
  }

  /** The filter of the client, as it is now, lets the current symbol through. */
  predicate Wants(t: Server, id: ClientId) {
    && t.cast.Some? && t.cast.value.items != [] && id in t.table
    && Accepts(t.table[id], ChannelOf(t.cast.value.kind), t.cast.value.items[0])
  }

  /** How often a client was sent messages of this kind. */
  function SentTo(t: Server, id: ClientId, kind: Kind): nat {
    if id in t.table then Count(kind, t.table[id].sent) else 0
  }

  /** Only the turn and the record of failures, arrivals and departures move. */
  predicate SameCopy(s: Server, t: Server) {
    SameItems(s, t) && t.cast.value.kind == s.cast.value.kind && t.cast.value.snapshot == s.cast.value.snapshot
  }

  lemma HandleSendsNoBroadcast(c: Client, input: Input, ok: bool, kind: Kind)
    requires IsBroadcast(kind)
    ensures Count(kind, Handle(c, input, ok).sent) == Count(kind, c.sent)
  {
    var more := Handle(c, input, ok).sent;
    if |more| > |c.sent| {
      CountSnoc(kind, c.sent, more[|c.sent|]);
      assert more == c.sent + [more[|c.sent|]];
    } else {
      assert more == c.sent;
    }
  }

  lemma DeliverCounts(c: Client, kind: Kind, ok: bool)
    ensures Count(kind, Deliver(c, kind, ok).sent) == Count(kind, c.sent) + 1
  {
    CountSnoc(kind, c.sent, Frame(kind, Some(c.seqNo + 1), ok));
    CountSnoc(kind, c.sent, Frame(kind, None, ok));
  }

  /** A turn adds one message exactly when it is this client's turn and its filter accepts. */
  lemma TurnSends(t: Server, id: ClientId, ok: bool)
    requires t.cast.Some? && t.cast.value.items != [] && SameItems(t, Turn(t, t.cast.value, ok))
    requires AllIn(t.cast.value.snapshot, t.table) && id in t.table
    ensures var u, b := Turn(t, t.cast.value, ok), t.cast.value;
            && SameCopy(t, u) && b.turn < |b.snapshot| && u.cast.value.turn == b.turn + 1 && id in u.table
            && SentTo(u, id, b.kind) == SentTo(t, id, b.kind) + if ItsTurn(t, id) && Wants(t, id) then 1 else 0
  {
    if ItsTurn(t, id) {
      DeliverCounts(t.table[id], t.cast.value.kind, ok);
    }
  }

  lemma OtherSends(t: Server, id: ClientId, e: Event)
    requires Identities(t) && t.cast.Some? && IsBroadcast(t.cast.value.kind) && id in t.table && !e.CastTurn?
    ensures var u, b := Step(t, e), t.cast.value;
            && SameCopy(t, u) && u.cast.value.turn == b.turn && id in u.table
            && SentTo(u, id, b.kind) == SentTo(t, id, b.kind)
  {
    if e.ClientActs? && e.id == id {
      HandleSendsNoBroadcast(t.table[id], e.input, e.ok, t.cast.value.kind);
    }
  }

  lemma {:induction false} Kept(s: Server, events: seq<Event>)
    requires Identities(s) && Framed(s)
    ensures Identities(RunFrom(s, events)) && Framed(RunFrom(s, events))
  {
    if events != [] {
      Kept(s, events[..|events| - 1]);
      StepKeeps(RunFrom(s, events[..|events| - 1]), events[|events| - 1]);
    }
  }

  /** The k-th event is the client's own turn. */
  predicate OwnTurn(s: Server, events: seq<Event>, k: nat, id: ClientId) {
    k < |events| && events[k].CastTurn? && ItsTurn(RunFrom(s, events[..k]), id)
  }

  lemma OwnTurnInLonger(s: Server, events: seq<Event>, n: nat, k: nat, id: ClientId)
    requires k < n <= |events|
    ensures OwnTurn(s, events[..n], k, id) <==> OwnTurn(s, events, k, id)
  {
    assert events[..n][..k] == events[..k];
  }

  /** The client has had its own turn exactly when the broadcast is past it. */
  ghost predicate TurnTaken(s: Server, events: seq<Event>, id: ClientId) {
    exists k: nat :: OwnTurn(s, events, k, id)
  }

  /** The client's filter, as it was before the k-th event, accepts. */
  predicate WantsAt(s: Server, events: seq<Event>, k: nat, id: ClientId)
    requires k <= |events|
  {
    Wants(RunFrom(s, events[..k]), id)
  }

  /** From this many messages to that many: one more if the filter accepts in the state of the client's own
      turn, none otherwise and none without a turn. */
  ghost predicate Decides(s: Server, events: seq<Event>, id: ClientId, before: nat, now: nat) {
    && (forall k: nat :: OwnTurn(s, events, k, id) ==> now == before + if WantsAt(s, events, k, id) then 1 else 0)
    && (!TurnTaken(s, events, id) ==> now == before)
  }

  /** What the client was sent is decided by its filter in the state of its own turn. */
  ghost predicate Decided(s: Server, events: seq<Event>, id: ClientId)
    requires s.cast.Some?
  {
    Decides(s, events, id, SentTo(s, id, s.cast.value.kind), SentTo(RunFrom(s, events), id, s.cast.value.kind))
  }

  /** Where the broadcast stands: past exactly the clients that had their turn. */
  ghost predicate OnCopy(s: Server, events: seq<Event>, id: ClientId) {
    var t := RunFrom(s, events);
    && SameCopy(s, t) && t.cast.value.turn <= |t.cast.value.snapshot| && id in t.table
    && (TurnTaken(s, events, id) <==> id in t.cast.value.snapshot[..t.cast.value.turn])
  }

  /** An event that is not the client's own turn adds none. */
  lemma SameTurns(s: Server, events: seq<Event>, id: ClientId, k: nat)
    requires events != [] && !OwnTurn(s, events, |events| - 1, id)
    ensures OwnTurn(s, events[..|events| - 1], k, id) <==> OwnTurn(s, events, k, id)
  {
    if k < |events| - 1 {
      OwnTurnInLonger(s, events, |events| - 1, k, id);
    }
  }

  lemma NotTaken(s: Server, events: seq<Event>, id: ClientId)
    requires events != [] && !OwnTurn(s, events, |events| - 1, id)
    ensures TurnTaken(s, events, id) <==> TurnTaken(s, events[..|events| - 1], id)
  {
    if TurnTaken(s, events, id) {
      var k: nat :| OwnTurn(s, events, k, id);
      SameTurns(s, events, id, k);
    }
    if TurnTaken(s, events[..|events| - 1], id) {
      var k: nat :| OwnTurn(s, events[..|events| - 1], k, id);
      SameTurns(s, events, id, k);
    }
  }

  lemma OthersTurn(s: Server, events: seq<Event>, id: ClientId, before: nat, now: nat)
    requires events != [] && !OwnTurn(s, events, |events| - 1, id)
    requires Decides(s, events[..|events| - 1], id, before, now)
    ensures Decides(s, events, id, before, now)
  {
    var n := |events| - 1;
    NotTaken(s, events, id);
    forall k: nat | OwnTurn(s, events, k, id)
      ensures OwnTurn(s, events[..n], k, id) && (WantsAt(s, events[..n], k, id) <==> WantsAt(s, events, k, id))
    {
      SameTurns(s, events, id, k);
      assert events[..n][..k] == events[..k];
    }
  }

  /** The client's own turn. */
  lemma ItsOwnTurn(s: Server, events: seq<Event>, id: ClientId)
    requires events != [] && s.cast.Some? && OwnTurn(s, events, |events| - 1, id)
    requires !TurnTaken(s, events[..|events| - 1], id) && Decided(s, events[..|events| - 1], id)
    requires var t, kind := RunFrom(s, events[..|events| - 1]), s.cast.value.kind;
             SentTo(RunFrom(s, events), id, kind) == SentTo(t, id, kind) + if Wants(t, id) then 1 else 0
    ensures TurnTaken(s, events, id) && Decided(s, events, id)
  {
    var n := |events| - 1;
    forall k: nat | OwnTurn(s, events, k, id) ensures k == n {
      if k < n {
        OwnTurnInLonger(s, events, n, k, id);
      }
    }
  }

  lemma StepDecides(s: Server, events: seq<Event>, id: ClientId)
    requires Identities(s) && Framed(s) && BroadcastKind(s) && OneItem(s, events)
    requires s.cast.value.items != [] && events != []
    requires OnCopy(s, events[..|events| - 1], id) && Decided(s, events[..|events| - 1], id)
    ensures OnCopy(s, events, id) && Decided(s, events, id)
  {
    var n := |events| - 1;
    Kept(s, events[..n]);
    assert events[..|events|] == events && SameItems(s, RunFrom(s, events));
    if events[n].CastTurn? {
      TurnDecides(s, events, id);
    } else {
      OtherSends(RunFrom(s, events[..n]), id, events[n]);
      NotTaken(s, events, id);
      OthersTurn(s, events, id, SentTo(s, id, s.cast.value.kind), SentTo(RunFrom(s, events), id, s.cast.value.kind));
    }
  }

  lemma TurnDecides(s: Server, events: seq<Event>, id: ClientId)
    requires s.cast.Some? && s.cast.value.items != [] && events != [] && events[|events| - 1].CastTurn?
    requires OnCopy(s, events[..|events| - 1], id) && Decided(s, events[..|events| - 1], id)
    requires Framed(RunFrom(s, events[..|events| - 1])) && SameItems(s, RunFrom(s, events))
    ensures OnCopy(s, events, id) && Decided(s, events, id)
  {
    var t := RunFrom(s, events[..|events| - 1]);
    var b := t.cast.value;
    TurnSends(t, id, events[|events| - 1].ok);
    assert b.snapshot[..b.turn + 1] == b.snapshot[..b.turn] + [b.snapshot[b.turn]];
    if ItsTurn(t, id) {
      assert id !in b.snapshot[..b.turn];
      ItsOwnTurn(s, events, id);
    } else {
      NotTaken(s, events, id);
      OthersTurn(s, events, id, SentTo(s, id, s.cast.value.kind), SentTo(RunFrom(s, events), id, s.cast.value.kind));
    }
  }

  lemma {:induction false} ItemProgress(s: Server, events: seq<Event>, id: ClientId)
    requires Identities(s) && Framed(s) && BroadcastKind(s) && OneItem(s, events)
    requires s.cast.value.items != [] && s.cast.value.turn == 0 && id in s.table
    ensures OnCopy(s, events, id) && Decided(s, events, id)
  {
    if events != [] {
      var n := |events| - 1;
      OneItemPrefix(s, events, n);
      ItemProgress(s, events[..n], id);
      StepDecides(s, events, id);
    }
  }

  /** Delivery: take any reachable state in which a broadcast has just copied the client list for a symbol,
      and any interleaving up to the end of that copy, subscriptions included.  Every client in the copy has
      its own turn, and is sent the message exactly once if its filter accepts the symbol in the state of
      that turn, and not at all otherwise; a client that is not in the copy is not sent it. */
  lemma BroadcastReachesExactly(before: seq<Event>, during: seq<Event>, id: ClientId)
    requires var s := Run(before);
             OneItem(s, during) && s.cast.value.items != [] && s.cast.value.turn == 0 && id in s.table
    requires RunFrom(Run(before), during).cast.value.turn == |RunFrom(Run(before), during).cast.value.snapshot|
    ensures TurnTaken(Run(before), during, id) <==> id in Run(before).cast.value.snapshot
    ensures Decided(Run(before), during, id)
  {
    BroadcastFrame(before);
    CastKinds(before);
    ItemProgress(Run(before), during, id);
    var copy := Run(before).cast.value.snapshot;
    assert copy[..|copy|] == copy;
  }

  /** The event neither subscribes nor unsubscribes this client. */
  predicate LeavesFilter(e: Event, id: ClientId) {
    !(e.ClientActs? && e.id == id && (e.input.Subscribe? || e.input.Unsubscribe?))
  }

  lemma {:induction false} FilterKept(s: Server, events: seq<Event>, id: ClientId)
    requires Identities(s) && Framed(s) && id in s.table
    requires forall i :: 0 <= i < |events| ==> LeavesFilter(events[i], id)
    ensures var t := RunFrom(s, events);
            id in t.table && t.table[id].symbols == s.table[id].symbols && t.table[id].channels == s.table[id].channels
  {
    if events != [] {
      FilterKept(s, events[..|events| - 1], id);
      Kept(s, events[..|events| - 1]);
      FilterStep(RunFrom(s, events[..|events| - 1]), events[|events| - 1], id);
    }
  }

  lemma FilterStep(t: Server, e: Event, id: ClientId)
    requires Identities(t) && id in t.table && LeavesFilter(e, id)
    ensures var u := Step(t, e);
            id in u.table && u.table[id].symbols == t.table[id].symbols && u.table[id].channels == t.table[id].channels
  {
  }

  /** A client that leaves its subscription alone meanwhile is sent the symbol exactly when it is in the copy
      and its filter accepts. */
  lemma StableFilterDecides(before: seq<Event>, during: seq<Event>, id: ClientId)
    requires var s := Run(before);
             OneItem(s, during) && s.cast.value.items != [] && s.cast.value.turn == 0 && id in s.table
    requires RunFrom(Run(before), during).cast.value.turn == |RunFrom(Run(before), during).cast.value.snapshot|
    requires forall i :: 0 <= i < |during| ==> LeavesFilter(during[i], id)
    ensures var s, t := Run(before), RunFrom(Run(before), during); var b := s.cast.value;
            SentTo(t, id, b.kind) == SentTo(s, id, b.kind) + if id in b.snapshot && Wants(s, id) then 1 else 0
  {
    BroadcastReachesExactly(before, during, id);
    BroadcastFrame(before);
    CastKinds(before);
    if TurnTaken(Run(before), during, id) {
      var k: nat :| OwnTurn(Run(before), during, k, id);
      FilterKept(Run(before), during[..k], id);
      OneItemPrefix(Run(before), during, k);
      ItemProgress(Run(before), during[..k], id);
    }
  }

  lemma OneItemPrefix(s: Server, events: seq<Event>, n: nat)
    requires OneItem(s, events) && n <= |events|
    ensures OneItem(s, events[..n])
  {
    forall k | 0 <= k <= n ensures SameItems(s, RunFrom(s, events[..n][..k])) {
      assert events[..n][..k] == events[..k];
    }
  }

  /** The copy is still the one taken at s, and a client unknown at s was sent nothing of this kind. */
  predicate Unsent(s: Server, t: Server, id: ClientId) {
    && SameItems(s, t) && t.cast.value.kind == s.cast.value.kind && t.cast.value.snapshot == s.cast.value.snapshot
    && (id in t.table ==> Count(s.cast.value.kind, t.table[id].sent) == 0)
  }

  lemma StepUnsent(s: Server, t: Server, id: ClientId, e: Event)
    requires s.cast.Some? && s.cast.value.items != [] && IsBroadcast(s.cast.value.kind) && id !in s.cast.value.snapshot
    requires Unsent(s, t, id) && SameItems(s, Step(t, e))
    ensures Unsent(s, Step(t, e), id)
  {
    if e.ClientActs? && id in t.table {
      HandleSendsNoBroadcast(t.table[id], e.input, e.ok, s.cast.value.kind);
    }
    if e.ConnectFinish? {
      CountSnoc(s.cast.value.kind, [], Frame(Welcome, Some(1), e.ok));
    }
  }

  lemma {:induction false} UnsentThroughout(s: Server, events: seq<Event>, id: ClientId)
    requires OneItem(s, events) && s.cast.value.items != [] && IsBroadcast(s.cast.value.kind)
    requires id !in s.cast.value.snapshot && id !in s.table
    ensures Unsent(s, RunFrom(s, events), id)
  {
    if events != [] {
      var n := |events| - 1;
      OneItemPrefix(s, events, n);
      UnsentThroughout(s, events[..n], id);
      assert events[..|events|] == events;
      assert SameItems(s, RunFrom(s, events));
      StepUnsent(s, RunFrom(s, events[..n]), id, events[n]);
    }
  }

  /** A client that connects while a symbol is being broadcast is not sent that symbol. */
  lemma NewcomersAreSkipped(before: seq<Event>, during: seq<Event>, id: ClientId)
    requires OneItem(Run(before), during) && Run(before).cast.value.items != [] && id !in Run(before).table
    ensures var t := RunFrom(Run(before), during);
            id in t.table ==> Count(Run(before).cast.value.kind, t.table[id].sent) == 0
  {
    BroadcastFrame(before);
    CastKinds(before);
    UnsentThroughout(Run(before), during, id);
  }

  /** A subscription takes effect at once, replacing the old one, and is answered by its confirmation and one
      snapshot, numbered in this order; nothing else a client says brings a snapshot. */
  lemma SubscriptionTakesEffect(c: Client, symbols: set<string>, channels: set<Channel>, first: bool, second: bool)
    ensures var d := Handle(Handle(c, Subscribe(symbols, channels), first), SnapshotTurn, second);
            && d.sent == c.sent + [Frame(Subscribed, Some(c.seqNo + 1), first), Frame(Snapshot, Some(c.seqNo + 2), second)]
            && Handle(d, SnapshotTurn, second) == d
            && forall channel, symbol :: Accepts(d, channel, symbol) <==> channel in channels && (symbols == {} || symbol in symbols)
  {
  }

  /** What an unsubscription leaves of a channel's messages, symbol by symbol: taking the last symbol away
      leaves the empty set, which lets every symbol through. */
  lemma UnsubscribeNarrowsIff(c: Client, removed: set<string>, channel: Channel, ok: bool)
    requires channel in c.channels
    ensures (forall symbol :: Accepts(Handle(c, Unsubscribe(removed), ok), channel, symbol) ==> Accepts(c, channel, symbol))
            <==> (c.symbols == {} || c.symbols - removed != {})
  {
    if c.symbols != {} && c.symbols - removed == {} {
      var other := SymbolOutside(c.symbols);
      assert Accepts(Handle(c, Unsubscribe(removed), ok), channel, other) && !Accepts(c, channel, other);
    }
  }

  lemma {:induction false} SymbolOutside(symbols: set<string>) returns (other: string)
    ensures other !in symbols
    ensures forall symbol :: symbol in symbols ==> |symbol| < |other|
  {
    if symbols == {} {
      other := "A";
    } else {
      var one :| one in symbols;
      var rest := SymbolOutside(symbols - {one});
      other := rest + one + "A";
      forall symbol | symbol in symbols ensures |symbol| < |other| {
        if symbol != one { assert symbol in symbols - {one}; }
      }
      assert other !in symbols;
    }
  }

  /** The price ticks that reach the throttle: no broadcast running and somebody connected. */
  function Attempts(events: seq<Event>): seq<(Key, Request)> {
    if events == [] then []
    else
      var n := |events| - 1;
      var s := Run(events[..n]);
      var before := Attempts(events[..n]);
      if events[n].PriceTick? && s.cast.None? && s.clients != [] then before + [(events[n].key, At(events[n].nowMs, THROTTLE_MS))] else before
  }

  predicate ClockStarted(events: seq<Event>) {
    forall i :: 0 <= i < |events| && events[i].PriceTick? ==> events[i].nowMs >= THROTTLE_MS
  }

  /** The default of 0 for a key never sent makes the throttle the common gate exactly when the key was sent
      before or the clock has reached the limit. */
  lemma DefaultZeroIsHarmlessIff(last: map<Key, int>, key: Key, nowMs: int)
    ensures (PriceThrottleOpen(last, key, nowMs) <==> KeyedGate.Open(last, key, nowMs, THROTTLE_MS))
            <==> (key in last || nowMs >= THROTTLE_MS)
  {
  }

  lemma {:induction false} ThrottleTable(events: seq<Event>)
    requires ClockStarted(events)
    ensures Run(events).lastPriceSent == KeyedGate.Run(Attempts(events))
  {
    if events != [] {
      var n := |events| - 1;
      ThrottleTable(events[..n]);
      ThrottleStep(Run(events[..n]), events[n]);
      if events[n].PriceTick? && Run(events[..n]).cast.None? && Run(events[..n]).clients != [] {
        KeyedGate.RunSnoc(Attempts(events[..n]), events[n].key, At(events[n].nowMs, THROTTLE_MS));
      }
    }
  }

  lemma ThrottleStep(s: Server, e: Event)
    requires e.PriceTick? ==> e.nowMs >= THROTTLE_MS
    ensures Step(s, e).lastPriceSent ==
            if e.PriceTick? && s.cast.None? && s.clients != [] then KeyedGate.Step(s.lastPriceSent, e.key, At(e.nowMs, THROTTLE_MS))
            else s.lastPriceSent
  {
    if e.PriceTick? {
      DefaultZeroIsHarmlessIff(s.lastPriceSent, e.key, e.nowMs);
    }
  }

  /** Over any run, a price that reaches the throttle is broadcast exactly when the greedy 100 ms gate of
      its exchange and symbol accepts it. */
  lemma PriceThrottleIsGreedy(events: seq<Event>, key: Key, now: int)
    requires ClockStarted(events) && now >= THROTTLE_MS
    requires Run(events).cast.None? && Run(events).clients != []
    ensures var requests := KeyedGate.RequestsOf(Attempts(events), key);
            Run(events + [PriceTick(key, now)]).cast.Some? <==> |requests| in Accepted(requests + [At(now, THROTTLE_MS)])
  {
    ThrottleTable(events);
    KeyedGate.RunMirrors(Attempts(events), key);
    KeyedGate.StepMirrors(Run(events).lastPriceSent, key, KeyedGate.RequestsOf(Attempts(events), key), At(now, THROTTLE_MS));
    DefaultZeroIsHarmlessIff(Run(events).lastPriceSent, key, now);
    RunFromSnoc(START, events, PriceTick(key, now));
  }
}
