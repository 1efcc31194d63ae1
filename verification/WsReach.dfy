/** From an event of the pipeline to the clients it reaches: whole broadcasts, from their start to their end. */
module WsReach {
  import opened Options
  import opened Markets
  import opened WsServer
  import opened WsBroadcast
  import opened WsDelivery

  /** The broadcast is running all the time. */
  ghost predicate Alive(start: Server, events: seq<Event>) {
    forall k :: 0 <= k <= |events| ==> RunFrom(start, events[..k]).cast.Some?
  }

  /** The run is one broadcast, from its first step to its end. */
  ghost predicate OneBroadcast(start: Server, events: seq<Event>) {
    && (forall k :: 0 <= k < |events| ==> RunFrom(start, events[..k]).cast.Some?)
    && RunFrom(start, events).cast.None?
  }

  /** The client neither changes its subscription, nor, when there are several symbols, leaves or joins the
      list while they are sent. */
  predicate Steady(e: Event, id: ClientId, listed: bool, several: bool) {
    && LeavesFilter(e, id)
    && (several ==> if listed then e != Disconnect(id) else !(e.ConnectFinish? && e.id == id))
  }

  predicate AllSteady(events: seq<Event>, id: ClientId, listed: bool, several: bool) {
    forall i :: 0 <= i < |events| ==> Steady(events[i], id, listed, several)
  }

  /** How many of these symbols the client's filter lets through. */
  function Wanted(c: Client, kind: Kind, items: seq<string>): nat {
    if items == [] then 0
    else Wanted(c, kind, items[..|items| - 1]) + if Accepts(c, ChannelOf(kind), items[|items| - 1]) then 1 else 0
  }

  /** The same as it was when the broadcast began, for a client known then. */
  predicate SameFilter(s: Server, t: Server, id: ClientId) {
    id in s.table ==> id in t.table && t.table[id].symbols == s.table[id].symbols && t.table[id].channels == s.table[id].channels
  }

  /** How far a broadcast of these items, begun at s, has come at t, as seen by one client. */
  predicate Reached(s: Server, t: Server, kind: Kind, items: seq<string>, id: ClientId) {
    && t.cast.Some? && SameFilter(s, t, id)
    && var b := t.cast.value;
    && b.kind == kind && b.start == s.clients && b.turn <= |b.snapshot|
    && |b.items| <= |items| && b.items == items[|items| - |b.items|..]
    && (b.items != [] ==> (id in b.snapshot <==> id in s.clients))
    && (|items| > 1 ==> if id in s.clients then id !in b.gone else id !in b.added)
    && SentTo(t, id, kind) == SentTo(s, id, kind) + Due(s, b, items, id)
  }

  /** What the client should have been sent by now. */
  function Due(s: Server, b: Cast, items: seq<string>, id: ClientId): nat
    requires |b.items| <= |items| && b.turn <= |b.snapshot|
  {
    if id in s.clients && id in s.table then
      Wanted(s.table[id], b.kind, items[..|items| - |b.items|])
      + if b.items != [] && id in b.snapshot[..b.turn] && Accepts(s.table[id], ChannelOf(b.kind), b.items[0]) then 1 else 0
    else 0
  }

  lemma BeginReached(s: Server, kind: Kind, items: seq<string>, id: ClientId)
    requires Identities(s) && s.cast.None?
    ensures Reached(s, Begin(s, kind, items), kind, items, id)
  {
    assert items[|items| - |items|..] == items && items[..0] == [] && s.clients[..0] == [];
  }

  /** A step of another coroutine sends this client nothing of the broadcast's kind. */
  lemma OtherSendsNothing(t: Server, id: ClientId, e: Event)
    requires Identities(t) && t.cast.Some? && IsBroadcast(t.cast.value.kind) && !e.CastTurn?
    ensures var u, b := Step(t, e), t.cast.value;
            && SameCopy(t, u) && u.cast.value.turn == b.turn && u.cast.value.start == b.start
            && SentTo(u, id, b.kind) == SentTo(t, id, b.kind)
  {
    if id in t.table {
      OtherSends(t, id, e);
    } else {
      NewcomerHasNothing(t, id, e);
    }
    StartStays(t, e);
  }

  lemma NewcomerHasNothing(t: Server, id: ClientId, e: Event)
    requires t.cast.Some? && IsBroadcast(t.cast.value.kind) && !e.CastTurn? && id !in t.table
    ensures SentTo(Step(t, e), id, t.cast.value.kind) == 0
  {
    if e.ConnectFinish? {
      CountSnoc(t.cast.value.kind, [], Frame(Welcome, Some(1), e.ok));
    }
  }

  lemma StartStays(t: Server, e: Event)
    requires t.cast.Some? && !e.CastTurn?
    ensures var u, b := Step(t, e), t.cast.value;
            u.cast.Some? && u.cast.value == b.(added := u.cast.value.added, gone := u.cast.value.gone)
  {
  }

  lemma OtherKeepsFilter(s: Server, t: Server, id: ClientId, e: Event)
    requires Identities(t) && SameFilter(s, t, id) && LeavesFilter(e, id)
    ensures SameFilter(s, Step(t, e), id)
  {
    if id in s.table {
      FilterStep(t, e, id);
    }
  }

  /** Who is recorded as having left and joined. */
  lemma OtherKeepsSteady(t: Server, id: ClientId, e: Event, listed: bool, several: bool)
    requires t.cast.Some? && Identities(t) && Steady(e, id, listed, several) && !e.CastTurn? && several
    requires if listed then id !in t.cast.value.gone else id !in t.cast.value.added
    ensures var b := Step(t, e).cast;
            b.Some? && if listed then id !in b.value.gone else id !in b.value.added
  {
  }

  lemma OtherReached(s: Server, t: Server, kind: Kind, items: seq<string>, id: ClientId, e: Event)
    requires Reached(s, t, kind, items, id) && Identities(t) && IsBroadcast(kind) && !e.CastTurn?
    requires Steady(e, id, id in s.clients, |items| > 1)
    ensures Reached(s, Step(t, e), kind, items, id)
  {
    OtherSendsNothing(t, id, e);
    OtherKeepsFilter(s, t, id, e);
    StartStays(t, e);
    if |items| > 1 {
      OtherKeepsSteady(t, id, e, id in s.clients, true);
    }
    TrafficKeepsReached(s, t, Step(t, e), kind, items, id);
  }

  /** Arrivals and departures of others, and sends to others, change nothing for this client. */
  lemma TrafficKeepsReached(s: Server, t: Server, u: Server, kind: Kind, items: seq<string>, id: ClientId)
    requires Reached(s, t, kind, items, id) && u.cast.Some? && SameFilter(s, u, id)
    requires var b, c := t.cast.value, u.cast.value; c == b.(added := c.added, gone := c.gone)
    requires |items| > 1 ==> if id in s.clients then id !in u.cast.value.gone else id !in u.cast.value.added
    requires SentTo(u, id, kind) == SentTo(t, id, kind)
    ensures Reached(s, u, kind, items, id)
  {
    DueIgnoresTraffic(s, t.cast.value, u.cast.value, items, id);
  }

  /** What is due does not depend on who failed, joined or left. */
  lemma DueIgnoresTraffic(s: Server, b: Cast, c: Cast, items: seq<string>, id: ClientId)
    requires |b.items| <= |items| && b.turn <= |b.snapshot|
    requires c == b.(failed := c.failed, added := c.added, gone := c.gone)
    ensures Due(s, c, items, id) == Due(s, b, items, id)
  {
  }

  lemma WantedSnoc(c: Client, kind: Kind, items: seq<string>, n: nat)
    requires n < |items|
    ensures Wanted(c, kind, items[..n + 1]) == Wanted(c, kind, items[..n]) + if Accepts(c, ChannelOf(kind), items[n]) then 1 else 0
  {
    assert items[..n + 1][..n] == items[..n];
  }

  /** The broadcast moves on to the next symbol. */
  lemma NextItemReached(s: Server, t: Server, kind: Kind, items: seq<string>, id: ClientId, ok: bool)
    requires Reached(s, t, kind, items, id) && Identities(s) && Framed(t)
    requires t.cast.value.items != [] && t.cast.value.turn == |t.cast.value.snapshot|
    ensures Reached(s, Turn(t, t.cast.value, ok), kind, items, id)
  {
    var b := t.cast.value;
    var next := b.(items := b.items[1..], snapshot := t.clients, turn := 0);
    DueMovesOn(s, b, t.clients, items, id);
    StillListed(s, t, b, items, id);
    assert b.items[1..] == items[|items| - |b.items[1..]|..];
    NextItemTurn(t, ok);
  }

  lemma NextItemTurn(t: Server, ok: bool)
    requires t.cast.Some? && t.cast.value.items != [] && t.cast.value.turn == |t.cast.value.snapshot|
    ensures var b := t.cast.value;
            Turn(t, b, ok) == t.(cast := Some(b.(items := b.items[1..], snapshot := t.clients, turn := 0)))
  {
  }

  /** Nothing is owed across the change of symbol. */
  lemma DueMovesOn(s: Server, b: Cast, clients: seq<ClientId>, items: seq<string>, id: ClientId)
    requires b.items != [] && |b.items| <= |items| && b.items == items[|items| - |b.items|..] && b.turn == |b.snapshot|
    requires id in b.snapshot <==> id in s.clients
    ensures Due(s, b.(items := b.items[1..], snapshot := clients, turn := 0), items, id) == Due(s, b, items, id)
  {
    var done := |items| - |b.items|;
    assert b.snapshot[..|b.snapshot|] == b.snapshot && clients[..0] == [];
    assert b.items[0] == items[done];
    if id in s.clients && id in s.table {
      WantedSnoc(s.table[id], b.kind, items, done);
    }
  }

  /** Who was listed at the start and stayed is in the next copy, and nobody who stayed away. */
  lemma StillListed(s: Server, t: Server, b: Cast, items: seq<string>, id: ClientId)
    requires t.cast == Some(b) && Framed(t) && b.start == s.clients && b.items != [] && |b.items| <= |items|
    requires |items| > 1 ==> if id in s.clients then id !in b.gone else id !in b.added
    ensures b.items[1..] != [] ==> (id in t.clients <==> id in s.clients)
  {
    if b.items[1..] != [] {
      assert |items| > 1;
      assert id in b.start + b.added <==> id in b.start || id in b.added;
    }
  }

  lemma DueAdvances(s: Server, b: Cast, items: seq<string>, id: ClientId)
    requires NoDuplicates(b.snapshot) && b.items != [] && |b.items| <= |items| && b.turn < |b.snapshot|
    ensures var next := b.(turn := b.turn + 1);
            Due(s, next, items, id) == Due(s, b, items, id)
              + if b.snapshot[b.turn] == id && id in s.clients && id in s.table && Accepts(s.table[id], ChannelOf(b.kind), b.items[0]) then 1 else 0
  {
    assert b.snapshot[..b.turn + 1] == b.snapshot[..b.turn] + [b.snapshot[b.turn]];
    if b.snapshot[b.turn] == id {
      assert id !in b.snapshot[..b.turn];
    }
  }

  lemma TurnKeepsFilter(s: Server, t: Server, id: ClientId, ok: bool)
    requires t.cast.Some? && SameFilter(s, t, id)
    ensures SameFilter(s, Turn(t, t.cast.value, ok), id)
  {
  }

  /** A turn gives this client what is due to it. */
  lemma TurnGives(s: Server, t: Server, kind: Kind, items: seq<string>, id: ClientId, ok: bool)
    requires Reached(s, t, kind, items, id) && Identities(s) && Framed(t)
    requires t.cast.value.items != [] && t.cast.value.turn < |t.cast.value.snapshot|
    ensures var b := t.cast.value;
            && Turn(t, b, ok).cast.Some?
            && SentTo(Turn(t, b, ok), id, kind) == SentTo(s, id, kind) + Due(s, b.(turn := b.turn + 1), items, id)
  {
    var b := t.cast.value;
    ListedIsKnown(s, id);
    DueAdvances(s, b, items, id);
    if b.snapshot[b.turn] == id {
      assert id in b.snapshot;
    }
    if id in t.table {
      TurnSends(t, id, ok);
    }
  }

  lemma TurnReached(s: Server, t: Server, kind: Kind, items: seq<string>, id: ClientId, ok: bool)
    requires Reached(s, t, kind, items, id) && Identities(s) && Framed(t)
    requires t.cast.value.items != [] && t.cast.value.turn < |t.cast.value.snapshot|
    ensures Reached(s, Turn(t, t.cast.value, ok), kind, items, id)
  {
    var b := t.cast.value;
    TurnGives(s, t, kind, items, id, ok);
    TurnKeepsFilter(s, t, id, ok);
    TurnMovesOn(t, ok);
    DueIgnoresTraffic(s, b.(turn := b.turn + 1), Turn(t, b, ok).cast.value, items, id);
  }

  lemma TurnMovesOn(t: Server, ok: bool)
    requires t.cast.Some? && t.cast.value.items != [] && t.cast.value.turn < |t.cast.value.snapshot|
    ensures var b, u := t.cast.value, Turn(t, t.cast.value, ok);
            u.cast.Some? && u.cast.value == b.(turn := b.turn + 1, failed := u.cast.value.failed)
  {
  }

  lemma EndReached(s: Server, t: Server, kind: Kind, items: seq<string>, id: ClientId, ok: bool)
    requires Reached(s, t, kind, items, id) && t.cast.value.items == []
    ensures SentTo(Turn(t, t.cast.value, ok), id, kind) ==
            SentTo(s, id, kind) + if id in s.clients && id in s.table then Wanted(s.table[id], kind, items) else 0
  {
    DueAtEnd(s, t.cast.value, items, id);
    CleanupSendsNothing(t, id, kind, ok);
  }

  lemma DueAtEnd(s: Server, b: Cast, items: seq<string>, id: ClientId)
    requires b.items == [] && b.turn <= |b.snapshot|
    ensures Due(s, b, items, id) == if id in s.clients && id in s.table then Wanted(s.table[id], b.kind, items) else 0
  {
    assert items[..|items|] == items;
  }

  lemma CleanupSendsNothing(t: Server, id: ClientId, kind: Kind, ok: bool)
    requires t.cast.Some? && t.cast.value.items == []
    ensures SentTo(Turn(t, t.cast.value, ok), id, kind) == SentTo(t, id, kind)
  {
  }

  lemma StepReached(s: Server, t: Server, kind: Kind, items: seq<string>, id: ClientId, e: Event)
    requires Reached(s, t, kind, items, id) && Identities(s) && Identities(t) && Framed(t) && IsBroadcast(kind)
    requires Steady(e, id, id in s.clients, |items| > 1) && Step(t, e).cast.Some?
    ensures Reached(s, Step(t, e), kind, items, id)
  {
    if !e.CastTurn? {
      OtherReached(s, t, kind, items, id, e);
    } else if t.cast.value.turn == |t.cast.value.snapshot| {
      NextItemReached(s, t, kind, items, id, e.ok);
    } else {
      TurnReached(s, t, kind, items, id, e.ok);
    }
  }

  lemma {:induction false} RunReached(s: Server, kind: Kind, items: seq<string>, events: seq<Event>, id: ClientId)
    requires Identities(s) && s.cast.None? && IsBroadcast(kind)
    requires Alive(Begin(s, kind, items), events) && AllSteady(events, id, id in s.clients, |items| > 1)
    ensures Reached(s, RunFrom(Begin(s, kind, items), events), kind, items, id)
  {
    var start := Begin(s, kind, items);
    BeginKeeps(s, kind, items);
    if events == [] {
      BeginReached(s, kind, items, id);
    } else {
      var n := |events| - 1;
      AlivePrefix(start, events, n);
      RunReached(s, kind, items, events[..n], id);
      Kept(start, events[..n]);
      assert events[..|events|] == events && RunFrom(start, events[..|events|]).cast.Some?;
      assert Steady(events[n], id, id in s.clients, |items| > 1);
      StepReached(s, RunFrom(start, events[..n]), kind, items, id, events[n]);
    }
  }

  lemma AlivePrefix(start: Server, events: seq<Event>, n: nat)
    requires n <= |events| && forall k :: 0 <= k <= n ==> RunFrom(start, events[..k]).cast.Some?
    ensures Alive(start, events[..n])
  {
    forall k | 0 <= k <= n ensures RunFrom(start, events[..n][..k]).cast.Some? {
      assert events[..n][..k] == events[..k];
    }
  }

  /** Only the turn that finds nothing more to send ends a broadcast. */
  lemma OnlyCleanupEnds(t: Server, e: Event)
    requires t.cast.Some? && Step(t, e).cast.None?
    ensures e.CastTurn? && t.cast.value.items == []
  {
  }

  /** A whole broadcast of some symbols gives each client exactly the messages its filter lets through. */
  lemma BroadcastDelivers(s: Server, kind: Kind, items: seq<string>, events: seq<Event>, id: ClientId)
    requires Identities(s) && s.cast.None? && IsBroadcast(kind)
    requires OneBroadcast(Begin(s, kind, items), events) && AllSteady(events, id, id in s.clients, |items| > 1)
    ensures SentTo(RunFrom(Begin(s, kind, items), events), id, kind) ==
            SentTo(s, id, kind) + if id in s.clients && id in s.table then Wanted(s.table[id], kind, items) else 0
  {
    var start := Begin(s, kind, items);
    var n := |events| - 1;
    assert events != [];
    AlivePrefix(start, events, n);
    RunReached(s, kind, items, events[..n], id);
    LastStepDelivers(s, RunFrom(start, events[..n]), kind, items, id, events[n]);
  }

  lemma LastStepDelivers(s: Server, t: Server, kind: Kind, items: seq<string>, id: ClientId, e: Event)
    requires Reached(s, t, kind, items, id) && Step(t, e).cast.None?
    ensures SentTo(Step(t, e), id, kind) ==
            SentTo(s, id, kind) + if id in s.clients && id in s.table then Wanted(s.table[id], kind, items) else 0
  {
    OnlyCleanupEnds(t, e);
    EndReached(s, t, kind, items, id, e.ok);
  }

  lemma ListedIsKnown(s: Server, id: ClientId)
    requires Identities(s)
    ensures id in s.clients ==> id in s.table
  {
    if id in s.clients {
      var i :| 0 <= i < |s.clients| && s.clients[i] == id;
      assert s.clients[i] in s.table;
    }
  }

  /** A price tick, from the consumer to the clients: in every reachable state with no broadcast running and
      somebody listed, when the price was last sent at least 100 ms ago, and over every run until the
      broadcast is over, a client that leaves its subscription alone is sent exactly one price update if it
      is listed at the tick, hears the price channel, and subscribed to the symbol or to no symbol in
      particular; everybody else is sent none. */
  lemma PriceReaches(before: seq<Event>, key: Key, now: int, during: seq<Event>, id: ClientId)
    requires Run(before).cast.None? && Run(before).clients != []
    requires var last := Run(before).lastPriceSent; now - (if key in last then last[key] else 0) >= 100
    requires OneBroadcast(Run(before + [PriceTick(key, now)]), during)
    requires forall i :: 0 <= i < |during| ==> LeavesFilter(during[i], id)
    ensures var s, t := Run(before), RunFrom(Run(before + [PriceTick(key, now)]), during);
            SentTo(t, id, PriceUpdate) == SentTo(s, id, PriceUpdate)
              + if id in s.clients && id in s.table && Prices in s.table[id].channels
                   && (s.table[id].symbols == {} || key.symbol in s.table[id].symbols) then 1 else 0
  {
    BroadcastFrame(before);
    RunFromSnoc(START, before, PriceTick(key, now));
    PriceDelivers(Run(before), key, now, during, id);
  }

  lemma WantedOne(c: Client, kind: Kind, item: string)
    ensures Wanted(c, kind, [item]) == if Accepts(c, ChannelOf(kind), item) then 1 else 0
  {
    assert [item][..0] == [];
  }

  /** A broadcast of one symbol. */
  lemma OneItemDelivers(s: Server, start: Server, kind: Kind, items: seq<string>, events: seq<Event>, id: ClientId)
    requires Identities(s) && s.cast.None? && IsBroadcast(kind) && |items| == 1
    requires start == Begin(s, kind, items) && OneBroadcast(start, events)
    requires forall i :: 0 <= i < |events| ==> LeavesFilter(events[i], id)
    ensures SentTo(RunFrom(start, events), id, kind) ==
            SentTo(s, id, kind) + if id in s.clients && id in s.table && Accepts(s.table[id], ChannelOf(kind), items[0]) then 1 else 0
  {
    BroadcastDelivers(s, kind, items, events, id);
    if id in s.table {
      WantedOne(s.table[id], kind, items[0]);
      assert items == [items[0]];
    }
  }

  lemma PriceBegins(s: Server, key: Key, now: int)
    requires s.cast.None? && s.clients != [] && now - (if key in s.lastPriceSent then s.lastPriceSent[key] else 0) >= 100
    ensures Step(s, PriceTick(key, now)) == Begin(s.(lastPriceSent := s.lastPriceSent[key := now]), PriceUpdate, [key.symbol])
  {
  }

  lemma PriceDelivers(s: Server, key: Key, now: int, during: seq<Event>, id: ClientId)
    requires Identities(s) && s.cast.None? && s.clients != [] && now - (if key in s.lastPriceSent then s.lastPriceSent[key] else 0) >= 100
    requires OneBroadcast(Step(s, PriceTick(key, now)), during)
    requires forall i :: 0 <= i < |during| ==> LeavesFilter(during[i], id)
    ensures SentTo(RunFrom(Step(s, PriceTick(key, now)), during), id, PriceUpdate) == SentTo(s, id, PriceUpdate)
              + if id in s.clients && id in s.table && Prices in s.table[id].channels
                   && (s.table[id].symbols == {} || key.symbol in s.table[id].symbols) then 1 else 0
  {
    var marked := s.(lastPriceSent := s.lastPriceSent[key := now]);
    PriceBegins(s, key, now);
    OneItemDelivers(marked, Step(s, PriceTick(key, now)), PriceUpdate, [key.symbol], during, id);
  }

  /** .. and within 100 ms of the last one, or with nobody listed, it is sent to nobody. */
  lemma PriceIsSkipped(before: seq<Event>, key: Key, now: int)
    requires var last := Run(before).lastPriceSent;
             Run(before).clients == [] || now - (if key in last then last[key] else 0) < 100
    ensures Run(before + [PriceTick(key, now)]) == Run(before)
  {
    RunFromSnoc(START, before, PriceTick(key, now));
  }

  /** How many of these symbols are among the subscribed ones, no subscription meaning all. */
  function Subscribed(symbols: set<string>, items: seq<string>): nat {
    if items == [] then 0
    else Subscribed(symbols, items[..|items| - 1]) + if symbols == {} || items[|items| - 1] in symbols then 1 else 0
  }

  lemma {:induction false} WantedIsSubscribed(c: Client, items: seq<string>)
    ensures Wanted(c, SpreadUpdate, items) == if Spreads in c.channels then Subscribed(c.symbols, items) else 0
  {
    if items != [] {
      WantedIsSubscribed(c, items[..|items| - 1]);
    }
  }

  /** A list of spreads: with no broadcast running and somebody listed, and over every run until the
      broadcast is over, a client that stays listed and leaves its subscription alone is sent one spread
      update for each spread of the list whose symbol it subscribed to, if it hears the spread channel; a
      client that stays away is sent none.  For a single spread, leaving and joining make no difference. */
  lemma SpreadsReach(before: seq<Event>, items: seq<string>, during: seq<Event>, id: ClientId)
    requires Run(before).cast.None? && Run(before).clients != []
    requires OneBroadcast(Run(before + [SpreadBatch(items)]), during)
    requires AllSteady(during, id, id in Run(before).clients, |items| > 1)
    ensures var s, t := Run(before), RunFrom(Run(before + [SpreadBatch(items)]), during);
            SentTo(t, id, SpreadUpdate) == SentTo(s, id, SpreadUpdate)
              + if id in s.clients && id in s.table && Spreads in s.table[id].channels then Subscribed(s.table[id].symbols, items) else 0
  {
    var s := Run(before);
    BroadcastFrame(before);
    RunFromSnoc(START, before, SpreadBatch(items));
    BroadcastDelivers(s, SpreadUpdate, items, during, id);
    if id in s.table {
      WantedIsSubscribed(s.table[id], items);
    }
  }

  /** An alert: the same on the alert channel, for its one symbol. */
  lemma AlertReaches(before: seq<Event>, symbol: string, during: seq<Event>, id: ClientId)
    requires Run(before).cast.None?
    requires OneBroadcast(Run(before + [AlertRaised(symbol)]), during)
    requires forall i :: 0 <= i < |during| ==> LeavesFilter(during[i], id)
    ensures var s, t := Run(before), RunFrom(Run(before + [AlertRaised(symbol)]), during);
            SentTo(t, id, AlertTriggered) == SentTo(s, id, AlertTriggered)
              + if id in s.clients && id in s.table && Alerts in s.table[id].channels
                   && (s.table[id].symbols == {} || symbol in s.table[id].symbols) then 1 else 0
  {
    BroadcastFrame(before);
    RunFromSnoc(START, before, AlertRaised(symbol));
    AlertDelivers(Run(before), symbol, during, id);
  }

  lemma AlertBegins(s: Server, symbol: string)
    requires s.cast.None?
    ensures Step(s, AlertRaised(symbol)) == Begin(s, AlertTriggered, [symbol])
  {
  }

  lemma AlertDelivers(s: Server, symbol: string, during: seq<Event>, id: ClientId)
    requires Identities(s) && s.cast.None? && OneBroadcast(Step(s, AlertRaised(symbol)), during)
    requires forall i :: 0 <= i < |during| ==> LeavesFilter(during[i], id)
    ensures SentTo(RunFrom(Step(s, AlertRaised(symbol)), during), id, AlertTriggered) == SentTo(s, id, AlertTriggered)
              + if id in s.clients && id in s.table && Alerts in s.table[id].channels
                   && (s.table[id].symbols == {} || symbol in s.table[id].symbols) then 1 else 0
  {
    AlertBegins(s, symbol);
    OneItemDelivers(s, Step(s, AlertRaised(symbol)), AlertTriggered, [symbol], during, id);
  }
}
