/** Who is on the client list, over every run, and what each client is answered. */
module WsMembership {
  import opened Options
  import opened Markets
  import opened WsServer
  import opened WsBroadcast
  import opened WsDelivery
  import opened WsReach

  /** The client connected and has disconnected since. */
  predicate Departed(events: seq<Event>, id: ClientId) {
    events != [] &&
    var before := events[..|events| - 1];
    Departed(before, id) || (events[|events| - 1] == Disconnect(id) && id in Run(before).table)
  }

  lemma DepartedSnoc(before: seq<Event>, e: Event, id: ClientId)
    ensures Departed(before + [e], id) <==> Departed(before, id) || (e == Disconnect(id) && id in Run(before).table)
  {
    assert (before + [e])[..|before|] == before;
  }

  lemma TableGrows(s: Server, e: Event, id: ClientId)
    requires id in s.table
    ensures id in Step(s, e).table
  {
  }

  lemma {:induction false} DepartedIsKnown(events: seq<Event>, id: ClientId)
    requires Departed(events, id)
    ensures id in Run(events).table
  {
    var before, e := events[..|events| - 1], events[|events| - 1];
    if Departed(before, id) {
      DepartedIsKnown(before, id);
    }
    TableGrows(Run(before), e, id);
  }

  /** A price or spread send to the client failed in the broadcast that is running. */
  predicate MarkedFailed(s: Server, id: ClientId) {
    s.cast.Some? && id in s.cast.value.failed
  }

  /** A listed client has not departed, and only a broadcast that has not come to its cleanup can have failed
      to reach it; a known client that is not listed has departed or could not be reached; and only clients
      that could not be reached are marked. */
  predicate Accounted(s: Server, departed: bool, id: ClientId) {
    && (id in s.clients ==> id in s.table && !departed && (SendFailed(s.table[id].sent) ==> MarkedFailed(s, id)))
    && (id in s.table && id !in s.clients ==> departed || SendFailed(s.table[id].sent))
    && (MarkedFailed(s, id) ==> id in s.table && SendFailed(s.table[id].sent))
  }

  lemma NoFailureAdded(sent: seq<Frame>, f: Frame)
    requires f.delivered || !(f.kind.PriceUpdate? || f.kind.SpreadUpdate?)
    ensures SendFailed(sent + [f]) <==> SendFailed(sent)
  {
    var more := sent + [f];
    if SendFailed(more) {
      var i :| 0 <= i < |more| && FailedAt(more, i);
      assert FailedAt(sent, i);
    }
    if SendFailed(sent) {
      SendFailedGrows(sent, [f]);
    }
  }

  lemma HandleAddsNoFailure(c: Client, input: Input, ok: bool)
    ensures SendFailed(Handle(c, input, ok).sent) <==> SendFailed(c.sent)
  {
    var more := Handle(c, input, ok).sent;
    if |more| > |c.sent| {
      assert more == c.sent + [more[|c.sent|]];
      NoFailureAdded(c.sent, more[|c.sent|]);
    }
  }

  /** A delivery fails exactly when it is a price or a spread that does not go through. */
  lemma DeliverFails(c: Client, kind: Kind, ok: bool)
    requires IsBroadcast(kind)
    ensures SendFailed(Deliver(c, kind, ok).sent) <==> SendFailed(c.sent) || (!ok && !kind.AlertTriggered?)
  {
    var f := Deliver(c, kind, ok).sent[|c.sent|];
    assert Deliver(c, kind, ok).sent == c.sent + [f];
    if !ok && !kind.AlertTriggered? {
      FailureIsRecorded(c, kind);
    } else {
      NoFailureAdded(c.sent, f);
    }
  }

  lemma TurnAccounted(s: Server, departed: bool, id: ClientId, b: Cast, ok: bool)
    requires Accounted(s, departed, id) && s.cast == Some(b) && IsBroadcast(b.kind)
    requires b.items != [] && b.turn < |b.snapshot|
    ensures Accounted(Turn(s, b, ok), departed, id)
  {
    var whose := b.snapshot[b.turn];
    if whose in s.table {
      DeliverFails(s.table[whose], b.kind, ok);
    }
  }

  lemma CleanupAccounted(s: Server, departed: bool, id: ClientId, b: Cast, ok: bool)
    requires Accounted(s, departed, id) && s.cast == Some(b) && (b.items == [] || b.turn >= |b.snapshot|)
    ensures Accounted(Turn(s, b, ok), departed, id)
  {
  }

  lemma WelcomeIsNoFailure(ok: bool)
    ensures !SendFailed(SendNumbered(NEWCOMER, Welcome, ok).sent)
  {
    NoFailureAdded([], Frame(Welcome, Some(1), ok));
  }

  lemma ConnectedAccounted(s: Server, departed: bool, id: ClientId, who: ClientId, ok: bool)
    requires Accounted(s, departed, id) && who in s.handshakes && Identities(s)
    requires departed ==> id in s.table
    ensures Accounted(Connected(s, who, ok), departed, id)
  {
    WelcomeIsNoFailure(ok);
  }

  lemma DisconnectedAccounted(s: Server, departed: bool, id: ClientId, who: ClientId)
    requires Accounted(s, departed, id) && who in s.table
    ensures Accounted(Disconnected(s, who), departed || who == id, id)
  {
  }

  lemma OtherAccounted(s: Server, departed: bool, id: ClientId, e: Event)
    requires Accounted(s, departed, id) && !e.CastTurn? && !e.ConnectFinish? && !e.Disconnect?
    ensures Accounted(Step(s, e), departed, id)
  {
    if e.ClientActs? && e.id in s.table {
      HandleAddsNoFailure(s.table[e.id], e.input, e.ok);
    }
  }

  lemma StepAccounted(before: seq<Event>, e: Event, id: ClientId)
    requires Accounted(Run(before), Departed(before, id), id)
    ensures Accounted(Step(Run(before), e), Departed(before + [e], id), id)
  {
    var s, departed := Run(before), Departed(before, id);
    DepartedSnoc(before, e, id);
    BroadcastFrame(before);
    CastKinds(before);
    if departed {
      DepartedIsKnown(before, id);
    }
    match e
    case ConnectFinish(who, ok) => if who in s.handshakes { ConnectedAccounted(s, departed, id, who, ok); }
    case Disconnect(who) => if who in s.table { DisconnectedAccounted(s, departed, id, who); }
    case CastTurn(ok) =>
      if s.cast.Some? {
        if s.cast.value.items == [] || s.cast.value.turn >= |s.cast.value.snapshot| {
          CleanupAccounted(s, departed, id, s.cast.value, ok);
        } else {
          TurnAccounted(s, departed, id, s.cast.value, ok);
        }
      }
    case _ => OtherAccounted(s, departed, id, e);
  }

  lemma {:induction false} RunAccounted(events: seq<Event>, id: ClientId)
    ensures Accounted(Run(events), Departed(events, id), id)
  {
    if events != [] {
      var before, e := events[..|events| - 1], events[|events| - 1];
      RunAccounted(before, id);
      assert events == before + [e];
      StepAccounted(before, e, id);
      RunFromSnoc(START, before, e);
    }
  }

  /** Who is listed: in every reachable state between broadcasts, a client that ever connected is on the list
      exactly when it has not disconnected and no price or spread send to it has failed. */
  lemma ListedIff(events: seq<Event>, id: ClientId)
    requires Run(events).cast.None? && id in Run(events).table
    ensures id in Run(events).clients <==> !Departed(events, id) && !SendFailed(Run(events).table[id].sent)
  {
    RunAccounted(events, id);
  }

  /** A client that disconnected is never listed again, whatever follows. */
  lemma {:induction false} DepartedStaysAway(before: seq<Event>, id: ClientId, after: seq<Event>)
    requires id in Run(before).table
    ensures id !in Run(before + [Disconnect(id)] + after).clients
  {
    StaysDeparted(before, id, after);
    RunAccounted(before + [Disconnect(id)] + after, id);
  }

  lemma {:induction false} StaysDeparted(before: seq<Event>, id: ClientId, after: seq<Event>)
    requires id in Run(before).table
    ensures Departed(before + [Disconnect(id)] + after, id)
  {
    if after == [] {
      DepartedSnoc(before, Disconnect(id), id);
      assert before + [Disconnect(id)] + after == before + [Disconnect(id)];
    } else {
      var n := |after| - 1;
      StaysDeparted(before, id, after[..n]);
      assert before + [Disconnect(id)] + after == before + [Disconnect(id)] + after[..n] + [after[n]];
      DepartedSnoc(before + [Disconnect(id)] + after[..n], after[n], id);
    }
  }

  /** What a client is answered: a timeout brings a heartbeat, an unknown message an error, an
      unsubscription its confirmation, a pong nothing; each answer carries the next number. */
  lemma EveryInputIsAnswered(c: Client, removed: set<string>, ok: bool)
    ensures Handle(c, TimedOut, ok).sent == c.sent + [Frame(Heartbeat, Some(c.seqNo + 1), ok)]
    ensures Handle(c, Other, ok).sent == c.sent + [Frame(UnknownType, Some(c.seqNo + 1), ok)]
    ensures Handle(c, Unsubscribe(removed), ok).sent == c.sent + [Frame(Unsubscribed, Some(c.seqNo + 1), ok)]
    ensures Handle(c, Pong, ok) == c
  {
  }

  /** What a client hears: a new one everything; after an unsubscription what is left of its symbols, or
      everything if nothing is left; no other message but a subscription changes it. */
  lemma FilterAfterInput(c: Client, removed: set<string>, channel: Channel, symbol: string, ok: bool)
    ensures Accepts(SendNumbered(NEWCOMER, Welcome, ok), channel, symbol)
    ensures Accepts(Handle(c, Unsubscribe(removed), ok), channel, symbol) <==>
            channel in c.channels && (c.symbols <= removed || (symbol in c.symbols && symbol !in removed))
    ensures forall input :: input in {TimedOut, SnapshotTurn, Pong, Other} ==>
              (Accepts(Handle(c, input, ok), channel, symbol) <==> Accepts(c, channel, symbol))
  {
    var left := c.symbols - removed;
    if left == {} {
      forall x | x in c.symbols ensures x in removed {
        assert x !in left;
      }
    } else {
      var x :| x in left;
      assert x in c.symbols && x !in removed;
    }
  }

  /** A newcomer: in every reachable state a pending handshake that completes appends its client to the list,
      hearing everything, with the welcome as its first message. */
  lemma NewcomerIsListedLast(events: seq<Event>, id: ClientId, ok: bool)
    requires id in Run(events).handshakes
    ensures var s, t := Run(events), Run(events + [ConnectFinish(id, ok)]);
            && t.clients == s.clients + [id] && id !in s.clients
            && id in t.table && t.table[id].sent == [Frame(Welcome, Some(1), ok)]
            && t.table[id].symbols == {} && t.table[id].channels == {Prices, Spreads, Alerts, ExchangeStatus}
  {
    BroadcastFrame(events);
    RunFromSnoc(START, events, ConnectFinish(id, ok));
    NewcomerStep(Run(events), id, ok);
  }

  lemma NewcomerStep(s: Server, id: ClientId, ok: bool)
    requires Identities(s) && id in s.handshakes
    ensures var t := Step(s, ConnectFinish(id, ok));
            && t.clients == s.clients + [id] && id !in s.clients
            && id in t.table && t.table[id].sent == [Frame(Welcome, Some(1), ok)]
            && t.table[id].symbols == {} && t.table[id].channels == {Prices, Spreads, Alerts, ExchangeStatus}
  {
    ListedIsKnown(s, id);
    assert [] + [Frame(Welcome, Some(1), ok)] == [Frame(Welcome, Some(1), ok)];
  }
}
