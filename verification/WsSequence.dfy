/** The sequence protocol, from the server's counter to the browser's gap check. */
module WsSequence {
  import opened Options
  import opened WsServer
  import opened WsBroadcast
  import opened GapDetector

  /** The numbers a connection was given, in send order. */
  function Numbers(sent: seq<Frame>): seq<nat> {
    if sent == [] then []
    else
      var before := Numbers(sent[..|sent| - 1]);
      if sent[|sent| - 1].number.Some? then before + [sent[|sent| - 1].number.value] else before
  }

  /** The numbers that reach the browser when what is delivered arrives in order. */
  function Received(sent: seq<Frame>): seq<nat> {
    if sent == [] then []
    else
      var f := sent[|sent| - 1];
      var before := Received(sent[..|sent| - 1]);
      if f.number.Some? && f.delivered then before + [f.number.value] else before
  }

  lemma FramesSnoc(sent: seq<Frame>, f: Frame)
    ensures Numbers(sent + [f]) == if f.number.Some? then Numbers(sent) + [f.number.value] else Numbers(sent)
    ensures Received(sent + [f]) == if f.number.Some? && f.delivered then Received(sent) + [f.number.value] else Received(sent)
  {
    assert (sent + [f])[..|sent|] == sent;
  }

  /** The numbered messages are 1 .. n in send order, and the first message is the numbered welcome. */
  predicate InOrder(c: Client) {
    && c.sent != [] && c.sent[0].kind.Welcome? && c.sent[0].number == Some(1)
    && Numbers(c.sent) == UpTo(c.seqNo)
  }

  lemma NumberedKeepsOrder(c: Client, kind: Kind, ok: bool)
    requires InOrder(c)
    ensures InOrder(SendNumbered(c, kind, ok))
  {
    FramesSnoc(c.sent, Frame(kind, Some(c.seqNo + 1), ok));
  }

  lemma PlainKeepsOrder(c: Client, kind: Kind, ok: bool)
    requires InOrder(c)
    ensures InOrder(SendPlain(c, kind, ok))
  {
    FramesSnoc(c.sent, Frame(kind, None, ok));
  }

  lemma HandleKeepsOrder(c: Client, input: Input, ok: bool)
    requires InOrder(c)
    ensures InOrder(Handle(c, input, ok))
  {
    match input
    case TimedOut => NumberedKeepsOrder(c, Heartbeat, ok);
    case Subscribe(symbols, channels) =>
      NumberedKeepsOrder(c.(symbols := symbols, channels := channels, snapshotDue := true), Subscribed, ok);
    case SnapshotTurn => NumberedKeepsOrder(c.(snapshotDue := false), Snapshot, ok);
    case Unsubscribe(removed) => NumberedKeepsOrder(c.(symbols := c.symbols - removed), Unsubscribed, ok);
    case Pong =>
    case Other => NumberedKeepsOrder(c, UnknownType, ok);
  }

  lemma WelcomeStartsOrder(ok: bool)
    ensures InOrder(SendNumbered(NEWCOMER, Welcome, ok))
  {
    FramesSnoc([], Frame(Welcome, Some(1), ok));
    assert [] + [Frame(Welcome, Some(1), ok)] == [Frame(Welcome, Some(1), ok)];
    assert Numbers([]) == [];
    assert UpTo(1) == [1];
  }

  ghost predicate AllInOrder(s: Server) {
    forall id :: id in s.table ==> InOrder(s.table[id])
  }

  lemma TurnKeepsOrder(s: Server, b: Cast, ok: bool)
    requires AllInOrder(s)
    ensures AllInOrder(Turn(s, b, ok))
  {
    if b.turn < |b.snapshot| && b.snapshot[b.turn] in s.table {
      var c := s.table[b.snapshot[b.turn]];
      NumberedKeepsOrder(c, b.kind, ok);
      PlainKeepsOrder(c, b.kind, ok);
    }
  }

  lemma ClientKeepsOrder(s: Server, id: ClientId, input: Input, ok: bool)
    requires AllInOrder(s)
    ensures AllInOrder(Step(s, ClientActs(id, input, ok)))
  {
    if id in s.table { HandleKeepsOrder(s.table[id], input, ok); }
  }

  lemma StepKeepsOrder(s: Server, e: Event)
    requires AllInOrder(s)
    ensures AllInOrder(Step(s, e))
  {
    match e
    case ConnectFinish(id, ok) => WelcomeStartsOrder(ok);
    case ClientActs(id, input, ok) => ClientKeepsOrder(s, id, input, ok);
    case CastTurn(ok) => if s.cast.Some? { TurnKeepsOrder(s, s.cast.value, ok); }
    case _ =>
  }

  /** Over any interleaving of connections, replies, heartbeats and broadcasts, whether or not their sends
      succeed, the numbered messages of every connection are exactly 1 .. n in send order, welcome first. */
  lemma {:induction false} SequenceProtocol(events: seq<Event>)
    ensures forall id :: id in Run(events).table ==> InOrder(Run(events).table[id])
  {
    if events != [] {
      var n := |events| - 1;
      SequenceProtocol(events[..n]);
      StepKeepsOrder(Run(events[..n]), events[n]);
    }
  }

  /** Alerts carry no number and everything else does. */
  predicate OnlyAlertsUnnumbered(sent: seq<Frame>) {
    forall i :: 0 <= i < |sent| ==> (sent[i].number.None? <==> sent[i].kind.AlertTriggered?)
  }

  lemma StepNumbersAllButAlerts(s: Server, e: Event)
    requires BroadcastKind(s) && forall id :: id in s.table ==> OnlyAlertsUnnumbered(s.table[id].sent)
    ensures forall id :: id in Step(s, e).table ==> OnlyAlertsUnnumbered(Step(s, e).table[id].sent)
  {
    if e.ClientActs? && e.id in s.table {
      HandleNumbers(s.table[e.id], e.input, e.ok);
    }
  }

  lemma HandleNumbers(c: Client, input: Input, ok: bool)
    requires OnlyAlertsUnnumbered(c.sent)
    ensures OnlyAlertsUnnumbered(Handle(c, input, ok).sent)
  {
  }

  /** In every reachable state exactly the alerts went out without a number. */
  lemma {:induction false} AlertsAreUnnumbered(events: seq<Event>)
    ensures forall id :: id in Run(events).table ==> OnlyAlertsUnnumbered(Run(events).table[id].sent)
  {
    if events != [] {
      var n := |events| - 1;
      AlertsAreUnnumbered(events[..n]);
      CastKinds(events[..n]);
      StepNumbersAllButAlerts(Run(events[..n]), events[n]);
    }
  }

  /** Once a send of the connection is lost, every later one is: what a dropped connection looks like. */
  predicate LostOnlyAtEnd(sent: seq<Frame>) {
    forall i, j :: 0 <= i < j < |sent| && sent[j].delivered ==> sent[i].delivered
  }

  lemma {:induction false} ReceivedGrows(sent: seq<Frame>, n: nat)
    requires Numbers(sent) == UpTo(n)
    ensures Increasing(Received(sent))
    ensures forall i :: 0 <= i < |Received(sent)| ==> Received(sent)[i] <= n
  {
    if sent != [] {
      var m := |sent| - 1;
      if sent[m].number.Some? {
        assert sent[m].number.value == UpTo(n)[n - 1] == n;
        assert Numbers(sent[..m]) == UpTo(n)[..n - 1] == UpTo(n - 1);
        ReceivedGrows(sent[..m], n - 1);
      } else {
        ReceivedGrows(sent[..m], n);
      }
    }
  }

  lemma {:induction false} EverythingDelivered(sent: seq<Frame>)
    requires forall i :: 0 <= i < |sent| ==> sent[i].delivered
    ensures Received(sent) == Numbers(sent)
  {
    if sent != [] {
      EverythingDelivered(sent[..|sent| - 1]);
    }
  }

  lemma {:induction false} NothingDelivered(sent: seq<Frame>, k: nat)
    requires k <= |sent| && forall i :: k <= i < |sent| ==> !sent[i].delivered
    ensures Received(sent) == Received(sent[..k])
  {
    if |sent| > k {
      NothingDelivered(sent[..|sent| - 1], k);
      assert sent[..|sent| - 1][..k] == sent[..k];
    } else {
      assert sent[..k] == sent;
    }
  }

  lemma {:induction false} NumbersOfPrefix(sent: seq<Frame>, n: nat, k: nat)
    requires k <= |sent| && Numbers(sent) == UpTo(n)
    ensures Numbers(sent[..k]) == UpTo(|Numbers(sent[..k])|)
  {
    if k == |sent| {
      assert sent[..k] == sent;
    } else {
      var m := |sent| - 1;
      assert sent[..m][..k] == sent[..k];
      if sent[m].number.Some? {
        assert Numbers(sent[..m]) == UpTo(n)[..n - 1] == UpTo(n - 1);
        NumbersOfPrefix(sent[..m], n - 1, k);
      } else {
        NumbersOfPrefix(sent[..m], n, k);
      }
    }
  }

  lemma {:induction false} DeliveredPart(sent: seq<Frame>) returns (k: nat)
    requires LostOnlyAtEnd(sent)
    ensures k <= |sent|
    ensures forall i :: 0 <= i < k ==> sent[i].delivered
    ensures forall i :: k <= i < |sent| ==> !sent[i].delivered
  {
    k := 0;
    while k < |sent| && sent[k].delivered
      invariant k <= |sent| && forall i :: 0 <= i < k ==> sent[i].delivered
    {
      k := k + 1;
    }
  }

  lemma PrefixReceived(sent: seq<Frame>, n: nat)
    requires Numbers(sent) == UpTo(n) && LostOnlyAtEnd(sent)
    ensures Received(sent) == UpTo(|Received(sent)|)
  {
    var k := DeliveredPart(sent);
    NothingDelivered(sent, k);
    EverythingDelivered(sent[..k]);
    NumbersOfPrefix(sent, n, k);
  }

  /** What the browser receives over a list of connections of one run. */
  function ReceivedOver(s: Server, ids: seq<ClientId>): (r: seq<seq<nat>>)
    requires forall i :: 0 <= i < |ids| ==> ids[i] in s.table
    ensures |r| == |ids|
    ensures forall i :: 0 <= i < |ids| ==> r[i] == Received(s.table[ids[i]].sent)
  {
    if ids == [] then [] else [Received(s.table[ids[0]].sent)] + ReceivedOver(s, ids[1..])
  }

  /** End to end: a browser that keeps its last number across reconnects never warns, over any run of the
      server and any succession of its connections, when each connection loses messages only at its end. */
  lemma BrowserNeverWarns(events: seq<Event>, ids: seq<ClientId>, last: nat)
    requires forall i :: 0 <= i < |ids| ==> ids[i] in Run(events).table && LostOnlyAtEnd(Run(events).table[ids[i]].sent)
    ensures WarningsOverConnections(last, ReceivedOver(Run(events), ids)) == 0
  {
    var s := Run(events);
    SequenceProtocol(events);
    forall i | 0 <= i < |ids| ensures Received(s.table[ids[i]].sent) == UpTo(|Received(s.table[ids[i]].sent)|) {
      PrefixReceived(s.table[ids[i]].sent, s.table[ids[i]].seqNo);
    }
    CompleteConnectionsAreQuiet(last, ReceivedOver(s, ids));
  }

  lemma {:induction false} ReceivedStartsAtOne(sent: seq<Frame>)
    requires sent != [] && sent[0].number == Some(1) && sent[0].delivered
    ensures Received(sent) != [] && Received(sent)[0] == 1
  {
    if |sent| == 1 {
      assert sent == [] + [sent[0]];
      FramesSnoc([], sent[0]);
    } else {
      ReceivedStartsAtOne(sent[..|sent| - 1]);
    }
  }

  /** Every number follows the one before it. */
  predicate Consecutive(numbers: seq<nat>) {
    forall i :: 0 < i < |numbers| ==> numbers[i] == numbers[i - 1] + 1
  }

  lemma {:induction false} NoSkipsIffConsecutive(numbers: seq<nat>)
    ensures Skips(numbers) == 0 <==> Consecutive(numbers)
  {
    if |numbers| >= 2 {
      var n := |numbers| - 1;
      NoSkipsIffConsecutive(numbers[..n]);
      assert numbers == numbers[..n] + [numbers[n]];
    }
  }

  /** Whatever sends of a connection fail, the welcome included, the browser warns once for every gap in what
      it receives, and once more if the first number it receives is beyond the one it waits for from the
      connection before.  So it stays silent exactly when what it receives has no gap and starts no later
      than expected; and once the welcome arrived, exactly when it received 1 .. m for some m. */
  lemma WarningsAreLosses(events: seq<Event>, id: ClientId, last: nat)
    requires id in Run(events).table
    ensures var sent := Run(events).table[id].sent; var r := Received(sent);
            && Warnings(last, r) == Skips(r) + (if r != [] && Warns(last, r[0]) then 1 else 0)
            && (Warnings(last, r) == 0 <==> Consecutive(r) && (r != [] ==> !Warns(last, r[0])))
            && (sent != [] && sent[0].delivered ==> (Warnings(last, r) == 0 <==> r == UpTo(|r|)))
  {
    SequenceProtocol(events);
    var c := Run(events).table[id];
    var r := Received(c.sent);
    ReceivedGrows(c.sent, c.seqNo);
    WarnsExactlyAtSkips(last, r);
    NoSkipsIffConsecutive(r);
    if c.sent[0].delivered {
      ReceivedStartsAtOne(c.sent);
      NoSkipsIffUpTo(r);
    }
  }

  lemma {:induction false} NoSkipsIffUpTo(numbers: seq<nat>)
    requires numbers != [] && numbers[0] == 1
    ensures Skips(numbers) == 0 <==> numbers == UpTo(|numbers|)
  {
    var n := |numbers| - 1;
    assert numbers == numbers[..n] + [numbers[n]];
    if n == 0 {
      assert numbers == [1] == UpTo(1);
    } else {
      NoSkipsIffUpTo(numbers[..n]);
      UpToExtends(numbers[..n], numbers[n]);
    }
  }

  lemma UpToExtends(before: seq<nat>, next: nat)
    requires before != []
    ensures before + [next] == UpTo(|before| + 1) <==> before == UpTo(|before|) && next == before[|before| - 1] + 1
  {
    var n := |before|;
    var whole := before + [next];
    assert whole[..n] == before && whole[n] == next;
    assert UpTo(n + 1) == UpTo(n) + [n + 1];
    if whole == UpTo(n + 1) {
      assert before == UpTo(n);
    } else if before == UpTo(n) {
      assert before[n - 1] == n;
      assert next != n + 1;
    }
  }
}
