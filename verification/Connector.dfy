/** The reconnecting exchange connector: its state trace, failure counter and retry schedule. */
module Connector {
  import opened Options
  import opened Backoff

  datatype State = Disconnected | Connecting | Connected | Subscribing | Active | WaitRetry

  /** What happens in one turn of the run loop.  The task can be cancelled only where it suspends. */
  datatype Attempt =
    | ConnectRefused
    | SubscribeFailed
    | ClosedCleanly
    | DroppedWhileActive
    | CancelledConnecting
    | CancelledSubscribing
    | CancelledActive
  {
    predicate Cancelled() {
      CancelledConnecting? || CancelledSubscribing? || CancelledActive?
    }

    /** The turn ends in the exception handler. */
    predicate Fails() {
      ConnectRefused? || SubscribeFailed? || DroppedWhileActive?
    }

    predicate ReachesActive() {
      ClosedCleanly? || DroppedWhileActive? || CancelledActive?
    }
  }

  /** The edges of the run loop.  A clean close goes from Active straight back to Connecting, and stop()
      leads to Disconnected from anywhere. */
  predicate Edge(from: State, to: State) {
    || to == Disconnected
    || (to == Connecting && from in {Disconnected, Active, WaitRetry})
    || (to == Connected && from == Connecting)
    || (to == Subscribing && from == Connected)
    || (to == Active && from == Subscribing)
    || (to == WaitRetry && from in {Connecting, Subscribing, Active})
  }

  predicate FollowsEdges(trace: seq<State>) {
    && trace != []
    && trace[0] == Disconnected
    && forall i :: 0 < i < |trace| ==> Edge(trace[i - 1], trace[i])
  }

  /** Failures recorded in a trace since it last showed Active. */
  function FailuresSinceActive(trace: seq<State>): nat {
    if trace == [] then 0
    else
      var n := |trace| - 1;
      if trace[n] == Active then 0
      else FailuresSinceActive(trace[..n]) + (if trace[n] == WaitRetry then 1 else 0)
  }

  /** What an observer of the connector has seen: all states since construction, all waits slept, and
      whether the task has ended with an exception. */
  datatype Record = Record(trace: seq<State>, failures: nat, waits: seq<nat>, crashed: bool)

  const FRESH := Record([Disconnected], 0, [], false)

  function StatesBeforeFailure(a: Attempt): seq<State> {
    match a
    case ConnectRefused | CancelledConnecting => [Connecting]
    case SubscribeFailed | CancelledSubscribing => [Connecting, Connected, Subscribing]
    case ClosedCleanly | DroppedWhileActive | CancelledActive => [Connecting, Connected, Subscribing, Active]
  }

  /** One turn of the loop.  The delay is computed inside the exception handler, before the failure is
      counted: when that raises, the turn ends there and the task with it. */
  function AfterAttempt(r: Record, a: Attempt): Record {
    var reached := r.(trace := r.trace + StatesBeforeFailure(a), failures := if a.ReachesActive() then 0 else r.failures);
    if !a.Fails() then reached
    else
      match ConnectorDelay(reached.failures)
      case None => reached.(crashed := true)
      case Some(delay) =>
        reached.(trace := reached.trace + [WaitRetry], failures := reached.failures + 1, waits := reached.waits + [delay])
  }

  predicate AnyCancelled(attempts: seq<Attempt>) {
    exists i :: 0 <= i < |attempts| && attempts[i].Cancelled()
  }

  /** The record after the loop has made these attempts, up to the first that is cancelled or ends the task. */
  function AfterAttempts(attempts: seq<Attempt>): Record {
    if attempts == [] then FRESH
    else
      var before := attempts[..|attempts| - 1];
      if AnyCancelled(before) || AfterAttempts(before).crashed then AfterAttempts(before)
      else AfterAttempt(AfterAttempts(before), attempts[|attempts| - 1])
  }

  function AfterStop(r: Record): Record {
    r.(trace := r.trace + [Disconnected])
  }

  class BaseConnector {
    var state: State
    var reconnectCount: nat
    var trace: seq<State>
    var waits: seq<nat>
    var crashed: bool

    ghost predicate Valid()
      reads this
    {
      trace != [] && trace[|trace| - 1] == state
    }

    ghost function Observed(): Record
      reads this
    {
      Record(trace, reconnectCount, waits, crashed)
    }

    constructor ()
      ensures Valid() && Observed() == FRESH
    {
      state, reconnectCount := Disconnected, 0;
      trace, waits, crashed := [Disconnected], [], false;
    }

    method Transition(next: State)
      requires Valid()
      modifies `state, `trace
      ensures Valid() && state == next && trace == old(trace) + [next]
    {
      state := next;
      trace := trace + [next];
    }

    /** The part of a turn before any exception: connect, subscribe, stay active until the stream ends. */
    method Connect(a: Attempt)
      requires Valid()
      modifies `state, `trace, `reconnectCount
      ensures Valid() && trace == old(trace) + StatesBeforeFailure(a)
      ensures reconnectCount == if a.ReachesActive() then 0 else old(reconnectCount)
    {
      Transition(Connecting);
      if !a.ConnectRefused? && !a.CancelledConnecting? {
        Transition(Connected);
        Transition(Subscribing);
        if !a.SubscribeFailed? && !a.CancelledSubscribing? {
          Transition(Active);
          reconnectCount := 0;
        }
      }
    }

    /** A turn of the loop with its exception handler. */
    method RunOnce(a: Attempt)
      requires Valid()
      modifies this
      ensures Valid() && Observed() == AfterAttempt(old(Observed()), a)
    {
      Connect(a);
      if a.Fails() {
        var delay := ConnectorDelay(reconnectCount);
        if delay.None? {
          crashed := true;
          return;
        }
        reconnectCount := reconnectCount + 1;
        Transition(WaitRetry);
        waits := waits + [delay.value];
      }
    }

    method RunLoop(attempts: seq<Attempt>)
      requires Valid() && Observed() == FRESH
      modifies this
      ensures Valid() && Observed() == AfterAttempts(attempts)
    {
      var i := 0;
      var running := true;
      while i < |attempts|
        invariant 0 <= i <= |attempts| && Valid()
        invariant running <==> !AnyCancelled(attempts[..i]) && !crashed
        invariant Observed() == AfterAttempts(attempts[..i])
      {
        ghost var before := attempts[..i];
        assert attempts[..i + 1] == before + [attempts[i]];
        AttemptsSnoc(before, attempts[i]);
        ghost var r := Observed();
        assert r == AfterAttempts(before) && (running <==> !AnyCancelled(before) && !r.crashed);
        if running {
          RunOnce(attempts[i]);
          assert Observed() == AfterAttempt(r, attempts[i]);
          running := !attempts[i].Cancelled() && !crashed;
        }
        i := i + 1;
      }
      assert attempts[..i] == attempts;
    }

    method Stop()
      requires Valid()
      modifies this
      ensures Valid() && Observed() == AfterStop(old(Observed()))
    {
      Transition(Disconnected);
    }
  }

  lemma AttemptsSnoc(before: seq<Attempt>, a: Attempt)
    ensures AnyCancelled(before + [a]) <==> AnyCancelled(before) || a.Cancelled()
    ensures AfterAttempts(before + [a]) ==
            if AnyCancelled(before) || AfterAttempts(before).crashed then AfterAttempts(before)
            else AfterAttempt(AfterAttempts(before), a)
  {
    assert (before + [a])[..|before|] == before;
    assert (before + [a])[|before|] == a;
    if AnyCancelled(before) {
      var i :| 0 <= i < |before| && before[i].Cancelled();
      assert (before + [a])[i].Cancelled();
    }
  }

  /** The invariant of every run. */
  ghost predicate Sound(r: Record) {
    && FollowsEdges(r.trace)
    && r.failures == FailuresSinceActive(r.trace) <= FLOAT_EXPONENTS
    && r.failures <= |r.waits|
    && ConnectorWaits(r.failures) == Some(r.waits[|r.waits| - r.failures..])
    && (r.crashed ==> r.failures == FLOAT_EXPONENTS && r.trace[|r.trace| - 1] in {Connecting, Subscribing})
  }

  lemma {:induction false} FailuresAppend(trace: seq<State>, more: seq<State>)
    ensures FailuresSinceActive(trace + more) ==
            FailuresSinceActive(more) + if Active in more then 0 else FailuresSinceActive(trace)
  {
    if more == [] {
      assert trace + more == trace;
    } else {
      var init, last := more[..|more| - 1], more[|more| - 1];
      assert more == init + [last] && trace + more == trace + init + [last];
      FailuresAppend(trace, init);
      FailuresSnoc(trace + init, last);
      FailuresSnoc(init, last);
    }
  }

  lemma FailuresSnoc(trace: seq<State>, last: State)
    ensures FailuresSinceActive(trace + [last]) ==
            if last == Active then 0 else FailuresSinceActive(trace) + if last == WaitRetry then 1 else 0
  {
    assert (trace + [last])[..|trace|] == trace;
  }

  /** Connecting forgets older failures exactly when it reaches Active. */
  lemma FailuresBeforeFailure(trace: seq<State>, a: Attempt)
    ensures FailuresSinceActive(trace + StatesBeforeFailure(a)) ==
            if a.ReachesActive() then 0 else FailuresSinceActive(trace)
  {
    var s := StatesBeforeFailure(a);
    FailuresAppend(trace, s);
    if !a.ReachesActive() {
      NoWaitNoFailure(s);
    }
  }

  lemma NoWaitNoFailure(trace: seq<State>)
    requires WaitRetry !in trace
    ensures FailuresSinceActive(trace) == 0
  {
  }

  predicate Resting(r: Record) {
    r.trace != [] && r.trace[|r.trace| - 1] in {Disconnected, Active, WaitRetry}
  }

  lemma ReachingKeepsEdges(trace: seq<State>, a: Attempt)
    requires FollowsEdges(trace) && trace[|trace| - 1] in {Disconnected, Active, WaitRetry}
    ensures FollowsEdges(trace + StatesBeforeFailure(a))
    ensures a.Fails() ==> FollowsEdges(trace + StatesBeforeFailure(a) + [WaitRetry])
  {
  }

  lemma AttemptKeepsTrace(r: Record, a: Attempt)
    requires FollowsEdges(r.trace) && Resting(r) && r.failures == FailuresSinceActive(r.trace)
    ensures var next := AfterAttempt(r, a);
            && FollowsEdges(next.trace)
            && next.failures == FailuresSinceActive(next.trace)
            && (!a.Cancelled() && !next.crashed ==> Resting(next))
  {
    ReachingKeepsEdges(r.trace, a);
    FailuresBeforeFailure(r.trace, a);
    FailuresAppend(r.trace + StatesBeforeFailure(a), [WaitRetry]);
  }

  /** The waits since Active grow by the next delay of the schedule, or start over. */
  lemma AttemptKeepsWaits(r: Record, a: Attempt)
    requires r.failures <= |r.waits| && ConnectorWaits(r.failures) == Some(r.waits[|r.waits| - r.failures..])
    ensures var next := AfterAttempt(r, a);
            && next.failures <= |next.waits|
            && ConnectorWaits(next.failures) == Some(next.waits[|next.waits| - next.failures..])
  {
    var failures := if a.ReachesActive() then 0 else r.failures;
    var since := r.waits[|r.waits| - failures..];
    assert ConnectorWaits(failures) == Some(since);
    if ConnectorDelay(failures).Some? {
      var d := ConnectorDelay(failures).value;
      assert (r.waits + [d])[|r.waits| - failures..] == since + [d];
      assert ConnectorWaits(failures + 1) == Some(since + [d]);
    }
  }

  lemma AttemptKeepsSound(r: Record, a: Attempt)
    requires Sound(r) && Resting(r) && !r.crashed
    ensures Sound(AfterAttempt(r, a))
    ensures !a.Cancelled() && !AfterAttempt(r, a).crashed ==> Resting(AfterAttempt(r, a))
  {
    AttemptKeepsTrace(r, a);
    AttemptKeepsWaits(r, a);
    assert StatesBeforeFailure(a)[|StatesBeforeFailure(a)| - 1] == (r.trace + StatesBeforeFailure(a))[|r.trace + StatesBeforeFailure(a)| - 1];
  }

  lemma {:induction false} RunIsSound(attempts: seq<Attempt>)
    ensures var r := AfterAttempts(attempts);
            Sound(r) && (!AnyCancelled(attempts) && !r.crashed ==> Resting(r))
  {
    if attempts == [] {
      assert FRESH.waits[0..] == [];
    } else {
      var before := attempts[..|attempts| - 1];
      RunIsSound(before);
      assert attempts == before + [attempts[|attempts| - 1]];
      AttemptsSnoc(before, attempts[|attempts| - 1]);
      if !AnyCancelled(before) && !AfterAttempts(before).crashed {
        AttemptKeepsSound(AfterAttempts(before), attempts[|attempts| - 1]);
      }
    }
  }

  /** Failures in a row at the end of these attempts: those since the last one that reached Active, that one
      included if it failed. */
  function Streak(attempts: seq<Attempt>): nat {
    if attempts == [] then 0
    else
      var a := attempts[|attempts| - 1];
      (if a.ReachesActive() then 0 else Streak(attempts[..|attempts| - 1])) + if a.Fails() then 1 else 0
  }

  lemma {:induction false} CounterIsStreak(attempts: seq<Attempt>)
    requires !AnyCancelled(attempts) && !AfterAttempts(attempts).crashed
    ensures AfterAttempts(attempts).failures == Streak(attempts)
  {
    if attempts != [] {
      var before, a := attempts[..|attempts| - 1], attempts[|attempts| - 1];
      assert attempts == before + [a];
      AttemptsSnoc(before, a);
      CounterIsStreak(before);
    }
  }

  /** The loop makes the k-th attempt, and it is one failure too many. */
  predicate Overflows(attempts: seq<Attempt>, k: nat) {
    k <= |attempts| && !AnyCancelled(attempts[..k]) && Streak(attempts[..k]) > FLOAT_EXPONENTS
  }

  ghost predicate EverOverflows(attempts: seq<Attempt>) {
    exists k: nat :: Overflows(attempts, k)
  }

  lemma EverOverflowsSnoc(before: seq<Attempt>, a: Attempt)
    ensures EverOverflows(before + [a]) <==> EverOverflows(before) || Overflows(before + [a], |before| + 1)
  {
    var all := before + [a];
    forall k: nat | k <= |before| ensures all[..k] == before[..k] {
    }
    if EverOverflows(before) {
      var k: nat :| Overflows(before, k);
      assert Overflows(all, k);
    }
    if EverOverflows(all) {
      var k: nat :| Overflows(all, k);
      assert k <= |before| ==> Overflows(before, k);
    }
  }

  /** Over every run, the task ends with an exception exactly when the loop meets its 1025th failure in a
      row: every other failure is waited out and retried. */
  lemma {:induction false} LoopDiesIff(attempts: seq<Attempt>)
    ensures AfterAttempts(attempts).crashed <==> EverOverflows(attempts)
  {
    if attempts != [] {
      var before, a := attempts[..|attempts| - 1], attempts[|attempts| - 1];
      assert attempts == before + [a] && attempts[..|attempts|] == attempts;
      LoopDiesIff(before);
      AttemptsSnoc(before, a);
      EverOverflowsSnoc(before, a);
      if !AnyCancelled(before) && !AfterAttempts(before).crashed {
        NextOverflows(before, a);
      } else if AnyCancelled(before) {
        assert !Overflows(attempts, |attempts|);
      }
    }
  }

  lemma NextOverflows(before: seq<Attempt>, a: Attempt)
    requires !AnyCancelled(before) && !AfterAttempts(before).crashed
    ensures AfterAttempts(before + [a]).crashed <==> Overflows(before + [a], |before| + 1)
  {
    AttemptsSnoc(before, a);
    CounterIsStreak(before);
    RunIsSound(before);
    StreakSnoc(before, a);
    FatalIff(AfterAttempts(before), a);
    assert (before + [a])[..|before| + 1] == before + [a];
  }

  lemma StreakSnoc(before: seq<Attempt>, a: Attempt)
    ensures Streak(before + [a]) == (if a.ReachesActive() then 0 else Streak(before)) + if a.Fails() then 1 else 0
  {
    assert (before + [a])[..|before|] == before;
  }

  /** A failing attempt is fatal exactly when it does not reach Active and 1024 failures came before it. */
  lemma FatalIff(r: Record, a: Attempt)
    requires !r.crashed
    ensures AfterAttempt(r, a).crashed <==> a.Fails() && !a.ReachesActive() && r.failures >= FLOAT_EXPONENTS
  {
  }

  /** A loop that has ended makes no attempt any more. */
  lemma {:induction false} CrashIsFinal(attempts: seq<Attempt>, more: seq<Attempt>)
    requires AfterAttempts(attempts).crashed
    ensures AfterAttempts(attempts + more) == AfterAttempts(attempts)
  {
    if more == [] {
      assert attempts + more == attempts;
    } else {
      var n := |more| - 1;
      CrashIsFinal(attempts, more[..n]);
      assert attempts + more == attempts + more[..n] + [more[n]];
      AttemptsSnoc(attempts + more[..n], more[n]);
    }
  }

  function Refusals(n: nat): (r: seq<Attempt>)
    ensures |r| == n && forall i :: 0 <= i < n ==> r[i].ConnectRefused?
  {
    seq(n, i => ConnectRefused)
  }

  /** An exchange that refuses n connections in a row ends its connector exactly when n > 1024: after 1024
      waits the next refusal leaves it in Connecting, not counted, not waited for and never retried. */
  lemma LongOutage(n: nat)
    ensures var r := AfterAttempts(Refusals(n));
            && (r.crashed <==> n > 1024)
            && r.failures == |r.waits| == (if n > 1024 then 1024 else n)
            && r.trace != [] && (n > 1024 ==> r.trace[|r.trace| - 1] == Connecting)
    decreases n
  {
    if n == 0 {
      assert Refusals(0) == [];
    } else {
      LongOutage(n - 1);
      assert Refusals(n) == Refusals(n - 1) + [ConnectRefused];
      AttemptsSnoc(Refusals(n - 1), ConnectRefused);
    }
  }

  /** Every run of the loop, stopped at any suspension point or not: the trace follows the edges, the
      failure counter is the number of failures since Active was last reached and never exceeds 1024, and
      the time waited since then is 2^n - 1 seconds for up to six failures and 63 + 60 (n - 6) beyond.  A
      loop that ended with an exception was left in Connecting or Subscribing with all 1024 waits behind it. */
  lemma ConnectorRuns(attempts: seq<Attempt>)
    ensures var r := AfterAttempts(attempts);
            && FollowsEdges(r.trace)
            && FollowsEdges(AfterStop(r).trace)
            && r.failures == FailuresSinceActive(r.trace) <= 1024
            && r.failures <= |r.waits|
            && Sum(r.waits[|r.waits| - r.failures..]) ==
               (if r.failures <= 6 then Pow2(r.failures) - 1 else 63 + 60 * (r.failures - 6))
            && (r.crashed ==> r.failures == 1024 && r.trace[|r.trace| - 1] in {Connecting, Subscribing})
  {
    RunIsSound(attempts);
    ConnectorTotalWait(AfterAttempts(attempts).failures);
  }

  /** How often a trace shows a state. */
  function Times(trace: seq<State>, state: State): nat {
    if trace == [] then 0 else Times(trace[..|trace| - 1], state) + if trace[|trace| - 1] == state then 1 else 0
  }

  lemma {:induction false} TimesAppend(trace: seq<State>, more: seq<State>, state: State)
    ensures Times(trace + more, state) == Times(trace, state) + Times(more, state)
  {
    if more == [] {
      assert trace + more == trace;
    } else {
      var n := |more| - 1;
      TimesAppend(trace, more[..n], state);
      assert (trace + more)[..|trace| + n] == trace + more[..n];
    }
  }

  /** Attempts that got as far as this state; waiting is part of every failure but a fatal one. */
  predicate Passes(a: Attempt, state: State) {
    match state
    case Disconnected => false
    case Connecting => true
    case Connected | Subscribing => !a.ConnectRefused? && !a.CancelledConnecting?
    case Active => a.ClosedCleanly? || a.DroppedWhileActive? || a.CancelledActive?
    case WaitRetry => a.ConnectRefused? || a.SubscribeFailed? || a.DroppedWhileActive?
  }

  function HowMany(attempts: seq<Attempt>, state: State): nat {
    if attempts == [] then 0
    else HowMany(attempts[..|attempts| - 1], state) + if Passes(attempts[|attempts| - 1], state) then 1 else 0
  }

  lemma TimesSubscribed(state: State)
    ensures Times([Connecting, Connected, Subscribing], state) == if state in {Connecting, Connected, Subscribing} then 1 else 0
  {
    TimesOfOne(Connecting, state);
    TimesOfOne(Connected, state);
    TimesOfOne(Subscribing, state);
    TimesAppend([Connecting], [Connected], state);
    TimesAppend([Connecting, Connected], [Subscribing], state);
    assert [Connecting] + [Connected] == [Connecting, Connected];
    assert [Connecting, Connected] + [Subscribing] == [Connecting, Connected, Subscribing];
  }

  lemma TimesBeforeFailure(a: Attempt, state: State)
    ensures Times(StatesBeforeFailure(a), state) == if Passes(a, state) && state != WaitRetry then 1 else 0
  {
    TimesOfOne(Connecting, state);
    TimesSubscribed(state);
    TimesOfOne(Active, state);
    TimesAppend([Connecting, Connected, Subscribing], [Active], state);
    assert [Connecting, Connected, Subscribing] + [Active] == [Connecting, Connected, Subscribing, Active];
  }

  lemma TurnPassesOnce(a: Attempt, state: State)
    ensures Times(StatesBeforeFailure(a) + (if a.Fails() then [WaitRetry] else []), state) == if Passes(a, state) then 1 else 0
  {
    TimesBeforeFailure(a, state);
    TimesOfOne(WaitRetry, state);
    TimesAppend(StatesBeforeFailure(a), if a.Fails() then [WaitRetry] else [], state);
  }

  lemma TimesOfOne(s: State, state: State)
    ensures Times([s], state) == if s == state then 1 else 0
  {
    assert [s][..0] == [];
  }

  /** What a run passes through: as long as the loop lives, each attempt, the last one cancelled or not, shows
      each of its states exactly once, and Disconnected occurs only before the first.  With the edges this
      fixes the trace. */
  lemma {:induction false} EveryStateOncePerAttempt(attempts: seq<Attempt>, state: State)
    requires !AfterAttempts(attempts).crashed
    requires attempts != [] ==> !AnyCancelled(attempts[..|attempts| - 1])
    ensures Times(AfterAttempts(attempts).trace, state) == HowMany(attempts, state) + if state == Disconnected then 1 else 0
  {
    if attempts == [] {
      TimesOfOne(Disconnected, state);
    } else {
      var before, a := attempts[..|attempts| - 1], attempts[|attempts| - 1];
      assert attempts == before + [a];
      AttemptsSnoc(before, a);
      if before != [] {
        assert before == before[..|before| - 1] + [before[|before| - 1]];
        AttemptsSnoc(before[..|before| - 1], before[|before| - 1]);
      }
      EveryStateOncePerAttempt(before, state);
      NextTurnPasses(AfterAttempts(before), a, state);
    }
  }

  lemma NextTurnPasses(r: Record, a: Attempt, state: State)
    requires !AfterAttempt(r, a).crashed && !r.crashed
    ensures Times(AfterAttempt(r, a).trace, state) == Times(r.trace, state) + if Passes(a, state) then 1 else 0
  {
    TurnPassesOnce(a, state);
    TurnIsAppended(r, a);
    TimesAppend(r.trace, StatesBeforeFailure(a) + (if a.Fails() then [WaitRetry] else []), state);
  }

  lemma TurnIsAppended(r: Record, a: Attempt)
    requires !AfterAttempt(r, a).crashed && !r.crashed
    ensures AfterAttempt(r, a).trace == r.trace + (StatesBeforeFailure(a) + (if a.Fails() then [WaitRetry] else []))
  {
    var states := StatesBeforeFailure(a);
    if a.Fails() {
      assert r.trace + states + [WaitRetry] == r.trace + (states + [WaitRetry]);
    } else {
      assert states + [] == states;
    }
  }

  /** A clean close goes straight to the next attempt. */
  lemma CleanCloseReconnects(attempts: seq<Attempt>, next: Attempt)
    requires !AnyCancelled(attempts) && !AfterAttempts(attempts).crashed
    ensures var r := AfterAttempts(attempts + [ClosedCleanly, next]);
            AfterAttempts(attempts).trace + [Connecting, Connected, Subscribing, Active, Connecting] <= r.trace
  {
    AttemptsSnoc(attempts, ClosedCleanly);
    AttemptsSnoc(attempts + [ClosedCleanly], next);
    assert attempts + [ClosedCleanly] + [next] == attempts + [ClosedCleanly, next];
    StartsConnecting(AfterAttempts(attempts + [ClosedCleanly]), next);
    assert [Connecting, Connected, Subscribing, Active] + [Connecting] == [Connecting, Connected, Subscribing, Active, Connecting];
  }

  lemma StartsConnecting(r: Record, a: Attempt)
    ensures r.trace + [Connecting] <= AfterAttempt(r, a).trace
  {
    assert StatesBeforeFailure(a)[0] == Connecting;
  }
}
