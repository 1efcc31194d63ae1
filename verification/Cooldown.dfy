/** The per-alert cooldown over whole runs, evaluations interleaving in any way. */
module Cooldown {
  import opened MinGap
  import KeyedGate

  /** The two clock readings of one attempt: the cooldown check, then the recorded trigger time. */
  datatype Stamp = Stamp(check: int, record: int)

  /** An evaluation reaches the cooldown check of a config.  Check and record happen without suspension, so
      attempts of different evaluations do not overlap. */
  datatype Attempt = Attempt(id: int, cooldownMs: int, at: Stamp)

  datatype Fired = Fired(id: int, at: int, cooldownMs: int)

  datatype Table = Table(last: map<int, int>, fired: seq<Fired>)

  function Try(t: Table, a: Attempt): Table {
    if KeyedGate.Open(t.last, a.id, a.at.check, a.cooldownMs)
    then Table(t.last[a.id := a.at.record], t.fired + [Fired(a.id, a.at.record, a.cooldownMs)])
    else t
  }

  function TryAll(t: Table, attempts: seq<Attempt>): Table {
    if attempts == [] then t else Try(TryAll(t, attempts[..|attempts| - 1]), attempts[|attempts| - 1])
  }

  const NONE := Table(map[], [])

  /** The wall clock never goes backwards. */
  predicate Ordered(attempts: seq<Attempt>) {
    && (forall i :: 0 <= i < |attempts| ==> attempts[i].at.check <= attempts[i].at.record)
    && (forall i, j :: 0 <= i < j < |attempts| ==> attempts[i].at.record <= attempts[j].at.check)
  }

  /** The table remembers the latest trigger of every config that ever fired. */
  ghost predicate Remembers(t: Table) {
    forall i :: 0 <= i < |t.fired| ==> t.fired[i].id in t.last && t.fired[i].at <= t.last[t.fired[i].id]
  }

  predicate ApartAt(fired: seq<Fired>, i: int, j: int)
    requires 0 <= i < |fired| && 0 <= j < |fired|
  {
    fired[i].id == fired[j].id ==> fired[j].at - fired[i].at >= fired[j].cooldownMs
  }

  ghost predicate Apart(fired: seq<Fired>) {
    forall i, j :: 0 <= i < j < |fired| ==> ApartAt(fired, i, j)
  }

  lemma TryKeepsApart(t: Table, a: Attempt)
    requires Remembers(t) && Apart(t.fired) && a.at.check <= a.at.record
    requires a.id in t.last ==> t.last[a.id] <= a.at.check
    ensures Remembers(Try(t, a)) && Apart(Try(t, a).fired)
  {
    var next := Try(t, a);
    forall i, j | 0 <= i < j < |next.fired| ensures ApartAt(next.fired, i, j) {
      if j < |t.fired| {
        assert ApartAt(t.fired, i, j);
      }
    }
  }

  lemma {:induction false} RunKeepsApart(attempts: seq<Attempt>)
    requires Ordered(attempts)
    ensures var t := TryAll(NONE, attempts);
            && Remembers(t) && Apart(t.fired)
            && forall id :: id in t.last ==> exists i :: 0 <= i < |attempts| && t.last[id] == attempts[i].at.record
  {
    if attempts != [] {
      var n := |attempts| - 1;
      RunKeepsApart(attempts[..n]);
      var t := TryAll(NONE, attempts[..n]);
      forall id | id in t.last ensures exists i :: 0 <= i < n && t.last[id] == attempts[i].at.record {
        var i :| 0 <= i < n && t.last[id] == attempts[..n][i].at.record;
        assert t.last[id] == attempts[i].at.record;
      }
      TryKeepsApart(t, attempts[n]);
    }
  }

  /** Cooldown safety: any two triggers of one config are at least the later one's cooldown apart, also when
      the configured cooldown changes between them. */
  lemma CooldownSafety(attempts: seq<Attempt>, i: nat, j: nat)
    requires Ordered(attempts) && i < j < |TryAll(NONE, attempts).fired|
    ensures var fired := TryAll(NONE, attempts).fired;
            fired[i].id == fired[j].id ==> fired[j].at - fired[i].at >= fired[j].cooldownMs
  {
    RunKeepsApart(attempts);
    assert ApartAt(TryAll(NONE, attempts).fired, i, j);
  }

  /** When a config fired. */
  function TimesOf(fired: seq<Fired>, id: int): (times: seq<int>) {
    if fired == [] then []
    else
      var before := TimesOf(fired[..|fired| - 1], id);
      if fired[|fired| - 1].id == id then before + [fired[|fired| - 1].at] else before
  }

  predicate FiredAt(fired: seq<Fired>, id: int, at: int) {
    exists k :: 0 <= k < |fired| && fired[k].id == id && fired[k].at == at
  }

  lemma FiredInLonger(fired: seq<Fired>, n: nat, id: int, at: int)
    requires n <= |fired| && FiredAt(fired[..n], id, at)
    ensures exists k :: 0 <= k < n && fired[k].id == id && fired[k].at == at
  {
    var k :| 0 <= k < n && fired[..n][k].id == id && fired[..n][k].at == at;
    assert fired[k].id == id && fired[k].at == at;
  }

  lemma {:induction false} TimesAreFired(fired: seq<Fired>, id: int, i: nat)
    requires i < |TimesOf(fired, id)|
    ensures FiredAt(fired, id, TimesOf(fired, id)[i])
  {
    var n := |fired| - 1;
    if i < |TimesOf(fired[..n], id)| {
      TimesAreFired(fired[..n], id, i);
      FiredInLonger(fired, n, id, TimesOf(fired, id)[i]);
    } else {
      assert fired[n].id == id && fired[n].at == TimesOf(fired, id)[i];
    }
  }

  predicate FixedCooldown(fired: seq<Fired>, id: int, cooldownMs: int) {
    forall k :: 0 <= k < |fired| && fired[k].id == id ==> fired[k].cooldownMs == cooldownMs
  }

  lemma {:induction false} TimesSpaced(fired: seq<Fired>, id: int, cooldownMs: int, i: nat)
    requires Apart(fired) && FixedCooldown(fired, id, cooldownMs)
    requires 0 < i < |TimesOf(fired, id)|
    ensures TimesOf(fired, id)[i] - TimesOf(fired, id)[i - 1] >= cooldownMs
  {
    var n := |fired| - 1;
    var before := TimesOf(fired[..n], id);
    if i < |before| {
      forall k, j | 0 <= k < j < n ensures ApartAt(fired[..n], k, j) { assert ApartAt(fired, k, j); }
      TimesSpaced(fired[..n], id, cooldownMs, i);
    } else {
      TimesAreFired(fired[..n], id, i - 1);
      FiredInLonger(fired, n, id, before[i - 1]);
      var k :| 0 <= k < n && fired[k].id == id && fired[k].at == before[i - 1];
      assert ApartAt(fired, k, n);
    }
  }

  /** A window of width W holds at most W / C + 1 triggers of a config with cooldown C. */
  lemma TriggersPerWindow(attempts: seq<Attempt>, id: int, cooldownMs: int, i: nat, j: nat, from: int, width: nat)
    requires Ordered(attempts) && cooldownMs > 0
    requires forall k :: 0 <= k < |attempts| && attempts[k].id == id ==> attempts[k].cooldownMs == cooldownMs
    requires var times := TimesOf(TryAll(NONE, attempts).fired, id);
             i <= j <= |times| && forall k :: i <= k < j ==> from <= times[k] <= from + width
    ensures j - i <= width / cooldownMs + 1
  {
    RunKeepsApart(attempts);
    FiredWithItsCooldown(attempts, id, cooldownMs);
    forall k | 0 < k < |TimesOf(TryAll(NONE, attempts).fired, id)|
      ensures TimesOf(TryAll(NONE, attempts).fired, id)[k] - TimesOf(TryAll(NONE, attempts).fired, id)[k - 1] >= cooldownMs
    {
      TimesSpaced(TryAll(NONE, attempts).fired, id, cooldownMs, k);
    }
    WindowBound(cooldownMs, TimesOf(TryAll(NONE, attempts).fired, id)[i..j], from, width);
  }

  lemma {:induction false} FiredWithItsCooldown(attempts: seq<Attempt>, id: int, cooldownMs: int)
    requires forall k :: 0 <= k < |attempts| && attempts[k].id == id ==> attempts[k].cooldownMs == cooldownMs
    ensures FixedCooldown(TryAll(NONE, attempts).fired, id, cooldownMs)
  {
    if attempts != [] {
      var before, a := attempts[..|attempts| - 1], attempts[|attempts| - 1];
      FiredWithItsCooldown(before, id, cooldownMs);
      FixedCooldownSnoc(TryAll(NONE, before), a, id, cooldownMs);
    }
  }

  lemma FixedCooldownSnoc(t: Table, a: Attempt, id: int, cooldownMs: int)
    requires FixedCooldown(t.fired, id, cooldownMs) && (a.id == id ==> a.cooldownMs == cooldownMs)
    ensures FixedCooldown(Try(t, a).fired, id, cooldownMs)
  {
  }

  /** The attempts as requests at the common gate, each asking for its own cooldown. */
  function AsRequests(attempts: seq<Attempt>): seq<(int, Request)> {
    if attempts == [] then []
    else
      var a := attempts[|attempts| - 1];
      AsRequests(attempts[..|attempts| - 1]) + [(a.id, RequestOf(a))]
  }

  function RequestOf(a: Attempt): Request {
    Request(a.at.check, a.at.record, a.cooldownMs)
  }

  /** The attempts of one config. */
  function RequestsFor(attempts: seq<Attempt>, id: int): seq<Request> {
    KeyedGate.RequestsOf(AsRequests(attempts), id)
  }

  lemma AttemptSnoc(attempts: seq<Attempt>, a: Attempt, id: int)
    ensures TryAll(NONE, attempts + [a]) == Try(TryAll(NONE, attempts), a)
    ensures AsRequests(attempts + [a]) == AsRequests(attempts) + [(a.id, RequestOf(a))]
    ensures RequestsFor(attempts + [a], id) == if a.id == id then RequestsFor(attempts, id) + [RequestOf(a)] else RequestsFor(attempts, id)
  {
    assert (attempts + [a])[..|attempts|] == attempts;
    KeyedGate.RequestsSnoc(AsRequests(attempts), a.id, RequestOf(a), id);
  }

  /** The cooldown table is the table of the common gate, whatever the cooldowns and clock readings. */
  lemma {:induction false} TableIsGate(attempts: seq<Attempt>)
    ensures TryAll(NONE, attempts).last == KeyedGate.Run(AsRequests(attempts))
  {
    if attempts != [] {
      var before, a := attempts[..|attempts| - 1], attempts[|attempts| - 1];
      TableIsGate(before);
      assert attempts == before + [a];
      AttemptSnoc(before, a, a.id);
      KeyedGate.RunSnoc(AsRequests(before), a.id, RequestOf(a));
    }
  }

  /** What was recorded for the picked requests. */
  function RecordsAt(requests: seq<Request>, picked: seq<nat>): (times: seq<int>)
    requires Below(picked, |requests|)
    ensures |times| == |picked| && forall k :: 0 <= k < |picked| ==> times[k] == requests[picked[k]].record
  {
    seq(|picked|, k requires 0 <= k < |picked| => requests[picked[k]].record)
  }

  lemma RecordsSnoc(requests: seq<Request>, picked: seq<nat>, r: Request)
    requires Below(picked, |requests|)
    ensures Below(picked, |requests + [r]|) && RecordsAt(requests + [r], picked) == RecordsAt(requests, picked)
    ensures Below(picked + [|requests|], |requests + [r]|)
    ensures RecordsAt(requests + [r], picked + [|requests|]) == RecordsAt(requests, picked) + [r.record]
  {
  }

  lemma FiredSnoc(fired: seq<Fired>, f: Fired, id: int)
    ensures TimesOf(fired + [f], id) == if f.id == id then TimesOf(fired, id) + [f.at] else TimesOf(fired, id)
  {
    assert (fired + [f])[..|fired|] == fired;
  }

  /** The triggers of a config are exactly the attempts that the greedy gate accepts. */
  lemma {:induction false} TriggersAreAccepted(attempts: seq<Attempt>, id: int)
    ensures var requests := RequestsFor(attempts, id);
            TimesOf(TryAll(NONE, attempts).fired, id) == RecordsAt(requests, Accepted(requests))
  {
    if attempts != [] {
      var before, a := attempts[..|attempts| - 1], attempts[|attempts| - 1];
      assert attempts == before + [a];
      TriggersAreAccepted(before, id);
      AttemptSnoc(before, a, id);
      FiredSnoc(TryAll(NONE, before).fired, Fired(a.id, a.at.record, a.cooldownMs), id);
      if a.id == id {
        NextTrigger(before, a);
      }
    }
  }

  lemma NextTrigger(before: seq<Attempt>, a: Attempt)
    ensures var requests := RequestsFor(before, a.id);
            var opens := KeyedGate.Open(TryAll(NONE, before).last, a.id, a.at.check, a.cooldownMs);
            RecordsAt(requests + [RequestOf(a)], Accepted(requests + [RequestOf(a)]))
            == RecordsAt(requests, Accepted(requests)) + if opens then [a.at.record] else []
  {
    var requests := RequestsFor(before, a.id);
    TableIsGate(before);
    KeyedGate.RunMirrors(AsRequests(before), a.id);
    KeyedGate.MirrorsOpen(TryAll(NONE, before).last, a.id, requests, RequestOf(a));
    RecordsSnoc(requests, Accepted(requests), RequestOf(a));
  }

  lemma {:induction false} RequestsRecorded(attempts: seq<Attempt>, id: int, i: nat)
    requires i < |RequestsFor(attempts, id)|
    ensures RecordedIn(attempts, RequestsFor(attempts, id)[i])
  {
    if attempts != [] {
      var n := |attempts| - 1;
      assert attempts == attempts[..n] + [attempts[n]];
      AttemptSnoc(attempts[..n], attempts[n], id);
      if i < |RequestsFor(attempts[..n], id)| {
        RequestsRecorded(attempts[..n], id, i);
        RecordedInLonger(attempts, RequestsFor(attempts, id)[i]);
      } else {
        assert RequestOf(attempts[n]) == RequestsFor(attempts, id)[i];
      }
    }
  }

  lemma RecordedInLonger(attempts: seq<Attempt>, r: Request)
    requires attempts != [] && RecordedIn(attempts[..|attempts| - 1], r)
    ensures RecordedIn(attempts, r)
  {
    var k :| 0 <= k < |attempts| - 1 && RequestOf(attempts[..|attempts| - 1][k]) == r;
    assert RequestOf(attempts[k]) == r;
  }

  lemma SortedSnoc(requests: seq<Request>, r: Request)
    requires Sorted(requests) && r.check <= r.record
    requires forall i :: 0 <= i < |requests| ==> requests[i].record <= r.check
    ensures Sorted(requests + [r])
  {
  }

  lemma {:induction false} RequestsSorted(attempts: seq<Attempt>, id: int)
    requires Ordered(attempts)
    ensures Sorted(RequestsFor(attempts, id))
  {
    if attempts != [] {
      var n := |attempts| - 1;
      var before := RequestsFor(attempts[..n], id);
      RequestsSorted(attempts[..n], id);
      assert attempts == attempts[..n] + [attempts[n]];
      AttemptSnoc(attempts[..n], attempts[n], id);
      forall i | 0 <= i < |before| ensures before[i].record <= attempts[n].at.check {
        RequestsRecorded(attempts[..n], id, i);
        RecordedEarlier(attempts, before[i]);
      }
      SortedSnoc(before, RequestOf(attempts[n]));
    }
  }

  lemma RecordedEarlier(attempts: seq<Attempt>, r: Request)
    requires Ordered(attempts) && attempts != [] && RecordedIn(attempts[..|attempts| - 1], r)
    ensures r.record <= attempts[|attempts| - 1].at.check
  {
    var n := |attempts| - 1;
    var k :| 0 <= k < n && RequestOf(attempts[..n][k]) == r;
    assert attempts[k].at.record <= attempts[n].at.check;
  }

  predicate RecordedIn(attempts: seq<Attempt>, r: Request) {
    exists k :: 0 <= k < |attempts| && RequestOf(attempts[k]) == r
  }

  /** The cooldown is greedy-optimal over whole runs, evaluations interleaving in any way and cooldowns
      changing: the triggers of a config are a choice of its attempts that keeps the cooldowns, no such
      choice is larger, and an attempt that does not trigger comes less than its cooldown after one that
      did. */
  lemma CooldownIsGreedy(attempts: seq<Attempt>, id: int)
    requires Ordered(attempts)
    ensures var requests := RequestsFor(attempts, id);
            var times := TimesOf(TryAll(NONE, attempts).fired, id);
            && times == RecordsAt(requests, Accepted(requests))
            && Indices(Accepted(requests), |requests|) && Spaced(Accepted(requests), requests)
            && (forall picked :: Indices(picked, |requests|) && Spaced(picked, requests) ==> |picked| <= |times|)
            && (forall i: nat :: i < |requests| && i !in Accepted(requests) ==> HeldBack(requests, i))
  {
    var requests := RequestsFor(attempts, id);
    TriggersAreAccepted(attempts, id);
    RequestsSorted(attempts, id);
    GreedyIsOptimal(requests);
    forall i: nat | i < |requests| && i !in Accepted(requests) ensures HeldBack(requests, i) {
      RejectedFollowsAccepted(requests, i);
    }
  }
}
