/** The "last time plus minimum gap" gate.  The alert cooldown, the price broadcast throttle and the
    chart history throttle are all this gate: a request passes when none passed before it, or when the
    last one that passed was recorded at least a gap ago. */
module MinGap {

  /** One request at the gate: the clock reading it is checked at, the reading that is recorded if it
      passes, and the gap it asks for.  Most users read the clock once. */
  datatype Request = Request(check: int, record: int, gap: int)

  function At(now: int, gap: int): Request {
    Request(now, now, gap)
  }

  /** The clock never goes backwards from one reading to the next. */
  predicate Sorted(requests: seq<Request>) {
    && (forall i :: 0 <= i < |requests| ==> requests[i].check <= requests[i].record)
    && (forall i, j :: 0 <= i < j < |requests| ==> requests[i].record <= requests[j].check)
  }

  predicate Below(picked: seq<nat>, n: nat) {
    forall i :: 0 <= i < |picked| ==> picked[i] < n
  }

  /** Increasing indices into a list of n requests. */
  predicate Indices(picked: seq<nat>, n: nat) {
    && Below(picked, n)
    && (forall i, j :: 0 <= i < j < |picked| ==> picked[i] < picked[j])
  }

  /** The later request comes at least its gap after the earlier one was recorded. */
  predicate Clear(earlier: Request, later: Request) {
    later.check - earlier.record >= later.gap
  }

  /** The picked requests keep their gaps from every picked one before them. */
  predicate Spaced(picked: seq<nat>, requests: seq<Request>)
    requires Below(picked, |requests|)
  {
    forall i, j :: 0 <= i < j < |picked| ==> Clear(requests[picked[i]], requests[picked[j]])
  }

  /** The indices of the requests that pass the gate, in order. */
  function Accepted(requests: seq<Request>): (r: seq<nat>)
    ensures Below(r, |requests|)
  {
    if requests == [] then []
    else
      var n := |requests| - 1;
      var before := Accepted(requests[..n]);
      if before == [] || Clear(requests[before[|before| - 1]], requests[n]) then before + [n] else before
  }

  lemma {:induction false} AcceptedIndices(requests: seq<Request>)
    ensures Indices(Accepted(requests), |requests|)
  {
    if requests != [] {
      AcceptedIndices(requests[..|requests| - 1]);
    }
  }

  /** What passed stays passed when more requests arrive. */
  lemma {:induction false} AcceptedSnoc(requests: seq<Request>, next: Request)
    ensures var before := Accepted(requests);
            var opens := before == [] || Clear(requests[before[|before| - 1]], next);
            Accepted(requests + [next]) == if opens then before + [|requests|] else before
  {
    var longer, before := requests + [next], Accepted(requests);
    assert longer[..|requests|] == requests && longer[|requests|] == next;
    if before != [] {
      var last := before[|before| - 1];
      assert longer[last] == requests[last];
    }
  }

  lemma SpacedSnoc(picked: seq<nat>, n: nat, requests: seq<Request>)
    requires Sorted(requests) && n < |requests|
    requires Indices(picked, n) && Spaced(picked, requests)
    requires picked != [] ==> Clear(requests[picked[|picked| - 1]], requests[n])
    ensures Indices(picked + [n], |requests|) && Spaced(picked + [n], requests)
  {
    forall i | 0 <= i < |picked| ensures Clear(requests[picked[i]], requests[n]) {
      RecordsGrow(requests, picked[i], picked[|picked| - 1]);
    }
  }

  lemma RecordsGrow(requests: seq<Request>, i: nat, j: nat)
    requires Sorted(requests) && i <= j < |requests|
    ensures requests[i].record <= requests[j].record
  {
    if i < j {
      assert requests[i].record <= requests[j].check <= requests[j].record;
    }
  }

  lemma SortedPrefix(requests: seq<Request>, n: nat)
    requires Sorted(requests) && n <= |requests|
    ensures Sorted(requests[..n])
  {
  }

  lemma SpacedPrefix(picked: seq<nat>, requests: seq<Request>, n: nat)
    requires n <= |requests| && Below(picked, n)
    ensures Spaced(picked, requests[..n]) <==> Spaced(picked, requests)
  {
    forall i | 0 <= i < |picked| ensures requests[..n][picked[i]] == requests[picked[i]] {
    }
  }

  /** Requests that pass keep their gaps. */
  lemma {:induction false} AcceptedSpaced(requests: seq<Request>)
    requires Sorted(requests)
    ensures Spaced(Accepted(requests), requests)
  {
    if requests != [] {
      var before, last := requests[..|requests| - 1], requests[|requests| - 1];
      SortedPrefix(requests, |before|);
      AcceptedSpaced(before);
      assert requests == before + [last];
      NextAcceptedSpaced(before, last);
    }
  }

  lemma NextAcceptedSpaced(before: seq<Request>, last: Request)
    requires Sorted(before + [last]) && Spaced(Accepted(before), before)
    ensures Spaced(Accepted(before + [last]), before + [last])
  {
    var picked, all := Accepted(before), before + [last];
    AcceptedSnoc(before, last);
    AcceptedIndices(before);
    assert all[..|before|] == before;
    SpacedPrefix(picked, all, |before|);
    if picked == [] || Clear(before[picked[|picked| - 1]], last) {
      SpacedSnoc(picked, |before|, all);
    }
  }

  /** A request was accepted before this one and not its gap ago. */
  predicate HeldBack(requests: seq<Request>, i: nat)
    requires i < |requests|
  {
    exists a :: a in Accepted(requests) && a < i && !Clear(requests[a], requests[i])
  }

  /** A request that does not pass comes less than its gap after one that did. */
  lemma {:induction false} RejectedFollowsAccepted(requests: seq<Request>, i: nat)
    requires i < |requests| && i !in Accepted(requests)
    ensures HeldBack(requests, i)
  {
    var before, last := requests[..|requests| - 1], requests[|requests| - 1];
    assert requests == before + [last];
    AcceptedSnoc(before, last);
    if i < |before| {
      RejectedFollowsAccepted(before, i);
      HeldBackInLonger(before, last, i);
    } else {
      RefusedIsHeldBack(before, last);
    }
  }

  lemma HeldBackInLonger(before: seq<Request>, last: Request, i: nat)
    requires i < |before| && HeldBack(before, i)
    ensures HeldBack(before + [last], i)
  {
    var a :| a in Accepted(before) && a < i && !Clear(before[a], before[i]);
    AcceptedSnoc(before, last);
    assert a in Accepted(before + [last]) && (before + [last])[a] == before[a];
  }

  lemma RefusedIsHeldBack(before: seq<Request>, last: Request)
    requires |before| !in Accepted(before + [last])
    ensures HeldBack(before + [last], |before|)
  {
    AcceptedSnoc(before, last);
    var picked := Accepted(before);
    assert |before| in picked + [|before|];
    assert Accepted(before + [last]) == picked;
    assert picked[|picked| - 1] in picked;
    assert (before + [last])[picked[|picked| - 1]] == before[picked[|picked| - 1]];
  }

  /** No pick of the choice comes before the accepted request of the same rank. */
  predicate Ahead(accepted: seq<nat>, picked: seq<nat>) {
    |picked| <= |accepted| && forall k :: 0 <= k < |picked| ==> accepted[k] <= picked[k]
  }

  /** Greedy stays ahead: the k-th request to pass is never later than the k-th of any spaced choice. */
  lemma {:induction false} GreedyStaysAhead(requests: seq<Request>, picked: seq<nat>)
    requires Sorted(requests) && Indices(picked, |requests|) && Spaced(picked, requests)
    ensures Ahead(Accepted(requests), picked)
  {
    if picked != [] {
      var n, m := |requests| - 1, |picked| - 1;
      SortedPrefix(requests, n);
      if picked[m] < n {
        forall k | 0 <= k < |picked| ensures picked[k] < n { assert k == m || picked[k] < picked[m]; }
        SpacedPrefix(picked, requests, n);
        GreedyStaysAhead(requests[..n], picked);
      } else {
        SpacedPrefix(picked[..m], requests, n);
        GreedyStaysAhead(requests[..n], picked[..m]);
        LastPickIsMatched(requests, picked);
      }
    }
  }

  /** The step of the argument: when the choice takes the newest request, the gate either was already one
      ahead or takes it too. */
  lemma LastPickIsMatched(requests: seq<Request>, picked: seq<nat>)
    requires Sorted(requests) && Indices(picked, |requests|) && Spaced(picked, requests)
    requires requests != [] && picked != [] && picked[|picked| - 1] == |requests| - 1
    requires Ahead(Accepted(requests[..|requests| - 1]), picked[..|picked| - 1])
    ensures Ahead(Accepted(requests), picked)
  {
    var n, m := |requests| - 1, |picked| - 1;
    var before := Accepted(requests[..n]);
    if |before| == m && m > 0 {
      assert before[m - 1] <= picked[..m][m - 1] == picked[m - 1];
      RecordsGrow(requests, before[m - 1], picked[m - 1]);
      assert Clear(requests[picked[m - 1]], requests[picked[m]]);
    }
    AheadWithLast(before, Accepted(requests), picked, n);
  }

  lemma AheadWithLast(before: seq<nat>, accepted: seq<nat>, picked: seq<nat>, n: nat)
    requires picked != [] && picked[|picked| - 1] == n
    requires Below(before, n) && Ahead(before, picked[..|picked| - 1])
    requires accepted == before + [n] || (accepted == before && |before| >= |picked|)
    ensures Ahead(accepted, picked)
  {
    forall k | 0 <= k < |picked| ensures accepted[k] <= picked[k] {
      if k < |picked| - 1 {
        assert before[k] <= picked[..|picked| - 1][k];
      }
    }
  }

  /** The gate is optimal: what passes is a spaced choice, and no spaced choice is larger. */
  lemma GreedyIsOptimal(requests: seq<Request>)
    requires Sorted(requests)
    ensures Indices(Accepted(requests), |requests|)
    ensures Spaced(Accepted(requests), requests)
    ensures forall picked :: Indices(picked, |requests|) && Spaced(picked, requests) ==> |picked| <= |Accepted(requests)|
  {
    AcceptedIndices(requests);
    AcceptedSpaced(requests);
    forall picked | Indices(picked, |requests|) && Spaced(picked, requests)
      ensures |picked| <= |Accepted(requests)|
    {
      GreedyStaysAhead(requests, picked);
    }
  }

  /** Spaced instants spread out: n of them span at least n - 1 gaps. */
  lemma {:induction false} SpacedSpan(limit: int, stamps: seq<int>)
    requires stamps != []
    requires forall i :: 0 < i < |stamps| ==> stamps[i] - stamps[i - 1] >= limit
    ensures stamps[|stamps| - 1] - stamps[0] >= limit * (|stamps| - 1)
  {
    if |stamps| > 1 {
      SpacedSpan(limit, stamps[..|stamps| - 1]);
      OneMoreGap(limit, |stamps| - 1);
    }
  }

  lemma OneMoreGap(limit: int, n: int)
    ensures limit * n == limit * (n - 1) + limit
  {
  }

  /** A window of the given width holds at most width / limit + 1 instants that are limit apart. */
  lemma WindowBound(limit: int, stamps: seq<int>, from: int, width: nat)
    requires limit > 0
    requires forall i :: 0 < i < |stamps| ==> stamps[i] - stamps[i - 1] >= limit
    requires forall i :: 0 <= i < |stamps| ==> from <= stamps[i] <= from + width
    ensures |stamps| <= width / limit + 1
  {
    if stamps != [] {
      SpacedSpan(limit, stamps);
      GapsThatFit(limit, |stamps| - 1, width);
    }
  }

  lemma GapsThatFit(limit: int, n: nat, width: nat)
    requires limit > 0 && limit * n <= width
    ensures n <= width / limit
  {
    var q := width / limit;
    assert width == limit * q + width % limit;
    if n > q {
      MulMono(limit, q + 1, n);
      OneMoreGap(limit, q + 1);
    }
  }

  lemma MulMono(c: int, a: int, b: int)
    requires c > 0 && a <= b
    ensures c * a <= c * b
  {
  }
}

/** One gate per key over a shared table of last times, as the source keeps it. */
module KeyedGate {
  import opened MinGap

  predicate Open<K>(last: map<K, int>, key: K, check: int, gap: int) {
    key in last ==> check - last[key] >= gap
  }

  /** The table after one request for the key: only a request that passes is recorded. */
  function Step<K>(last: map<K, int>, key: K, r: Request): map<K, int> {
    if Open(last, key, r.check, r.gap) then last[key := r.record] else last
  }

  /** The table after a whole run of requests for several keys. */
  function Run<K>(events: seq<(K, Request)>): map<K, int> {
    if events == [] then map[]
    else
      var e := events[|events| - 1];
      Step(Run(events[..|events| - 1]), e.0, e.1)
  }

  lemma RunSnoc<K>(events: seq<(K, Request)>, key: K, r: Request)
    ensures Run(events + [(key, r)]) == Step(Run(events), key, r)
  {
    assert (events + [(key, r)])[..|events|] == events;
  }

  /** The requests for one key. */
  function RequestsOf<K(==)>(events: seq<(K, Request)>, key: K): seq<Request> {
    if events == [] then []
    else
      var e := events[|events| - 1];
      var before := RequestsOf(events[..|events| - 1], key);
      if e.0 == key then before + [e.1] else before
  }

  lemma RequestsSnoc<K>(events: seq<(K, Request)>, at: K, r: Request, key: K)
    ensures RequestsOf(events + [(at, r)], key) == if at == key then RequestsOf(events, key) + [r] else RequestsOf(events, key)
  {
    assert (events + [(at, r)])[..|events|] == events;
  }

  /** The table entry of a key is the last reading recorded by the greedy gate for these requests. */
  predicate Mirrors<K>(last: map<K, int>, key: K, requests: seq<Request>) {
    var taken := Accepted(requests);
    if taken == [] then key !in last else key in last && last[key] == requests[taken[|taken| - 1]].record
  }

  lemma MirrorsOpen<K>(last: map<K, int>, key: K, requests: seq<Request>, r: Request)
    requires Mirrors(last, key, requests)
    ensures Accepted(requests + [r]) ==
            if Open(last, key, r.check, r.gap) then Accepted(requests) + [|requests|] else Accepted(requests)
  {
    AcceptedSnoc(requests, r);
  }

  lemma LastIsNew(taken: seq<nat>, n: nat)
    requires Below(taken, n)
    ensures n !in taken && n in taken + [n] && (taken + [n])[|taken + [n]| - 1] == n
  {
  }

  /** A table that mirrors the greedy gate lets the next request for the key pass exactly when the greedy
      gate accepts it, and mirrors it again afterwards. */
  lemma StepMirrors<K>(last: map<K, int>, key: K, requests: seq<Request>, r: Request)
    requires Mirrors(last, key, requests)
    ensures Open(last, key, r.check, r.gap) <==> |requests| in Accepted(requests + [r])
    ensures Mirrors(Step(last, key, r), key, requests + [r])
  {
    var taken := Accepted(requests);
    MirrorsOpen(last, key, requests, r);
    LastIsNew(taken, |requests|);
    if Open(last, key, r.check, r.gap) {
      assert (requests + [r])[|requests|] == r;
    } else {
      assert (requests + [r])[taken[|taken| - 1]] == requests[taken[|taken| - 1]];
    }
  }

  /** The shared table is one greedy gate per key: it holds exactly the last reading recorded for the key,
      whatever the requests for the other keys. */
  lemma {:induction false} RunMirrors<K>(events: seq<(K, Request)>, key: K)
    ensures Mirrors(Run(events), key, RequestsOf(events, key))
  {
    if events != [] {
      var n := |events| - 1;
      var e := events[n];
      RunMirrors(events[..n], key);
      if e.0 == key {
        StepMirrors(Run(events[..n]), key, RequestsOf(events[..n], key), e.1);
      }
    }
  }
}
