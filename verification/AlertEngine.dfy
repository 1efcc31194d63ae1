/** Batch evaluation of spreads against the cached alert configs. */
module AlertEngine {
  import opened Options
  import opened SpreadCalculator
  import opened AlertRules
  import opened Cooldown
  import KeyedGate

  /** A trigger: which config (by position), which spread of the batch, and when. */
  datatype Trigger = Trigger(config: nat, spread: nat, at: Stamp)

  datatype Evaluation = Evaluation(cooldowns: map<int, int>, triggers: seq<Trigger>)

  /** Clock readings: times(i, j) are the readings for spread i and config j, when they are taken. */
  type Times = (nat, nat) -> Stamp

  /** The readings of one config. */
  function Column(times: Times, j: nat): nat -> Stamp {
    (i: nat) => times(i, j)
  }

  /** One spread against one config. */
  function Visit(e: Evaluation, c: Config, r: SpreadResult, i: nat, j: nat, times: Times): Evaluation {
    if Passes(c, r) && KeyedGate.Open(e.cooldowns, c.id, times(i, j).check, c.CooldownMs())
    then Evaluation(e.cooldowns[c.id := times(i, j).record], e.triggers + [Trigger(j, i, times(i, j))])
    else e
  }

  /** One spread against the first n configs, in order. */
  function VisitRow(e: Evaluation, configs: seq<Config>, r: SpreadResult, i: nat, n: nat, times: Times): Evaluation
    requires n <= |configs|
  {
    if n == 0 then e
    else Visit(VisitRow(e, configs, r, i, n - 1, times), configs[n - 1], r, i, n - 1, times)
  }

  /** The first m spreads, in order. */
  function VisitAll(e: Evaluation, configs: seq<Config>, spreads: seq<SpreadResult>, m: nat, times: Times): Evaluation
    requires m <= |spreads|
  {
    if m == 0 then e
    else VisitRow(VisitAll(e, configs, spreads, m - 1, times), configs, spreads[m - 1], m - 1, |configs|, times)
  }

  class Engine {
    var cooldowns: map<int, int>
    var configs: seq<Config>
    var triggers: seq<Trigger>

    ghost function View(): Evaluation
      reads this
    {
      Evaluation(cooldowns, triggers)
    }

    constructor ()
      ensures View() == Evaluation(map[], []) && configs == []
    {
      cooldowns, configs, triggers := map[], [], [];
    }

    method IsInCooldown(id: int, cooldownMinutes: int, now: int) returns (cooling: bool)
      ensures cooling <==> !KeyedGate.Open(cooldowns, id, now, cooldownMinutes * 60 * 1000)
    {
      if id !in cooldowns { return false; }
      var elapsedMs := now - cooldowns[id];
      cooling := elapsedMs < cooldownMinutes * 60 * 1000;
    }

    /** The early-continue loop over the configs; sending, storing and broadcasting the alert happen after
        the trigger is recorded and do not influence it. */
    method EvaluateWithCachedConfigs(spread: SpreadResult, i: nat, times: Times)
      modifies `cooldowns, `triggers
      ensures View() == VisitRow(old(View()), configs, spread, i, |configs|, times)
    {
      for j := 0 to |configs|
        invariant View() == VisitRow(old(View()), configs, spread, i, j, times)
      {
        var config := configs[j];
        if !Matches(config, spread) { continue; }
        var pct := spread.quote.pct;
        if config.direction == Above && pct < config.thresholdPct { continue; }
        else if config.direction == Below && pct > -config.thresholdPct { continue; }
        else if config.direction == Both && Abs(pct) < config.thresholdPct { continue; }
        var cooling := IsInCooldown(config.id, config.cooldownMinutes, times(i, j).check);
        if cooling { continue; }
        cooldowns := cooldowns[config.id := times(i, j).record];
        triggers := triggers + [Trigger(j, i, times(i, j))];
      }
    }

    method EvaluateMany(spreads: seq<SpreadResult>, times: Times)
      modifies `cooldowns, `triggers
      ensures View() == VisitAll(old(View()), configs, spreads, |spreads|, times)
    {
      for i := 0 to |spreads|
        invariant View() == VisitAll(old(View()), configs, spreads, i, times)
      {
        EvaluateWithCachedConfigs(spreads[i], i, times);
      }
    }
  }

  predicate DistinctIds(configs: seq<Config>) {
    forall j, l :: 0 <= j < l < |configs| ==> configs[j].id != configs[l].id
  }

  /** The spreads on which a config triggered, in order. */
  function SpreadsOf(triggers: seq<Trigger>, j: nat): seq<nat> {
    if triggers == [] then []
    else
      var before := SpreadsOf(triggers[..|triggers| - 1], j);
      if triggers[|triggers| - 1].config == j then before + [triggers[|triggers| - 1].spread] else before
  }

  /** The same config evaluated alone: only its own last trigger time matters. */
  datatype Lane = Lane(last: Option<int>, spreads: seq<nat>)

  function LaneStep(l: Lane, c: Config, r: SpreadResult, i: nat, at: Stamp): Lane {
    if Passes(c, r) && (l.last.None? || at.check - l.last.value >= c.CooldownMs())
    then Lane(Some(at.record), l.spreads + [i]) else l
  }

  function LaneRun(l: Lane, c: Config, spreads: seq<SpreadResult>, m: nat, at: nat -> Stamp): Lane
    requires m <= |spreads|
  {
    if m == 0 then l else LaneStep(LaneRun(l, c, spreads, m - 1, at), c, spreads[m - 1], m - 1, at(m - 1))
  }

  function LaneOf(e: Evaluation, id: int, j: nat): Lane {
    Lane(if id in e.cooldowns then Some(e.cooldowns[id]) else None, SpreadsOf(e.triggers, j))
  }

  lemma SpreadsOfSnoc(triggers: seq<Trigger>, t: Trigger, j: nat)
    ensures SpreadsOf(triggers + [t], j) == if t.config == j then SpreadsOf(triggers, j) + [t.spread] else SpreadsOf(triggers, j)
  {
    assert (triggers + [t])[..|triggers|] == triggers;
  }

  lemma {:induction false} RowIsLaneStep(e: Evaluation, configs: seq<Config>, r: SpreadResult, i: nat, n: nat, times: Times, j: nat)
    requires DistinctIds(configs) && j < |configs| && n <= |configs|
    ensures LaneOf(VisitRow(e, configs, r, i, n, times), configs[j].id, j) ==
            if j < n then LaneStep(LaneOf(e, configs[j].id, j), configs[j], r, i, times(i, j))
            else LaneOf(e, configs[j].id, j)
  {
    if n > 0 {
      var before := VisitRow(e, configs, r, i, n - 1, times);
      RowIsLaneStep(e, configs, r, i, n - 1, times, j);
      SpreadsOfSnoc(before.triggers, Trigger(n - 1, i, times(i, n - 1)), j);
    }
  }

  /** Configs do not influence each other: inside a batch each behaves as if evaluated alone. */
  lemma {:induction false} BatchIsLanes(e: Evaluation, configs: seq<Config>, spreads: seq<SpreadResult>, m: nat, times: Times, j: nat)
    requires DistinctIds(configs) && j < |configs| && m <= |spreads|
    ensures LaneOf(VisitAll(e, configs, spreads, m, times), configs[j].id, j) ==
            LaneRun(LaneOf(e, configs[j].id, j), configs[j], spreads, m, Column(times, j))
  {
    if m > 0 {
      BatchIsLanes(e, configs, spreads, m - 1, times, j);
      RowIsLaneStep(VisitAll(e, configs, spreads, m - 1, times), configs, spreads[m - 1], m - 1, |configs|, times, j);
    }
  }

  /** This spread would trigger the config on its own, given its last trigger before the batch. */
  predicate Candidate(last: Option<int>, c: Config, spreads: seq<SpreadResult>, at: nat -> Stamp, i: nat)
    requires i < |spreads|
  {
    Passes(c, spreads[i]) && (last.Some? ==> at(i).check - last.value >= c.CooldownMs())
  }

  predicate NoCandidate(last: Option<int>, c: Config, spreads: seq<SpreadResult>, at: nat -> Stamp) {
    forall i: nat :: i < |spreads| ==> !Candidate(last, c, spreads, at, i)
  }

  predicate FirstCandidate(last: Option<int>, c: Config, spreads: seq<SpreadResult>, at: nat -> Stamp, i: nat)
    requires i < |spreads|
  {
    Candidate(last, c, spreads, at, i) && forall k: nat :: k < i ==> !Candidate(last, c, spreads, at, k)
  }

  /** The clock moves forward and by less than the cooldown during the batch. */
  predicate ShortBatch(c: Config, at: nat -> Stamp, m: nat) {
    && (forall i: nat :: i < m ==> at(i).check <= at(i).record)
    && (forall i: nat, k: nat :: i < k < m ==> at(i).record <= at(k).check && at(k).check - at(i).record < c.CooldownMs())
  }

  lemma {:induction false} LaneTriggersFirst(last: Option<int>, c: Config, spreads: seq<SpreadResult>, m: nat, at: nat -> Stamp)
    requires m <= |spreads| && ShortBatch(c, at, m)
    ensures var l := LaneRun(Lane(last, []), c, spreads, m, at);
            if exists i: nat :: i < m && Candidate(last, c, spreads, at, i)
            then exists i: nat :: i < m && FirstCandidate(last, c, spreads, at, i) && l == Lane(Some(at(i).record), [i])
            else l == Lane(last, [])
  {
    if m > 0 {
      LaneTriggersFirst(last, c, spreads, m - 1, at);
      var before := LaneRun(Lane(last, []), c, spreads, m - 1, at);
      if exists i: nat :: i < m - 1 && Candidate(last, c, spreads, at, i) {
        var i: nat :| i < m - 1 && FirstCandidate(last, c, spreads, at, i) && before == Lane(Some(at(i).record), [i]);
        TriggeredLaneRests(c, spreads, i, m, at);
      } else if Candidate(last, c, spreads, at, m - 1) {
        assert FirstCandidate(last, c, spreads, at, m - 1);
        assert [] + [m - 1] == [m - 1];
      }
    }
  }

  lemma TriggeredLaneRests(c: Config, spreads: seq<SpreadResult>, i: nat, m: nat, at: nat -> Stamp)
    requires i + 1 < m <= |spreads| && ShortBatch(c, at, m)
    ensures var l := Lane(Some(at(i).record), [i]); LaneStep(l, c, spreads[m - 1], m - 1, at(m - 1)) == l
  {
    assert at(m - 1).check - at(i).record < c.CooldownMs();
  }

  /** Batch evaluation is exact.  While the clock advances by less than a config's cooldown, the batch
      triggers it at most once: on the first spread in list order that passes its filters and threshold at
      a time when the trigger before the batch no longer holds it back, and not at all if there is none. */
  lemma BatchEvaluationIsExact(e: Evaluation, configs: seq<Config>, spreads: seq<SpreadResult>, times: Times, j: nat, i: nat)
    requires DistinctIds(configs) && j < |configs| && i < |spreads|
    requires e.triggers == []
    requires ShortBatch(configs[j], Column(times, j), |spreads|)
    ensures var c := configs[j];
            var last := LaneOf(e, c.id, j).last;
            var on := SpreadsOf(VisitAll(e, configs, spreads, |spreads|, times).triggers, j);
            && |on| <= 1
            && (on == [i] <==> FirstCandidate(last, c, spreads, Column(times, j), i))
            && (on == [] <==> NoCandidate(last, c, spreads, Column(times, j)))
  {
    var c, at := configs[j], Column(times, j);
    BatchIsLanes(e, configs, spreads, |spreads|, times, j);
    LaneTriggersFirst(LaneOf(e, c.id, j).last, c, spreads, |spreads|, at);
  }

  /** A config that was not cooling down when the batch began triggers on the first passing spread. */
  lemma NotCoolingMeansPassing(last: Option<int>, c: Config, spreads: seq<SpreadResult>, at: nat -> Stamp, i: nat)
    requires i < |spreads| && ShortBatch(c, at, |spreads|)
    requires last.Some? ==> at(0).check - last.value >= c.CooldownMs()
    ensures Candidate(last, c, spreads, at, i) <==> Passes(c, spreads[i])
  {
    if i > 0 {
      assert at(0).check <= at(0).record <= at(i).check;
    }
  }

  /** A visit whose spread passes is one attempt on the shared cooldown table and fires exactly when the
      attempt does; any other visit leaves the table alone.  So whatever evaluations interleave at their
      suspension points, the table goes through a run of attempts. */
  lemma VisitIsAttempt(e: Evaluation, fired: seq<Fired>, c: Config, r: SpreadResult, i: nat, j: nat, times: Times)
    ensures var e' := Visit(e, c, r, i, j, times);
            if Passes(c, r) then
              var t := Try(Table(e.cooldowns, fired), Attempt(c.id, c.CooldownMs(), times(i, j)));
              && e'.cooldowns == t.last
              && (|e'.triggers| > |e.triggers| <==> t.fired == fired + [Fired(c.id, times(i, j).record, c.CooldownMs())])
            else e' == e
  {
    assert |fired + [Fired(c.id, times(i, j).record, c.CooldownMs())]| > |fired|;
  }

  /** One rule and one spread, the rule's threshold and filters written out: the rule triggers exactly when
      it is not cooling down, the spread is of its symbol and contains its exchanges, and the percentage has
      reached the threshold on the side the rule watches. */
  lemma OneSpreadTriggersIff(e: Evaluation, c: Config, r: SpreadResult, times: Times)
    ensures var triggered := VisitAll(e, [c], [r], 1, times).triggers == e.triggers + [Trigger(0, 0, times(0, 0))];
            var up, down := r.quote.pct >= c.thresholdPct, -r.quote.pct >= c.thresholdPct;
            && (triggered <==>
                  && (c.id in e.cooldowns ==> times(0, 0).check - e.cooldowns[c.id] >= c.cooldownMinutes * 60_000)
                  && (c.symbol.Some? ==> c.symbol.value == r.key.symbol) && Named(c) <= {r.key.pair.a, r.key.pair.b}
                  && match c.direction case Above => up case Below => down case Both => up || down)
            && (!triggered ==> VisitAll(e, [c], [r], 1, times) == e)
            && (triggered ==> VisitAll(e, [c], [r], 1, times).cooldowns == e.cooldowns[c.id := times(0, 0).record])
  {
    OneVisit(e, c, r, times);
    FiltersSelectExactly(c, r);
    ThresholdIsBoundary(c, r);
    assert e.triggers + [Trigger(0, 0, times(0, 0))] != e.triggers;
  }

  lemma OneVisit(e: Evaluation, c: Config, r: SpreadResult, times: Times)
    ensures VisitAll(e, [c], [r], 1, times) == Visit(e, c, r, 0, 0, times)
  {
    assert VisitAll(e, [c], [r], 0, times) == e;
    assert VisitRow(e, [c], r, 0, 0, times) == e;
  }
}
