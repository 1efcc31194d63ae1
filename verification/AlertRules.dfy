/** Alert rules: filters, and signed thresholds.  Percentages and thresholds are hundredths. */
module AlertRules {
  import opened Options
  import opened Markets
  import opened SpreadCalculator

  datatype Direction = Above | Below | Both

  datatype Config = Config(id: int, symbol: Option<string>, exchangeA: Option<Exchange>, exchangeB: Option<Exchange>,
                           thresholdPct: int, direction: Direction, cooldownMinutes: int)
  {
    function CooldownMs(): int {
      cooldownMinutes * 60 * 1000
    }
  }

  function Abs(x: int): int {
    if x < 0 then -x else x
  }

  /** Symbol and exchange filters, early returns as in the source. */
  predicate Matches(c: Config, r: SpreadResult) {
    if c.symbol.Some? && c.symbol.value != r.key.symbol then false
    else if c.exchangeA.Some? && c.exchangeA.value != r.key.pair.a && c.exchangeA.value != r.key.pair.b then false
    else if c.exchangeB.Some? && c.exchangeB.value != r.key.pair.b && c.exchangeB.value != r.key.pair.a then false
    else true
  }

  /** The signed threshold test. */
  predicate Crosses(c: Config, r: SpreadResult) {
    match c.direction
    case Above => r.quote.pct >= c.thresholdPct
    case Below => r.quote.pct <= -c.thresholdPct
    case Both => Abs(r.quote.pct) >= c.thresholdPct
  }

  predicate Passes(c: Config, r: SpreadResult) {
    Matches(c, r) && Crosses(c, r)
  }

  function Swap(r: SpreadResult): SpreadResult {
    r.(key := r.key.(pair := Pair(r.key.pair.b, r.key.pair.a)))
  }

  /** The filters ask which exchanges form the pair, not in which order; two different exchange filters
      select exactly that pair. */
  lemma FiltersAreUnordered(c: Config, r: SpreadResult)
    ensures Matches(c, r) <==> Matches(c, Swap(r))
    ensures Listed(r.key.pair) && c.exchangeA.Some? && c.exchangeB.Some? && c.exchangeA != c.exchangeB ==>
              (Matches(c, r) <==>
               (c.symbol.Some? ==> c.symbol.value == r.key.symbol)
               && {r.key.pair.a, r.key.pair.b} == {c.exchangeA.value, c.exchangeB.value})
  {
    PairTables(r.key.pair);
    var s := {r.key.pair.a, r.key.pair.b};
    assert r.key.pair.a in s && r.key.pair.b in s;
    if c.exchangeA.Some? && c.exchangeB.Some? {
      assert s == {c.exchangeA.value, c.exchangeB.value} ==> c.exchangeA.value in s && c.exchangeB.value in s;
    }
  }

  /** Raising the spread never turns an Above alert off, lowering it never turns a Below alert off, and with
      a non-negative threshold a Both alert is the union of the two. */
  lemma ThresholdIsSigned(c: Config, low: SpreadResult, high: SpreadResult)
    requires low.quote.pct <= high.quote.pct
    ensures c.direction == Above && Crosses(c, low) ==> Crosses(c, high)
    ensures c.direction == Below && Crosses(c, high) ==> Crosses(c, low)
    ensures c.thresholdPct >= 0 ==>
              (Crosses(c.(direction := Both), low) <==> Crosses(c.(direction := Above), low) || Crosses(c.(direction := Below), low))
  {
  }

  /** The percentage with its sign turned. */
  function Negated(r: SpreadResult): SpreadResult {
    r.(quote := r.quote.(pct := -r.quote.pct))
  }

  /** The threshold is the exact boundary, reached included: an Above alert from the threshold up, a Below
      alert from the negated threshold down, a Both alert on either side. */
  lemma ThresholdIsBoundary(c: Config, r: SpreadResult)
    ensures c.direction == Above ==> (Crosses(c, r) <==> r.quote.pct >= c.thresholdPct)
    ensures c.direction == Below ==> (Crosses(c, r) <==> -r.quote.pct >= c.thresholdPct)
    ensures c.direction == Both ==> (Crosses(c, r) <==> r.quote.pct >= c.thresholdPct || -r.quote.pct >= c.thresholdPct)
  {
  }

  /** Below is Above of the negated percentage, and Both does not look at the sign. */
  lemma DirectionsMirror(c: Config, r: SpreadResult)
    ensures Crosses(c.(direction := Below), r) <==> Crosses(c.(direction := Above), Negated(r))
    ensures Crosses(c.(direction := Both), r) <==> Crosses(c.(direction := Both), Negated(r))
    ensures Crosses(c.(direction := Both), r) <==> Crosses(c.(direction := Above), r) || Crosses(c.(direction := Below), r)
  {
  }

  /** The exchanges a rule names. */
  function Named(c: Config): set<Exchange> {
    (if c.exchangeA.Some? then {c.exchangeA.value} else {}) + (if c.exchangeB.Some? then {c.exchangeB.value} else {})
  }

  /** What the filters select, for every combination of them: spreads of the rule's symbol, or of any symbol
      if it has none, whose pair contains every exchange the rule names. */
  lemma FiltersSelectExactly(c: Config, r: SpreadResult)
    ensures Matches(c, r) <==> (c.symbol.Some? ==> c.symbol.value == r.key.symbol) && Named(c) <= {r.key.pair.a, r.key.pair.b}
  {
    var pair := {r.key.pair.a, r.key.pair.b};
    assert r.key.pair.a in pair && r.key.pair.b in pair;
    assert Named(c) <= pair <==> forall x :: x in Named(c) ==> x in pair;
    if Matches(c, r) {
      forall x | x in Named(c) ensures x in pair {
        assert (c.exchangeA.Some? && x == c.exchangeA.value) || (c.exchangeB.Some? && x == c.exchangeB.value);
      }
    }
    if Named(c) <= pair {
      assert c.exchangeA.Some? ==> c.exchangeA.value in Named(c);
      assert c.exchangeB.Some? ==> c.exchangeB.value in Named(c);
    }
  }
}
