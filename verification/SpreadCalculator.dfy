/** Spreads between exchange pairs: the pair computation, the incremental cache, and the proof that the
    incremental cache is the full recomputation. */
module SpreadCalculator {
  import opened Options
  import opened Markets
  import opened SpreadMath
  import opened PriceStore

  const PRICE_STALE_MS := 5_000

  datatype SpreadKey = SpreadKey(pair: Pair, symbol: string)

  /** What a spread says about prices; it does not depend on the clock. */
  datatype Quote = Quote(kimchi: bool, pct: int, priceA: real, priceB: real, fxRate: Option<real>, fxSource: Option<string>)

  datatype SpreadResult = SpreadResult(key: SpreadKey, quote: Quote, timestampMs: int, staleA: bool, staleB: bool, staleFx: bool)

  /** The spread of one pair and symbol, or None when a price, the rate, or a usable divisor is missing. */
  function ComputePair(s: Store, k: SpreadKey, nowMs: int): Option<SpreadResult> {
    var a, b := Get(s, Key(k.pair.a, k.symbol)), Get(s, Key(k.pair.b, k.symbol));
    if a.None? || b.None? then None
    else
      var (tickA, tickB) := (a.value, b.value);
      var staleA := nowMs - tickA.timestampMs > PRICE_STALE_MS;
      var staleB := nowMs - tickB.timestampMs > PRICE_STALE_MS;
      if IsKimchi(k.pair) then
        if s.fxRate.None? || s.fxRate.value == 0.0 || tickB.price == 0.0 then None
        else Some(SpreadResult(k, Quote(true, SpreadPct(tickA.price, tickB.price, s.fxRate.value),
                                        tickA.price, tickB.price, s.fxRate, s.fxSource),
                               nowMs, staleA, staleB, FxStale(s, nowMs)))
      else
        if tickB.price == 0.0 then None
        else Some(SpreadResult(k, Quote(false, SpreadPct(tickA.price, tickB.price, 1.0),
                                        tickA.price, tickB.price, None, None),
                               nowMs, staleA, staleB, false))
  }

  /** The clock-independent part of the pair computation. */
  function QuoteOf(s: Store, k: SpreadKey): Option<Quote> {
    var r := ComputePair(s, k, 0);
    if r.Some? then Some(r.value.quote) else None
  }

  lemma QuoteIgnoresClock(s: Store, k: SpreadKey, nowMs: int)
    ensures ComputePair(s, k, nowMs).Some? <==> QuoteOf(s, k).Some?
    ensures ComputePair(s, k, nowMs).Some? ==>
              var r := ComputePair(s, k, nowMs).value;
              r.key == k && r.timestampMs == nowMs && Some(r.quote) == QuoteOf(s, k)
  {
  }

  predicate Touches(p: Pair, e: Exchange) {
    p.a == e || p.b == e
  }

  /** The listed pairs of a symbol, all of them or those with one exchange. */
  function KeysFor(symbol: string, only: Option<Exchange>): (keys: set<SpreadKey>)
    ensures forall k :: k in keys <==> Listed(k.pair) && (only.Some? ==> Touches(k.pair, only.value)) && k.symbol == symbol
  {
    set a: Exchange, b: Exchange | Listed(Pair(a, b)) && (only.Some? ==> Touches(Pair(a, b), only.value))
      :: SpreadKey(Pair(a, b), symbol)
  }

  /** The keys recomputed for a tick: every listed pair with its exchange, for its symbol. */
  function Affected(t: Tick): (keys: set<SpreadKey>)
    ensures forall k :: k in keys <==> Listed(k.pair) && (k.pair.a == t.exchange || k.pair.b == t.exchange) && k.symbol == t.symbol
  {
    KeysFor(t.symbol, Some(t.exchange))
  }

  /** These results are the computable keys among the wanted ones, each once. */
  predicate ResultsOf(results: seq<SpreadResult>, s: Store, wanted: set<SpreadKey>) {
    && (forall i :: 0 <= i < |results| ==> results[i].key in wanted && QuoteOf(s, results[i].key) == Some(results[i].quote))
    && (forall i, j :: 0 <= i < j < |results| ==> results[i].key != results[j].key)
    && (forall k :: k in wanted && QuoteOf(s, k).Some? ==> HasKey(results, k))
  }

  predicate HasKey(results: seq<SpreadResult>, k: SpreadKey) {
    exists i :: 0 <= i < |results| && results[i].key == k
  }

  /** The result was computed from the store at one of the clock readings. */
  ghost predicate FromClock(r: SpreadResult, s: Store, clock: nat -> int) {
    exists n: nat :: ComputedAt(r, s, clock, n)
  }

  predicate ComputedAt(r: SpreadResult, s: Store, clock: nat -> int, n: nat) {
    ComputePair(s, r.key, clock(n)) == Some(r)
  }

  ghost predicate AllFromClock(results: seq<SpreadResult>, s: Store, clock: nat -> int) {
    forall i :: 0 <= i < |results| ==> FromClock(results[i], s, clock)
  }

  /** The quotes in a cache of results. */
  function Quotes(cache: map<SpreadKey, SpreadResult>): map<SpreadKey, Quote> {
    map k | k in cache :: cache[k].quote
  }

  /** Quotes after overlaying the recomputed results: a key keeps its old quote unless it was wanted and
      could be computed. */
  ghost predicate Refreshed(after: map<SpreadKey, Quote>, before: map<SpreadKey, Quote>, s: Store, wanted: set<SpreadKey>) {
    forall k: SpreadKey :: RefreshedAt(after, before, s, wanted, k)
  }

  predicate RefreshedAt(after: map<SpreadKey, Quote>, before: map<SpreadKey, Quote>, s: Store, wanted: set<SpreadKey>, k: SpreadKey) {
    if k in wanted && QuoteOf(s, k).Some? then k in after && after[k] == QuoteOf(s, k).value
    else (k in after <==> k in before) && (k in before ==> after[k] == before[k])
  }

  lemma RefreshedUnique(a: map<SpreadKey, Quote>, b: map<SpreadKey, Quote>, before: map<SpreadKey, Quote>, s: Store, wanted: set<SpreadKey>)
    requires Refreshed(a, before, s, wanted) && Refreshed(b, before, s, wanted)
    ensures a == b
  {
    forall k: SpreadKey ensures (k in a <==> k in b) && (k in a ==> a[k] == b[k]) {
      assert RefreshedAt(a, before, s, wanted, k) && RefreshedAt(b, before, s, wanted, k);
    }
  }

  class Calculator {
    const store: LatestPrices
    var latest: map<SpreadKey, SpreadResult>

    constructor (store: LatestPrices)
      ensures this.store == store && latest == map[]
    {
      this.store := store;
      latest := map[];
    }

    /** Recompute every listed pair with the tick's exchange; clock(i) is the i-th reading of the clock. */
    method ComputeAffectedSpreads(tick: Tick, clock: nat -> int) returns (results: seq<SpreadResult>)
      ensures ResultsOf(results, store.View(), Affected(tick)) && AllFromClock(results, store.View(), clock)
    {
      results := ComputeListed(tick.symbol, Some(tick.exchange), clock);
    }

    /** All ten pairs of a symbol, for the snapshot endpoint. */
    method ComputeAll(symbol: string, clock: nat -> int) returns (results: seq<SpreadResult>)
      ensures ResultsOf(results, store.View(), KeysFor(symbol, None)) && AllFromClock(results, store.View(), clock)
    {
      results := ComputeListed(symbol, None, clock);
    }

    method ComputeListed(symbol: string, only: Option<Exchange>, clock: nat -> int) returns (results: seq<SpreadResult>)
      ensures ResultsOf(results, store.View(), KeysFor(symbol, only)) && AllFromClock(results, store.View(), clock)
    {
      results := [];
      ghost var s := store.View();
      for i := 0 to |ALL_PAIRS|
        invariant ResultsOf(results, s, SomeKeys(ALL_PAIRS[..i], symbol, only))
        invariant AllFromClock(results, s, clock)
      {
        var pair := ALL_PAIRS[i];
        SomeKeysStep(i, symbol, only);
        if only == None || pair.a == only.value || pair.b == only.value {
          var k := SpreadKey(pair, symbol);
          var now := clock(i);
          var a := Lookup(Key(pair.a, symbol));
          var b := Lookup(Key(pair.b, symbol));
          var r := Spread(k, a, b, now);
          QuoteIgnoresClock(s, k, now);
          if r.Some? {
            OneMoreResult(results, r.value, s, SomeKeys(ALL_PAIRS[..i], symbol, only));
            assert ComputedAt(r.value, s, clock, i);
            results := results + [r.value];
          }
        }
      }
      assert ALL_PAIRS[..|ALL_PAIRS|] == ALL_PAIRS;
      SomeKeysOfAll(symbol, only);
    }

    method Lookup(k: Key) returns (t: Option<Tick>)
      ensures t == Get(store.View(), k)
    {
      t := if k in store.prices then Some(store.prices[k]) else None;
    }

    /** The branches of the pair computation in source order. */
    method Spread(k: SpreadKey, a: Option<Tick>, b: Option<Tick>, now: int) returns (r: Option<SpreadResult>)
      requires a == Get(store.View(), Key(k.pair.a, k.symbol)) && b == Get(store.View(), Key(k.pair.b, k.symbol))
      ensures r == ComputePair(store.View(), k, now)
    {
      PairTables(k.pair);
      if a.None? || b.None? { return None; }
      var staleA := now - a.value.timestampMs > PRICE_STALE_MS;
      var staleB := now - b.value.timestampMs > PRICE_STALE_MS;
      if k.pair in KIMCHI_PAIRS {
        if store.fxRate == None || store.fxRate.value == 0.0 { return None; }
        var staleFx := store.fxTimestampMs == None || now - store.fxTimestampMs.value > FX_STALE_MS;
        var priceAUsdt := a.value.price / store.fxRate.value;
        if b.value.price == 0.0 { return None; }
        var pct := Quantise(priceAUsdt / b.value.price);
        r := Some(SpreadResult(k, Quote(true, pct, a.value.price, b.value.price, store.fxRate, store.fxSource),
                               now, staleA, staleB, staleFx));
      } else {
        if b.value.price == 0.0 { return None; }
        var pct := Quantise(a.value.price / b.value.price);
        assert a.value.price / 1.0 == a.value.price;
        r := Some(SpreadResult(k, Quote(false, pct, a.value.price, b.value.price, None, None), now, staleA, staleB, false));
      }
    }

    /** The price-store callback: recompute, then overlay the cache. */
    method OnTick(tick: Tick, clock: nat -> int)
      modifies this
      ensures Refreshed(Quotes(latest), Quotes(old(latest)), store.View(), Affected(tick))
      ensures forall k :: k in latest ==> Entry(k, latest[k], old(latest), store.View(), Affected(tick), clock)
    {
      var results := ComputeAffectedSpreads(tick, clock);
      for i := 0 to |results|
        invariant latest == Overlay(old(latest), results[..i])
      {
        latest := latest[results[i].key := results[i]];
        assert results[..i + 1][..i] == results[..i];
      }
      assert results[..|results|] == results;
      OverlayRefreshes(old(latest), results, store.View(), Affected(tick));
      OverlayEntries(old(latest), results, store.View(), Affected(tick), clock);
    }
  }

  /** An entry after a recomputation: new from the store if it was wanted and can be computed, else the old
      one, its time and staleness included. */
  ghost predicate Entry(k: SpreadKey, r: SpreadResult, before: map<SpreadKey, SpreadResult>, s: Store, wanted: set<SpreadKey>, clock: nat -> int) {
    if k in wanted && QuoteOf(s, k).Some? then r.key == k && FromClock(r, s, clock) else k in before && r == before[k]
  }

  lemma OverlayEntries(cache: map<SpreadKey, SpreadResult>, results: seq<SpreadResult>, s: Store, wanted: set<SpreadKey>, clock: nat -> int)
    requires ResultsOf(results, s, wanted) && AllFromClock(results, s, clock)
    ensures forall k :: k in Overlay(cache, results) ==> Entry(k, Overlay(cache, results)[k], cache, s, wanted, clock)
  {
    forall k | k in Overlay(cache, results) ensures Entry(k, Overlay(cache, results)[k], cache, s, wanted, clock) {
      if HasKey(results, k) {
        var i :| 0 <= i < |results| && results[i].key == k;
        OverlayHits(cache, results, i);
      } else {
        OverlayMisses(cache, results, k);
      }
    }
  }

  /** The cache after storing results one by one. */
  function Overlay(cache: map<SpreadKey, SpreadResult>, results: seq<SpreadResult>): map<SpreadKey, SpreadResult> {
    if results == [] then cache
    else
      var r := results[|results| - 1];
      Overlay(cache, results[..|results| - 1])[r.key := r]
  }

  lemma HasKeyInLonger(results: seq<SpreadResult>, n: nat, k: SpreadKey)
    requires n <= |results|
    ensures HasKey(results[..n], k) ==> HasKey(results, k)
  {
    forall i | 0 <= i < n ensures results[..n][i].key == results[i].key { }
  }

  lemma {:induction false} OverlayMisses(cache: map<SpreadKey, SpreadResult>, results: seq<SpreadResult>, k: SpreadKey)
    requires !HasKey(results, k)
    ensures k in Overlay(cache, results) <==> k in cache
    ensures k in cache ==> Overlay(cache, results)[k] == cache[k]
  {
    if results != [] {
      var n := |results| - 1;
      assert results[n].key != k;
      HasKeyInLonger(results, n, k);
      OverlayMisses(cache, results[..n], k);
    }
  }

  lemma {:induction false} OverlayHits(cache: map<SpreadKey, SpreadResult>, results: seq<SpreadResult>, i: nat)
    requires i < |results| && forall j, l :: 0 <= j < l < |results| ==> results[j].key != results[l].key
    ensures results[i].key in Overlay(cache, results) && Overlay(cache, results)[results[i].key] == results[i]
  {
    if i < |results| - 1 {
      OverlayHits(cache, results[..|results| - 1], i);
    }
  }

  lemma OverlayRefreshes(cache: map<SpreadKey, SpreadResult>, results: seq<SpreadResult>, s: Store, wanted: set<SpreadKey>)
    requires ResultsOf(results, s, wanted)
    ensures Refreshed(Quotes(Overlay(cache, results)), Quotes(cache), s, wanted)
  {
    forall k: SpreadKey ensures RefreshedAt(Quotes(Overlay(cache, results)), Quotes(cache), s, wanted, k) {
      if HasKey(results, k) {
        var i :| 0 <= i < |results| && results[i].key == k;
        OverlayHits(cache, results, i);
      } else {
        OverlayMisses(cache, results, k);
      }
    }
  }

  /** The keys of the first few pairs of the table. */
  function SomeKeys(pairs: seq<Pair>, symbol: string, only: Option<Exchange>): set<SpreadKey> {
    set p | p in pairs && (only.Some? ==> Touches(p, only.value)) :: SpreadKey(p, symbol)
  }

  lemma SomeKeysOfAll(symbol: string, only: Option<Exchange>)
    ensures SomeKeys(ALL_PAIRS, symbol, only) == KeysFor(symbol, only)
  {
    forall p: Pair { PairTables(p); }
  }

  lemma OneMoreResult(results: seq<SpreadResult>, r: SpreadResult, s: Store, wanted: set<SpreadKey>)
    requires ResultsOf(results, s, wanted) && r.key !in wanted && QuoteOf(s, r.key) == Some(r.quote)
    ensures ResultsOf(results + [r], s, wanted + {r.key})
  {
    var more := results + [r];
    assert more[|results|] == r;
    forall k | HasKey(results, k) ensures HasKey(more, k) {
      var i :| 0 <= i < |results| && results[i].key == k;
      assert more[i].key == k;
    }
  }

  lemma PairsDistinct(i: nat)
    requires i < |ALL_PAIRS|
    ensures ALL_PAIRS[i] !in ALL_PAIRS[..i]
    ensures ALL_PAIRS[..i + 1] == ALL_PAIRS[..i] + [ALL_PAIRS[i]]
  {
  }

  lemma SomeKeysStep(i: nat, symbol: string, only: Option<Exchange>)
    requires i < |ALL_PAIRS|
    ensures var k := SpreadKey(ALL_PAIRS[i], symbol);
            var before := SomeKeys(ALL_PAIRS[..i], symbol, only);
            && k !in before
            && SomeKeys(ALL_PAIRS[..i + 1], symbol, only) ==
               if only.Some? ==> Touches(ALL_PAIRS[i], only.value) then before + {k} else before
  {
    PairsDistinct(i);
  }

  predicate HoldsFullQuote(q: map<SpreadKey, Quote>, s: Store, k: SpreadKey) {
    (k in q <==> Listed(k.pair) && QuoteOf(s, k).Some?) && (k in q ==> Some(q[k]) == QuoteOf(s, k))
  }

  /** All computable spreads of the store. */
  ghost predicate FullQuotes(q: map<SpreadKey, Quote>, s: Store) {
    forall k: SpreadKey :: HoldsFullQuote(q, s, k)
  }

  lemma UnaffectedQuoteKept(s: Store, t: Tick, k: SpreadKey)
    requires !IsFxTick(t) && Listed(k.pair) && k !in Affected(t)
    ensures QuoteOf(Apply(s, t), k) == QuoteOf(s, k)
  {
  }

  lemma ComputableAfterTick(s: Store, t: Tick, k: SpreadKey)
    requires !IsFxTick(t) && k in Affected(t) && QuoteOf(s, k).Some?
    ensures QuoteOf(Apply(s, t), k).None? <==> t.price == 0.0 && k.pair.b == t.exchange
  {
    PairTables(k.pair);
  }

  /** The second price of this spread has just become zero. */
  predicate LeftBehind(before: map<SpreadKey, Quote>, t: Tick, k: SpreadKey) {
    k in before && t.price == 0.0 && k.pair.b == t.exchange && k.symbol == t.symbol
  }

  lemma IncrementalAtKey(before: map<SpreadKey, Quote>, after: map<SpreadKey, Quote>, s: Store, t: Tick, k: SpreadKey)
    requires !IsFxTick(t) && FullQuotes(before, s)
    requires Refreshed(after, before, Apply(s, t), Affected(t))
    ensures HoldsFullQuote(after, Apply(s, t), k) <==> !LeftBehind(before, t, k)
  {
    assert HoldsFullQuote(before, s, k);
    assert RefreshedAt(after, before, Apply(s, t), Affected(t), k);
    if k in Affected(t) {
      if k in before {
        ComputableAfterTick(s, t, k);
      }
    } else if Listed(k.pair) {
      UnaffectedQuoteKept(s, t, k);
    }
  }

  /** Incremental equals full: after a price tick, overlaying the affected spreads on the full set computed
      before it gives the full set computed after it, except in one case.  The exception is a zero price on
      an exchange that was the second of a pair with a computed spread: that spread stays in the overlay
      although it can no longer be computed.  Other symbols are untouched. */
  lemma IncrementalIsFull(before: map<SpreadKey, Quote>, after: map<SpreadKey, Quote>, s: Store, t: Tick)
    requires !IsFxTick(t) && FullQuotes(before, s)
    requires Refreshed(after, before, Apply(s, t), Affected(t))
    ensures FullQuotes(after, Apply(s, t)) <==>
            !(t.price == 0.0 && exists a: Exchange :: SpreadKey(Pair(a, t.exchange), t.symbol) in before)
    ensures forall k: SpreadKey :: k.symbol != t.symbol ==> (k in after <==> k in before) && (k in after ==> after[k] == before[k])
  {
    forall k: SpreadKey | k.symbol != t.symbol ensures (k in after <==> k in before) && (k in after ==> after[k] == before[k]) {
      assert RefreshedAt(after, before, Apply(s, t), Affected(t), k);
    }
    forall k: SpreadKey ensures HoldsFullQuote(after, Apply(s, t), k) <==> !LeftBehind(before, t, k) {
      IncrementalAtKey(before, after, s, t, k);
    }
    if k: SpreadKey :| LeftBehind(before, t, k) {
      assert k == SpreadKey(Pair(k.pair.a, t.exchange), t.symbol);
      assert !HoldsFullQuote(after, Apply(s, t), k);
    }
    forall a: Exchange | t.price == 0.0 && SpreadKey(Pair(a, t.exchange), t.symbol) in before
      ensures LeftBehind(before, t, SpreadKey(Pair(a, t.exchange), t.symbol))
    {
    }
  }

  /** A rate tick recomputes nothing: no stored price has its key. */
  lemma FxTickRefreshesNothing(s: Store, t: Tick, k: SpreadKey)
    requires IsFxTick(t) && Key(Upbit, "USDT") !in s.prices && k in Affected(t)
    ensures QuoteOf(Apply(s, t), k).None?
  {
  }

  /** A kimchi spread that only lacks a usable rate, if that. */
  predicate AwaitsRate(s: Store, k: SpreadKey) {
    && IsKimchi(k.pair)
    && Get(s, Key(k.pair.a, k.symbol)).Some?
    && Get(s, Key(k.pair.b, k.symbol)).Some? && Get(s, Key(k.pair.b, k.symbol)).value.price != 0.0
  }

  predicate NoUsableRate(s: Store) {
    s.fxRate.None? || s.fxRate.value == 0.0
  }

  /** The rate tick changes nothing that a quote records. */
  predicate SameRate(s: Store, t: Tick) {
    (NoUsableRate(s) && t.price == 0.0) || (s.fxRate == Some(t.price) && s.fxSource == Some("upbit"))
  }

  lemma RateTickAtKey(s: Store, t: Tick, k: SpreadKey)
    requires IsFxTick(t) && Listed(k.pair)
    ensures QuoteOf(Apply(s, t), k) == QuoteOf(s, k) <==> !AwaitsRate(s, k) || SameRate(s, t)
  {
  }

  /** After a rate tick the cache, which nothing recomputes, is still the full recomputation exactly when no
      kimchi spread has its prices, or the tick brings no other rate or source than before. */
  lemma RateTickKeepsFullIff(before: map<SpreadKey, Quote>, after: map<SpreadKey, Quote>, s: Store, t: Tick)
    requires IsFxTick(t) && FullQuotes(before, s) && Key(Upbit, "USDT") !in s.prices
    requires Refreshed(after, before, Apply(s, t), Affected(t))
    ensures after == before
    ensures FullQuotes(after, Apply(s, t)) <==> (forall k: SpreadKey :: !AwaitsRate(s, k)) || SameRate(s, t)
  {
    forall k: SpreadKey ensures RefreshedAt(before, before, Apply(s, t), Affected(t), k) {
      if k in Affected(t) {
        FxTickRefreshesNothing(s, t, k);
      }
    }
    RefreshedUnique(after, before, before, Apply(s, t), Affected(t));
    forall k: SpreadKey ensures HoldsFullQuote(before, Apply(s, t), k) <==> !AwaitsRate(s, k) || SameRate(s, t) {
      assert HoldsFullQuote(before, s, k);
      if Listed(k.pair) {
        RateTickAtKey(s, t, k);
      }
    }
    if k: SpreadKey :| AwaitsRate(s, k) && !SameRate(s, t) {
      assert !HoldsFullQuote(before, Apply(s, t), k);
    }
  }

  ghost predicate Positive(s: Store) {
    && (forall k :: k in s.prices ==> s.prices[k].price > 0.0)
    && (s.fxRate.Some? ==> s.fxRate.value > 0.0)
  }

  function PriceAt(s: Store, e: Exchange, symbol: string): real
    requires Key(e, symbol) in s.prices
  {
    s.prices[Key(e, symbol)].price
  }

  /** The rate a pair is converted with. */
  function RateFor(s: Store, p: Pair): real {
    if IsKimchi(p) && s.fxRate.Some? then s.fxRate.value else 1.0
  }

  /** With positive prices a pair is quoted as soon as its inputs are there. */
  lemma QuotedWhenReady(s: Store, p: Pair, symbol: string)
    requires Positive(s)
    ensures QuoteOf(s, SpreadKey(p, symbol)).Some? <==>
            Key(p.a, symbol) in s.prices && Key(p.b, symbol) in s.prices && (IsKimchi(p) ==> s.fxRate.Some?)
    ensures QuoteOf(s, SpreadKey(p, symbol)).Some? ==>
              QuoteOf(s, SpreadKey(p, symbol)).value.pct == SpreadPct(PriceAt(s, p.a, symbol), PriceAt(s, p.b, symbol), RateFor(s, p))
  {
  }

  /** What a kimchi spread says, in terms of the two ticks and the rate alone: the KRW price against the
      USDT price times the rate, in percent, rounded half up to hundredths and so within 0.005. */
  lemma KimchiQuoteIsExact(s: Store, k: SpreadKey)
    requires IsKimchi(k.pair) && QuoteOf(s, k).Some?
    ensures Key(k.pair.a, k.symbol) in s.prices && Key(k.pair.b, k.symbol) in s.prices && s.fxRate.Some?
    ensures var q := QuoteOf(s, k).value;
            var a, b, rate := s.prices[Key(k.pair.a, k.symbol)].price, s.prices[Key(k.pair.b, k.symbol)].price, s.fxRate.value;
            && b != 0.0 && rate != 0.0
            && q.kimchi && q.priceA == a && q.priceB == b && q.fxRate == Some(rate) && q.fxSource == s.fxSource
            && RoundsTo(q.pct, KimchiPct(a, b, rate) * 100.0)
            && Abs(q.pct as real / 100.0 - KimchiPct(a, b, rate)) <= 0.005
  {
    var a, b, rate := s.prices[Key(k.pair.a, k.symbol)].price, s.prices[Key(k.pair.b, k.symbol)].price, s.fxRate.value;
    QuantisesKimchiPct(a, b, rate);
  }

  /** .. and a same-currency spread: one price against the other. */
  lemma SameCurrencyQuoteIsExact(s: Store, k: SpreadKey)
    requires !IsKimchi(k.pair) && QuoteOf(s, k).Some?
    ensures Key(k.pair.a, k.symbol) in s.prices && Key(k.pair.b, k.symbol) in s.prices
    ensures var q := QuoteOf(s, k).value;
            var a, b := s.prices[Key(k.pair.a, k.symbol)].price, s.prices[Key(k.pair.b, k.symbol)].price;
            && b != 0.0
            && !q.kimchi && q.priceA == a && q.priceB == b && q.fxRate == None && q.fxSource == None
            && RoundsTo(q.pct, ExactPct(a, b) * 100.0)
            && Abs(q.pct as real / 100.0 - ExactPct(a, b)) <= 0.005
  {
    var a, b := s.prices[Key(k.pair.a, k.symbol)].price, s.prices[Key(k.pair.b, k.symbol)].price;
    RatioAtOne(a, b);
    QuantisesExactPct(a, b, Ratio(a, b, 1.0));
    assert QuoteOf(s, k).value.pct == Quantise(Ratio(a, b, 1.0));
  }

  /** A dearer dollar never raises a kimchi spread. */
  lemma KimchiAntitoneInRate(s: Store, k: SpreadKey, low: real, high: real)
    requires IsKimchi(k.pair) && Positive(s) && 0.0 < low <= high
    requires Key(k.pair.a, k.symbol) in s.prices && Key(k.pair.b, k.symbol) in s.prices
    ensures var cheap, dear := QuoteOf(s.(fxRate := Some(low)), k), QuoteOf(s.(fxRate := Some(high)), k);
            cheap.Some? && dear.Some? && dear.value.pct <= cheap.value.pct
  {
    var a, b := s.prices[Key(k.pair.a, k.symbol)].price, s.prices[Key(k.pair.b, k.symbol)].price;
    DivideAntitone(a, low, high);
    DivideMonotone(a / high, a / low, b);
    QuantiseMonotone(Ratio(a, b, high), Ratio(a, b, low));
  }

  /** When a result is stale: an input is older than its limit, 5 s for the two prices and 60 s for the rate,
      which only kimchi spreads need; a rate without a time counts as old. */
  lemma StaleIffOld(s: Store, k: SpreadKey, nowMs: int)
    requires ComputePair(s, k, nowMs).Some?
    ensures Key(k.pair.a, k.symbol) in s.prices && Key(k.pair.b, k.symbol) in s.prices
    ensures var r := ComputePair(s, k, nowMs).value;
            && (r.staleA <==> s.prices[Key(k.pair.a, k.symbol)].timestampMs < nowMs - 5_000)
            && (r.staleB <==> s.prices[Key(k.pair.b, k.symbol)].timestampMs < nowMs - 5_000)
            && (r.staleFx <==> IsKimchi(k.pair) && (s.fxTimestampMs == None || s.fxTimestampMs.value < nowMs - 60_000))
  {
  }

  lemma RatesChain(s: Store, a: Exchange, b: Exchange, c: Exchange)
    requires Listed(Pair(a, b)) && Listed(Pair(b, c)) && Listed(Pair(a, c))
    ensures RateFor(s, Pair(a, b)) * RateFor(s, Pair(b, c)) == RateFor(s, Pair(a, c))
    ensures IsKimchi(Pair(a, c)) <==> IsKimchi(Pair(a, b)) || IsKimchi(Pair(b, c))
  {
  }

  /** A pair's price and rate inputs, and the percentage they give. */
  lemma QuotedFrom(s: Store, a: Exchange, b: Exchange, symbol: string)
    requires Positive(s) && QuoteOf(s, SpreadKey(Pair(a, b), symbol)).Some?
    ensures Key(a, symbol) in s.prices && Key(b, symbol) in s.prices
    ensures PriceAt(s, a, symbol) > 0.0 && PriceAt(s, b, symbol) > 0.0 && RateFor(s, Pair(a, b)) > 0.0
    ensures QuoteOf(s, SpreadKey(Pair(a, b), symbol)).value.pct == SpreadPct(PriceAt(s, a, symbol), PriceAt(s, b, symbol), RateFor(s, Pair(a, b)))
  {
    QuotedWhenReady(s, Pair(a, b), symbol);
  }

  lemma QuotedThrough(s: Store, a: Exchange, b: Exchange, c: Exchange, symbol: string)
    requires Listed(Pair(a, b)) && Listed(Pair(b, c)) && Listed(Pair(a, c)) && Positive(s)
    requires QuoteOf(s, SpreadKey(Pair(a, b), symbol)).Some? && QuoteOf(s, SpreadKey(Pair(b, c), symbol)).Some?
    ensures QuoteOf(s, SpreadKey(Pair(a, c), symbol)).Some?
  {
    QuotedWhenReady(s, Pair(a, b), symbol);
    QuotedWhenReady(s, Pair(b, c), symbol);
    QuotedWhenReady(s, Pair(a, c), symbol);
    RatesChain(s, a, b, c);
  }

  /** Cached percentages are consistent across exchanges: for three exchanges whose pairs are all quoted
      from one store, the direct spread and the one through the middle exchange agree up to rounding. */
  lemma QuotesCompose(s: Store, a: Exchange, b: Exchange, c: Exchange, symbol: string)
    requires Listed(Pair(a, b)) && Listed(Pair(b, c)) && Listed(Pair(a, c)) && Positive(s)
    requires QuoteOf(s, SpreadKey(Pair(a, b), symbol)).Some? && QuoteOf(s, SpreadKey(Pair(b, c), symbol)).Some?
    ensures QuoteOf(s, SpreadKey(Pair(a, c), symbol)).Some?
    ensures var ab := QuoteOf(s, SpreadKey(Pair(a, b), symbol)).value.pct;
            var bc := QuoteOf(s, SpreadKey(Pair(b, c), symbol)).value.pct;
            var ac := QuoteOf(s, SpreadKey(Pair(a, c), symbol)).value.pct;
            ChainsWithin(FromPct(ac), FromPct(ab), FromPct(bc))
  {
    QuotedThrough(s, a, b, c, symbol);
    QuotedFrom(s, a, b, symbol);
    QuotedFrom(s, b, c, symbol);
    QuotedFrom(s, a, c, symbol);
    RatesChain(s, a, b, c);
    SpreadsComposeAt(PriceAt(s, a, symbol), PriceAt(s, b, symbol), PriceAt(s, c, symbol),
                     RateFor(s, Pair(a, b)), RateFor(s, Pair(b, c)), RateFor(s, Pair(a, c)));
  }
}
