/** The consumer that drains the tick queue in batches, and the proof that it does not matter how the
    stream is cut into batches. */
module Consumer {
  import opened Options
  import opened Markets
  import opened SpreadMath
  import opened PriceStore
  import opened SpreadCalculator

  /** The price cache and the spread cache between two batches. */
  datatype Pipeline = Pipeline(store: Store, quotes: map<SpreadKey, Quote>)

  const START := Pipeline(EMPTY, map[])

  /** All keys recomputed for a batch. */
  function Touched(batch: seq<Tick>): set<SpreadKey> {
    if batch == [] then {} else Touched(batch[..|batch| - 1]) + Affected(batch[|batch| - 1])
  }

  function Refresh(q: map<SpreadKey, Quote>, s: Store, wanted: set<SpreadKey>): (r: map<SpreadKey, Quote>)
    ensures Refreshed(r, q, s, wanted)
  {
    map k | k in q.Keys + wanted && (k in q || QuoteOf(s, k).Some?) ::
      if k in wanted && QuoteOf(s, k).Some? then QuoteOf(s, k).value else q[k]
  }

  /** One batch: write every tick, then recompute everything the batch touched from the final store. */
  function Consume(p: Pipeline, batch: seq<Tick>): Pipeline {
    var s := ApplyAll(p.store, batch);
    Pipeline(s, Refresh(p.quotes, s, Touched(batch)))
  }

  function ConsumeAll(p: Pipeline, batches: seq<seq<Tick>>): Pipeline {
    if batches == [] then p else Consume(ConsumeAll(p, batches[..|batches| - 1]), batches[|batches| - 1])
  }

  /** One tick at a time. */
  function ConsumeEach(p: Pipeline, ticks: seq<Tick>): Pipeline {
    if ticks == [] then p else Consume(ConsumeEach(p, ticks[..|ticks| - 1]), [ticks[|ticks| - 1]])
  }

  function Concat(batches: seq<seq<Tick>>): seq<Tick> {
    if batches == [] then [] else Concat(batches[..|batches| - 1]) + batches[|batches| - 1]
  }

  lemma RefreshTwice(q: map<SpreadKey, Quote>, s: Store, first: set<SpreadKey>, second: set<SpreadKey>)
    ensures Refresh(Refresh(q, s, first), s, second) == Refresh(q, s, first + second)
  {
    forall k: SpreadKey ensures RefreshedAt(Refresh(Refresh(q, s, first), s, second), q, s, first + second, k) {
      assert RefreshedAt(Refresh(q, s, first), q, s, first, k);
      assert RefreshedAt(Refresh(Refresh(q, s, first), s, second), Refresh(q, s, first), s, second, k);
    }
    RefreshedUnique(Refresh(Refresh(q, s, first), s, second), Refresh(q, s, first + second), q, s, first + second);
  }

  class PriceConsumer {
    const store: LatestPrices
    const calculator: Calculator

    /** The ticks the registered callbacks were run with, in order. */
    var handed: seq<Tick>

    constructor (store: LatestPrices, calculator: Calculator)
      requires calculator.store == store
      ensures this.store == store && this.calculator == calculator && handed == []
    {
      this.store := store;
      this.calculator := calculator;
      handed := [];
    }

    ghost predicate Valid() {
      calculator.store == store
    }

    ghost function View(): Pipeline
      reads store, calculator
    {
      Pipeline(store.View(), Quotes(calculator.latest))
    }

    /** One turn of the consumer loop.  The queue is what is available when the turn starts; clock(i)(j) is
        the j-th clock reading of the i-th callback. */
    method ConsumeBatch(queue: seq<Tick>, clock: nat -> nat -> int) returns (batch: seq<Tick>)
      requires Valid() && queue != []
      modifies `handed, store, calculator
      ensures batch == queue
      ensures View() == Consume(old(View()), queue)
      ensures handed == old(handed) + Handed(queue)
    {
      batch := Drain(queue);
      var order, latest := WriteAll(batch);
      LatestKeys(batch);
      TouchedByLatest(batch, order);
      RunCallbacks(order, latest, clock);
    }

    /** One callback per key, with its latest tick. */
    method RunCallbacks(order: seq<Key>, latest: map<Key, Tick>, clock: nat -> nat -> int)
      requires Valid() && forall i :: 0 <= i < |order| ==> order[i] in latest && KeyOf(latest[order[i]]) == order[i]
      modifies `handed, calculator
      ensures Quotes(calculator.latest) == Refresh(old(Quotes(calculator.latest)), store.View(), TouchedKeys(order))
      ensures handed == old(handed) + TicksFor(order, latest)
    {
      ghost var q, s := Quotes(calculator.latest), store.View();
      assert Refresh(q, s, {}) == q;
      for i := 0 to |order|
        invariant Quotes(calculator.latest) == Refresh(q, s, TouchedKeys(order[..i]))
        invariant handed == old(handed) + TicksFor(order[..i], latest)
      {
        ghost var before := Quotes(calculator.latest);
        var t := latest[order[i]];
        calculator.OnTick(t, clock(i));
        handed := handed + [t];
        OneMoreCallback(q, before, Quotes(calculator.latest), s, order, i, t);
        TicksForSnoc(order, i, latest);
      }
      assert order[..|order|] == order;
    }

    /** get() followed by get_nowait() until the queue is empty. */
    method Drain(queue: seq<Tick>) returns (batch: seq<Tick>)
      requires queue != []
      ensures batch == queue
    {
      var rest := queue[1..];
      batch := [queue[0]];
      while rest != []
        invariant batch + rest == queue
        decreases |rest|
      {
        batch := batch + [rest[0]];
        rest := rest[1..];
      }
    }

    /** Writes the batch and collects the latest tick per key; keys keep the order of first appearance. */
    method WriteAll(batch: seq<Tick>) returns (order: seq<Key>, latest: map<Key, Tick>)
      modifies store
      ensures store.View() == ApplyAll(old(store.View()), batch)
      ensures (order, latest) == Latest(batch)
    {
      order, latest := [], map[];
      for i := 0 to |batch|
        invariant store.View() == ApplyAll(old(store.View()), batch[..i])
        invariant (order, latest) == Latest(batch[..i])
      {
        var t := batch[i];
        store.Update(t);
        if KeyOf(t) !in latest {
          order := order + [KeyOf(t)];
        }
        latest := latest[KeyOf(t) := t];
        assert batch[..i + 1][..i] == batch[..i];
      }
      assert batch[..|batch|] == batch;
    }

    /** The endless loop, over everything it ever drains. */
    method ConsumeLoop(arrivals: seq<seq<Tick>>, clock: nat -> nat -> nat -> int)
      requires Valid() && forall i :: 0 <= i < |arrivals| ==> arrivals[i] != []
      modifies `handed, store, calculator
      ensures View() == ConsumeAll(old(View()), arrivals)
      ensures handed == old(handed) + HandedAll(arrivals)
    {
      ghost var start, first := View(), handed;
      assert first + HandedAll(arrivals[..0]) == first;
      for i := 0 to |arrivals|
        invariant View() == ConsumeAll(start, arrivals[..i])
        invariant handed == first + HandedAll(arrivals[..i])
      {
        ghost var p := View();
        var batch := ConsumeBatch(arrivals[i], clock(i));
        OneMoreBatch(start, p, first, arrivals, i);
      }
      assert arrivals[..|arrivals|] == arrivals;
    }
  }

  /** Exactly the keys of the batch, each once. */
  predicate IsFirstSeenOrder(order: seq<Key>, batch: seq<Tick>) {
    && (forall i, j :: 0 <= i < j < |order| ==> order[i] != order[j])
    && (forall i :: 0 <= i < |batch| ==> KeyOf(batch[i]) in order)
    && (forall k :: k in order ==> exists i :: 0 <= i < |batch| && KeyOf(batch[i]) == k)
  }

  lemma FirstSeenSnoc(order: seq<Key>, batch: seq<Tick>, t: Tick)
    requires IsFirstSeenOrder(order, batch)
    ensures IsFirstSeenOrder(if KeyOf(t) in order then order else order + [KeyOf(t)], batch + [t])
  {
    var more := batch + [t];
    assert more[|batch|] == t;
    forall k | k in order ensures exists i :: 0 <= i < |more| && KeyOf(more[i]) == k {
      var i :| 0 <= i < |batch| && KeyOf(batch[i]) == k;
      assert KeyOf(more[i]) == k;
    }
  }

  /** The i-th tick is the last of its key. */
  predicate LastOfKey(batch: seq<Tick>, i: nat) {
    i < |batch| && forall j :: i < j < |batch| ==> KeyOf(batch[j]) != KeyOf(batch[i])
  }

  /** The i-th tick is the first of its key. */
  predicate FirstOfKey(batch: seq<Tick>, i: nat) {
    i < |batch| && forall j :: 0 <= j < i ==> KeyOf(batch[j]) != KeyOf(batch[i])
  }

  /** The latest tick per key of the batch, with the keys in order of first appearance. */
  ghost predicate Collects(order: seq<Key>, latest: map<Key, Tick>, batch: seq<Tick>) {
    && IsFirstSeenOrder(order, batch)
    && (forall k :: k in latest <==> k in order)
    && (forall k :: k in latest ==> KeyOf(latest[k]) == k)
  }

  /** Each key is filed with its last tick. */
  ghost predicate HoldsLast(latest: map<Key, Tick>, batch: seq<Tick>) {
    forall i: nat :: LastOfKey(batch, i) ==> KeyOf(batch[i]) in latest && latest[KeyOf(batch[i])] == batch[i]
  }

  /** Keys are listed by the position of their first tick. */
  ghost predicate InFirstOrder(order: seq<Key>, batch: seq<Tick>) {
    forall p, q, i: nat, j: nat ::
      0 <= p < q < |order| && FirstOfKey(batch, i) && FirstOfKey(batch, j) && order[p] == KeyOf(batch[i]) && order[q] == KeyOf(batch[j]) ==> i < j
  }

  /** An insertion-ordered dict of the batch: a key keeps its first position and its last tick. */
  function Latest(batch: seq<Tick>): (seq<Key>, map<Key, Tick>) {
    if batch == [] then ([], map[])
    else
      var (order, latest) := Latest(batch[..|batch| - 1]);
      var t := batch[|batch| - 1];
      (if KeyOf(t) in latest then order else order + [KeyOf(t)], latest[KeyOf(t) := t])
  }

  lemma LastSnoc(batch: seq<Tick>, t: Tick, i: nat)
    requires LastOfKey(batch + [t], i)
    ensures i == |batch| || (LastOfKey(batch, i) && KeyOf(batch[i]) != KeyOf(t))
  {
    var more := batch + [t];
    if i < |batch| {
      assert KeyOf(more[|batch|]) != KeyOf(more[i]);
      forall j | i < j < |batch| ensures KeyOf(batch[j]) != KeyOf(batch[i]) {
        assert KeyOf(more[j]) != KeyOf(more[i]);
      }
    }
  }

  lemma FirstSnoc(batch: seq<Tick>, t: Tick, i: nat)
    requires i <= |batch|
    ensures FirstOfKey(batch + [t], i) <==> if i < |batch| then FirstOfKey(batch, i) else forall j :: 0 <= j < |batch| ==> KeyOf(batch[j]) != KeyOf(t)
  {
    var more := batch + [t];
    forall j | 0 <= j < |batch| ensures more[j] == batch[j] {
    }
  }

  lemma InFirstOrderSnoc(order: seq<Key>, batch: seq<Tick>, t: Tick)
    requires IsFirstSeenOrder(order, batch) && InFirstOrder(order, batch)
    ensures InFirstOrder(if KeyOf(t) in order then order else order + [KeyOf(t)], batch + [t])
  {
    var next, more := if KeyOf(t) in order then order else order + [KeyOf(t)], batch + [t];
    forall p, q, i: nat, j: nat |
      0 <= p < q < |next| && FirstOfKey(more, i) && FirstOfKey(more, j) && next[p] == KeyOf(more[i]) && next[q] == KeyOf(more[j])
      ensures i < j
    {
      FirstSnoc(batch, t, i);
      FirstSnoc(batch, t, j);
      Occurs(order, batch, next[p]);
      assert i < |batch| && FirstOfKey(batch, i);
      if j < |batch| {
        assert KeyOf(batch[j]) in order;
        assert q < |order|;
      }
    }
  }

  lemma Occurs(order: seq<Key>, batch: seq<Tick>, k: Key)
    requires IsFirstSeenOrder(order, batch) && k in order
    ensures exists x :: 0 <= x < |batch| && KeyOf(batch[x]) == k
  {
  }

  lemma {:induction false} LatestKeys(batch: seq<Tick>)
    ensures Collects(Latest(batch).0, Latest(batch).1, batch)
  {
    if batch != [] {
      var n := |batch| - 1;
      LatestKeys(batch[..n]);
      FirstSeenSnoc(Latest(batch[..n]).0, batch[..n], batch[n]);
      assert batch == batch[..n] + [batch[n]];
    }
  }

  lemma {:induction false} LatestHoldsLast(batch: seq<Tick>)
    ensures HoldsLast(Latest(batch).1, batch)
  {
    if batch != [] {
      var n := |batch| - 1;
      LatestHoldsLast(batch[..n]);
      assert batch == batch[..n] + [batch[n]];
      HoldsLastSnoc(Latest(batch[..n]).1, batch[..n], batch[n]);
    }
  }

  lemma HoldsLastSnoc(latest: map<Key, Tick>, batch: seq<Tick>, t: Tick)
    requires HoldsLast(latest, batch)
    ensures HoldsLast(latest[KeyOf(t) := t], batch + [t])
  {
    var next, more := latest[KeyOf(t) := t], batch + [t];
    forall i: nat | LastOfKey(more, i) ensures KeyOf(more[i]) in next && next[KeyOf(more[i])] == more[i] {
      LastSnoc(batch, t, i);
    }
  }

  lemma {:induction false} LatestInFirstOrder(batch: seq<Tick>)
    ensures InFirstOrder(Latest(batch).0, batch)
  {
    if batch != [] {
      var n := |batch| - 1;
      LatestInFirstOrder(batch[..n]);
      NextInFirstOrder(batch[..n], batch[n]);
      assert batch == batch[..n] + [batch[n]];
    }
  }

  lemma NextInFirstOrder(batch: seq<Tick>, t: Tick)
    requires InFirstOrder(Latest(batch).0, batch)
    ensures InFirstOrder(Latest(batch + [t]).0, batch + [t])
  {
    LatestKeys(batch);
    InFirstOrderSnoc(Latest(batch).0, batch, t);
    OrderSnoc(batch, t);
  }

  lemma OrderSnoc(batch: seq<Tick>, t: Tick)
    ensures Latest(batch + [t]).0 == if KeyOf(t) in Latest(batch).0 then Latest(batch).0 else Latest(batch).0 + [KeyOf(t)]
  {
    LatestKeys(batch);
    assert (batch + [t])[..|batch|] == batch;
  }

  /** What the consumer collects: exactly the keys of the batch, each once, in the order of their first
      ticks, each with its last tick. */
  lemma LatestCollects(batch: seq<Tick>)
    ensures Collects(Latest(batch).0, Latest(batch).1, batch)
    ensures HoldsLast(Latest(batch).1, batch)
    ensures InFirstOrder(Latest(batch).0, batch)
  {
    LatestKeys(batch);
    LatestHoldsLast(batch);
    LatestInFirstOrder(batch);
  }

  /** The filed ticks, in the order of the keys. */
  function TicksFor(order: seq<Key>, latest: map<Key, Tick>): (r: seq<Tick>)
    requires forall i :: 0 <= i < |order| ==> order[i] in latest
    ensures |r| == |order| && forall i :: 0 <= i < |order| ==> r[i] == latest[order[i]]
  {
    if order == [] then [] else TicksFor(order[..|order| - 1], latest) + [latest[order[|order| - 1]]]
  }

  lemma OneMoreCallback(q: map<SpreadKey, Quote>, before: map<SpreadKey, Quote>, after: map<SpreadKey, Quote>, s: Store, order: seq<Key>, i: nat, t: Tick)
    requires i < |order| && order[i] == KeyOf(t)
    requires before == Refresh(q, s, TouchedKeys(order[..i])) && Refreshed(after, before, s, Affected(t))
    ensures after == Refresh(q, s, TouchedKeys(order[..i + 1]))
  {
    RefreshedUnique(after, Refresh(before, s, Affected(t)), before, s, Affected(t));
    RefreshTwice(q, s, TouchedKeys(order[..i]), Affected(t));
    assert order[..i + 1][..i] == order[..i];
  }

  lemma TicksForSnoc(order: seq<Key>, i: nat, latest: map<Key, Tick>)
    requires i < |order| && forall j :: 0 <= j < |order| ==> order[j] in latest
    ensures TicksFor(order[..i + 1], latest) == TicksFor(order[..i], latest) + [latest[order[i]]]
  {
    assert order[..i + 1][..i] == order[..i];
  }

  /** The ticks the callbacks of one batch are run with. */
  function Handed(batch: seq<Tick>): seq<Tick> {
    LatestKeys(batch);
    TicksFor(Latest(batch).0, Latest(batch).1)
  }

  function HandedAll(batches: seq<seq<Tick>>): seq<Tick> {
    if batches == [] then [] else HandedAll(batches[..|batches| - 1]) + Handed(batches[|batches| - 1])
  }

  lemma OneMoreBatch(start: Pipeline, p: Pipeline, first: seq<Tick>, arrivals: seq<seq<Tick>>, i: nat)
    requires i < |arrivals| && p == ConsumeAll(start, arrivals[..i])
    ensures Consume(p, arrivals[i]) == ConsumeAll(start, arrivals[..i + 1])
    ensures first + HandedAll(arrivals[..i]) + Handed(arrivals[i]) == first + HandedAll(arrivals[..i + 1])
  {
    assert arrivals[..i + 1][..i] == arrivals[..i];
    HandedSnoc(arrivals, i);
    AppendMoves(first, HandedAll(arrivals[..i]), Handed(arrivals[i]));
  }

  lemma HandedSnoc(arrivals: seq<seq<Tick>>, i: nat)
    requires i < |arrivals|
    ensures HandedAll(arrivals[..i + 1]) == HandedAll(arrivals[..i]) + Handed(arrivals[i])
  {
    assert arrivals[..i + 1][..i] == arrivals[..i];
  }

  lemma AppendMoves(a: seq<Tick>, b: seq<Tick>, c: seq<Tick>)
    ensures a + b + c == a + (b + c)
  {
  }

  lemma HandedIsFiled(batch: seq<Tick>, p: nat)
    requires p < |Handed(batch)|
    ensures KeyOf(Handed(batch)[p]) in Latest(batch).1 && Handed(batch)[p] == Latest(batch).1[KeyOf(Handed(batch)[p])]
    ensures KeyOf(Handed(batch)[p]) == Latest(batch).0[p]
  {
    LatestKeys(batch);
    assert Latest(batch).0[p] in Latest(batch).0;
  }

  /** The callbacks see every key of the batch exactly once, with its last tick, and no other tick. */
  lemma HandedIsLatest(batch: seq<Tick>)
    ensures forall p, q :: 0 <= p < q < |Handed(batch)| ==> KeyOf(Handed(batch)[p]) != KeyOf(Handed(batch)[q])
    ensures forall i: nat :: i < |batch| ==> (batch[i] in Handed(batch) <== LastOfKey(batch, i))
    ensures forall i: nat, t :: LastOfKey(batch, i) && t in Handed(batch) && KeyOf(t) == KeyOf(batch[i]) ==> t == batch[i]
  {
    LatestCollects(batch);
    forall p | 0 <= p < |Handed(batch)|
      ensures KeyOf(Handed(batch)[p]) == Latest(batch).0[p] && Handed(batch)[p] == Latest(batch).1[KeyOf(Handed(batch)[p])]
    {
      HandedIsFiled(batch, p);
    }
    forall i: nat | LastOfKey(batch, i) ensures batch[i] in Handed(batch) {
      HandsOverLast(batch, i);
    }
  }

  lemma HandsOverLast(batch: seq<Tick>, i: nat)
    requires LastOfKey(batch, i)
    ensures batch[i] in Handed(batch)
  {
    LatestCollects(batch);
    var order := Latest(batch).0;
    assert KeyOf(batch[i]) in order;
    var p :| 0 <= p < |order| && order[p] == KeyOf(batch[i]);
    assert Handed(batch)[p] == batch[i];
  }

  function TouchedKeys(order: seq<Key>): set<SpreadKey> {
    if order == [] then {}
    else TouchedKeys(order[..|order| - 1]) + KeysFor(order[|order| - 1].symbol, Some(order[|order| - 1].exchange))
  }

  lemma {:induction false} TouchedKeysIff(order: seq<Key>, k: SpreadKey)
    ensures k in TouchedKeys(order) <==> exists key :: key in order && k in KeysFor(key.symbol, Some(key.exchange))
  {
    if order != [] {
      TouchedKeysIff(order[..|order| - 1], k);
    }
  }

  predicate TouchedBySome(batch: seq<Tick>, k: SpreadKey) {
    exists i :: 0 <= i < |batch| && k in Affected(batch[i])
  }

  lemma TouchedBySomeSnoc(batch: seq<Tick>, t: Tick, k: SpreadKey)
    ensures TouchedBySome(batch + [t], k) <==> TouchedBySome(batch, k) || k in Affected(t)
  {
    var more := batch + [t];
    assert more[|batch|] == t;
    forall i | 0 <= i < |batch| ensures more[i] == batch[i] { }
  }

  lemma {:induction false} TouchedIff(batch: seq<Tick>, k: SpreadKey)
    ensures k in Touched(batch) <==> TouchedBySome(batch, k)
  {
    if batch != [] {
      var n := |batch| - 1;
      TouchedIff(batch[..n], k);
      assert batch == batch[..n] + [batch[n]];
      TouchedBySomeSnoc(batch[..n], batch[n], k);
    }
  }

  lemma TouchedByLatest(batch: seq<Tick>, order: seq<Key>)
    requires IsFirstSeenOrder(order, batch)
    ensures TouchedKeys(order) == Touched(batch)
  {
    forall k ensures k in TouchedKeys(order) <==> k in Touched(batch) {
      TouchedKeysIff(order, k);
      TouchedIff(batch, k);
      if i :| 0 <= i < |batch| && k in Affected(batch[i]) {
        assert KeyOf(batch[i]) in order;
      }
    }
  }

  /** Anything that changes the pipeline between batches. */
  datatype Event = Batch(ticks: seq<Tick>) | FxFallback(rate: real, source: string, nowMs: int)

  function Step(p: Pipeline, e: Event): Pipeline {
    match e
    case Batch(ticks) => Consume(p, ticks)
    case FxFallback(rate, source, now) => p.(store := ApplyFallback(p.store, rate, source, now))
  }

  function Run(events: seq<Event>): Pipeline {
    if events == [] then START else Step(Run(events[..|events| - 1]), events[|events| - 1])
  }

  predicate AllPositive(ticks: seq<Tick>) {
    forall i :: 0 <= i < |ticks| ==> ticks[i].price > 0.0
  }

  predicate PositiveEvent(e: Event) {
    match e
    case Batch(ticks) => AllPositive(ticks)
    case FxFallback(rate, _, _) => rate > 0.0
  }

  predicate BothPrices(s: Store, k: SpreadKey) {
    Key(k.pair.a, k.symbol) in s.prices && Key(k.pair.b, k.symbol) in s.prices
  }

  /** A cached spread holds the store's current prices, and its percentage is the formula applied to its own
      recorded rate. */
  predicate EntryCoherent(s: Store, k: SpreadKey, q: Quote) {
    && BothPrices(s, k)
    && Listed(k.pair)
    && q.kimchi == IsKimchi(k.pair)
    && q.priceA == PriceAt(s, k.pair.a, k.symbol)
    && q.priceB == PriceAt(s, k.pair.b, k.symbol)
    && q.priceB != 0.0
    && (q.kimchi ==> s.fxRate.Some? && q.fxRate.Some? && q.fxRate.value > 0.0 && q.pct == SpreadPct(q.priceA, q.priceB, q.fxRate.value))
    && (!q.kimchi ==> QuoteOf(s, k) == Some(q))
  }

  /** The spread cache agrees with the price cache. */
  ghost predicate Coherent(p: Pipeline) {
    && Positive(p.store)
    && (forall k :: k in p.quotes ==> EntryCoherent(p.store, k, p.quotes[k]))
    && (forall k: SpreadKey :: IsSameCurrency(k.pair) && BothPrices(p.store, k) ==> k in p.quotes)
  }

  lemma {:induction false} ApplyAllPositive(s: Store, ticks: seq<Tick>)
    requires Positive(s) && AllPositive(ticks)
    ensures Positive(ApplyAll(s, ticks))
  {
    if ticks != [] {
      ApplyAllPositive(s, ticks[..|ticks| - 1]);
    }
  }

  /** A batch leaves the prices of a pair alone unless it touches the pair. */
  lemma {:induction false} UntouchedPricesKept(s: Store, batch: seq<Tick>, k: SpreadKey)
    requires Listed(k.pair) && k !in Touched(batch)
    ensures Get(ApplyAll(s, batch), Key(k.pair.a, k.symbol)) == Get(s, Key(k.pair.a, k.symbol))
    ensures Get(ApplyAll(s, batch), Key(k.pair.b, k.symbol)) == Get(s, Key(k.pair.b, k.symbol))
  {
    if batch != [] {
      UntouchedPricesKept(s, batch[..|batch| - 1], k);
    }
  }

  lemma {:induction false} PricesOnlyAdded(s: Store, batch: seq<Tick>)
    ensures s.prices.Keys <= ApplyAll(s, batch).prices.Keys
    ensures s.fxRate.Some? ==> ApplyAll(s, batch).fxRate.Some?
  {
    if batch != [] {
      PricesOnlyAdded(s, batch[..|batch| - 1]);
    }
  }

  lemma FreshEntryCoherent(s: Store, k: SpreadKey)
    requires Positive(s) && Listed(k.pair) && QuoteOf(s, k).Some?
    ensures EntryCoherent(s, k, QuoteOf(s, k).value)
  {
    PairTables(k.pair);
    QuotedWhenReady(s, k.pair, k.symbol);
  }

  lemma {:induction false} TouchedListed(batch: seq<Tick>, k: SpreadKey)
    requires k in Touched(batch)
    ensures Listed(k.pair)
  {
    if k in Touched(batch[..|batch| - 1]) {
      TouchedListed(batch[..|batch| - 1], k);
    }
  }

  lemma ReadyStaysReady(s: Store, batch: seq<Tick>, k: SpreadKey)
    requires Positive(s) && AllPositive(batch) && QuoteOf(s, k).Some?
    ensures QuoteOf(ApplyAll(s, batch), k).Some?
  {
    ApplyAllPositive(s, batch);
    PricesOnlyAdded(s, batch);
    QuotedWhenReady(s, k.pair, k.symbol);
    QuotedWhenReady(ApplyAll(s, batch), k.pair, k.symbol);
  }

  lemma CoherentEntryIsReady(s: Store, k: SpreadKey, q: Quote)
    requires Positive(s) && EntryCoherent(s, k, q)
    ensures QuoteOf(s, k).Some?
  {
    QuotedWhenReady(s, k.pair, k.symbol);
  }

  lemma ConsumeKeepsEntry(p: Pipeline, batch: seq<Tick>, k: SpreadKey)
    requires Coherent(p) && AllPositive(batch) && k in Consume(p, batch).quotes
    ensures EntryCoherent(Consume(p, batch).store, k, Consume(p, batch).quotes[k])
  {
    var s := ApplyAll(p.store, batch);
    ApplyAllPositive(p.store, batch);
    assert RefreshedAt(Consume(p, batch).quotes, p.quotes, s, Touched(batch), k);
    if k in p.quotes {
      CoherentEntryIsReady(p.store, k, p.quotes[k]);
      ReadyStaysReady(p.store, batch, k);
    }
    if k in Touched(batch) {
      TouchedListed(batch, k);
      FreshEntryCoherent(s, k);
    } else {
      UntouchedPricesKept(p.store, batch, k);
      PricesOnlyAdded(p.store, batch);
    }
  }

  lemma ConsumeKeepsPresence(p: Pipeline, batch: seq<Tick>, k: SpreadKey)
    requires Coherent(p) && AllPositive(batch)
    requires IsSameCurrency(k.pair) && BothPrices(Consume(p, batch).store, k)
    ensures k in Consume(p, batch).quotes
  {
    var s := ApplyAll(p.store, batch);
    ApplyAllPositive(p.store, batch);
    assert RefreshedAt(Consume(p, batch).quotes, p.quotes, s, Touched(batch), k);
    if k in Touched(batch) {
      PairTables(k.pair);
      QuotedWhenReady(s, k.pair, k.symbol);
    } else {
      UntouchedPricesKept(p.store, batch, k);
    }
  }

  lemma ConsumeKeepsCoherent(p: Pipeline, batch: seq<Tick>)
    requires Coherent(p) && AllPositive(batch)
    ensures Coherent(Consume(p, batch))
  {
    ApplyAllPositive(p.store, batch);
    forall k | k in Consume(p, batch).quotes
      ensures EntryCoherent(Consume(p, batch).store, k, Consume(p, batch).quotes[k])
    {
      ConsumeKeepsEntry(p, batch, k);
    }
    forall k: SpreadKey | IsSameCurrency(k.pair) && BothPrices(Consume(p, batch).store, k)
      ensures k in Consume(p, batch).quotes
    {
      ConsumeKeepsPresence(p, batch, k);
    }
  }

  lemma FallbackKeepsCoherent(p: Pipeline, rate: real, source: string, now: int)
    requires Coherent(p) && rate > 0.0
    ensures Coherent(p.(store := ApplyFallback(p.store, rate, source, now)))
  {
    var s := ApplyFallback(p.store, rate, source, now);
    forall k | k in p.quotes ensures EntryCoherent(s, k, p.quotes[k]) {
      assert EntryCoherent(p.store, k, p.quotes[k]);
    }
    forall k: SpreadKey | IsSameCurrency(k.pair) && BothPrices(s, k) ensures k in p.quotes {
      assert BothPrices(p.store, k);
    }
  }

  /** Coherence in every reachable state between batches, with rate fallbacks in between. */
  lemma {:induction false} RunIsCoherent(events: seq<Event>)
    requires forall i :: 0 <= i < |events| ==> PositiveEvent(events[i])
    ensures Coherent(Run(events))
  {
    if events != [] {
      var n := |events| - 1;
      var p := Run(events[..n]);
      RunIsCoherent(events[..n]);
      match events[n]
      case Batch(ticks) => ConsumeKeepsCoherent(p, ticks);
      case FxFallback(rate, source, now) => FallbackKeepsCoherent(p, rate, source, now);
    }
  }

  /** What coherence means for a same-currency pair: cached exactly when both prices are known, and then
      equal to recomputing it from the store. */
  lemma SameCurrencyIsRecomputation(p: Pipeline, k: SpreadKey)
    requires Coherent(p) && IsSameCurrency(k.pair)
    ensures k in p.quotes <==> QuoteOf(p.store, k).Some?
    ensures k in p.quotes ==> QuoteOf(p.store, k) == Some(p.quotes[k])
  {
    PairTables(k.pair);
    QuotedWhenReady(p.store, k.pair, k.symbol);
    if k in p.quotes {
      assert EntryCoherent(p.store, k, p.quotes[k]);
    }
  }

  lemma {:induction false} ConsumeAllStore(p: Pipeline, batches: seq<seq<Tick>>)
    ensures ConsumeAll(p, batches).store == ApplyAll(p.store, Concat(batches))
  {
    if batches != [] {
      var n := |batches| - 1;
      ConsumeAllStore(p, batches[..n]);
      ApplyAllConcat(p.store, Concat(batches[..n]), batches[n]);
    }
  }

  lemma OneTickBatch(s: Store, t: Tick)
    ensures ApplyAll(s, [t]) == Apply(s, t)
    ensures Touched([t]) == Affected(t)
  {
    assert [t][..0] == [];
  }

  lemma {:induction false} ConsumeEachStore(p: Pipeline, ticks: seq<Tick>)
    ensures ConsumeEach(p, ticks).store == ApplyAll(p.store, ticks)
  {
    if ticks != [] {
      var n := |ticks| - 1;
      ConsumeEachStore(p, ticks[..n]);
      OneTickBatch(ConsumeEach(p, ticks[..n]).store, ticks[n]);
    }
  }

  lemma ConsumeEachSnoc(p: Pipeline, ticks: seq<Tick>, t: Tick)
    ensures ConsumeEach(p, ticks + [t]) == Consume(ConsumeEach(p, ticks), [t])
  {
    assert (ticks + [t])[..|ticks|] == ticks;
  }

  lemma {:induction false} ConsumeEachConcat(p: Pipeline, first: seq<Tick>, second: seq<Tick>)
    ensures ConsumeEach(p, first + second) == ConsumeEach(ConsumeEach(p, first), second)
  {
    if second == [] {
      assert first + second == first;
    } else {
      var init, t := second[..|second| - 1], second[|second| - 1];
      assert second == init + [t] && first + second == (first + init) + [t];
      ConsumeEachConcat(p, first, init);
      ConsumeEachSnoc(p, first + init, t);
      ConsumeEachSnoc(ConsumeEach(p, first), init, t);
    }
  }

  lemma {:induction false} ConsumeAllCoherent(batches: seq<seq<Tick>>)
    requires forall i :: 0 <= i < |batches| ==> AllPositive(batches[i])
    ensures Coherent(ConsumeAll(START, batches))
  {
    if batches != [] {
      var n := |batches| - 1;
      ConsumeAllCoherent(batches[..n]);
      ConsumeKeepsCoherent(ConsumeAll(START, batches[..n]), batches[n]);
    }
  }

  lemma {:induction false} ConsumeEachCoherent(p: Pipeline, ticks: seq<Tick>)
    requires Coherent(p) && AllPositive(ticks)
    ensures Coherent(ConsumeEach(p, ticks))
  {
    if ticks != [] {
      var n := |ticks| - 1;
      ConsumeEachCoherent(p, ticks[..n]);
      ConsumeKeepsCoherent(ConsumeEach(p, ticks[..n]), [ticks[n]]);
    }
  }

  /** A spread that appears while the ticks are processed one at a time is touched by them and can be
      computed from the store they leave behind. */
  lemma {:induction false} AppearsOnlyWhenTouched(p: Pipeline, ticks: seq<Tick>, k: SpreadKey)
    requires Coherent(p) && AllPositive(ticks)
    requires k in ConsumeEach(p, ticks).quotes && k !in p.quotes
    ensures k in Touched(ticks) && QuoteOf(ApplyAll(p.store, ticks), k).Some?
  {
    if ticks != [] {
      var n := |ticks| - 1;
      var before := ConsumeEach(p, ticks[..n]);
      ConsumeEachStore(p, ticks[..n]);
      ConsumeEachCoherent(p, ticks[..n]);
      OneTickBatch(before.store, ticks[n]);
      assert RefreshedAt(Consume(before, [ticks[n]]).quotes, before.quotes, Apply(before.store, ticks[n]), Affected(ticks[n]), k);
      if k in before.quotes {
        AppearsOnlyWhenTouched(p, ticks[..n], k);
        ReadyStaysReady(before.store, [ticks[n]], k);
      }
    }
  }

  lemma BatchKeepsPresence(each: Pipeline, batched: Pipeline, batch: seq<Tick>, k: SpreadKey)
    requires Coherent(each) && AllPositive(batch) && each.store == batched.store
    requires k in each.quotes ==> k in batched.quotes
    ensures k in ConsumeEach(each, batch).quotes ==> k in Consume(batched, batch).quotes
  {
    if k in ConsumeEach(each, batch).quotes && k !in each.quotes {
      AppearsOnlyWhenTouched(each, batch, k);
    }
    assert RefreshedAt(Consume(batched, batch).quotes, batched.quotes, ApplyAll(batched.store, batch), Touched(batch), k);
  }

  lemma PresenceStep(before: seq<seq<Tick>>, batch: seq<Tick>, k: SpreadKey)
    requires (forall i :: 0 <= i < |before| ==> AllPositive(before[i])) && AllPositive(batch)
    requires k in ConsumeEach(START, Concat(before)).quotes ==> k in ConsumeAll(START, before).quotes
    ensures k in ConsumeEach(START, Concat(before) + batch).quotes ==> k in Consume(ConsumeAll(START, before), batch).quotes
  {
    var each := ConsumeEach(START, Concat(before));
    ConsumeEachConcat(START, Concat(before), batch);
    ConsumeEachStore(START, Concat(before));
    ConsumeAllStore(START, before);
    ConcatPositive(before);
    ConsumeEachCoherent(START, Concat(before));
    BatchKeepsPresence(each, ConsumeAll(START, before), batch, k);
  }

  /** Every spread present one at a time is present when batched. */
  lemma {:induction false} BatchingKeepsPresence(batches: seq<seq<Tick>>, k: SpreadKey)
    requires forall i :: 0 <= i < |batches| ==> AllPositive(batches[i])
    ensures k in ConsumeEach(START, Concat(batches)).quotes ==> k in ConsumeAll(START, batches).quotes
  {
    if batches != [] {
      BatchingKeepsPresence(batches[..|batches| - 1], k);
      PresenceStep(batches[..|batches| - 1], batches[|batches| - 1], k);
    }
  }

  lemma {:induction false} ConcatPositive(batches: seq<seq<Tick>>)
    requires forall i :: 0 <= i < |batches| ==> AllPositive(batches[i])
    ensures AllPositive(Concat(batches))
  {
    if batches != [] {
      ConcatPositive(batches[..|batches| - 1]);
      assert AllPositive(batches[|batches| - 1]);
    }
  }

  /** Two caches that agree on every same-currency pair. */
  ghost predicate SameCurrencyEqual(a: Pipeline, b: Pipeline) {
    forall k: SpreadKey :: IsSameCurrency(k.pair) ==>
      (k in a.quotes <==> k in b.quotes) && (k in a.quotes ==> a.quotes[k] == b.quotes[k])
  }

  lemma CoherentStatesAgree(a: Pipeline, b: Pipeline)
    requires Coherent(a) && Coherent(b) && a.store == b.store
    ensures SameCurrencyEqual(a, b)
  {
    forall k: SpreadKey | IsSameCurrency(k.pair)
      ensures (k in a.quotes <==> k in b.quotes) && (k in a.quotes ==> a.quotes[k] == b.quotes[k])
    {
      SameCurrencyIsRecomputation(a, k);
      SameCurrencyIsRecomputation(b, k);
    }
  }

  lemma StoresAgree(batches: seq<seq<Tick>>)
    ensures ConsumeAll(START, batches).store == ApplyAll(EMPTY, Concat(batches))
    ensures ConsumeEach(START, Concat(batches)).store == ApplyAll(EMPTY, Concat(batches))
  {
    ConsumeAllStore(START, batches);
    ConsumeEachStore(START, Concat(batches));
  }

  lemma BothCoherent(batches: seq<seq<Tick>>)
    requires forall i :: 0 <= i < |batches| ==> AllPositive(batches[i])
    ensures Coherent(ConsumeAll(START, batches)) && Coherent(ConsumeEach(START, Concat(batches)))
  {
    ConsumeAllCoherent(batches);
    ConcatPositive(batches);
    ConsumeEachCoherent(START, Concat(batches));
  }

  /** Batching refines one-at-a-time processing: however the drains cut the stream, prices and rate end the
      same, every same-currency spread ends the same, and no spread is missing. */
  lemma BatchingRefinesOneAtATime(batches: seq<seq<Tick>>)
    requires forall i :: 0 <= i < |batches| ==> AllPositive(batches[i])
    ensures var batched, each := ConsumeAll(START, batches), ConsumeEach(START, Concat(batches));
            && batched.store == each.store == ApplyAll(EMPTY, Concat(batches))
            && SameCurrencyEqual(batched, each)
            && forall k :: k in each.quotes ==> k in batched.quotes
  {
    StoresAgree(batches);
    BothCoherent(batches);
    CoherentStatesAgree(ConsumeAll(START, batches), ConsumeEach(START, Concat(batches)));
    forall k | k in ConsumeEach(START, Concat(batches)).quotes ensures k in ConsumeAll(START, batches).quotes {
      BatchingKeepsPresence(batches, k);
    }
  }

  /** Any two ways of cutting one stream agree on prices, rate and same-currency spreads. */
  lemma CutsAgree(first: seq<seq<Tick>>, second: seq<seq<Tick>>)
    requires Concat(first) == Concat(second)
    requires forall i :: 0 <= i < |first| ==> AllPositive(first[i])
    requires forall i :: 0 <= i < |second| ==> AllPositive(second[i])
    ensures ConsumeAll(START, first).store == ConsumeAll(START, second).store
    ensures SameCurrencyEqual(ConsumeAll(START, first), ConsumeAll(START, second))
  {
    ConsumeAllStore(START, first);
    ConsumeAllStore(START, second);
    ConsumeAllCoherent(first);
    ConsumeAllCoherent(second);
    CoherentStatesAgree(ConsumeAll(START, first), ConsumeAll(START, second));
  }

  /** For each batch, whether it touches the spread and leaves a store from which it can be computed. */
  function Computations(batches: seq<seq<Tick>>, k: SpreadKey): (r: seq<bool>)
    ensures |r| == |batches|
  {
    if batches == [] then []
    else
      var n := |batches| - 1;
      Computations(batches[..n], k) + [k in Touched(batches[n]) && QuoteOf(ApplyAll(EMPTY, Concat(batches)), k).Some?]
  }

  /** When a spread is present, exactly and without any assumption on prices: some batch touched it and left
      a store from which it could be computed. */
  lemma {:induction false} PresentIff(batches: seq<seq<Tick>>, k: SpreadKey)
    ensures k in ConsumeAll(START, batches).quotes <==> true in Computations(batches, k)
  {
    if batches != [] {
      var n := |batches| - 1;
      PresentIff(batches[..n], k);
      var before := ConsumeAll(START, batches[..n]);
      ConsumeAllStore(START, batches);
      assert RefreshedAt(Consume(before, batches[n]).quotes, before.quotes, ApplyAll(before.store, batches[n]), Touched(batches[n]), k);
    }
  }

  lemma SingleBatch(batch: seq<Tick>)
    ensures Concat([batch]) == batch && ConsumeAll(START, [batch]) == Consume(START, batch)
  {
    var batches := [batch];
    assert batches[..0] == [];
  }

  /** The two prices of a kimchi spread, then the rate. */
  predicate LateRate(k: SpreadKey, a: Tick, b: Tick, rate: Tick) {
    && IsKimchi(k.pair) && KeyOf(a) == Key(k.pair.a, k.symbol) && KeyOf(b) == Key(k.pair.b, k.symbol)
    && !IsFxTick(a) && IsFxTick(rate) && AllPositive([a, b, rate])
  }

  lemma LateRateStores(k: SpreadKey, a: Tick, b: Tick, rate: Tick)
    requires LateRate(k, a, b, rate)
    ensures ApplyAll(EMPTY, [a]) == Apply(EMPTY, a)
    ensures ApplyAll(EMPTY, [a, b]) == Apply(Apply(EMPTY, a), b)
    ensures ApplyAll(EMPTY, [a, b, rate]) == Apply(Apply(Apply(EMPTY, a), b), rate)
  {
    OneTickBatch(EMPTY, a);
    assert [a, b][..1] == [a] && [a, b, rate][..2] == [a, b];
  }

  lemma LateRateIsQuoted(k: SpreadKey, a: Tick, b: Tick, rate: Tick)
    requires LateRate(k, a, b, rate)
    ensures QuoteOf(Apply(Apply(Apply(EMPTY, a), b), rate), k).Some?
  {
    assert [a, b, rate][0] == a && [a, b, rate][1] == b && [a, b, rate][2] == rate;
  }

  lemma LateRateBatched(k: SpreadKey, a: Tick, b: Tick, rate: Tick)
    requires LateRate(k, a, b, rate)
    ensures k in Consume(START, [a, b, rate]).quotes
  {
    var batch := [a, b, rate];
    LateRateStores(k, a, b, rate);
    LateRateIsQuoted(k, a, b, rate);
    assert k in Affected(batch[0]);
    TouchedIff(batch, k);
  }

  lemma NoRateNoKimchi(ticks: seq<Tick>, t: Tick, k: SpreadKey)
    requires k !in ConsumeEach(START, ticks).quotes
    requires (IsKimchi(k.pair) && Apply(ApplyAll(EMPTY, ticks), t).fxRate == None) || k !in Affected(t)
    ensures k !in ConsumeEach(START, ticks + [t]).quotes
  {
    var p := ConsumeEach(START, ticks);
    ConsumeEachStore(START, ticks);
    ConsumeEachSnoc(START, ticks, t);
    OneTickBatch(p.store, t);
    assert RefreshedAt(Consume(p, [t]).quotes, p.quotes, Apply(p.store, t), Affected(t), k);
  }

  lemma LateRateOneAtATime(k: SpreadKey, a: Tick, b: Tick, rate: Tick)
    requires LateRate(k, a, b, rate)
    ensures k !in ConsumeEach(START, [a, b, rate]).quotes
  {
    LateRateStores(k, a, b, rate);
    NoRateNoKimchi([], a, k);
    assert [] + [a] == [a];
    NoRateNoKimchi([a], b, k);
    assert [a] + [b] == [a, b];
    NoRateNoKimchi([a, b], rate, k);
    assert [a, b] + [rate] == [a, b, rate];
  }

  /** Every kimchi spread can be present only when batched: when the rate arrives in the same batch as its
      two prices, but after them. */
  lemma KimchiNeedsBatching(k: SpreadKey, a: Tick, b: Tick, rate: Tick)
    requires LateRate(k, a, b, rate)
    ensures k in ConsumeAll(START, [[a, b, rate]]).quotes
    ensures k !in ConsumeEach(START, Concat([[a, b, rate]])).quotes
  {
    LateRateBatched(k, a, b, rate);
    LateRateOneAtATime(k, a, b, rate);
    SingleBatch([a, b, rate]);
  }

  /** No rate tick is ever stored as a price, in any reachable state. */
  lemma {:induction false} RateIsNeverAPrice(events: seq<Event>)
    ensures Key(Upbit, "USDT") !in Run(events).store.prices
  {
    if events != [] {
      var n := |events| - 1;
      RateIsNeverAPrice(events[..n]);
      if events[n].Batch? {
        BatchStoresNoRate(Run(events[..n]).store, events[n].ticks);
      }
    }
  }

  lemma {:induction false} BatchStoresNoRate(s: Store, batch: seq<Tick>)
    requires Key(Upbit, "USDT") !in s.prices
    ensures Key(Upbit, "USDT") !in ApplyAll(s, batch).prices
  {
    if batch != [] {
      BatchStoresNoRate(s, batch[..|batch| - 1]);
    }
  }

  /** The store after the first i + 1 events. */
  function StoreAfter(events: seq<Event>, i: nat): Store
    requires i < |events|
  {
    Run(events[..i + 1]).store
  }

  predicate TouchedAt(events: seq<Event>, i: nat, k: SpreadKey)
    requires i < |events|
  {
    events[i].Batch? && k in Touched(events[i].ticks)
  }

  predicate LastTouchedAt(events: seq<Event>, i: nat, k: SpreadKey) {
    i < |events| && TouchedAt(events, i, k) && forall j :: i < j < |events| ==> !TouchedAt(events, j, k)
  }

  lemma UntouchedStepKeepsQuote(p: Pipeline, e: Event, k: SpreadKey)
    requires e.Batch? ==> k !in Touched(e.ticks)
    ensures k in Step(p, e).quotes <==> k in p.quotes
    ensures k in p.quotes ==> Step(p, e).quotes[k] == p.quotes[k]
  {
    if e.Batch? {
      assert RefreshedAt(Consume(p, e.ticks).quotes, p.quotes, ApplyAll(p.store, e.ticks), Touched(e.ticks), k);
    }
  }

  lemma {:induction false} NeverTouchedNeverQuoted(events: seq<Event>, k: SpreadKey)
    requires forall j :: 0 <= j < |events| ==> !TouchedAt(events, j, k)
    ensures k !in Run(events).quotes
  {
    if events != [] {
      var n := |events| - 1;
      forall j | 0 <= j < n ensures !TouchedAt(events[..n], j, k) {
        assert !TouchedAt(events, j, k);
      }
      NeverTouchedNeverQuoted(events[..n], k);
      assert !TouchedAt(events, n, k);
      UntouchedStepKeepsQuote(Run(events[..n]), events[n], k);
    }
  }

  /** The batch that touches a key decides its entry. */
  lemma TouchingBatchDecides(p: Pipeline, batch: seq<Tick>, k: SpreadKey)
    requires Coherent(p) && AllPositive(batch) && k in Touched(batch)
    ensures var q := Consume(p, batch);
            (k in q.quotes <==> QuoteOf(q.store, k).Some?) && (k in q.quotes ==> QuoteOf(q.store, k) == Some(q.quotes[k]))
  {
    assert RefreshedAt(Consume(p, batch).quotes, p.quotes, ApplyAll(p.store, batch), Touched(batch), k);
    if k in p.quotes {
      CoherentEntryIsReady(p.store, k, p.quotes[k]);
      ReadyStaysReady(p.store, batch, k);
    }
  }

  /** The cached quote of a key, if it has one. */
  function EntryOf(q: map<SpreadKey, Quote>, k: SpreadKey): Option<Quote> {
    if k in q then Some(q[k]) else None
  }

  /** The entry of a key after the first j events. */
  function EntryAt(events: seq<Event>, k: SpreadKey, j: nat): Option<Quote> {
    if j <= |events| then EntryOf(Run(events[..j]).quotes, k) else None
  }

  lemma UntouchedEventKeepsEntry(events: seq<Event>, k: SpreadKey, j: nat)
    requires j < |events| && !TouchedAt(events, j, k)
    ensures EntryAt(events, k, j + 1) == EntryAt(events, k, j)
  {
    assert events[..j + 1][..j] == events[..j];
    UntouchedStepKeepsQuote(Run(events[..j]), events[j], k);
  }

  lemma {:induction false} EntryConstant(events: seq<Event>, k: SpreadKey, i: nat, n: nat)
    requires i <= n <= |events| && forall j :: i <= j < n ==> !TouchedAt(events, j, k)
    ensures EntryAt(events, k, n) == EntryAt(events, k, i)
  {
    if i < n {
      EntryConstant(events, k, i, n - 1);
      UntouchedEventKeepsEntry(events, k, n - 1);
    }
  }

  lemma EntryAtEnd(events: seq<Event>, k: SpreadKey)
    ensures EntryAt(events, k, |events|) == EntryOf(Run(events).quotes, k)
  {
    assert events[..|events|] == events;
  }

  lemma EntryAfterTouch(events: seq<Event>, i: nat, k: SpreadKey)
    requires forall j :: 0 <= j < |events| ==> PositiveEvent(events[j])
    requires i < |events| && TouchedAt(events, i, k)
    ensures EntryAt(events, k, i + 1) == QuoteOf(StoreAfter(events, i), k)
  {
    var head := events[..i + 1];
    assert head[..i + 1] == head;
    assert head[i] == events[i] && TouchedAt(head, i, k);
    LastEventDecides(head, k);
  }

  lemma LastEventDecides(events: seq<Event>, k: SpreadKey)
    requires events != [] && TouchedAt(events, |events| - 1, k)
    requires forall j :: 0 <= j < |events| ==> PositiveEvent(events[j])
    ensures EntryOf(Run(events).quotes, k) == QuoteOf(StoreAfter(events, |events| - 1), k)
  {
    var n := |events| - 1;
    assert events[..n + 1] == events;
    RunIsCoherent(events[..n]);
    assert PositiveEvent(events[n]);
    TouchingBatchDecides(Run(events[..n]), events[n].ticks, k);
  }

  lemma QuoteRecordsRate(s: Store, k: SpreadKey)
    requires IsKimchi(k.pair) && QuoteOf(s, k).Some?
    ensures QuoteOf(s, k).value.fxRate == s.fxRate && QuoteOf(s, k).value.fxSource == s.fxSource
  {
  }

  lemma EntryFromLastTouch(events: seq<Event>, i: nat, k: SpreadKey)
    requires forall j :: 0 <= j < |events| ==> PositiveEvent(events[j])
    requires LastTouchedAt(events, i, k)
    ensures EntryOf(Run(events).quotes, k) == QuoteOf(StoreAfter(events, i), k)
  {
    EntryAfterTouch(events, i, k);
    EntryConstant(events, k, i + 1, |events|);
    EntryAtEnd(events, k);
  }

  /** Where an entry comes from, over every run with positive prices and rates: it is what could be computed
      from the store left by the last batch that touched it, so a kimchi entry records the rate of that
      store, and not a later one. */
  lemma EntryIsFromLastTouch(events: seq<Event>, i: nat, k: SpreadKey)
    requires forall j :: 0 <= j < |events| ==> PositiveEvent(events[j])
    requires LastTouchedAt(events, i, k)
    ensures EntryOf(Run(events).quotes, k) == QuoteOf(StoreAfter(events, i), k)
    ensures var q := Run(events).quotes;
            k in q && IsKimchi(k.pair) ==> q[k].fxRate == StoreAfter(events, i).fxRate && q[k].fxSource == StoreAfter(events, i).fxSource
  {
    EntryFromLastTouch(events, i, k);
    if k in Run(events).quotes && IsKimchi(k.pair) {
      QuoteRecordsRate(StoreAfter(events, i), k);
    }
  }
}
