/** The browser's store in the form the program keeps it: records replaced in place, price and spread
    updates sharing one table of append times. */
module ChartStore {
  import opened Options
  import opened StoreKeys
  import opened PriceHistory
  import opened MinGap
  import KeyedGate

  datatype PriceEntry = PriceEntry(exchange: string, symbol: string, price: real, timestampMs: int)

  datatype SpreadEntry = SpreadEntry(exchangeA: string, exchangeB: string, symbol: string, pct: int, timestampMs: int)

  datatype FxRate = FxRate(rate: real, source: string, stale: bool, lastUpdateMs: int)

  datatype ExchangeStatus = ExchangeStatus(state: string, latencyMs: Option<int>, lastMessageMs: Option<int>, stale: bool)

  function KeyOfPrice(e: PriceEntry): string {
    PriceKey(e.exchange, e.symbol)
  }

  function KeyOfSpread(e: SpreadEntry): string {
    SpreadKey(e.exchangeA, e.exchangeB, e.symbol)
  }

  function Keyed<T>(entries: seq<T>, keyOf: T -> string): (r: seq<(string, T)>)
    ensures |r| == |entries| && forall i :: 0 <= i < |r| ==> r[i] == (keyOf(entries[i]), entries[i])
  {
    seq(|entries|, i requires 0 <= i < |entries| => (keyOf(entries[i]), entries[i]))
  }

  /** The rows of the requests that succeeded, in request order. */
  function Fulfilled<T>(results: seq<Option<seq<T>>>): seq<T> {
    if results == [] then []
    else
      var before := Fulfilled(results[..|results| - 1]);
      if results[|results| - 1].Some? then before + results[|results| - 1].value else before
  }

  /** A failed answer contributes nothing and the others keep their rows and their order. */
  lemma {:induction false} FailedAnswersAreSkipped<T>(before: seq<Option<seq<T>>>, after: seq<Option<seq<T>>>, rows: seq<T>)
    ensures Fulfilled(before + after) == Fulfilled(before) + Fulfilled(after)
    ensures Fulfilled<T>([None]) == [] && Fulfilled([Some(rows)]) == rows
  {
    var one: seq<Option<seq<T>>> := [None];
    var some: seq<Option<seq<T>>> := [Some(rows)];
    assert one[..0] == [] && some[..0] == [];
    if after == [] {
      assert before + after == before;
    } else {
      var n := |after| - 1;
      FailedAnswersAreSkipped(before, after[..n], rows);
      assert (before + after)[..|before| + n] == before + after[..n];
    }
  }

  /** The rows of a key are those filed under it, in order. */
  lemma {:induction false} RowsOfKey<T>(before: seq<(string, T)>, after: seq<(string, T)>, key: string, entry: T)
    ensures RowsOf(before + after, key) == RowsOf(before, key) + RowsOf(after, key)
    ensures RowsOf([(key, entry)], key) == [entry]
    ensures forall other :: other != key ==> RowsOf([(other, entry)], key) == []
  {
    assert [(key, entry)][..0] == [];
    forall other | other != key ensures RowsOf([(other, entry)], key) == [] {
      assert [(other, entry)][..0] == [];
    }
    if after == [] {
      assert before + after == before;
    } else {
      var n := |after| - 1;
      RowsOfKey(before, after[..n], key, entry);
      assert (before + after)[..|before| + n] == before + after[..n];
    }
  }

  lemma KeysSnoc<T>(rows: seq<(string, T)>, key: string, entry: T)
    ensures KeysOf(rows + [(key, entry)]) == KeysOf(rows) + {key}
  {
    var longer := rows + [(key, entry)];
    assert longer[|rows|].0 == key;
    forall k | k in KeysOf(rows) ensures k in KeysOf(longer) {
      var i :| 0 <= i < |rows| && rows[i].0 == k;
      assert longer[i].0 == k;
    }
  }

  lemma RowsSnoc<T>(rows: seq<(string, T)>, key: string, entry: T, k: string)
    ensures RowsOf(rows + [(key, entry)], k) == if k == key then RowsOf(rows, k) + [entry] else RowsOf(rows, k)
  {
    assert (rows + [(key, entry)])[..|rows|] == rows;
  }

  lemma BufferIsCappedRows<T>(rows: seq<(string, T)>, key: string)
    ensures HistoryOf(Grouped(rows), key) == Take(RowsOf(rows, key), HISTORY_SIZE)
  {
    if key !in KeysOf(rows) {
      NoRowsOutside(rows, key);
    }
  }

  lemma TakeSnoc<T>(s: seq<T>, x: T)
    ensures Take(s + [x], HISTORY_SIZE)
            == if |Take(s, HISTORY_SIZE)| < HISTORY_SIZE then Take(s, HISTORY_SIZE) + [x] else Take(s, HISTORY_SIZE)
  {
    if |s| >= HISTORY_SIZE {
      assert (s + [x])[..HISTORY_SIZE] == s[..HISTORY_SIZE];
      assert |s| == HISTORY_SIZE ==> s[..HISTORY_SIZE] == s;
    }
  }

  lemma GroupedSnoc<T>(rows: seq<(string, T)>, key: string, entry: T)
    ensures var g := Grouped(rows); var buffer := HistoryOf(g, key);
            Grouped(rows + [(key, entry)]) == g[key := if |buffer| < HISTORY_SIZE then buffer + [entry] else buffer]
  {
    KeysSnoc(rows, key, entry);
    BufferIsCappedRows(rows, key);
    RowsSnoc(rows, key, entry, key);
    TakeSnoc(RowsOf(rows, key), entry);
    forall k | k in KeysOf(rows) && k != key ensures Grouped(rows + [(key, entry)])[k] == Grouped(rows)[k] {
      RowsSnoc(rows, key, entry, k);
    }
  }

  lemma {:induction false} NoRowsOutside<T>(rows: seq<(string, T)>, key: string)
    requires key !in KeysOf(rows)
    ensures RowsOf(rows, key) == []
  {
    if rows != [] {
      assert rows[|rows| - 1].0 in KeysOf(rows);
      forall k | k in KeysOf(rows[..|rows| - 1]) ensures k in KeysOf(rows) {
        var i :| 0 <= i < |rows| - 1 && rows[..|rows| - 1][i].0 == k;
        assert rows[i].0 == k;
      }
      NoRowsOutside(rows[..|rows| - 1], key);
    }
  }

  lemma OneMoreRow<T>(before: seq<T>, rows: seq<T>, i: nat, keyOf: T -> string)
    requires i < |rows|
    ensures var g := Grouped(Keyed(before + rows[..i], keyOf)); var buffer := HistoryOf(g, keyOf(rows[i]));
            Grouped(Keyed(before + rows[..i + 1], keyOf))
            == g[keyOf(rows[i]) := if |buffer| < HISTORY_SIZE then buffer + [rows[i]] else buffer]
  {
    var sofar := before + rows[..i];
    assert before + rows[..i + 1] == sofar + [rows[i]];
    assert Keyed(sofar + [rows[i]], keyOf) == Keyed(sofar, keyOf) + [(keyOf(rows[i]), rows[i])];
    GroupedSnoc(Keyed(sofar, keyOf), keyOf(rows[i]), rows[i]);
  }

  /** One answer's rows pushed into the capped buffers. */
  method PushRows<T>(buffers: map<string, seq<T>>, rows: seq<T>, keyOf: T -> string, ghost before: seq<T>)
    returns (grouped: map<string, seq<T>>)
    requires buffers == Grouped(Keyed(before, keyOf))
    ensures grouped == Grouped(Keyed(before + rows, keyOf))
  {
    grouped := buffers;
    assert before + rows[..0] == before;
    for i := 0 to |rows|
      invariant grouped == Grouped(Keyed(before + rows[..i], keyOf))
    {
      var key := keyOf(rows[i]);
      OneMoreRow(before, rows, i, keyOf);
      var buffer := if key in grouped then grouped[key] else [];
      if |buffer| < HISTORY_SIZE {
        buffer := buffer + [rows[i]];
      }
      grouped := grouped[key := buffer];
    }
    assert rows[..|rows|] == rows;
  }

  /** Buffers from the answers of several requests, failed requests skipped. */
  method GroupRows<T>(results: seq<Option<seq<T>>>, keyOf: T -> string) returns (grouped: map<string, seq<T>>)
    ensures grouped == Grouped(Keyed(Fulfilled(results), keyOf))
  {
    grouped := map[];
    for i := 0 to |results|
      invariant grouped == Grouped(Keyed(Fulfilled(results[..i]), keyOf))
    {
      assert results[..i + 1][..i] == results[..i];
      if results[i].Some? {
        grouped := PushRows(grouped, results[i].value, keyOf, Fulfilled(results[..i]));
      }
    }
    assert results[..|results|] == results;
  }

  class HistoryStore {
    var prices: map<string, PriceEntry>
    var priceHistory: map<string, seq<PriceEntry>>
    var spreads: map<string, SpreadEntry>
    var spreadHistory: map<string, seq<SpreadEntry>>
    var lastHistoryAppend: map<string, int>
    var fxRate: Option<FxRate>
    var exchangeStatuses: map<string, ExchangeStatus>
    var isInitialized: bool

    function PricePanel(): Panel<PriceEntry>
      reads this
    {
      Panel(prices, priceHistory, lastHistoryAppend)
    }

    function SpreadPanel(): Panel<SpreadEntry>
      reads this
    {
      Panel(spreads, spreadHistory, lastHistoryAppend)
    }

    constructor ()
      ensures PricePanel() == Start() && SpreadPanel() == Start()
      ensures fxRate == None && exchangeStatuses == map[] && !isInitialized
    {
      prices, priceHistory, spreads, spreadHistory, lastHistoryAppend := map[], map[], map[], map[], map[];
      fxRate, exchangeStatuses, isInitialized := None, map[], false;
    }

    method ShouldAppendHistory(key: string, now: int) returns (append: bool)
      modifies `lastHistoryAppend
      ensures append == KeyedGate.Open(old(lastHistoryAppend), key, now, HISTORY_THROTTLE_MS)
      ensures lastHistoryAppend == KeyedGate.Step(old(lastHistoryAppend), key, At(now, HISTORY_THROTTLE_MS))
    {
      if key !in lastHistoryAppend || now - lastHistoryAppend[key] >= HISTORY_THROTTLE_MS {
        lastHistoryAppend := lastHistoryAppend[key := now];
        return true;
      }
      return false;
    }

    method SetPrice(entry: PriceEntry, now: int)
      modifies this
      ensures PricePanel() == Step(old(PricePanel()), Own(KeyOfPrice(entry), entry, now))
      ensures SpreadPanel() == Step(old(SpreadPanel()), Foreign(KeyOfPrice(entry), now))
      ensures fxRate == old(fxRate) && exchangeStatuses == old(exchangeStatuses) && isInitialized == old(isInitialized)
    {
      var key := KeyOfPrice(entry);
      var append := ShouldAppendHistory(key, now);
      prices := prices[key := entry];
      if append {
        priceHistory := priceHistory[key := Append(BufferOf(priceHistory, key), entry)];
      }
    }

    method SetSpread(entry: SpreadEntry, now: int)
      modifies this
      ensures SpreadPanel() == Step(old(SpreadPanel()), Own(KeyOfSpread(entry), entry, now))
      ensures PricePanel() == Step(old(PricePanel()), Foreign(KeyOfSpread(entry), now))
      ensures fxRate == old(fxRate) && exchangeStatuses == old(exchangeStatuses) && isInitialized == old(isInitialized)
    {
      var key := KeyOfSpread(entry);
      var append := ShouldAppendHistory(key, now);
      spreads := spreads[key := entry];
      if append {
        spreadHistory := spreadHistory[key := Append(BufferOf(spreadHistory, key), entry)];
      }
    }

    method SetFxRate(rate: FxRate)
      modifies `fxRate
      ensures fxRate == Some(rate)
    {
      fxRate := Some(rate);
    }

    method SetExchangeStatus(exchange: string, status: ExchangeStatus)
      modifies `exchangeStatuses
      ensures exchangeStatuses == old(exchangeStatuses)[exchange := status]
    {
      exchangeStatuses := exchangeStatuses[exchange := status];
    }

    method ApplySnapshot(newPrices: seq<PriceEntry>, newSpreads: seq<SpreadEntry>, newRate: Option<FxRate>)
      modifies this
      ensures PricePanel() == Step(old(PricePanel()), Snap(Keyed(newPrices, KeyOfPrice)))
      ensures SpreadPanel() == Step(old(SpreadPanel()), Snap(Keyed(newSpreads, KeyOfSpread)))
      ensures fxRate == newRate && exchangeStatuses == old(exchangeStatuses) && isInitialized
    {
      prices := FromEntries(Keyed(newPrices, KeyOfPrice));
      spreads := FromEntries(Keyed(newSpreads, KeyOfSpread));
      fxRate := newRate;
      isInitialized := true;
    }

    /** The merge of the stored history after a snapshot. */
    method SeedHistory(priceResults: seq<Option<seq<PriceEntry>>>, spreadResults: seq<Option<seq<SpreadEntry>>>)
      modifies this
      ensures PricePanel() == Step(old(PricePanel()), Seed(Keyed(Fulfilled(priceResults), KeyOfPrice)))
      ensures SpreadPanel() == Step(old(SpreadPanel()), Seed(Keyed(Fulfilled(spreadResults), KeyOfSpread)))
      ensures fxRate == old(fxRate) && exchangeStatuses == old(exchangeStatuses) && isInitialized == old(isInitialized)
    {
      var fetchedPrices := GroupRows(priceResults, KeyOfPrice);
      var fetchedSpreads := GroupRows(spreadResults, KeyOfSpread);
      priceHistory := priceHistory + fetchedPrices;
      spreadHistory := spreadHistory + fetchedSpreads;
    }

    method ResetAll()
      modifies this
      ensures PricePanel() == Step(old(PricePanel()), Reset) && SpreadPanel() == Step(old(SpreadPanel()), Reset)
      ensures fxRate == None && exchangeStatuses == map[] && !isInitialized
    {
      lastHistoryAppend := map[];
      prices, priceHistory, spreads, spreadHistory := map[], map[], map[], map[];
      fxRate, exchangeStatuses, isInitialized := None, map[], false;
    }
  }

  /** Everything that changes the two panels of the store. */
  datatype Update =
    | PriceUpdate(price: PriceEntry, now: int)
    | SpreadUpdate(spread: SpreadEntry, now: int)
    | Snapshot(prices: seq<PriceEntry>, spreads: seq<SpreadEntry>)
    | Seeding(priceResults: seq<Option<seq<PriceEntry>>>, spreadResults: seq<Option<seq<SpreadEntry>>>)
    | Cleared

  function PriceView(u: Update): Event<PriceEntry> {
    match u
    case PriceUpdate(price, now) => Own(KeyOfPrice(price), price, now)
    case SpreadUpdate(spread, now) => Foreign(KeyOfSpread(spread), now)
    case Snapshot(prices, _) => Snap(Keyed(prices, KeyOfPrice))
    case Seeding(results, _) => Seed(Keyed(Fulfilled(results), KeyOfPrice))
    case Cleared => Reset
  }

  function SpreadView(u: Update): Event<SpreadEntry> {
    match u
    case PriceUpdate(price, now) => Foreign(KeyOfPrice(price), now)
    case SpreadUpdate(spread, now) => Own(KeyOfSpread(spread), spread, now)
    case Snapshot(_, spreads) => Snap(Keyed(spreads, KeyOfSpread))
    case Seeding(_, results) => Seed(Keyed(Fulfilled(results), KeyOfSpread))
    case Cleared => Reset
  }

  function PriceViews(updates: seq<Update>): (r: seq<Event<PriceEntry>>)
    ensures |r| == |updates| && forall i :: 0 <= i < |r| ==> r[i] == PriceView(updates[i])
  {
    seq(|updates|, i requires 0 <= i < |updates| => PriceView(updates[i]))
  }

  function SpreadViews(updates: seq<Update>): (r: seq<Event<SpreadEntry>>)
    ensures |r| == |updates| && forall i :: 0 <= i < |r| ==> r[i] == SpreadView(updates[i])
  {
    seq(|updates|, i requires 0 <= i < |updates| => SpreadView(updates[i]))
  }

  /** Price symbols hold no colon; exchange names never do. */
  predicate WellNamedAt(u: Update) {
    match u
    case PriceUpdate(price, _) => NoColon(price.exchange) && NoColon(price.symbol)
    case SpreadUpdate(spread, _) => NoColon(spread.exchangeA) && NoColon(spread.exchangeB)
    case _ => true
  }

  predicate WellNamed(updates: seq<Update>) {
    forall i :: 0 <= i < |updates| ==> WellNamedAt(updates[i])
  }

  lemma KeysApart(p: PriceEntry, s: SpreadEntry)
    requires NoColon(p.exchange) && NoColon(p.symbol) && NoColon(s.exchangeA)
    ensures KeyOfPrice(p) != KeyOfSpread(s)
  {
    KeysCollideIff(p.exchange, p.symbol, s.exchangeA, s.exchangeB, s.symbol);
  }

  /** With such names prices and spreads never meet in the throttle table, over any run of updates,
      snapshots, seedings and resets, so the history theorems apply to every price key and every spread
      key. */
  lemma PanelsNeverInterfere(updates: seq<Update>, i: nat)
    requires WellNamed(updates) && i < |updates|
    ensures updates[i].PriceUpdate? ==> Unshared(PriceViews(updates), KeyOfPrice(updates[i].price))
    ensures updates[i].SpreadUpdate? ==> Unshared(SpreadViews(updates), KeyOfSpread(updates[i].spread))
  {
    assert WellNamedAt(updates[i]);
    forall j | 0 <= j < |updates| && updates[i].PriceUpdate? && updates[j].SpreadUpdate?
      ensures KeyOfSpread(updates[j].spread) != KeyOfPrice(updates[i].price)
    {
      assert WellNamedAt(updates[j]);
      KeysApart(updates[i].price, updates[j].spread);
    }
    forall j | 0 <= j < |updates| && updates[i].SpreadUpdate? && updates[j].PriceUpdate?
      ensures KeyOfPrice(updates[j].price) != KeyOfSpread(updates[i].spread)
    {
      assert WellNamedAt(updates[j]);
      KeysApart(updates[j].price, updates[i].spread);
    }
  }

  /** With a colon in a symbol they can: the first spread of a key is then kept out of the chart by a price. */
  lemma ColonInSymbolInterferes(p: PriceEntry, s: SpreadEntry, t: int)
    requires p.exchange == s.exchangeA && p.symbol == s.exchangeB + ":" + s.symbol
    ensures HistoryOf(Run([SpreadView(SpreadUpdate(s, t + 1))]).history, KeyOfSpread(s)) == [s]
    ensures HistoryOf(Run([SpreadView(PriceUpdate(p, t)), SpreadView(SpreadUpdate(s, t + 1))]).history, KeyOfSpread(s)) == []
  {
    SpreadKeyParts(s.exchangeA, s.exchangeB, s.symbol);
    assert KeyOfPrice(p) == KeyOfSpread(s);
    var first, second := SpreadView(PriceUpdate(p, t)), SpreadView(SpreadUpdate(s, t + 1));
    assert Run([]) == Start<SpreadEntry>();
    RunSnoc([], second);
    RunSnoc([], first);
    RunSnoc([first], second);
    assert [] + [second] == [second] && [] + [first] == [first] && [first] + [second] == [first, second];
  }
}
