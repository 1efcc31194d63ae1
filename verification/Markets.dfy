/** Exchanges, the ten monitored pairs, and the price tick every connector produces. */
module Markets {

  datatype Exchange = Bithumb | Upbit | Binance | Bybit | Gate

  datatype Currency = Krw | Usdt

  function CurrencyOf(e: Exchange): Currency {
    match e
    case Bithumb | Upbit => Krw
    case Binance | Bybit | Gate => Usdt
  }

  datatype Pair = Pair(a: Exchange, b: Exchange)

  const KIMCHI_PAIRS: seq<Pair> :=
    [Pair(Bithumb, Binance), Pair(Bithumb, Bybit), Pair(Bithumb, Gate),
     Pair(Upbit, Binance), Pair(Upbit, Bybit), Pair(Upbit, Gate)]

  const SAME_CURRENCY_PAIRS: seq<Pair> :=
    [Pair(Bithumb, Upbit), Pair(Binance, Bybit), Pair(Binance, Gate), Pair(Bybit, Gate)]

  const ALL_PAIRS: seq<Pair> := KIMCHI_PAIRS + SAME_CURRENCY_PAIRS

  predicate IsKimchi(p: Pair) {
    CurrencyOf(p.a) == Krw && CurrencyOf(p.b) == Usdt
  }

  predicate IsSameCurrency(p: Pair) {
    p in [Pair(Bithumb, Upbit), Pair(Binance, Bybit), Pair(Binance, Gate), Pair(Bybit, Gate)]
  }

  predicate Listed(p: Pair) {
    IsKimchi(p) || IsSameCurrency(p)
  }

  /** The tables hold exactly the listed pairs, and every two different exchanges form one listed pair in
      exactly one direction. */
  lemma PairTables(p: Pair)
    ensures p in KIMCHI_PAIRS <==> IsKimchi(p)
    ensures p in SAME_CURRENCY_PAIRS <==> IsSameCurrency(p)
    ensures p in ALL_PAIRS <==> Listed(p)
    ensures IsSameCurrency(p) ==> CurrencyOf(p.a) == CurrencyOf(p.b)
    ensures p.a != p.b <==> (Listed(p) || Listed(Pair(p.b, p.a)))
    ensures !(Listed(p) && Listed(Pair(p.b, p.a)))
  {
    var k := KIMCHI_PAIRS;
    assert k[0] == Pair(Bithumb, Binance) && k[1] == Pair(Bithumb, Bybit) && k[2] == Pair(Bithumb, Gate);
    assert k[3] == Pair(Upbit, Binance) && k[4] == Pair(Upbit, Bybit) && k[5] == Pair(Upbit, Gate);
  }

  datatype Key = Key(exchange: Exchange, symbol: string)

  /** The fields of a tick that the price cache and the spreads depend on. */
  datatype Tick = Tick(exchange: Exchange, symbol: string, price: real, timestampMs: int)

  function KeyOf(t: Tick): Key {
    Key(t.exchange, t.symbol)
  }
}
