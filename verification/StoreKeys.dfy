/** The colon-separated strings under which the browser files prices and spreads in one throttle table. */
module StoreKeys {

  predicate NoColon(name: string) {
    ':' !in name
  }

  function PriceKey(exchange: string, symbol: string): string {
    exchange + ":" + symbol
  }

  function SpreadKey(a: string, b: string, symbol: string): string {
    a + ":" + b + ":" + symbol
  }

  lemma LongerPartHasColon(x: string, rest: string, y: string, others: string)
    requires x + ":" + rest == y + ":" + others && |x| < |y|
    ensures ':' in y
  {
    assert (x + ":" + rest)[|x|] == ':';
    assert (y + ":" + others)[|x|] == y[|x|];
  }

  /** A text splits at its first colon in one way. */
  lemma FirstColon(x: string, rest: string, y: string, others: string)
    requires NoColon(x) && NoColon(y) && x + ":" + rest == y + ":" + others
    ensures x == y && rest == others
  {
    if |x| < |y| {
      LongerPartHasColon(x, rest, y, others);
    } else if |y| < |x| {
      LongerPartHasColon(y, others, x, rest);
    } else {
      var whole := x + ":" + rest;
      assert x == whole[..|x|] && y == whole[..|y|];
      assert rest == whole[|x| + 1..] && others == whole[|y| + 1..];
    }
  }

  lemma SpreadKeyParts(a: string, b: string, symbol: string)
    ensures SpreadKey(a, b, symbol) == PriceKey(a, PriceKey(b, symbol))
  {
    assert a + ":" + b + ":" + symbol == a + ":" + (b + ":" + symbol);
  }

  /** With exchange names free of colons, different prices have different keys. */
  lemma PriceKeysDiffer(x: string, s: string, y: string, t: string)
    requires NoColon(x) && NoColon(y)
    ensures PriceKey(x, s) == PriceKey(y, t) <==> x == y && s == t
  {
    if PriceKey(x, s) == PriceKey(y, t) {
      FirstColon(x, s, y, t);
    }
  }

  /** .. and so do different spreads. */
  lemma SpreadKeysDiffer(a: string, b: string, s: string, c: string, d: string, t: string)
    requires NoColon(a) && NoColon(b) && NoColon(c) && NoColon(d)
    ensures SpreadKey(a, b, s) == SpreadKey(c, d, t) <==> a == c && b == d && s == t
  {
    SpreadKeyParts(a, b, s);
    SpreadKeyParts(c, d, t);
    PriceKeysDiffer(a, PriceKey(b, s), c, PriceKey(d, t));
    PriceKeysDiffer(b, s, d, t);
  }

  /** A price and a spread share a key exactly when the price's symbol is itself written like the rest of
      the spread's key, which takes a colon inside a symbol. */
  lemma KeysCollideIff(x: string, s: string, a: string, b: string, t: string)
    requires NoColon(x) && NoColon(a)
    ensures PriceKey(x, s) == SpreadKey(a, b, t) <==> x == a && s == b + ":" + t
    ensures PriceKey(x, s) == SpreadKey(a, b, t) ==> !NoColon(s)
  {
    SpreadKeyParts(a, b, t);
    PriceKeysDiffer(x, s, a, PriceKey(b, t));
    assert (b + ":" + t)[|b|] == ':';
  }
}
