/** The in-memory cache of latest prices, with the KRW/USDT rate as a side channel. */
module PriceStore {
  import opened Options
  import opened Markets

  const FX_STALE_MS := 60_000

  /** What the store holds between two suspension points. */
  datatype Store = Store(prices: map<Key, Tick>, fxRate: Option<real>, fxSource: Option<string>, fxTimestampMs: Option<int>)

  const EMPTY := Store(map[], None, None, None)

  /** Upbit's KRW-USDT ticker sets the rate and is not stored as a price. */
  predicate IsFxTick(t: Tick) {
    t.exchange == Upbit && t.symbol == "USDT"
  }

  function Apply(s: Store, t: Tick): Store {
    if IsFxTick(t) then s.(fxRate := Some(t.price), fxSource := Some("upbit"), fxTimestampMs := Some(t.timestampMs))
    else s.(prices := s.prices[KeyOf(t) := t])
  }

  function ApplyFallback(s: Store, rate: real, source: string, nowMs: int): Store {
    s.(fxRate := Some(rate), fxSource := Some(source), fxTimestampMs := Some(nowMs))
  }

  function ApplyAll(s: Store, ticks: seq<Tick>): Store {
    if ticks == [] then s else Apply(ApplyAll(s, ticks[..|ticks| - 1]), ticks[|ticks| - 1])
  }

  function Get(s: Store, k: Key): Option<Tick> {
    if k in s.prices then Some(s.prices[k]) else None
  }

  predicate FxStale(s: Store, nowMs: int) {
    s.fxTimestampMs.None? || nowMs - s.fxTimestampMs.value > FX_STALE_MS
  }

  lemma {:induction false} ApplyAllConcat(s: Store, first: seq<Tick>, second: seq<Tick>)
    ensures ApplyAll(s, first + second) == ApplyAll(ApplyAll(s, first), second)
  {
    if second == [] {
      assert first + second == first;
    } else {
      var n := |second| - 1;
      ApplyAllConcat(s, first, second[..n]);
      assert (first + second)[..|first| + n] == first + second[..n];
    }
  }

  /** Last write wins: after any stream the store holds, for each key, the last tick of that key, and the
      rate of the last rate tick; keys the stream does not mention keep what they had. */
  lemma {:induction false} LastWriteWins(s: Store, ticks: seq<Tick>, i: nat)
    requires i < |ticks|
    requires forall j :: i < j < |ticks| ==> KeyOf(ticks[j]) != KeyOf(ticks[i])
    ensures !(ticks[i].exchange == Upbit && ticks[i].symbol == "USDT") ==> Get(ApplyAll(s, ticks), KeyOf(ticks[i])) == Some(ticks[i])
    ensures ticks[i].exchange == Upbit && ticks[i].symbol == "USDT" ==>
              var t := ApplyAll(s, ticks);
              t.fxRate == Some(ticks[i].price) && t.fxSource == Some("upbit") && t.fxTimestampMs == Some(ticks[i].timestampMs)
  {
    var n := |ticks| - 1;
    if i < n {
      LastWriteWins(s, ticks[..n], i);
    }
  }

  lemma {:induction false} UnmentionedKept(s: Store, ticks: seq<Tick>, k: Key)
    requires forall j :: 0 <= j < |ticks| ==> KeyOf(ticks[j]) != k
    ensures Get(ApplyAll(s, ticks), k) == Get(s, k)
    ensures k == Key(Upbit, "USDT") ==>
              var t := ApplyAll(s, ticks);
              t.fxRate == s.fxRate && t.fxSource == s.fxSource && t.fxTimestampMs == s.fxTimestampMs
  {
    if ticks != [] {
      UnmentionedKept(s, ticks[..|ticks| - 1], k);
    }
  }

  class LatestPrices {
    var prices: map<Key, Tick>
    var fxRate: Option<real>
    var fxSource: Option<string>
    var fxTimestampMs: Option<int>

    ghost function View(): Store
      reads this
    {
      Store(prices, fxRate, fxSource, fxTimestampMs)
    }

    constructor ()
      ensures View() == EMPTY
    {
      prices := map[];
      fxRate, fxSource, fxTimestampMs := None, None, None;
    }

    method Update(tick: Tick)
      modifies this
      ensures View() == Apply(old(View()), tick)
    {
      if tick.exchange == Upbit && tick.symbol == "USDT" {
        fxRate := Some(tick.price);
        fxSource := Some("upbit");
        fxTimestampMs := Some(tick.timestampMs);
        return;
      }
      prices := prices[Key(tick.exchange, tick.symbol) := tick];
    }

    method UpdateFxFallback(rate: real, source: string, nowMs: int)
      modifies this
      ensures View() == ApplyFallback(old(View()), rate, source, nowMs)
      ensures fxRate == Some(rate) && fxSource == Some(source) && fxTimestampMs == Some(nowMs) && prices == old(prices)
    {
      fxRate := Some(rate);
      fxSource := Some(source);
      fxTimestampMs := Some(nowMs);
    }
  }
}
