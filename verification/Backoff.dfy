/** Capped exponential backoff, used by the exchange connectors (1 s doubling up to 60 s) and by the
    browser's reconnect timer (1000 ms doubling up to 30000 ms). */
module Backoff {
  import opened Options

  function Pow2(n: nat): (p: nat)
    ensures p > 0
  {
    if n == 0 then 1 else 2 * Pow2(n - 1)
  }

  function Delay(base: nat, cap: nat, attempt: nat): nat {
    var delay := base * Pow2(attempt);
    if delay < cap then delay else cap
  }

  /** 1.0 * 2 ** n is computed in floating point only for exponents below this; from here on the power no
      longer converts to a float and the multiplication raises. */
  const FLOAT_EXPONENTS := 1024

  /** Seconds the connector sleeps after this many earlier failures. */
  function ConnectorSeconds(attempt: nat): nat {
    Delay(1, 60, attempt)
  }

  /** The delay as the connector computes it, or None when the computation raises. */
  function ConnectorDelay(attempt: nat): Option<nat> {
    if attempt < FLOAT_EXPONENTS then Some(ConnectorSeconds(attempt)) else None
  }

  /** The waits of n successive failures of the connector, or None when one of the delays raises. */
  function ConnectorWaits(n: nat): Option<seq<nat>> {
    if n == 0 then Some([])
    else
      match (ConnectorWaits(n - 1), ConnectorDelay(n - 1))
      case (Some(before), Some(delay)) => Some(before + [delay])
      case _ => None
  }

  /** Milliseconds the browser waits before this reconnect attempt. */
  function BrowserDelay(attempt: nat): nat {
    Delay(1000, 30_000, attempt)
  }

  function Sum(waits: seq<nat>): nat {
    if waits == [] then 0 else Sum(waits[..|waits| - 1]) + waits[|waits| - 1]
  }

  /** The waits of n successive failures, counted from a fresh start. */
  function Waits(delay: nat -> nat, n: nat): (waits: seq<nat>)
    ensures |waits| == n
  {
    if n == 0 then [] else Waits(delay, n - 1) + [delay(n - 1)]
  }

  lemma {:induction false} Pow2Monotone(m: nat, n: nat)
    requires m <= n
    ensures Pow2(m) <= Pow2(n)
  {
    if m < n {
      Pow2Monotone(m, n - 1);
    }
  }

  lemma SumSnoc(waits: seq<nat>, w: nat)
    ensures Sum(waits + [w]) == Sum(waits) + w
  {
    assert (waits + [w])[..|waits|] == waits;
  }

  /** While the delays double from unit, the waits add up to a geometric sum. */
  lemma {:induction false} DoublingWait(delay: nat -> nat, n: nat)
    requires forall k: nat :: k + 1 < n ==> delay(k + 1) == 2 * delay(k)
    ensures n > 0 ==> Sum(Waits(delay, n)) + delay(0) == 2 * delay(n - 1)
  {
    if n > 0 {
      SumSnoc(Waits(delay, n - 1), delay(n - 1));
      if n > 1 {
        DoublingWait(delay, n - 1);
        assert delay(n - 2 + 1) == 2 * delay(n - 2);
      }
    }
  }

  lemma OneMoreWait(delay: nat -> nat, n: nat)
    requires n > 0
    ensures Sum(Waits(delay, n)) == Sum(Waits(delay, n - 1)) + delay(n - 1)
  {
    SumSnoc(Waits(delay, n - 1), delay(n - 1));
  }

  lemma SixDoublings()
    ensures Pow2(0) == 1 && Pow2(1) == 2 && Pow2(2) == 4 && Pow2(3) == 8
    ensures Pow2(4) == 16 && Pow2(5) == 32 && Pow2(6) == 64
  {
    assert Pow2(2) == 4;
    assert Pow2(4) == 16;
    assert Pow2(6) == 64;
  }

  lemma UncappedDelay(n: nat)
    ensures n <= 5 ==> ConnectorSeconds(n) == Pow2(n)
    ensures n > 5 ==> ConnectorSeconds(n) == 60
    ensures n <= 4 ==> BrowserDelay(n) == 1000 * Pow2(n)
    ensures n > 4 ==> BrowserDelay(n) == 30_000
  {
    SixDoublings();
    if n <= 5 { Pow2Monotone(n, 5); } else { Pow2Monotone(6, n); }
    if n <= 4 { Pow2Monotone(n, 4); } else { Pow2Monotone(5, n); }
  }

  lemma {:induction false} ConnectorSum(n: nat)
    ensures n <= 6 ==> Sum(Waits(ConnectorSeconds, n)) == Pow2(n) - 1
    ensures n >= 6 ==> Sum(Waits(ConnectorSeconds, n)) == 63 + 60 * (n - 6)
  {
    SixDoublings();
    if n <= 6 {
      forall k: nat { UncappedDelay(k); }
      DoublingWait(ConnectorSeconds, n);
    } else {
      ConnectorSum(n - 1);
      OneMoreWait(ConnectorSeconds, n);
      UncappedDelay(n - 1);
    }
  }

  lemma {:induction false} ConnectorWaitsAre(n: nat)
    ensures ConnectorWaits(n) == if n <= FLOAT_EXPONENTS then Some(Waits(ConnectorSeconds, n)) else None
  {
    if n > 0 {
      ConnectorWaitsAre(n - 1);
    }
  }

  /** Connector schedule, in seconds: 2^n - 1 for the first six failures, one minute each after that, and it
      exists for exactly the first 1024 failures in a row. */
  lemma ConnectorTotalWait(n: nat)
    ensures ConnectorWaits(n).Some? <==> n <= 1024
    ensures n <= 6 ==> Sum(ConnectorWaits(n).value) == Pow2(n) - 1
    ensures 6 <= n <= 1024 ==> Sum(ConnectorWaits(n).value) == 63 + 60 * (n - 6)
  {
    ConnectorWaitsAre(n);
    ConnectorSum(n);
  }

  /** Browser schedule, in milliseconds: 1, 2, 4, 8 and 16 seconds, then thirty seconds each. */
  lemma {:induction false} BrowserTotalWait(n: nat)
    ensures n <= 5 ==> Sum(Waits(BrowserDelay, n)) == 1000 * (Pow2(n) - 1)
    ensures n >= 5 ==> Sum(Waits(BrowserDelay, n)) == 31_000 + 30_000 * (n - 5)
  {
    SixDoublings();
    if n <= 5 {
      forall k: nat { UncappedDelay(k); }
      DoublingWait(BrowserDelay, n);
    } else {
      BrowserTotalWait(n - 1);
      OneMoreWait(BrowserDelay, n);
      UncappedDelay(n - 1);
    }
  }
}
