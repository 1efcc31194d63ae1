/** The browser's side of a connection: sequence-gap detection and the reconnect timer. */
module GapDetector {
  import opened Options
  import opened Backoff

  /** One numbered message after the last number seen (0 before any). */
  predicate Warns(last: nat, n: nat) {
    last > 0 && n > last + 1
  }

  /** The last number seen after a stream; it survives reconnects. */
  function LastSeen(last: nat, numbers: seq<nat>): nat {
    if numbers == [] then last else numbers[|numbers| - 1]
  }

  /** How many warnings a stream of numbers causes. */
  function Warnings(last: nat, numbers: seq<nat>): nat {
    if numbers == [] then 0
    else
      var before := numbers[..|numbers| - 1];
      Warnings(last, before) + if Warns(LastSeen(last, before), numbers[|numbers| - 1]) then 1 else 0
  }

  /** The i-th message of the stream causes a warning. */
  predicate WarnsAt(last: nat, numbers: seq<nat>, i: nat)
    requires i < |numbers|
  {
    Warns(LastSeen(last, numbers[..i]), numbers[i])
  }

  predicate Increasing(numbers: seq<nat>) {
    (forall i :: 0 <= i < |numbers| ==> numbers[i] > 0) && forall i :: 0 < i < |numbers| ==> numbers[i - 1] < numbers[i]
  }

  /** Positions within one connection where a number is missing. */
  function Skips(numbers: seq<nat>): nat {
    if |numbers| < 2 then 0
    else
      var n := |numbers| - 1;
      Skips(numbers[..n]) + if numbers[n] != numbers[n - 1] + 1 then 1 else 0
  }

  /** Within a connection the browser warns exactly where a number is skipped.  The first message of a
      connection is compared with the last number of the connection before it: it warns only when that
      connection got less far. */
  lemma {:induction false} WarnsExactlyAtSkips(last: nat, numbers: seq<nat>)
    requires Increasing(numbers)
    ensures forall i :: 0 < i < |numbers| ==> (WarnsAt(last, numbers, i) <==> numbers[i] != numbers[i - 1] + 1)
    ensures Warnings(last, numbers) == Skips(numbers) + if numbers != [] && 0 < last && last + 1 < numbers[0] then 1 else 0
  {
    forall i | 0 < i < |numbers| ensures WarnsAt(last, numbers, i) <==> numbers[i] != numbers[i - 1] + 1 {
      assert numbers[i - 1] < numbers[i];
    }
    if numbers != [] {
      var n := |numbers| - 1;
      WarnsExactlyAtSkips(last, numbers[..n]);
      if n == 0 {
        assert numbers[..0] == [];
      } else {
        assert numbers[n - 1] < numbers[n];
      }
    }
  }

  function UpTo(n: nat): (r: seq<nat>)
    ensures |r| == n && forall i :: 0 <= i < n ==> r[i] == i + 1
  {
    if n == 0 then [] else UpTo(n - 1) + [n]
  }

  lemma {:induction false} NoSkipsUpTo(n: nat)
    ensures Increasing(UpTo(n)) && Skips(UpTo(n)) == 0
  {
    if n > 0 {
      NoSkipsUpTo(n - 1);
      assert UpTo(n)[..n - 1] == UpTo(n - 1);
    }
  }

  /** A connection that starts at 1 and skips nothing never warns, whatever came before it. */
  lemma CompleteStreamIsQuiet(last: nat, n: nat)
    ensures Warnings(last, UpTo(n)) == 0
  {
    NoSkipsUpTo(n);
    WarnsExactlyAtSkips(last, UpTo(n));
  }

  /** The connections of one browser, one after the other, each received up to some point. */
  function WarningsOverConnections(last: nat, received: seq<seq<nat>>): nat
    decreases |received|
  {
    if received == [] then 0
    else Warnings(last, received[0]) + WarningsOverConnections(LastSeen(last, received[0]), received[1..])
  }

  lemma {:induction false} CompleteConnectionsAreQuiet(last: nat, received: seq<seq<nat>>)
    requires forall i :: 0 <= i < |received| ==> received[i] == UpTo(|received[i]|)
    ensures WarningsOverConnections(last, received) == 0
    decreases |received|
  {
    if received != [] {
      CompleteStreamIsQuiet(last, |received[0]|);
      CompleteConnectionsAreQuiet(LastSeen(last, received[0]), received[1..]);
    }
  }

  class BrowserSocket {
    var lastSeq: nat
    var warnings: nat
    var attempt: nat
    var waits: seq<nat>
    var closed: bool
    var enabled: bool

    /** The waits since the last open follow the schedule from its start. */
    ghost predicate Valid()
      reads this
    {
      attempt <= |waits| && waits[|waits| - attempt..] == Waits(BrowserDelay, attempt)
    }

    /** The time waited since the last open. */
    lemma TotalWait()
      requires Valid()
      ensures attempt <= 5 ==> Sum(waits[|waits| - attempt..]) == 1000 * (Pow2(attempt) - 1)
      ensures attempt >= 5 ==> Sum(waits[|waits| - attempt..]) == 31_000 + 30_000 * (attempt - 5)
    {
      BrowserTotalWait(attempt);
    }

    constructor ()
      ensures lastSeq == 0 && warnings == 0 && attempt == 0 && waits == [] && !closed && enabled && Valid()
    {
      lastSeq, warnings, attempt, waits, closed, enabled := 0, 0, 0, [], false, true;
    }

    /** The gap check of one message; messages without a number are not checked. */
    method OnMessage(number: Option<nat>)
      modifies `lastSeq, `warnings
      ensures number.Some? ==>
                && lastSeq == LastSeen(old(lastSeq), [number.value])
                && warnings == old(warnings) + Warnings(old(lastSeq), [number.value])
      ensures number.None? ==> lastSeq == old(lastSeq) && warnings == old(warnings)
    {
      if number.Some? {
        assert [number.value][..0] == [];
        var expected := lastSeq + 1;
        if lastSeq > 0 && number.value > expected {
          warnings := warnings + 1;
        }
        lastSeq := number.value;
      }
    }

    /** All messages of one connection. */
    method Receive(numbers: seq<nat>)
      modifies `lastSeq, `warnings
      ensures lastSeq == LastSeen(old(lastSeq), numbers)
      ensures warnings == old(warnings) + Warnings(old(lastSeq), numbers)
    {
      for i := 0 to |numbers|
        invariant lastSeq == LastSeen(old(lastSeq), numbers[..i])
        invariant warnings == old(warnings) + Warnings(old(lastSeq), numbers[..i])
      {
        WarningsSnoc(old(lastSeq), numbers[..i], numbers[i]);
        OnMessage(Some(numbers[i]));
        assert numbers[..i + 1] == numbers[..i] + [numbers[i]];
      }
      assert numbers[..|numbers|] == numbers;
    }

    method OnOpen()
      modifies `attempt
      ensures attempt == 0 && Valid()
    {
      attempt := 0;
    }

    /** onclose: schedule the next attempt unless the hook is closed or disabled. */
    method ScheduleReconnect()
      requires Valid()
      modifies `attempt, `waits
      ensures Valid()
      ensures if closed || !enabled then attempt == old(attempt) && waits == old(waits)
              else attempt == old(attempt) + 1 && waits == old(waits) + [BrowserDelay(old(attempt))]
    {
      if !enabled || closed { return; }
      var delay := BrowserDelay(attempt);
      ghost var since := waits[|waits| - attempt..];
      attempt := attempt + 1;
      waits := waits + [delay];
      assert waits[|waits| - attempt..] == since + [delay];
    }
  }

  lemma WarningsSnoc(last: nat, numbers: seq<nat>, n: nat)
    ensures Warnings(last, numbers + [n]) == Warnings(last, numbers) + Warnings(LastSeen(last, numbers), [n])
    ensures LastSeen(last, numbers + [n]) == LastSeen(LastSeen(last, numbers), [n])
  {
    assert (numbers + [n])[..|numbers|] == numbers;
    assert [n][..0] == [];
  }
}
