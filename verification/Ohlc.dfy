/** Candle aggregation of the price chart: ticks in list order are summarised per time bucket. */
module Ohlc {

  datatype Tick = Tick(time: int, value: real, volume: real)

  datatype Candle = Candle(time: int, open: real, high: real, low: real, close: real, volume: real)

  function Max(a: real, b: real): real { if a < b then b else a }

  function Min(a: real, b: real): real { if b < a then b else a }

  /** The multiple of the width, rounded down in units of it, that the time falls to.  At width zero the
      source computes a time that is not a number, the same for every tick; 0 stands for it. */
  function Bucket(time: int, width: int): int
  {
    if width > 0 then time / width * width
    else if width < 0 then (-time) / (-width) * width
    else 0
  }

  function Start(t: Tick, width: int): Candle
  {
    Candle(Bucket(t.time, width), t.value, t.value, t.value, t.value, t.volume)
  }

  function Absorb(c: Candle, t: Tick): Candle {
    Candle(c.time, c.open, Max(c.high, t.value), Min(c.low, t.value), t.value, t.volume)
  }

  /** The bucket table after all ticks. */
  function Buckets(ticks: seq<Tick>, width: int): map<int, Candle>
  {
    if ticks == [] then map[]
    else
      var t := ticks[|ticks| - 1];
      var before := Buckets(ticks[..|ticks| - 1], width);
      var b := Bucket(t.time, width);
      before[b := if b in before then Absorb(before[b], t) else Start(t, width)]
  }

  /** The ticks of one bucket, in list order. */
  function Members(ticks: seq<Tick>, width: int, bucket: int): seq<Tick>
  {
    if ticks == [] then []
    else
      var t := ticks[|ticks| - 1];
      var before := Members(ticks[..|ticks| - 1], width, bucket);
      if Bucket(t.time, width) == bucket then before + [t] else before
  }

  /** The candle opens at the first of these ticks, closes at the last, and its low and high are their
      least and greatest value. */
  predicate Summarises(c: Candle, members: seq<Tick>) {
    && members != []
    && c.open == members[0].value
    && c.close == members[|members| - 1].value
    && c.volume == members[|members| - 1].volume
    && (forall i :: 0 <= i < |members| ==> c.low <= members[i].value <= c.high)
    && (exists i :: 0 <= i < |members| && members[i].value == c.low)
    && (exists i :: 0 <= i < |members| && members[i].value == c.high)
  }

  lemma SummarisesSnoc(c: Candle, members: seq<Tick>, t: Tick)
    requires Summarises(c, members)
    ensures Summarises(Absorb(c, t), members + [t])
  {
    var more := members + [t];
    var lo :| 0 <= lo < |members| && members[lo].value == c.low;
    var hi :| 0 <= hi < |members| && members[hi].value == c.high;
    assert more[lo].value == c.low && more[hi].value == c.high && more[|members|].value == t.value;
  }

  /** A bucket has a candle exactly when it has ticks, and the candle summarises exactly those ticks. */
  lemma {:induction false} CandleSummarisesItsTicks(ticks: seq<Tick>, width: int, bucket: int)
    ensures bucket in Buckets(ticks, width) <==> Members(ticks, width, bucket) != []
    ensures bucket in Buckets(ticks, width) ==>
              && Buckets(ticks, width)[bucket].time == bucket
              && Summarises(Buckets(ticks, width)[bucket], Members(ticks, width, bucket))
  {
    if ticks != [] {
      var n := |ticks| - 1;
      CandleSummarisesItsTicks(ticks[..n], width, bucket);
      var before := Buckets(ticks[..n], width);
      if Bucket(ticks[n].time, width) == bucket {
        if bucket in before {
          SummarisesSnoc(before[bucket], Members(ticks[..n], width, bucket), ticks[n]);
        } else {
          assert Members(ticks, width, bucket)[0] == ticks[n];
        }
      }
    }
  }

  predicate HasCandleAt(chart: seq<Candle>, time: int) {
    exists i :: 0 <= i < |chart| && chart[i].time == time
  }

  /** A chart lists the candles of a table by strictly increasing time, each once. */
  predicate IsChart(chart: seq<Candle>, table: map<int, Candle>) {
    && (forall i, j :: 0 <= i < j < |chart| ==> chart[i].time < chart[j].time)
    && (forall i :: 0 <= i < |chart| ==> chart[i].time in table && table[chart[i].time] == chart[i])
    && (forall b :: b in table ==> HasCandleAt(chart, b))
  }

  method InsertByTime(sorted: seq<Candle>, c: Candle) returns (r: seq<Candle>)
    requires forall i, j :: 0 <= i < j < |sorted| ==> sorted[i].time < sorted[j].time
    requires forall i :: 0 <= i < |sorted| ==> sorted[i].time != c.time
    ensures forall i, j :: 0 <= i < j < |r| ==> r[i].time < r[j].time
    ensures exists at :: 0 <= at <= |sorted| && r == sorted[..at] + [c] + sorted[at..]
  {
    var at := |sorted|;
    while at > 0 && sorted[at - 1].time > c.time
      invariant 0 <= at <= |sorted|
      invariant forall i :: at <= i < |sorted| ==> sorted[i].time > c.time
    {
      at := at - 1;
    }
    r := sorted[..at] + [c] + sorted[at..];
  }

  /** The candles of these buckets, by strictly increasing time. */
  predicate ListsBuckets(chart: seq<Candle>, order: seq<int>, table: map<int, Candle>) {
    && (forall i, j :: 0 <= i < j < |chart| ==> chart[i].time < chart[j].time)
    && (forall c :: c in chart ==> c.time in order && c.time in table && c == table[c.time])
    && (forall k :: 0 <= k < |order| ==> HasCandleAt(chart, order[k]))
  }

  lemma InsertListsOneMore(before: seq<Candle>, order: seq<int>, table: map<int, Candle>, c: Candle, at: nat)
    requires ListsBuckets(before, order, table) && at <= |before|
    requires c.time in table && table[c.time] == c
    requires var r := before[..at] + [c] + before[at..];
             forall i, j :: 0 <= i < j < |r| ==> r[i].time < r[j].time
    ensures ListsBuckets(before[..at] + [c] + before[at..], order + [c.time], table)
  {
    var r := before[..at] + [c] + before[at..];
    assert c in r;
    assert before == before[..at] + before[at..];
    forall k | 0 <= k < |order| ensures HasCandleAt(r, order[k]) {
      var i :| 0 <= i < |before| && before[i].time == order[k];
      assert before[i] in r;
    }
  }

  lemma AllListed(chart: seq<Candle>, order: seq<int>, table: map<int, Candle>)
    requires ListsBuckets(chart, order, table) && forall b :: b in table ==> b in order
    ensures IsChart(chart, table)
  {
    forall i | 0 <= i < |chart| ensures chart[i].time in table && table[chart[i].time] == chart[i] {
      assert chart[i] in chart;
    }
  }

  /** Array.from(values).sort by time.  The values come in the order in which their buckets first
      appeared; the chart does not depend on that order. */
  method SortByTime(order: seq<int>, table: map<int, Candle>) returns (chart: seq<Candle>)
    requires forall i, j :: 0 <= i < j < |order| ==> order[i] != order[j]
    requires forall i :: 0 <= i < |order| ==> order[i] in table && table[order[i]].time == order[i]
    requires forall b :: b in table ==> b in order
    ensures IsChart(chart, table)
  {
    chart := [];
    for n := 0 to |order|
      invariant ListsBuckets(chart, order[..n], table)
    {
      ghost var before := chart;
      var c := table[order[n]];
      chart := InsertByTime(chart, c);
      ghost var at: nat :| at <= |before| && chart == before[..at] + [c] + before[at..];
      InsertListsOneMore(before, order[..n], table, c, at);
      assert order[..n + 1] == order[..n] + [c.time];
    }
    assert order[..|order|] == order;
    AllListed(chart, order, table);
  }

  /** aggregateToOhlc, for any width. */
  method AggregateToOhlc(ticks: seq<Tick>, bucketMs: int) returns (chart: seq<Candle>)
    ensures IsChart(chart, Buckets(ticks, bucketMs / 1000))
  {
    if |ticks| == 0 { return []; }
    var bucketSec := bucketMs / 1000;
    var bucketMap: map<int, Candle> := map[];
    var order: seq<int> := [];
    for i := 0 to |ticks|
      invariant bucketMap == Buckets(ticks[..i], bucketSec)
      invariant forall i, j :: 0 <= i < j < |order| ==> order[i] != order[j]
      invariant forall b :: b in bucketMap <==> b in order
    {
      var tick := ticks[i];
      var bucket := Bucket(tick.time, bucketSec);
      if bucket !in bucketMap {
        bucketMap := bucketMap[bucket := Candle(bucket, tick.value, tick.value, tick.value, tick.value, tick.volume)];
        order := order + [bucket];
      } else {
        var existing := bucketMap[bucket];
        existing := existing.(high := Max(existing.high, tick.value));
        existing := existing.(low := Min(existing.low, tick.value));
        existing := existing.(close := tick.value);
        existing := existing.(volume := tick.volume);
        bucketMap := bucketMap[bucket := existing];
      }
      assert ticks[..i + 1][..i] == ticks[..i];
    }
    assert ticks[..|ticks|] == ticks;
    forall i | 0 <= i < |order| ensures order[i] in bucketMap && bucketMap[order[i]].time == order[i] {
      assert order[i] in order;
      CandleSummarisesItsTicks(ticks, bucketSec, order[i]);
    }
    chart := SortByTime(order, bucketMap);
  }

  lemma BucketHolds(time: int, width: int, start: int)
    requires width > 0
    ensures Bucket(time, width) <= time < Bucket(time, width) + width
    ensures (exists t :: start == Bucket(t, width)) && start <= time < start + width ==> start == Bucket(time, width)
  {
    assert time == time / width * width + time % width;
    if (exists t :: start == Bucket(t, width)) && start <= time < start + width {
      var t :| start == Bucket(t, width);
      SameQuotient(time, width, t / width);
    }
  }

  /** A negative width rounds the other way: its buckets are the mirrored ones. */
  lemma NegativeWidthMirrors(time: int, width: int)
    requires width > 0
    ensures Bucket(time, -width) == -Bucket(-time, width)
    ensures Bucket(time, -width) - width < time <= Bucket(time, -width)
  {
    BucketHolds(-time, width, 0);
    assert Bucket(time, -width) == (-time) / width * (-width);
    MirroredProduct((-time) / width, width);
  }

  lemma MirroredProduct(q: int, width: int)
    ensures q * (-width) == -(q * width)
  {
  }

  lemma ScaleLess(c: int, a: int, b: int)
    requires c > 0 && a <= b
    ensures c * a <= c * b
  {
  }

  lemma SameQuotient(time: int, width: int, q: int)
    requires width > 0 && q * width <= time < q * width + width
    ensures time / width == q
  {
    var p := time / width;
    assert time == width * p + time % width;
    if p > q {
      ScaleLess(width, q + 1, p);
    } else if p < q {
      ScaleLess(width, p + 1, q);
    }
  }

  lemma CandleInItsBucket(ticks: seq<Tick>, width: int, chart: seq<Candle>, i: nat)
    requires width > 0 && IsChart(chart, Buckets(ticks, width)) && i < |chart|
    ensures Summarises(chart[i], Members(ticks, width, chart[i].time))
    ensures exists t :: chart[i].time == Bucket(t, width)
  {
    CandleSummarisesItsTicks(ticks, width, chart[i].time);
    MembersAreInBucket(ticks, width, chart[i].time);
  }

  lemma CandlesApart(ticks: seq<Tick>, width: int, chart: seq<Candle>, i: nat, j: nat)
    requires width > 0 && IsChart(chart, Buckets(ticks, width)) && i < j < |chart|
    ensures chart[i].time + width <= chart[j].time
  {
    CandleInItsBucket(ticks, width, chart, i);
    CandleInItsBucket(ticks, width, chart, j);
    if chart[j].time < chart[i].time + width {
      BucketHolds(chart[j].time, width, chart[i].time);
      BucketHolds(chart[j].time, width, chart[j].time);
    }
  }

  predicate InCandle(t: Tick, c: Candle, width: int) {
    c.time <= t.time < c.time + width
  }

  lemma TickHasCandle(ticks: seq<Tick>, width: int, chart: seq<Candle>, n: nat) returns (i: nat)
    requires width > 0 && IsChart(chart, Buckets(ticks, width)) && n < |ticks|
    ensures i < |chart| && InCandle(ticks[n], chart[i], width)
    ensures forall j :: 0 <= j < |chart| && j != i ==> !InCandle(ticks[n], chart[j], width)
  {
    EveryTickHasBucket(ticks, width, n);
    assert HasCandleAt(chart, Bucket(ticks[n].time, width));
    i :| 0 <= i < |chart| && chart[i].time == Bucket(ticks[n].time, width);
    BucketHolds(ticks[n].time, width, chart[i].time);
    forall j | 0 <= j < |chart| && j != i ensures !InCandle(ticks[n], chart[j], width) {
      if j < i { CandlesApart(ticks, width, chart, j, i); } else { CandlesApart(ticks, width, chart, i, j); }
    }
  }

  /** The chart is a partition: candle intervals do not overlap, every tick lies in exactly one of them,
      and each candle summarises exactly the ticks of its interval in list order. */
  lemma ChartIsPartition(ticks: seq<Tick>, width: int, chart: seq<Candle>)
    requires width > 0 && IsChart(chart, Buckets(ticks, width))
    ensures forall i, j :: 0 <= i < j < |chart| ==> chart[i].time + width <= chart[j].time
    ensures forall n :: 0 <= n < |ticks| ==>
              exists i :: 0 <= i < |chart| && InCandle(ticks[n], chart[i], width)
                && forall j :: 0 <= j < |chart| && j != i ==> !InCandle(ticks[n], chart[j], width)
    ensures forall i :: 0 <= i < |chart| ==> Summarises(chart[i], Members(ticks, width, chart[i].time))
  {
    forall i, j | 0 <= i < j < |chart| ensures chart[i].time + width <= chart[j].time {
      CandlesApart(ticks, width, chart, i, j);
    }
    forall i | 0 <= i < |chart| ensures Summarises(chart[i], Members(ticks, width, chart[i].time)) {
      CandleInItsBucket(ticks, width, chart, i);
    }
    forall n | 0 <= n < |ticks|
      ensures exists i :: 0 <= i < |chart| && InCandle(ticks[n], chart[i], width)
                && forall j :: 0 <= j < |chart| && j != i ==> !InCandle(ticks[n], chart[j], width)
    {
      var i := TickHasCandle(ticks, width, chart, n);
    }
  }

  lemma {:induction false} MembersAreInBucket(ticks: seq<Tick>, width: int, bucket: int)
    requires width > 0
    ensures Members(ticks, width, bucket) != [] ==> exists t :: bucket == Bucket(t, width)
  {
    if ticks != [] {
      MembersAreInBucket(ticks[..|ticks| - 1], width, bucket);
    }
  }

  lemma {:induction false} EveryTickHasBucket(ticks: seq<Tick>, width: int, n: nat)
    requires width > 0 && n < |ticks|
    ensures Bucket(ticks[n].time, width) in Buckets(ticks, width)
  {
    if n < |ticks| - 1 {
      EveryTickHasBucket(ticks[..|ticks| - 1], width, n);
    }
  }

  /** Two charts of one table agree wherever they agree so far, and neither ends first. */
  lemma ChartsAgreeAt(a: seq<Candle>, b: seq<Candle>, table: map<int, Candle>, n: nat)
    requires IsChart(a, table) && IsChart(b, table)
    requires n < |a| && n <= |b| && forall i :: 0 <= i < n ==> a[i] == b[i]
    ensures n < |b| && b[n].time <= a[n].time
  {
    assert a[n].time in table && HasCandleAt(b, a[n].time);
    var j :| 0 <= j < |b| && b[j].time == a[n].time;
    if j < n {
      assert false;
    }
  }

  lemma ChartsEqualAt(a: seq<Candle>, b: seq<Candle>, table: map<int, Candle>, n: nat)
    requires IsChart(a, table) && IsChart(b, table)
    requires n < |a| && n <= |b| && forall i :: 0 <= i < n ==> a[i] == b[i]
    ensures n < |b| && a[n] == b[n]
  {
    ChartsAgreeAt(a, b, table, n);
    ChartsAgreeAt(b, a, table, n);
    assert table[a[n].time] == a[n] && table[b[n].time] == b[n];
  }

  lemma {:induction false} ChartsAgreeUpTo(a: seq<Candle>, b: seq<Candle>, table: map<int, Candle>, n: nat)
    requires IsChart(a, table) && IsChart(b, table) && n <= |a|
    ensures n <= |b| && forall i :: 0 <= i < n ==> a[i] == b[i]
  {
    if n > 0 {
      ChartsAgreeUpTo(a, b, table, n - 1);
      ChartsEqualAt(a, b, table, n - 1);
    }
  }

  /** A table has only one chart. */
  lemma ChartUnique(a: seq<Candle>, b: seq<Candle>, table: map<int, Candle>)
    requires IsChart(a, table) && IsChart(b, table)
    ensures a == b
  {
    ChartsAgreeUpTo(a, b, table, |a|);
    ChartsAgreeUpTo(b, a, table, |b|);
  }

  predicate TimeSorted(ticks: seq<Tick>) {
    forall i, j :: 0 <= i < j < |ticks| ==> ticks[i].time <= ticks[j].time
  }

  /** The chart built by only ever looking at its last candle. */
  function Fold(ticks: seq<Tick>, width: int): seq<Candle>
    requires width > 0
  {
    if ticks == [] then []
    else
      FoldTick(Fold(ticks[..|ticks| - 1], width), ticks[|ticks| - 1], width)
  }

  function FoldTick(chart: seq<Candle>, t: Tick, width: int): seq<Candle>
    requires width > 0
  {
    if chart != [] && chart[|chart| - 1].time == Bucket(t.time, width)
    then chart[..|chart| - 1] + [Absorb(chart[|chart| - 1], t)]
    else chart + [Start(t, width)]
  }

  lemma BucketMonotone(s: int, t: int, width: int)
    requires width > 0 && s <= t
    ensures Bucket(s, width) <= Bucket(t, width)
  {
    var p, q := s / width, t / width;
    assert s == width * p + s % width && t == width * q + t % width;
    if q < p {
      ScaleLess(width, q + 1, p);
    } else {
      ScaleLess(width, p, q);
    }
  }

  lemma FoldEndsAtLastTick(ticks: seq<Tick>, width: int)
    requires width > 0 && ticks != []
    ensures var f := Fold(ticks, width);
            f != [] && f[|f| - 1].time == Bucket(ticks[|ticks| - 1].time, width)
  {
  }

  /** On time-sorted ticks the one-pass fold is the chart. */
  lemma {:induction false} FoldIsChart(ticks: seq<Tick>, width: int)
    requires width > 0 && TimeSorted(ticks)
    ensures IsChart(Fold(ticks, width), Buckets(ticks, width))
  {
    if ticks != [] {
      var n := |ticks| - 1;
      var before, t := ticks[..n], ticks[n];
      FoldIsChart(before, width);
      if n > 0 {
        FoldEndsAtLastTick(before, width);
        assert before[n - 1] == ticks[n - 1];
        BucketMonotone(ticks[n - 1].time, t.time, width);
      }
      FoldStep(Fold(before, width), Buckets(before, width), t, width);
    }
  }

  lemma FoldStep(chart: seq<Candle>, table: map<int, Candle>, t: Tick, width: int)
    requires width > 0 && IsChart(chart, table)
    requires chart != [] ==> chart[|chart| - 1].time <= Bucket(t.time, width)
    ensures var b := Bucket(t.time, width);
            IsChart(FoldTick(chart, t, width), table[b := if b in table then Absorb(table[b], t) else Start(t, width)])
  {
    var b := Bucket(t.time, width);
    var last := |chart| - 1;
    if chart != [] && chart[last].time == b {
      var next := chart[..last] + [Absorb(chart[last], t)];
      forall i | 0 <= i < |chart| ensures next[i].time == chart[i].time { }
    } else {
      var next := chart + [Start(t, width)];
      forall i | 0 <= i < |chart| ensures chart[i].time < b { }
      assert b !in table;
      forall i | 0 <= i < |chart| ensures next[i] == chart[i] { }
      assert next[|chart|].time == b;
    }
  }

  function MergeCandles(group: Candle, c: Candle): Candle {
    Candle(group.time, group.open, Max(group.high, c.high), Min(group.low, c.low), c.close, c.volume)
  }

  /** Candles regrouped into wider buckets. */
  function Regroup(candles: seq<Candle>, width: int): seq<Candle>
    requires width > 0
  {
    if candles == [] then []
    else
      var c := candles[|candles| - 1];
      var groups := Regroup(candles[..|candles| - 1], width);
      if groups != [] && groups[|groups| - 1].time == Bucket(c.time, width)
      then groups[..|groups| - 1] + [MergeCandles(groups[|groups| - 1], c)]
      else groups + [c.(time := Bucket(c.time, width))]
  }

  lemma RegroupSnoc(candles: seq<Candle>, c: Candle, width: int)
    requires width > 0
    ensures var groups := Regroup(candles, width);
            Regroup(candles + [c], width) ==
            if groups != [] && groups[|groups| - 1].time == Bucket(c.time, width)
            then groups[..|groups| - 1] + [MergeCandles(groups[|groups| - 1], c)]
            else groups + [c.(time := Bucket(c.time, width))]
  {
    assert (candles + [c])[..|candles|] == candles;
  }

  lemma NestedBucket(time: int, width: int, k: int)
    requires width > 0 && k > 0
    ensures k * width > 0
    ensures Bucket(Bucket(time, width), k * width) == Bucket(time, k * width)
  {
    var q := time / width;
    assert q == k * (q / k) + q % k;
    assert time == width * q + time % width;
    var w := k * width;
    assert (q / k) * w == width * (k * (q / k)) by { assert (q / k) * (k * width) == width * (k * (q / k)); }
    assert width * q == width * (k * (q / k)) + width * (q % k);
    assert 0 <= width * (q % k) <= width * (k - 1) by {
      ScaleLess(width, q % k, k - 1);
      ScaleLess(width, 0, q % k);
    }
    assert width * (k - 1) == w - width;
    SameQuotient(time, w, q / k);
    SameQuotient(q * width, w, q / k);
  }

  lemma TickRollsUp(fine: seq<Candle>, t: Tick, width: int, wide: int)
    requires width > 0 && wide > 0 && Bucket(Bucket(t.time, width), wide) == Bucket(t.time, wide)
    ensures Regroup(FoldTick(fine, t, width), wide) == FoldTick(Regroup(fine, wide), t, wide)
  {
    if fine != [] && fine[|fine| - 1].time == Bucket(t.time, width) {
      var last := |fine| - 1;
      var c := fine[last];
      assert fine == fine[..last] + [c];
      RegroupSnoc(fine[..last], c, wide);
      RegroupSnoc(fine[..last], Absorb(c, t), wide);
    } else {
      RegroupSnoc(fine, Start(t, width), wide);
    }
  }

  /** Folding at k times the width is regrouping the narrow candles, whatever the order of the ticks. */
  lemma {:induction false} FoldRollsUp(ticks: seq<Tick>, width: int, k: int)
    requires width > 0 && k > 0 && k * width > 0
    ensures Regroup(Fold(ticks, width), k * width) == Fold(ticks, k * width)
  {
    if ticks != [] {
      var n := |ticks| - 1;
      var t, wide := ticks[n], k * width;
      FoldRollsUp(ticks[..n], width, k);
      NestedBucket(t.time, width, k);
      TickRollsUp(Fold(ticks[..n], width), t, width, wide);
    }
  }

  /** Roll-up: on time-sorted ticks the chart at k times the width is the narrow chart regrouped. */
  lemma ChartRollsUp(ticks: seq<Tick>, width: int, k: int, fine: seq<Candle>, coarse: seq<Candle>)
    requires width > 0 && k > 0 && k * width > 0 && TimeSorted(ticks)
    requires IsChart(fine, Buckets(ticks, width))
    requires IsChart(coarse, Buckets(ticks, k * width))
    ensures coarse == Regroup(fine, k * width)
  {
    FoldIsChart(ticks, width);
    FoldIsChart(ticks, k * width);
    ChartUnique(fine, Fold(ticks, width), Buckets(ticks, width));
    ChartUnique(coarse, Fold(ticks, k * width), Buckets(ticks, k * width));
    FoldRollsUp(ticks, width, k);
  }

  /** The chart of one candle. */
  lemma SingleChart(c: Candle)
    ensures IsChart([c], map[c.time := c])
  {
    assert [c][0].time == c.time;
  }

  lemma PairChart(c: Candle, d: Candle)
    requires c.time < d.time
    ensures IsChart([c, d], map[d.time := d, c.time := c])
  {
    assert [c, d][0].time == c.time && [c, d][1].time == d.time;
  }

  lemma BucketsOfTwo(a: Tick, b: Tick, width: int)
    requires width > 0
    ensures Buckets([a], width) == map[Bucket(a.time, width) := Start(a, width)]
    ensures Buckets([a, b], width) ==
            var before := Buckets([a], width);
            var k := Bucket(b.time, width);
            before[k := if k in before then Absorb(before[k], b) else Start(b, width)]
  {
    assert [a][..0] == [] && [a, b][..1] == [a];
  }

  /** Two ticks of one wide bucket but of two narrow ones, newest first. */
  lemma NewestFirstBuckets(a: Tick, b: Tick)
    requires a.time == 60 && b.time == 0
    ensures Buckets([a, b], 60) == map[60 := Start(a, 60), 0 := Start(b, 60)]
    ensures Buckets([a, b], 120) == map[0 := Absorb(Start(a, 120), b)]
  {
    BucketsOfTwo(a, b, 60);
    BucketsOfTwo(a, b, 120);
  }

  lemma RegroupPair(c: Candle, d: Candle)
    requires c.time == 0 && d.time == 60
    ensures Regroup([c, d], 120) != [] && Regroup([c, d], 120)[0].open == c.open
  {
    assert [c, d] == [c] + [d] && [c] == [] + [c];
    RegroupSnoc([], c, 120);
    RegroupSnoc([c], d, 120);
  }

  /** The order matters: given newest first, such ticks open at the newer value when aggregated by 120 s,
      but at the older one when their 60 s candles are regrouped. */
  lemma UnsortedDoesNotRollUp(a: Tick, b: Tick)
    requires a.time == 60 && b.time == 0 && a.value != b.value
    ensures IsChart([Start(b, 60), Start(a, 60)], Buckets([a, b], 60))
    ensures IsChart([Absorb(Start(a, 120), b)], Buckets([a, b], 120))
    ensures Regroup([Start(b, 60), Start(a, 60)], 120) != [Absorb(Start(a, 120), b)]
  {
    NewestFirstBuckets(a, b);
    PairChart(Start(b, 60), Start(a, 60));
    SingleChart(Absorb(Start(a, 120), b));
    RegroupPair(Start(b, 60), Start(a, 60));
  }
}
