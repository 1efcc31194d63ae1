/** The bounded queue between the connectors and the consumer. */
module TickQueue {
  import opened Markets
  import opened PriceStore
  import opened SpreadCalculator
  import opened Consumer

  const CAPACITY := 10_000

  /** A connector puts a tick, or the consumer drains everything that is there.  A put on a full queue
      waits: it has no effect until it is tried again with room. */
  datatype Op = Put(tick: Tick) | Drain

  /** What is queued, what was drained so far, and every tick that got in, in arrival order. */
  datatype Flow = Flow(queued: seq<Tick>, batches: seq<seq<Tick>>, arrived: seq<Tick>)

  function Next(f: Flow, op: Op): Flow {
    match op
    case Put(t) =>
      if |f.queued| < CAPACITY then f.(queued := f.queued + [t], arrived := f.arrived + [t]) else f
    case Drain =>
      if f.queued == [] then f else f.(queued := [], batches := f.batches + [f.queued])
  }

  function After(ops: seq<Op>): Flow {
    if ops == [] then Flow([], [], []) else Next(After(ops[..|ops| - 1]), ops[|ops| - 1])
  }

  lemma AfterSnoc(ops: seq<Op>, op: Op)
    ensures After(ops + [op]) == Next(After(ops), op)
  {
    assert (ops + [op])[..|ops|] == ops;
  }

  /** A put gets in exactly when there is room, at the end of the queue, and a drain takes everything that is
      queued, as one batch, and nothing else. */
  lemma QueueSteps(ops: seq<Op>, t: Tick)
    ensures var f, put, drained := After(ops), After(ops + [Put(t)]), After(ops + [Drain]);
            && put.batches == f.batches
            && (if |f.queued| < 10_000 then put.queued == f.queued + [t] && put.arrived == f.arrived + [t] else put == f)
            && drained.queued == [] && drained.arrived == f.arrived
            && drained.batches == (if f.queued == [] then f.batches else f.batches + [f.queued])
  {
    AfterSnoc(ops, Put(t));
    AfterSnoc(ops, Drain);
  }

  /** What the connectors put, in order. */
  function Puts(ops: seq<Op>): seq<Tick> {
    if ops == [] then []
    else
      var before := Puts(ops[..|ops| - 1]);
      if ops[|ops| - 1].Put? then before + [ops[|ops| - 1].tick] else before
  }

  /** Every put so far found room. */
  ghost predicate AlwaysRoom(ops: seq<Op>) {
    forall k :: 0 <= k < |ops| && ops[k].Put? ==> |After(ops[..k]).queued| < CAPACITY
  }

  /** As long as every put finds room, everything that is put arrives, in order. */
  lemma {:induction false} NothingIsRefused(ops: seq<Op>)
    requires AlwaysRoom(ops)
    ensures After(ops).arrived == Puts(ops)
  {
    if ops != [] {
      var n := |ops| - 1;
      forall k | 0 <= k < n && ops[..n][k].Put? ensures |After(ops[..n][..k]).queued| < CAPACITY {
        assert ops[..n][..k] == ops[..k] && ops[k].Put?;
      }
      NothingIsRefused(ops[..n]);
      if ops[n].Put? {
        assert |After(ops[..n]).queued| < CAPACITY;
      }
    }
  }

  lemma ConcatSnoc(batches: seq<seq<Tick>>, batch: seq<Tick>)
    ensures Concat(batches + [batch]) == Concat(batches) + batch
  {
    assert (batches + [batch])[..|batches|] == batches;
  }

  /** Nothing is lost, invented or reordered between the connectors and the batches. */
  lemma {:induction false} NothingLost(ops: seq<Op>)
    ensures var f := After(ops);
            && Concat(f.batches) + f.queued == f.arrived
            && |f.queued| <= CAPACITY
            && forall i :: 0 <= i < |f.batches| ==> f.batches[i] != []
  {
    if ops != [] {
      var before := After(ops[..|ops| - 1]);
      NothingLost(ops[..|ops| - 1]);
      match ops[|ops| - 1]
      case Put(t) =>
        assert Concat(before.batches) + (before.queued + [t]) == (Concat(before.batches) + before.queued) + [t];
      case Drain =>
        ConcatSnoc(before.batches, before.queued);
        assert before.arrived + [] == before.arrived;
    }
  }

  lemma {:induction false} PartsPositive(batches: seq<seq<Tick>>, whole: seq<Tick>)
    requires AllPositive(whole) && Concat(batches) <= whole
    ensures forall i :: 0 <= i < |batches| ==> AllPositive(batches[i])
  {
    if batches != [] {
      var n := |batches| - 1;
      var front := Concat(batches[..n]);
      assert Concat(batches) == front + batches[n];
      forall j | 0 <= j < |front| ensures front[j] == whole[j] { assert Concat(batches)[j] == front[j]; }
      PartsPositive(batches[..n], whole);
      forall j | 0 <= j < |batches[n]| ensures batches[n][j] == whole[|front| + j] {
        assert Concat(batches)[|front| + j] == batches[n][j];
      }
    }
  }

  /** End to end: whatever the interleaving of puts and drains, the pipeline has processed exactly a prefix
      of what arrived, and stands as if that prefix had been processed one tick at a time. */
  lemma QueueThenConsume(ops: seq<Op>)
    requires AllPositive(After(ops).arrived)
    ensures var f := After(ops);
            var processed := Concat(f.batches);
            && f.arrived == processed + f.queued
            && ConsumeAll(START, f.batches).store == ApplyAll(EMPTY, processed)
            && SameCurrencyEqual(ConsumeAll(START, f.batches), ConsumeEach(START, processed))
            && forall k :: k in ConsumeEach(START, processed).quotes ==> k in ConsumeAll(START, f.batches).quotes
  {
    NothingLost(ops);
    var f := After(ops);
    PartsPositive(f.batches, f.arrived);
    BatchingRefinesOneAtATime(f.batches);
  }
}
