/** The TTL-cached list of alert configs: loading suspends, and an invalidation can arrive at any time.
    Times are milliseconds of the monotonic clock. */
module ConfigCache {
  import opened AlertRules

  const TTL_MS := 30_000

  /** Where the evaluator is: between batches, waiting for the query of a load that started at some time, or
      holding the rows while the preferences of the same load are still being read. */
  datatype Phase = Idle | Querying(startedAt: int) | RowsStored(startedAt: int)

  /** A batch that began at some time evaluated the rows read at another time; loadFailed says that its own load
      failed before the rows arrived. */
  datatype Use = Use(startedAt: int, readAt: int, loadFailed: bool)

  datatype Cache = Cache(configs: seq<Config>, readAt: int, lastLoaded: int, phase: Phase, now: int, uses: seq<Use>)

  const FRESH := Cache([], 0, 0, Idle, TTL_MS, [])

  datatype Event =
    | BatchStart(at: int)
    | RowsArrive(readAt: int, rows: seq<Config>, at: int)
    | LoadDone(at: int)
    | LoadFails(at: int)
    | Invalidate(at: int)

  predicate UsesCache(c: Cache, at: int) {
    at - c.lastLoaded < TTL_MS && c.configs != []
  }

  /** An event is possible: time does not go backwards, there is one evaluator, and rows are read after
      their load started. */
  predicate Enabled(c: Cache, e: Event) {
    && c.now <= e.at
    && match e
       case BatchStart(_) => c.phase.Idle?
       case RowsArrive(readAt, _, at) => c.phase.Querying? && c.phase.startedAt <= readAt <= at
       case LoadDone(_) => c.phase.RowsStored?
       case LoadFails(_) => !c.phase.Idle?
       case Invalidate(_) => true
  }

  function Step(c: Cache, e: Event): Cache {
    match e
    case BatchStart(at) =>
      if UsesCache(c, at) then c.(now := at, uses := c.uses + [Use(at, c.readAt, false)])
      else c.(now := at, phase := Querying(at))
    case RowsArrive(readAt, rows, at) =>
      if c.phase.Querying? then c.(now := at, configs := rows, readAt := readAt, phase := RowsStored(c.phase.startedAt)) else c
    case LoadDone(at) =>
      if c.phase.RowsStored? then
        c.(now := at, lastLoaded := c.phase.startedAt, phase := Idle, uses := c.uses + [Use(c.phase.startedAt, c.readAt, false)])
      else c
    case LoadFails(at) =>
      if c.phase.Idle? then c
      else c.(now := at, phase := Idle, uses := c.uses + [Use(c.phase.startedAt, c.readAt, c.phase.Querying?)])
    case Invalidate(at) => c.(now := at, lastLoaded := 0)
  }

  function RunFrom(c: Cache, events: seq<Event>): Cache {
    if events == [] then c else Step(RunFrom(c, events[..|events| - 1]), events[|events| - 1])
  }

  function Run(events: seq<Event>): Cache {
    RunFrom(FRESH, events)
  }

  ghost predicate PossibleFrom(c: Cache, events: seq<Event>) {
    forall i :: 0 <= i < |events| ==> Enabled(RunFrom(c, events[..i]), events[i])
  }

  ghost predicate Possible(events: seq<Event>) {
    PossibleFrom(FRESH, events)
  }

  /** lastLoaded is never later than the moment the cached rows were read. */
  predicate Inv(c: Cache) {
    && c.now >= TTL_MS
    && (c.configs == [] || c.lastLoaded <= c.readAt)
    && c.lastLoaded <= c.now
    && (!c.phase.Idle? ==> 0 <= c.phase.startedAt <= c.now)
    && (c.phase.RowsStored? ==> c.phase.startedAt <= c.readAt)
    && (c.phase.Querying? ==> c.lastLoaded <= c.phase.startedAt)
    && 0 <= c.readAt <= c.now
  }

  predicate FreshUse(u: Use) {
    !u.loadFailed ==> u.readAt > u.startedAt - TTL_MS
  }

  ghost predicate AllFresh(uses: seq<Use>) {
    forall i :: 0 <= i < |uses| ==> FreshUse(uses[i])
  }

  lemma StepKeepsFresh(c: Cache, e: Event)
    requires Inv(c) && AllFresh(c.uses) && Enabled(c, e)
    ensures Inv(Step(c, e)) && AllFresh(Step(c, e).uses)
  {
  }

  lemma PossiblePrefix(c: Cache, events: seq<Event>, n: nat)
    requires PossibleFrom(c, events) && n <= |events|
    ensures PossibleFrom(c, events[..n])
  {
    forall i | 0 <= i < n ensures Enabled(RunFrom(c, events[..n][..i]), events[..n][i]) {
      assert events[..n][..i] == events[..i];
      assert Enabled(RunFrom(c, events[..i]), events[i]);
    }
  }

  lemma {:induction false} RunIsFresh(events: seq<Event>)
    requires Possible(events)
    ensures Inv(Run(events)) && AllFresh(Run(events).uses)
  {
    if events != [] {
      var n := |events| - 1;
      PossiblePrefix(FRESH, events, n);
      RunIsFresh(events[..n]);
      assert Enabled(Run(events[..n]), events[n]);
      StepKeepsFresh(Run(events[..n]), events[n]);
    }
  }

  /** Config freshness: however loads, failures and invalidations interleave, every batch whose own load did
      not fail evaluated rows read less than 30 s before it began (or after it began). */
  lemma ConfigFreshness(events: seq<Event>, i: nat)
    requires Possible(events) && i < |Run(events).uses| && !Run(events).uses[i].loadFailed
    ensures Run(events).uses[i].readAt > Run(events).uses[i].startedAt - 30_000
  {
    RunIsFresh(events);
    assert FreshUse(Run(events).uses[i]);
  }

  /** An invalidation with no load in flight makes the next batch load, whatever further invalidations come
      in between. */
  lemma {:induction false} InvalidationForcesReload(c: Cache, at: int, more: seq<int>, next: int)
    requires Inv(c) && c.phase.Idle? && next >= TTL_MS
    ensures var d := InvalidateAll(Step(c, Invalidate(at)), more);
            d.phase.Idle? && Step(d, BatchStart(next)).phase == Querying(next)
  {
    InvalidateAllIdle(Step(c, Invalidate(at)), more);
  }

  function InvalidateAll(c: Cache, times: seq<int>): Cache
    decreases times
  {
    if times == [] then c else InvalidateAll(Step(c, Invalidate(times[0])), times[1..])
  }

  lemma {:induction false} InvalidateAllIdle(c: Cache, times: seq<int>)
    requires c.phase.Idle? && c.lastLoaded == 0
    ensures InvalidateAll(c, times).phase.Idle? && InvalidateAll(c, times).lastLoaded == 0
    decreases times
  {
    if times != [] {
      InvalidateAllIdle(Step(c, Invalidate(times[0])), times[1..]);
    }
  }

  /** No batch begins. */
  predicate NoBatch(events: seq<Event>) {
    forall i :: 0 <= i < |events| ==> !events[i].BatchStart?
  }

  /** What the load in flight reads: rows it already holds, or those that arrive. */
  datatype Rows = Rows(readAt: int, rows: seq<Config>)

  function LoadedRows(c: Cache, events: seq<Event>): Rows {
    if events == [] then Rows(c.readAt, c.configs)
    else if events[|events| - 1].RowsArrive? then Rows(events[|events| - 1].readAt, events[|events| - 1].rows)
    else LoadedRows(c, events[..|events| - 1])
  }

  /** The events end with the completion of a load: it succeeded and nothing was invalidated after it. */
  predicate EndsLoaded(events: seq<Event>) {
    events != [] && events[|events| - 1].LoadDone?
  }

  /** Where the cache stands after an invalidation and some events without a batch. */
  predicate SinceInvalidation(c: Cache, events: seq<Event>, d: Cache) {
    && Rows(d.readAt, d.configs) == LoadedRows(c, events)
    && (c.phase.Idle? ==> d.phase.Idle?)
    && (!d.phase.Idle? ==> d.phase.startedAt == c.phase.startedAt)
    && (EndsLoaded(events) ==> d.phase.Idle? && !c.phase.Idle?)
    && d.lastLoaded == (if EndsLoaded(events) then c.phase.startedAt else 0)
  }

  lemma StepSinceInvalidation(c: Cache, events: seq<Event>, d: Cache, e: Event)
    requires SinceInvalidation(c, events, d) && Enabled(d, e) && !e.BatchStart?
    ensures SinceInvalidation(c, events + [e], Step(d, e))
  {
    assert (events + [e])[..|events|] == events;
  }

  lemma {:induction false} RunSinceInvalidation(c: Cache, at: int, events: seq<Event>)
    requires PossibleFrom(Step(c, Invalidate(at)), events) && NoBatch(events)
    ensures SinceInvalidation(c, events, RunFrom(Step(c, Invalidate(at)), events))
  {
    var first := Step(c, Invalidate(at));
    if events != [] {
      var n := |events| - 1;
      PossiblePrefix(first, events, n);
      RunSinceInvalidation(c, at, events[..n]);
      assert Enabled(RunFrom(first, events[..n]), events[n]);
      assert events == events[..n] + [events[n]];
      StepSinceInvalidation(c, events[..n], RunFrom(first, events[..n]), events[n]);
    }
  }

  /** When an invalidation is lost.  Take any state, idle, querying or holding rows; an invalidation; any
      events up to the next batch, further invalidations, failures and the arrival of rows among them; and
      the batch.  The batch evaluates, without a load, rows read no later than the invalidation exactly when
      a load was in flight at the invalidation, the events end with the success of that load, it read at
      least one row and read it no later than the invalidation, and it started less than 30 s before the
      batch.  In every other case the batch loads, or evaluates rows read after the invalidation. */
  lemma InvalidationIsLostIff(c: Cache, at: int, events: seq<Event>, next: int)
    requires Inv(c) && PossibleFrom(Step(c, Invalidate(at)), events) && NoBatch(events)
    requires var d := RunFrom(Step(c, Invalidate(at)), events); d.phase.Idle? && next >= TTL_MS
    ensures var d := RunFrom(Step(c, Invalidate(at)), events);
            var loaded := LoadedRows(c, events);
            && (UsesCache(d, next) && d.readAt <= at <==>
                  !c.phase.Idle? && EndsLoaded(events) && loaded.rows != [] && loaded.readAt <= at && next - c.phase.startedAt < 30_000)
            && (UsesCache(d, next) ==> Step(d, BatchStart(next)).uses == d.uses + [Use(next, loaded.readAt, false)])
            && (!UsesCache(d, next) ==> Step(d, BatchStart(next)).phase == Querying(next))
  {
    RunSinceInvalidation(c, at, events);
  }

  /** It really happens while the preferences are read: invalidated at 30001 ms, yet the batch at 30003 ms
      evaluates the rows of 30000 ms. */
  lemma InvalidationCanBeLost(row: Config)
    ensures var events := [BatchStart(30_000), RowsArrive(30_000, [row], 30_000), Invalidate(30_001), LoadDone(30_002), BatchStart(30_003)];
            Possible(events) && Run(events).uses == [Use(30_000, 30_000, false), Use(30_003, 30_000, false)]
  {
    RunOfFive(BatchStart(30_000), RowsArrive(30_000, [row], 30_000), Invalidate(30_001), LoadDone(30_002), BatchStart(30_003));
  }

  /** .. and while the rows are on their way: read at 30001 ms, invalidated at 30002 ms, and still evaluated
      by the batch at 30005 ms. */
  lemma InvalidationCanBeLostWhileQuerying(row: Config)
    ensures var events := [BatchStart(30_000), Invalidate(30_002), RowsArrive(30_001, [row], 30_003), LoadDone(30_004), BatchStart(30_005)];
            Possible(events) && Run(events).uses == [Use(30_000, 30_001, false), Use(30_005, 30_001, false)]
  {
    RunOfFive(BatchStart(30_000), Invalidate(30_002), RowsArrive(30_001, [row], 30_003), LoadDone(30_004), BatchStart(30_005));
  }

  lemma RunOfFive(a: Event, b: Event, c: Event, d: Event, e: Event)
    ensures var c1 := Step(FRESH, a); var c2 := Step(c1, b); var c3 := Step(c2, c); var c4 := Step(c3, d);
            && Run([a, b, c, d, e]) == Step(c4, e)
            && (Enabled(FRESH, a) && Enabled(c1, b) && Enabled(c2, c) && Enabled(c3, d) && Enabled(c4, e) ==> Possible([a, b, c, d, e]))
  {
    var events := [a, b, c, d, e];
    assert events[..0] == [] && events[..1] == [] + [a] && events[..2] == events[..1] + [b];
    assert events[..3] == events[..2] + [c] && events[..4] == events[..3] + [d] && events == events[..4] + [e];
    RunSnoc([], a);
    RunSnoc(events[..1], b);
    RunSnoc(events[..2], c);
    RunSnoc(events[..3], d);
    RunSnoc(events[..4], e);
  }

  lemma RunSnoc(events: seq<Event>, e: Event)
    ensures Run(events + [e]) == Step(Run(events), e)
  {
    assert (events + [e])[..|events|] == events;
  }

  /** The cached list as the engine keeps it; each method runs between two suspension points of a load. */
  class CachedConfigs {
    var configs: seq<Config>
    var configsLastLoaded: int
    ghost var readAt: int
    ghost var phase: Phase
    ghost var now: int
    ghost var uses: seq<Use>

    ghost function View(): Cache
      reads this
    {
      Cache(configs, readAt, configsLastLoaded, phase, now, uses)
    }

    constructor ()
      ensures View() == FRESH
    {
      configs, configsLastLoaded := [], 0;
      readAt, phase, now, uses := 0, Idle, TTL_MS, [];
    }

    /** The TTL test at the top of a batch; needed says that a load begins. */
    method BeginBatch(at: int) returns (needed: bool)
      requires phase == Idle
      modifies this
      ensures View() == Step(old(View()), BatchStart(at))
      ensures needed <==> phase == Querying(at)
    {
      now := at;
      if at - configsLastLoaded < TTL_MS && |configs| > 0 {
        uses := uses + [Use(at, readAt, false)];
        return false;
      }
      phase := Querying(at);
      needed := true;
    }

    method StoreRows(queriedAt: int, rows: seq<Config>, at: int)
      requires phase.Querying?
      modifies this
      ensures View() == Step(old(View()), RowsArrive(queriedAt, rows, at))
    {
      configs := rows;
      readAt, phase, now := queriedAt, RowsStored(phase.startedAt), at;
    }

    /** The load remembers the time it started, not the time it finished. */
    method FinishLoad(startedAt: int, at: int)
      requires phase == RowsStored(startedAt)
      modifies this
      ensures View() == Step(old(View()), LoadDone(at))
    {
      configsLastLoaded := startedAt;
      uses := uses + [Use(startedAt, readAt, false)];
      phase, now := Idle, at;
    }

    method InvalidateConfigCache(at: int)
      modifies this
      ensures View() == Step(old(View()), Invalidate(at))
    {
      configsLastLoaded := 0;
      now := at;
    }
  }
}
