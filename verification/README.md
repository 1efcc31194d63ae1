# Crypto arbitrage monitor: a verified model of the live pipeline

The backend of the monitor is one asyncio process. Connectors put exchange ticks on a bounded queue; one
consumer drains it in batches into a price cache and recomputes the spreads each tick affects; every list of
new spreads is checked against alert rules and broadcast to WebSocket clients; the browser checks message
numbers, keeps chart buffers and aggregates candles. This project models that pipeline and proves what it
promises over all inputs, all interleavings at suspension points and all runs. Check it with
`dafny verify dfyconfig.toml`.

The parts, in the order in which data flows:

- `Backoff`, `Connector`: the reconnecting connector and the two retry schedules.
- `Markets`, `TickQueue`, `PriceStore`, `SpreadMath`, `SpreadCalculator`, `Consumer`: the bounded queue, the
  price cache with its KRW/USDT side channel, spread arithmetic on exact numbers, the incremental spread
  cache, and the batching consumer. The batched, incremental pipeline is proved against the simple one that
  takes one tick at a time and recomputes everything.
- `MinGap`, `KeyedGate`: one theory of the "last time plus minimum gap" gate (greedy optimality), used by the
  alert cooldown (`Cooldown`), the 100 ms price throttle (`WsDelivery`) and the 5 s history throttle
  (`PriceHistory`).
- `AlertRules`, `Cooldown`, `AlertEngine`, `ConfigCache`, `AlertDatabase`: rules, cooldown safety, batch
  evaluation, the asynchronously invalidated rule cache, and the two tables with their foreign key.
- `WsServer`, `WsSequence`, `WsCapacity`, `WsBroadcast`, `WsDelivery`, `WsReach`, `WsMembership`, `WsManager`, `GapDetector`: the hub as a
  state machine over its atomic steps, its properties over every run, the manager's loops as a refinement of
  that machine, and the browser's gap check at the other end.
- `StoreKeys`, `PriceHistory`, `ChartStore`, `Ohlc`: the browser's store and candle aggregation.
- `DeepMerge`: the recursive preference merge on arbitrary JSON trees.

How it is modelled. Objects that the program changes in place are classes whose methods state their whole new
state as a specification function of the old one; the theorems are about those functions. Coroutines are cut at
their awaits: each step between two awaits is atomic, and any other step may come between two of them. A send
takes its number and its place in the connection's order in one step, and whether it succeeds is arbitrary.
Clocks, query results and send outcomes are parameters. Prices are exact reals, percentages and thresholds
integer hundredths. Assumptions stated as preconditions: the wall clock never goes backwards and, for the
default of 0 in the price throttle, is at least 100 ms; prices and rates are positive where the theorem says
so; there is one consumer and one evaluator.

Findings, each proved:

- A connector does not retry forever. The 1025th failure in a row, about 17 hours into an outage, makes the
  float delay overflow inside the exception handler: the failure is neither counted nor waited for, the task
  ends, and the state stays CONNECTING or SUBSCRIBING (`LoopDiesIff`, `LongOutage`).
- A zero price on the second exchange of a pair leaves that spread's old entry in the incremental cache; for
  price ticks this is the only way in which it differs from a full recomputation (`IncrementalIsFull`).
- A rate tick recomputes nothing (`FxTickRefreshesNothing`), so it leaves the cache different from a full
  recomputation unless no kimchi pair has its prices or the tick changes neither rate nor source
  (`RateTickKeepsFullIff`), and every kimchi spread can be present when ticks are batched and absent when they
  are taken one at a time (`KimchiNeedsBatching`).
- The limit of 20 clients holds exactly when handshakes never overlap; with p of them in flight 19 + p clients
  get in (`CapacityPromiseIff`, `RushAttainsBound`).
- An invalidation that arrives at any time during a load is overwritten by the success of that load. It is lost
  exactly when the load read rows, read them by then, and started less than 30 s before the next batch
  (`InvalidationIsLostIff`, with one schedule for each phase of a load).
- Unsubscribing from the last symbol widens the subscription to every symbol (`UnsubscribeNarrowsIff`).
- The preference merge is associative exactly when no object, leaf, object sandwich loses a key
  (`AssociativeIffComposable`, `AssociativityFails`).
- Price and spread keys can meet only through a colon inside a symbol, and then they disturb each other's
  charts (`KeysCollideIff`, `ColonInSymbolInterferes`).

Where the design documents and the code differ, the code is modelled: there is no jitter in the backoff, the
cooldown belongs to a rule and not to a pair, stale spreads still raise alerts, and the welcome message is
numbered 1.

## Model

| member | source | states |
|---|---|---|
| `Backoff.ConnectorTotalWait` | src/backend/app/connectors/base.py:146-149 | the waits of n failures in a row exist if and only if n is at most 1024, and add up to 2^n - 1 seconds for n up to 6 and 63 + 60 (n - 6) beyond |
| `Backoff.BrowserTotalWait` | src/frontend/src/hooks/useWebSocket.ts:34-36 | n reconnect attempts wait 1000 (2^n - 1) ms for n up to 5, and 31000 + 30000 (n - 5) beyond |
| `Connector.BaseConnector.RunOnce` | src/backend/app/connectors/base.py:155-207 | one turn of the loop, for every way it can end, the exception inside the handler included, as a function of the record of states, failures, waits and the end of the task |
| `Connector.BaseConnector.Connect` | src/backend/app/connectors/base.py:157-184 | the states passed before a failure, and the counter reset on reaching ACTIVE |
| `Connector.BaseConnector.RunLoop` | src/backend/app/connectors/base.py:151-207 | the endless loop, up to its cancellation or its own end, is the fold of its turns |
| `Connector.BaseConnector.Stop` | src/backend/app/connectors/base.py:122-130 | stop appends DISCONNECTED whatever the loop was doing |
| `Connector.BaseConnector.Transition` | src/backend/app/connectors/base.py:134-144 | a transition sets the state and extends the trace by it, nothing else |
| `Connector.RunIsSound` | src/backend/app/connectors/base.py:151-207 | the invariant of every run: legal edges, counter equal to failures since ACTIVE and at most 1024, waits equal to the schedule, and where a run that ends by exception stands |
| `Connector.ConnectorRuns` | src/backend/app/connectors/base.py:146-207 | over every run, stopped anywhere: the trace follows the edges (ACTIVE straight to CONNECTING on a clean close), the counter is the failures since ACTIVE, the time waited since then is the closed form, and a task that died was left in CONNECTING or SUBSCRIBING after 1024 failures |
| `Connector.EveryStateOncePerAttempt` | src/backend/app/connectors/base.py:155-207 | over every run each attempt shows each of its states exactly once, and DISCONNECTED occurs only before the first |
| `Connector.CleanCloseReconnects` | src/backend/app/connectors/base.py:186-197 | after a clean close ACTIVE is followed by the next CONNECTING |
| `Connector.LoopDiesIff` | src/backend/app/connectors/base.py:146-149 | over every run the task ends by exception if and only if the loop meets its 1025th failure in a row |
| `Connector.FatalIff` | src/backend/app/connectors/base.py:200-202 | a failing attempt is fatal if and only if it does not reach ACTIVE and 1024 failures precede it |
| `Connector.CrashIsFinal` | src/backend/app/connectors/base.py:151-155 | a loop that has ended never retries |
| `Connector.LongOutage` | src/backend/app/connectors/base.py:146-149 | n refusals in a row end the connector if and only if n exceeds 1024, the last one uncounted and unwaited |
| `Markets.PairTables` | src/backend/app/utils/enums.py:119-135 | the pair tables contain exactly one direction of every two exchanges, and KRW/USDT pairs are exactly the kimchi ones |
| `TickQueue.NothingLost` | src/backend/app/services/exchange_manager.py:50 | over any interleaving of puts and drains the batches and what is queued are exactly what arrived, in order, within the bound |
| `TickQueue.QueueSteps` | src/backend/app/services/price_store.py:101-112 | a put gets in at the end if and only if there is room for it, and a drain takes everything as one batch |
| `TickQueue.NothingIsRefused` | src/backend/app/services/exchange_manager.py:50 | as long as every put finds room, everything that is put arrives, in order |
| `TickQueue.QueueThenConsume` | src/backend/app/services/price_store.py:97-125 | end to end from the queue: the pipeline stands as if a prefix of the arrivals had been processed one tick at a time |
| `PriceStore.LastWriteWins` | src/backend/app/services/price_store.py:194-203 | after any stream a key holds its last tick, and the rate is the last rate tick's price |
| `PriceStore.UnmentionedKept` | src/backend/app/services/price_store.py:194-203 | keys a stream does not mention, and the rate if no rate tick occurs, stay as they were |
| `PriceStore.ApplyAllConcat` | src/backend/app/services/price_store.py:115-117 | writing two streams is writing their concatenation |
| `PriceStore.LatestPrices.Update` | src/backend/app/services/price_store.py:194-203 | the new state of the cache, a rate tick going to the side channel only |
| `PriceStore.LatestPrices.UpdateFxFallback` | src/backend/app/services/price_store.py:205-209 | the fallback replaces rate, source and time and nothing else |
| `SpreadMath.RoundHalfUpExact` | src/backend/app/services/spread_calculator.py:178 | rounding yields n if and only if n is within a half, or at exactly a half and further from zero |
| `SpreadMath.QuantiseWithinHalfCent` | src/backend/app/services/spread_calculator.py:158-178 | a quantised percentage is within 0.005 of the exact one |
| `SpreadMath.SpreadMonotone` | src/backend/app/services/spread_calculator.py:158-178 | spreads are monotone in the first price and antitone in the second |
| `SpreadMath.RatiosChain` | src/backend/app/services/spread_calculator.py:158-171 | exact ratios multiply along a chain of exchanges, conversions included |
| `SpreadMath.SpreadsCompose` | src/backend/app/services/spread_calculator.py:158-178 | rounded spreads through a third exchange differ from the direct one by at most e(1 + X_ab + X_bc + e), e = 0.00005 |
| `SpreadCalculator.QuoteIgnoresClock` | src/backend/app/services/spread_calculator.py:118-187 | what a pair computation says about prices does not depend on the clock readings |
| `SpreadCalculator.QuotedWhenReady` | src/backend/app/services/spread_calculator.py:118-187 | with positive prices a pair is quoted if and only if both prices, and for a kimchi pair the rate, are known, and then with the spread formula |
| `SpreadCalculator.KimchiQuoteIsExact` | src/backend/app/services/spread_calculator.py:151-178 | a quoted kimchi spread is (KRW price / (USDT price x rate) - 1) x 100 of the stored ticks and rate, rounded half up to hundredths and so within 0.005, with prices, rate and source recorded |
| `SpreadCalculator.SameCurrencyQuoteIsExact` | src/backend/app/services/spread_calculator.py:166-178 | a same-currency spread is (price a / price b - 1) x 100 of the stored ticks, rounded likewise |
| `SpreadCalculator.KimchiAntitoneInRate` | src/backend/app/services/spread_calculator.py:158-161 | a higher rate never raises a kimchi spread |
| `SpreadCalculator.StaleIffOld` | src/backend/app/services/spread_calculator.py:130-157 | each staleness flag holds if and only if its own input is older than 5 s, or 60 s for the rate of a kimchi pair |
| `SpreadCalculator.QuotesCompose` | src/backend/app/services/spread_calculator.py:158-178 | quotes of three exchanges from one store are consistent up to the rounding bound |
| `SpreadCalculator.Calculator.Spread` | src/backend/app/services/spread_calculator.py:125-187 | the branches of the pair computation in source order compute the specified result |
| `SpreadCalculator.Calculator.ComputeAffectedSpreads` | src/backend/app/services/spread_calculator.py:79-93 | exactly the computable listed pairs with the tick's exchange, for its symbol, each once and computed at a clock reading of this call |
| `SpreadCalculator.Calculator.ComputeAll` | src/backend/app/services/spread_calculator.py:95-102 | exactly the computable pairs of a symbol, each once |
| `SpreadCalculator.Calculator.OnTick` | src/backend/app/services/spread_calculator.py:64-70 | every affected computable key holds a result computed from the store at a clock reading of this call, every other key its old entry, time and staleness included |
| `SpreadCalculator.IncrementalAtKey` | src/backend/app/services/spread_calculator.py:79-102 | per key, the overlay agrees with full recomputation unless the second price of a quoted spread has just become zero |
| `SpreadCalculator.IncrementalIsFull` | src/backend/app/services/spread_calculator.py:64-102 | overlaying the affected spreads on the full set gives the full set after the tick if and only if it is not a zero price behind a quoted spread; other symbols are untouched |
| `SpreadCalculator.FxTickRefreshesNothing` | src/backend/app/services/price_store.py:197-201 | a rate tick leaves nothing to recompute |
| `SpreadCalculator.RateTickKeepsFullIff` | src/backend/app/services/price_store.py:197-201 | after a rate tick the cache is unchanged, and it is still the full recomputation if and only if no kimchi pair has its prices or the tick brings no other rate or source |
| `Consumer.PriceConsumer.ConsumeBatch` | src/backend/app/services/price_store.py:99-125 | one turn drains the queue in order, leaves the caches as if all ticks had been written first and everything touched recomputed from the final store, and runs the callbacks with the latest tick of each key |
| `Consumer.PriceConsumer.Drain` | src/backend/app/services/price_store.py:101-112 | the batch is the available queue, in order |
| `Consumer.PriceConsumer.WriteAll` | src/backend/app/services/price_store.py:114-118 | every tick is written, and the latest tick per key is collected in order of first appearance |
| `Consumer.PriceConsumer.RunCallbacks` | src/backend/app/services/price_store.py:120-125 | the callbacks run with the filed tick of each key, in key order, and refresh everything the keys touch |
| `Consumer.PriceConsumer.ConsumeLoop` | src/backend/app/services/price_store.py:88-130 | the endless loop over all its drains is the fold of the batches |
| `Consumer.LatestCollects` | src/backend/app/services/price_store.py:114-118 | exactly the keys of the batch, each once, in the order of their first ticks, each filed with its last tick |
| `Consumer.HandedIsLatest` | src/backend/app/services/price_store.py:119-123 | over the whole batch the callbacks see each key once, with its last tick and no other |
| `Consumer.TouchedByLatest` | src/backend/app/services/price_store.py:119-123 | coalescing to one callback per key recomputes the same spreads as a callback per tick |
| `Consumer.RunIsCoherent` | src/backend/app/services/spread_calculator.py:64-70 | in every reachable between-batch state every cached spread holds the store's prices and the formula applied to its own recorded rate, and every same-currency pair with both prices is cached |
| `Consumer.SameCurrencyIsRecomputation` | src/backend/app/services/spread_calculator.py:64-70 | a coherent same-currency entry exists if and only if it can be computed, and then equals recomputation |
| `Consumer.EntryIsFromLastTouch` | src/backend/app/services/spread_calculator.py:64-70 | over every run an entry is what the store left by the last batch that touched it gives, so a kimchi entry records the rate of that store |
| `Consumer.NeverTouchedNeverQuoted` | src/backend/app/services/spread_calculator.py:64-93 | a key that no batch touched has no entry |
| `Consumer.RateIsNeverAPrice` | src/backend/app/services/price_store.py:194-203 | in every reachable state the rate ticker is not among the prices |
| `Consumer.BatchingRefinesOneAtATime` | src/backend/app/services/price_store.py:97-125 | however the stream is cut, prices, rate and same-currency spreads end as one at a time, and no spread is missing |
| `Consumer.CutsAgree` | src/backend/app/services/price_store.py:97-125 | any two ways of cutting one stream agree |
| `Consumer.PresentIff` | src/backend/app/services/spread_calculator.py:64-93 | with arbitrary prices: a spread is cached if and only if some batch touched it and left a store from which it can be computed |
| `Consumer.KimchiNeedsBatching` | src/backend/app/services/price_store.py:197-201 | for every kimchi spread: two prices and then the rate in one batch make it appear, one at a time they do not |
| `MinGap.AcceptedSpaced` | src/frontend/src/stores/priceStore.ts:64-71 | requests that pass the gate keep their gaps from every one that passed before |
| `MinGap.RejectedFollowsAccepted` | src/frontend/src/stores/priceStore.ts:64-71 | a rejected request comes less than its gap after an accepted one |
| `MinGap.GreedyStaysAhead` | src/backend/app/services/alert_engine.py:274-284 | the k-th accepted request is no later than the k-th of any spaced choice, for check and record readings that differ and gaps that change |
| `MinGap.GreedyIsOptimal` | src/backend/app/services/alert_engine.py:274-284 | the accepted requests form a spaced choice of maximum size |
| `MinGap.WindowBound` | src/backend/app/services/alert_engine.py:274-284 | a window of width W holds at most W / C + 1 instants C apart |
| `KeyedGate.StepMirrors` | src/backend/app/ws/handler.py:126-130 | one step of the shared table opens exactly when the greedy gate of its key accepts |
| `KeyedGate.RunMirrors` | src/backend/app/ws/handler.py:75-76 | over any run the shared table is one independent greedy gate per key |
| `Cooldown.CooldownSafety` | src/backend/app/services/alert_engine.py:159-164 | any two triggers of one rule are at least the later one's cooldown apart, evaluations interleaving in any way and cooldowns changing |
| `Cooldown.TriggersPerWindow` | src/backend/app/services/alert_engine.py:274-284 | at most W / C + 1 triggers of a rule in any window of width W |
| `Cooldown.RunKeepsApart` | src/backend/app/services/alert_engine.py:274-284 | the invariant: the table remembers the latest trigger of every rule that fired |
| `Cooldown.CooldownIsGreedy` | src/backend/app/services/alert_engine.py:274-284 | over every run the triggers of a rule are a choice of its attempts that keeps the cooldowns, no such choice is larger, and every other attempt comes less than its cooldown after a trigger |
| `Cooldown.TriggersAreAccepted` | src/backend/app/services/alert_engine.py:159-164 | the recorded trigger times are those of the attempts the greedy gate accepts |
| `Cooldown.TableIsGate` | src/backend/app/services/alert_engine.py:282-284 | the cooldown table is the table of the common gate, whatever the clock readings and cooldowns |
| `AlertRules.FiltersAreUnordered` | src/backend/app/services/alert_engine.py:260-272 | filters do not depend on the order of the pair, and two different exchange filters select exactly that pair |
| `AlertRules.ThresholdIsSigned` | src/backend/app/services/alert_engine.py:147-157 | above is monotone, below antitone, both the union of the two |
| `AlertRules.ThresholdIsBoundary` | src/backend/app/services/alert_engine.py:147-157 | the threshold is the exact boundary of each direction, reached included |
| `AlertRules.DirectionsMirror` | src/backend/app/services/alert_engine.py:147-157 | below is above of the negated percentage, and both is their union for every threshold |
| `AlertRules.FiltersSelectExactly` | src/backend/app/services/alert_engine.py:260-272 | for every combination of filters: the rule's symbol if it has one, and a pair that contains every exchange it names |
| `AlertEngine.Engine.IsInCooldown` | src/backend/app/services/alert_engine.py:274-280 | cooling exactly when the common gate with the rule's cooldown is closed |
| `AlertEngine.Engine.EvaluateWithCachedConfigs` | src/backend/app/services/alert_engine.py:139-164 | the early-continue loop over all rules, as a function of the cooldowns and triggers |
| `AlertEngine.Engine.EvaluateMany` | src/backend/app/services/alert_engine.py:253-258 | the loop over all spreads of a batch |
| `AlertEngine.OneSpreadTriggersIff` | src/backend/app/services/alert_engine.py:139-164 | a rule triggers on a spread if and only if it is not cooling down, symbol and exchanges fit, and the percentage has reached the threshold on the watched side, all written out |
| `AlertEngine.BatchIsLanes` | src/backend/app/services/alert_engine.py:143-164 | inside a batch every rule behaves as if evaluated alone |
| `AlertEngine.LaneTriggersFirst` | src/backend/app/services/alert_engine.py:143-164 | alone, a rule triggers on its first candidate spread and on nothing after it |
| `AlertEngine.BatchEvaluationIsExact` | src/backend/app/services/alert_engine.py:139-164 | a batch shorter than the cooldown triggers a rule at most once, on spread i if and only if i is its first candidate, and not at all if and only if there is none |
| `AlertEngine.NotCoolingMeansPassing` | src/backend/app/services/alert_engine.py:159-161 | for a rule that was not cooling down a candidate is exactly a passing spread |
| `AlertEngine.VisitIsAttempt` | src/backend/app/services/alert_engine.py:159-164 | each visit is one attempt on the shared cooldown table, or nothing, so cooldown safety covers evaluation |
| `ConfigCache.CachedConfigs.BeginBatch` | src/backend/app/services/alert_engine.py:82-84 | the TTL test: use the cache or begin a load |
| `ConfigCache.CachedConfigs.StoreRows` | src/backend/app/services/alert_engine.py:93-109 | rows replace the list before the load is complete |
| `ConfigCache.CachedConfigs.FinishLoad` | src/backend/app/services/alert_engine.py:126 | the load is stamped with the time it started |
| `ConfigCache.CachedConfigs.InvalidateConfigCache` | src/backend/app/services/alert_engine.py:339-341 | invalidation resets the stamp and nothing else |
| `ConfigCache.RunIsFresh` | src/backend/app/services/alert_engine.py:76-132 | the invariant: the stamp is never later than the moment the rows were read |
| `ConfigCache.ConfigFreshness` | src/backend/app/services/alert_engine.py:76-132 | every batch whose load did not fail used rows read later than 30 s before it began, invalidations and failures interleaving in any way |
| `ConfigCache.InvalidationForcesReload` | src/backend/app/services/alert_engine.py:339-341 | an invalidation with no load in flight makes the next batch load |
| `ConfigCache.InvalidationIsLostIff` | src/backend/app/services/alert_engine.py:76-132 | for every state and every course of events up to the next batch: it evaluates rows read no later than the invalidation, without a load, if and only if a load was in flight, succeeded last, read rows, read them no later than the invalidation and started less than 30 s before the batch |
| `ConfigCache.InvalidationCanBeLost` | src/backend/app/services/alert_engine.py:97-126 | a concrete schedule with the invalidation after the rows arrived |
| `ConfigCache.InvalidationCanBeLostWhileQuerying` | src/backend/app/services/alert_engine.py:92-97 | a concrete schedule with the invalidation while the rows are on their way |
| `AlertDatabase.Tables.CreateAlert` | src/backend/app/api/alerts.py:125-142 | the new row starts with counter 0 |
| `AlertDatabase.Tables.UpdateAlert` | src/backend/app/api/alerts.py:274-302 | the row after a partial update, its chat and counter unchanged, or not found |
| `AlertDatabase.Tables.SetFilters` | src/backend/app/api/alerts.py:288-298 | null clears a filter, absence keeps it, a value replaces it |
| `AlertDatabase.Tables.SetTerms` | src/backend/app/api/alerts.py:288-298 | null is ignored for every other field |
| `AlertDatabase.Tables.DeleteAlert` | src/backend/app/api/alerts.py:318-329 | not found, refused by the foreign key, or done |
| `AlertDatabase.Tables.WriteHistory` | src/backend/app/services/alert_engine.py:304-337 | insert and counter change happen together or not at all |
| `AlertDatabase.OthersUntouched` | src/backend/app/api/alerts.py:320-329 | no operation touches another alert: its row and its history count are the same before and after |
| `AlertDatabase.CreateAddsTheRow` | src/backend/app/api/alerts.py:127-140 | creation adds exactly the row that was sent, with counter 0 |
| `AlertDatabase.DeleteRemovesOnlyIt` | src/backend/app/api/alerts.py:320-329 | a delete removes exactly its row if it has no history, and otherwise changes nothing |
| `AlertDatabase.UpdateFieldByField` | src/backend/app/api/alerts.py:287-298 | a filter stays, is cleared or is replaced; identity, chat, counter, trigger time and history stay |
| `AlertDatabase.UpdateTerms` | src/backend/app/api/alerts.py:287-298 | threshold, direction, cooldown and the enabled flag take a value that is sent and otherwise stay |
| `AlertDatabase.TriggerIsLogged` | src/backend/app/services/alert_engine.py:304-335 | a committed trigger appends one history row and counts it with its time; otherwise both tables stay |
| `AlertDatabase.CounterConservation` | src/backend/app/services/alert_engine.py:304-337 | in every reachable database state each counter is the number of history rows and every history row refers to a live rule |
| `AlertDatabase.DeletableIffNeverTriggered` | src/backend/app/database.py:39 | in every reachable state a rule can be deleted if and only if its counter is 0 |
| `AlertDatabase.HistoryOnlyGrows` | src/backend/app/api/alerts.py:287-298 | no operation removes history or lowers a counter |
| `WsSequence.SequenceProtocol` | src/backend/app/ws/handler.py:51-53 | over any interleaving the numbered messages of every connection are exactly 1 .. n in send order, the numbered welcome first |
| `WsSequence.AlertsAreUnnumbered` | src/backend/app/ws/handler.py:97-115 | in every reachable state exactly the alerts went out without a number |
| `WsSequence.BrowserNeverWarns` | src/frontend/src/hooks/useWebSocket.ts:155-164 | a browser keeping its number across reconnects never warns over any run and succession of connections that lose messages only at their end |
| `WsSequence.WarningsAreLosses` | src/frontend/src/hooks/useWebSocket.ts:155-164 | whatever sends fail, the welcome included: one warning per gap in what was received, one more for a late start, silence if and only if there is neither, and with the welcome if and only if 1 .. m was received |
| `WsSequence.HandleKeepsOrder` | src/backend/app/ws/handler.py:245-318 | every reply, heartbeat and snapshot continues the numbering |
| `GapDetector.BrowserSocket.OnMessage` | src/frontend/src/hooks/useWebSocket.ts:155-164 | the gap check of one message |
| `GapDetector.BrowserSocket.Receive` | src/frontend/src/hooks/useWebSocket.ts:147-164 | a whole stream of messages |
| `GapDetector.BrowserSocket.OnOpen` | src/frontend/src/hooks/useWebSocket.ts:142-145 | an open connection starts the schedule again |
| `GapDetector.BrowserSocket.ScheduleReconnect` | src/frontend/src/hooks/useWebSocket.ts:127-132 | nothing when closed or disabled, otherwise the next delay of the schedule |
| `GapDetector.BrowserSocket.TotalWait` | src/frontend/src/hooks/useWebSocket.ts:127-145 | at any time the waits since the connection last opened follow the schedule from its start, with its closed-form total |
| `GapDetector.WarnsExactlyAtSkips` | src/frontend/src/hooks/useWebSocket.ts:156-163 | within a connection a message warns if and only if a number before it is missing; the first warns only if the connection before got less far |
| `GapDetector.CompleteConnectionsAreQuiet` | src/frontend/src/hooks/useWebSocket.ts:156-163 | connections received as 1 .. m never warn, in any succession |
| `WsCapacity.CapacityBound` | src/backend/app/ws/handler.py:81-90 | with at most p handshakes in flight clients and handshakes together never exceed 19 + p |
| `WsCapacity.RushAttainsBound` | src/backend/app/ws/handler.py:81-90 | for every p a run that reaches 19 + p clients |
| `WsCapacity.CapacityPromiseIff` | src/backend/app/ws/handler.py:39 | the maximum of 20 is kept on all runs if and only if at most one handshake is in flight |
| `WsBroadcast.BroadcastFrame` | src/backend/app/ws/handler.py:148-167 | in every reachable state the list is duplicate-free and is the list at the start of the broadcast plus connections less disconnections, in order |
| `WsBroadcast.CleanupRemovesTheFailed` | src/backend/app/ws/handler.py:165-167 | the end of a broadcast takes away exactly the clients whose send failed |
| `WsBroadcast.OnlyFailuresAreDropped` | src/backend/app/ws/handler.py:148-214 | over every run a client that is no longer listed disconnected or had a price or spread send fail |
| `WsDelivery.BroadcastReachesExactly` | src/backend/app/ws/handler.py:149-163 | every client in the copy has its own turn and is sent the message once if its filter accepts in the state of that turn, subscriptions interleaving, and otherwise not at all |
| `WsDelivery.StableFilterDecides` | src/backend/app/ws/handler.py:196-210 | a client that leaves its subscription alone is sent the symbol if and only if it is in the copy and its filter accepts |
| `WsDelivery.NewcomersAreSkipped` | src/backend/app/ws/handler.py:196-210 | a client that connects during a symbol's sends is not sent it |
| `WsDelivery.SubscriptionTakesEffect` | src/backend/app/ws/handler.py:276-290 | a subscription replaces the filter at once and is answered by its confirmation and one snapshot, numbered in this order |
| `WsDelivery.UnsubscribeNarrowsIff` | src/backend/app/ws/handler.py:292-294 | unsubscribing never widens what passes if and only if the set was empty before or something is left |
| `WsDelivery.DefaultZeroIsHarmlessIff` | src/backend/app/ws/handler.py:127-130 | the default of 0 makes the throttle the common gate if and only if the key was sent before or the clock has reached 100 ms |
| `WsDelivery.ThrottleTable` | src/backend/app/ws/handler.py:125-130 | over any run the throttle table is the common gate's |
| `WsDelivery.PriceThrottleIsGreedy` | src/backend/app/ws/handler.py:125-130 | a price that reaches the throttle is broadcast if and only if the greedy gate of its key accepts it |
| `WsReach.PriceReaches` | src/backend/app/ws/handler.py:117-163 | over every run from an unthrottled price tick to the end of its broadcast, each client listed at the tick that hears prices and the symbol is sent exactly one price update, and every other client none |
| `WsReach.PriceIsSkipped` | src/backend/app/ws/handler.py:125-129 | within 100 ms, or with nobody listed, a price tick changes nothing |
| `WsReach.SpreadsReach` | src/backend/app/ws/handler.py:169-214 | over every run of a spread broadcast, each client that stays listed is sent one spread update per spread it subscribed to, if it hears spreads, and a client that stays away none |
| `WsReach.AlertReaches` | src/backend/app/ws/handler.py:97-115 | over every run of an alert broadcast, each client listed at its start that hears alerts and the symbol is sent it exactly once, and every other client not |
| `WsMembership.ListedIff` | src/backend/app/ws/handler.py:81-95 | in every reachable state between broadcasts a client that connected is listed if and only if it has not disconnected and no price or spread send to it failed |
| `WsMembership.DepartedStaysAway` | src/backend/app/ws/handler.py:92-95 | a client that disconnected is never listed again |
| `WsMembership.NewcomerIsListedLast` | src/backend/app/ws/handler.py:86-90 | a completed handshake appends its client, hearing everything, with the welcome as first message |
| `WsMembership.EveryInputIsAnswered` | src/backend/app/ws/handler.py:252-259 | a timeout, an unknown message and an unsubscription each bring their own numbered answer, a pong none |
| `WsMembership.FilterAfterInput` | src/backend/app/ws/handler.py:274-303 | what a client hears when new, after an unsubscription, and after every other input |
| `WsManager.ConnectionManager.BeginConnect` | src/backend/app/ws/handler.py:83-86 | refused at the limit, otherwise a handshake is in flight |
| `WsManager.ConnectionManager.FinishConnect` | src/backend/app/ws/handler.py:87-90 | the client is appended and welcomed |
| `WsManager.ConnectionManager.Disconnect` | src/backend/app/ws/handler.py:92-95 | the client leaves the list if it is in it |
| `WsManager.ConnectionManager.NextSeq` | src/backend/app/ws/handler.py:51-53 | the client's counter goes up by one and the new value is the number |
| `WsManager.ConnectionManager.Send` | src/backend/app/ws/handler.py:55-60 | the attempt is appended to what the client was sent, whether it goes through or not |
| `WsManager.ConnectionManager.HandleClient` | src/backend/app/ws/handler.py:269-318 | the branches of the message handler, field by field, change that client as the machine does and no other |
| `WsManager.ConnectionManager.TakeTurn` | src/backend/app/ws/handler.py:150-163 | filter, number and send of one client are one turn of the machine |
| `WsManager.ConnectionManager.SendTo` | src/backend/app/ws/handler.py:150-163 | one client's turn is that turn followed by whatever others do while the send is awaited |
| `WsManager.ConnectionManager.SendToAll` | src/backend/app/ws/handler.py:196-210 | the loop over a copy of the list refines the machine |
| `WsManager.ConnectionManager.RemoveFailed` | src/backend/app/ws/handler.py:165-167 | the cleanup loop leaves exactly the clients that did not fail, in order |
| `WsManager.ConnectionManager.OnPrice` | src/backend/app/ws/handler.py:117-167 | the whole price broadcast, others interleaving at every send, is a run of the machine |
| `WsManager.ConnectionManager.OnSpreads` | src/backend/app/ws/handler.py:169-214 | so is the nested spread broadcast with its single cleanup |
| `WsManager.ConnectionManager.OnAlert` | src/backend/app/ws/handler.py:97-115 | and the unnumbered alert broadcast |
| `StoreKeys.PriceKeysDiffer` | src/frontend/src/stores/priceStore.ts:83 | price keys are equal if and only if exchange and symbol are |
| `StoreKeys.SpreadKeysDiffer` | src/frontend/src/stores/priceStore.ts:102 | spread keys are equal if and only if all three parts are |
| `StoreKeys.KeysCollideIff` | src/frontend/src/stores/priceStore.ts:62-71 | a price and a spread share a key if and only if the price's symbol is written like the rest of the spread's key |
| `PriceHistory.HistoryBetweenSeeds` | src/frontend/src/stores/priceStore.ts:53-118 | between seeds a key's buffer is, newest first, the newest 500 of what the five-second gate accepted and what was there before |
| `PriceHistory.HistoryFromStart` | src/frontend/src/stores/priceStore.ts:53-99 | without seeding it is the newest 500 accepted entries |
| `PriceHistory.HistoryIsCapped` | src/frontend/src/hooks/useWebSocket.ts:57-92 | no buffer exceeds 500, seeding included |
| `PriceHistory.GateAgrees` | src/frontend/src/stores/priceStore.ts:64-71 | the shared throttle opens for a key exactly when the greedy gate accepts, whatever the other keys do |
| `PriceHistory.LatestIsLastSet` | src/frontend/src/stores/priceStore.ts:82-118 | the latest value is the last one set, throttled or not |
| `PriceHistory.SnapshotReplaces` | src/frontend/src/stores/priceStore.ts:127-135 | a snapshot replaces the latest values, the last entry of a key winning, and keeps history and throttle |
| `PriceHistory.SeedThenUpdates` | src/frontend/src/hooks/useWebSocket.ts:88-92 | over every run a seeded key holds, newest first, what the gate accepted since its last seeding and then the seeded rows, cut to 500, while the gate keeps counting from the updates before |
| `PriceHistory.AppendedIsLargest` | src/frontend/src/stores/priceStore.ts:64-71 | no choice of updates five seconds apart is larger than what is appended |
| `PriceHistory.ResetStartsOver` | src/frontend/src/stores/priceStore.ts:137-151 | after a reset the run is as from the start, throttle included |
| `ChartStore.GroupRows` | src/frontend/src/hooks/useWebSocket.ts:57-67 | the loops over the answers leave each key its first 500 rows, failed requests skipped |
| `ChartStore.FailedAnswersAreSkipped` | src/frontend/src/hooks/useWebSocket.ts:57-60 | a failed answer contributes nothing and the others keep their rows and order |
| `ChartStore.RowsOfKey` | src/frontend/src/hooks/useWebSocket.ts:61-66 | the rows of a key are those filed under it, in order |
| `ChartStore.HistoryStore.ShouldAppendHistory` | src/frontend/src/stores/priceStore.ts:64-71 | the throttle test and its record are one step of the common gate |
| `ChartStore.HistoryStore.SetPrice` | src/frontend/src/stores/priceStore.ts:82-99 | the new price panel, and the spread panel seeing only the throttle |
| `ChartStore.HistoryStore.SetSpread` | src/frontend/src/stores/priceStore.ts:101-118 | the same for a spread |
| `ChartStore.HistoryStore.SetFxRate` | src/frontend/src/stores/priceStore.ts:120 | the rate is replaced and nothing else |
| `ChartStore.HistoryStore.SetExchangeStatus` | src/frontend/src/stores/priceStore.ts:122-125 | one exchange's status is replaced and nothing else |
| `ChartStore.HistoryStore.ApplySnapshot` | src/frontend/src/stores/priceStore.ts:127-135 | both panels and the rate after a snapshot, exchange statuses kept |
| `ChartStore.HistoryStore.SeedHistory` | src/frontend/src/hooks/useWebSocket.ts:47-92 | both panels after seeding |
| `ChartStore.HistoryStore.ResetAll` | src/frontend/src/stores/priceStore.ts:137-151 | both panels, the throttle, the rate and the statuses are cleared |
| `ChartStore.PanelsNeverInterfere` | src/frontend/src/stores/priceStore.ts:62-71 | with no colon in names no price and spread meet in the throttle table, over any run of updates, snapshots, seedings and resets |
| `ChartStore.ColonInSymbolInterferes` | src/frontend/src/stores/priceStore.ts:62-71 | with a colon in a symbol a price keeps a spread's first entry out of its chart |
| `Ohlc.AggregateToOhlc` | src/frontend/src/components/PriceChart.tsx:64-91 | for any width the in-place loop and sort list the bucket table by strictly increasing time |
| `Ohlc.CandleSummarisesItsTicks` | src/frontend/src/components/PriceChart.tsx:70-88 | a bucket has a candle if and only if it has ticks; open, close, low, high and volume are those of exactly its ticks |
| `Ohlc.NegativeWidthMirrors` | src/frontend/src/components/PriceChart.tsx:71 | a negative width gives the mirrored buckets |
| `Ohlc.ChartIsPartition` | src/frontend/src/components/PriceChart.tsx:64-91 | candle intervals are disjoint and every tick lies in exactly one |
| `Ohlc.ChartUnique` | src/frontend/src/components/PriceChart.tsx:90 | a bucket table has one chart, whatever order the values are sorted from |
| `Ohlc.FoldIsChart` | src/frontend/src/components/PriceChart.tsx:64-91 | on time-sorted ticks the chart can be built by looking at the last candle only |
| `Ohlc.FoldRollsUp` | src/frontend/src/components/PriceChart.tsx:64-91 | such a fold at k times the width is the narrow fold regrouped |
| `Ohlc.ChartRollsUp` | src/frontend/src/components/PriceChart.tsx:64-91 | on time-sorted ticks aggregating at k times the width equals regrouping the narrow candles |
| `Ohlc.UnsortedDoesNotRollUp` | src/frontend/src/components/PriceChart.tsx:64-91 | a family of unsorted inputs on which it does not |
| `DeepMerge.MergeInto` | src/backend/app/api/alerts.py:557-563 | the recursive in-place loop, items in any order, computes the merge |
| `DeepMerge.MergeByPath` | src/backend/app/api/alerts.py:557-563 | what is at every path: unreached paths keep the base, overlay leaves win, overlay objects merge |
| `DeepMerge.MergeIdempotent` | src/backend/app/api/alerts.py:557-563 | applying an overlay twice is applying it once |
| `DeepMerge.AbsorbsIffCovered` | src/backend/app/api/alerts.py:557-563 | an overlay absorbs a base if and only if it covers its key paths |
| `DeepMerge.AssociativeIffComposable` | src/backend/app/api/alerts.py:557-563 | merging overlays first is the same as one after the other if and only if every object, leaf, object sandwich covers its first operand |
| `DeepMerge.AssociativeWithoutSandwich` | src/backend/app/api/alerts.py:557-563 | without such a path merging is associative |
| `DeepMerge.AssociativityFails` | src/backend/app/api/alerts.py:557-563 | a family of operands with such a path on which it fails |
| `DeepMerge.PreferenceRow.Update` | src/backend/app/api/alerts.py:522-544 | the first update stores the defaults merged with the body, every later one the stored preferences merged with it |

## Left out

- All I/O: exchange sockets and message decoding, HTTP polling, Telegram, SQLAlchemy, and the REST answers.
- The per-exchange `normalize` functions and the copy of the run loop in the Gate connector.
- React components, formatting, preference pages, schema migrations, configuration.
- Severity tiers, alert message texts, `compute_all_symbols`, the periodic database writers.
- Tick fields no modelled decision depends on: currency, bid, ask, volume and receive time; stale reasons are
  flags instead of sentences; exchange and connection status messages.
- The 28-digit context of decimal arithmetic and the parsing of floats: arithmetic is exact, and percentages,
  thresholds and cooldown comparisons are on integers.
- Upper-casing of symbols in the alert handlers: the request schemas admit only upper-case symbols, on which it
  does nothing.
- Rows and fields outside the alert tables' counters and rules, and the branch without a database session.
- Ids handed out by the database are new; that a deleted rule's id is not handed out again is not modelled.
- Cancellation and shutdown inside the hub and the consumer, exceptions raised by callbacks, and a wall clock
  that runs backwards.
- `update_fx_fallback` is modelled as a step between batches although nothing in the repository calls it.
- WebSocket client objects are values in a table keyed by identity, so aliasing of a client object between
  coroutines is modelled by the table and not by the heap.
- The machine of the hub lets other steps come between two consecutive turns of a broadcast even where the
  program does not suspend; it has every run of the program and some more.
- DeepMerge.MergeInto: works on map values and returns the merged map, so it does not capture that the result
  shares subtrees with the overlay; dict iteration order is arbitrary in it.
- Ohlc.AggregateToOhlc: times are integers, and 0 stands for the one bucket time that is not a number at a width
  below one second; the partition and roll-up theorems are about positive widths.
- Consumer.PriceConsumer.RunCallbacks: the callbacks other than the spread calculator are recorded as the list
  of ticks they are run with.
- WsManager.ConnectionManager.OnPrice: the outcomes and interleavings are a parameter, and the contract gives
  the machine run that results rather than a single final state.
