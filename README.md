# isucon14 ride-hailing webapp (Go) — owner reports, chair distance counters, initialize, session auth

This project models in Dafny the parts of the Go webapp of isucon14 that
keep per-chair aggregates outside the database and read them back:

- **Owner sales** (`GET /api/owner/sales`, `ownerGetSales`, `sumSales`,
  `calculateSale`): the `since`/`until` window parameters, the per-chair
  loop that sums ride fares, the grand total, and the per-model map turned
  into a list. The fare formula (`calculateFare`) is a parameter.
- **Chair distance counters** in Redis (`chairTotalDistanceKey`,
  `chairTotalDistanceUpdatedAtKey`, `addChairTotalDistance`,
  `getChairsTotalDistances`, `ownerGetChairs`). Redis is a class holding a
  key/value map, with INCRBY, SET, MGET and FLUSHALL. INCRBY and SET are
  two independent writes. A failed SET leaves the increment applied.
  - When that SET belonged to the chair's first write, the updated-at slot
    is nil and the dashboard read of the owner fails.
  - After an earlier successful write, the old stamp stays. The read then
    succeeds and shows the new distance with a stale stamp.
  - MGET without a key is an error in Redis. An owner with no chairs
    therefore gets 500 from the dashboard.
- **Initialize** (`postInitialize`, `initializeChairsTotalDistance`,
  `initializeChairsTotalRideCount`). Its steps run in a fixed order:
  bind, init script, settings update, FLUSHALL, distance backfill,
  ride-count backfill. The first failure ends the handler.
  - The backfill SQL is modelled as pure functions over the location log and
    the ride table: the Manhattan path length of each chair's track, the
    latest location time, and the count and sum of evaluations per chair.
  - The write loops are methods over the store, proved equal to a replay
    function.
  - Proved: a fault-free run on a flushed store leaves each chair's
    counters equal to the recomputed totals.
  - Proved: a failed run stops at the failing chair, whether its INCRBY or
    its SET failed. After a failed SET, that chair's counter holds its
    recomputed distance and it has no stamp.
  - Proved: a second run without a flush doubles the distance counters.
- **Session middlewares** (`appAuthMiddleware`, `ownerAuthMiddleware`,
  `chairAuthMiddleware`) and their read-through token caches
  (`getCacheUser`, `getCacheOwner`, `getCacheChair`).
  - The cache is a class with a map field.
  - The model follows the code as written: `getCache*` replaces
    `sql.ErrNoRows` by a fresh error that does not wrap it. An unknown token
    is therefore answered 500, not 401.

Failures of the database, Redis and the init script are inputs, given as
booleans or as sets of chair ids whose writes fail. Error paths are
modelled with a `Result` or `Outcome` value. One of them is a Go panic in
the source; "## Left out" says which.

Files: `base.dfy` (Option, Result, Outcome, Response), `decimal.dfy`
(Go `strconv` and Redis integer text), `entities.dfy` (database rows),
`store.dfy` (Redis), `sales.dfy`, `distance.dfy`, `backfill.dfy`,
`ridecount.dfy`, `initialize.dfy`, `auth.dfy`.

## Model

| member | source | states |
|---|---|---|
| Decimal.ParseInt | webapp/go/owner_handlers.go:97 | `strconv.ParseInt(s, 10, 64)`: a result is an int64 and the text starts with a digit or a sign |
| Decimal.ParseFormat | webapp/go/owner_handlers.go:251 | parsing the decimal text of any int64 gives that int64 back |
| Decimal.FormatInjective | webapp/go/owner_handlers.go:217 | two int64 values with the same decimal text are equal |
| Decimal.NatDigitsSpec | webapp/go/owner_handlers.go:217 | the digits of a natural number are non-empty, all digits, denote that number, and have no leading zero |
| Decimal.RedisInteger | webapp/go/owner_handlers.go:214 | Redis accepts a stored value as an integer only when it is exactly the decimal text of an int64 |
| Decimal.RedisIntegerFormat | webapp/go/owner_handlers.go:214-217 | a value written as a formatted int64 is read back by INCRBY as that int64 |
| Entities.Abs | webapp/go/main.go:190-191 | `ABS(x)` is x or -x, never negative |
| Entities.Manhattan | webapp/go/main.go:190-191 | the step length between two locations is zero exactly when they are the same point |
| Entities.ManhattanSymmetric | webapp/go/main.go:190-191 | the step length does not depend on direction |
| Entities.ManhattanTriangle | webapp/go/main.go:190-191 | a detour through a third point is never shorter |
| RedisStore.Incremented | webapp/go/owner_handlers.go:214 | INCRBY succeeds exactly when the value reads as an int64 (absent is 0) and the sum fits; it then stores the sum's text |
| RedisStore.IncrementedReadsBack | webapp/go/owner_handlers.go:214 | the value a successful INCRBY stores is read back by the next INCRBY as the sum |
| RedisStore.IncrementedTwice | webapp/go/owner_handlers.go:214 | two increments equal one increment by their sum |
| RedisStore.MGetValues | webapp/go/owner_handlers.go:237 | MGET returns one slot per key, the value or nil, in key order |
| RedisStore.CounterStore.constructor | webapp/go/owner_handlers.go:237 | a new store is empty |
| RedisStore.CounterStore.FlushAll | webapp/go/main.go:154-157 | FLUSHALL empties every key and record, or fails and changes nothing |
| RedisStore.CounterStore.IncrBy | webapp/go/owner_handlers.go:214 | INCRBY returns the new value and stores it; a failure leaves the store as it was |
| RedisStore.CounterStore.Set | webapp/go/owner_handlers.go:217 | SET overwrites one key, or fails and changes nothing |
| RedisStore.CounterStore.MGet | webapp/go/owner_handlers.go:237-240 | MGET returns the slots of the current store; it fails on a transport error, and on an empty key list with the wrong-arity error |
| RedisStore.CounterStore.SetRideCount | webapp/go/main.go:232 | one chair's ride-count record is overwritten, or nothing changes on failure |
| Sales.TotalSalesAppend | webapp/go/owner_handlers.go:165-171 | the sales of two ride lists together are the sum of their sales |
| Sales.SumSales | webapp/go/owner_handlers.go:165-175 | `sumSales` returns the sum of `calculateSale` over the rides |
| Sales.ParseWindow | webapp/go/owner_handlers.go:94-111 | absent `since`/`until` mean the epoch and 9999-12-31T23:59:59Z; a present one that is not an int64 is an error, `since` checked first |
| Sales.WindowRoundTrip | webapp/go/owner_handlers.go:96-111 | a window sent as two formatted int64 values is read back exactly |
| Sales.MapSumRemove | webapp/go/owner_handlers.go:153-159 | the sum of a map's values does not depend on the order its entries are taken |
| Sales.MapSumAdd | webapp/go/owner_handlers.go:150 | `m[model] += sales` adds `sales` to the sum of the map |
| Sales.RidesOfChairs | webapp/go/owner_handlers.go:133-136 | each chair's completed rides are the answer of its own query |
| Sales.ModelTotalUnseen | webapp/go/owner_handlers.go:150 | a model no chair has totals 0 |
| Sales.ModelMapSnoc | webapp/go/owner_handlers.go:150 | one more chair adds its sales to its model's entry |
| Sales.ModelTotalSnoc | webapp/go/owner_handlers.go:150 | one more chair adds its sales to its own model's total only |
| Sales.ModelMapCorrect | webapp/go/owner_handlers.go:132-151 | the per-model map has exactly the owned chairs' models, each with the summed sales of its chairs |
| Sales.ModelMapSum | webapp/go/owner_handlers.go:142-150 | the per-model values sum to the grand total |
| Sales.AggregateByChair | webapp/go/owner_handlers.go:132-151 | the chair loop fails exactly when a query fails; else one entry per chair in order, the total is their sum, and the map is the per-model totals |
| Sales.ModelList | webapp/go/owner_handlers.go:153-160 | the model list has each model of the map once, with its value, and sums to the map's sum |
| Sales.OwnerGetSales | webapp/go/owner_handlers.go:89-163 | 400 on a bad window, 500 on a failed statement, else a report whose chair, model and total figures agree |
| ChairDistance.TotalDistanceKeyInjective | webapp/go/owner_handlers.go:204-206 | different chairs have different distance keys |
| ChairDistance.UpdatedAtKeyInjective | webapp/go/owner_handlers.go:208-210 | different chairs have different updated-at keys |
| ChairDistance.KeysDisjoint | webapp/go/owner_handlers.go:204-210 | no distance key is an updated-at key |
| ChairDistance.AddTotalDistanceSuccess | webapp/go/owner_handlers.go:212-225 | on success the counter rises by exactly the distance, the stamp holds the time, nothing else changes |
| ChairDistance.AddTotalDistanceFailure | webapp/go/owner_handlers.go:212-225 | a failed INCRBY changes nothing; a failed SET leaves the increment applied and the stamp as it was |
| ChairDistance.AddChairTotalDistance | webapp/go/owner_handlers.go:212-225 | the method leaves the store and outcome the write function gives, and touches no ride-count record |
| ChairDistance.DistanceKeys | webapp/go/owner_handlers.go:234-236 | the key list is each chair's distance key followed by its updated-at key |
| ChairDistance.DecodeFromFailure | webapp/go/owner_handlers.go:243-254 | the decode fails exactly when some present distance slot or its stamp does not parse, or the stamp is nil |
| ChairDistance.DecodeFromEntries | webapp/go/owner_handlers.go:243-260 | the decoded map keeps earlier entries and holds a chair exactly when its distance slot is non-nil |
| ChairDistance.DecodeTotalDistancesSpec | webapp/go/owner_handlers.go:241-261 | only requested chairs appear, each as its two slots decode |
| ChairDistance.ReadTotalDistances | webapp/go/owner_handlers.go:233-240 | the read fails when Redis is unreachable or no chair is asked for; otherwise it is the decode of the MGET slots of the key list |
| ChairDistance.DecodeReply | webapp/go/owner_handlers.go:241-261 | the loop over the slots, two at a time, returns what the slot decode gives |
| ChairDistance.GetChairsTotalDistances | webapp/go/owner_handlers.go:233-262 | the method returns what the read gives: a transport or wrong-arity failure, or the decode of the current store's slots |
| ChairDistance.TornWriteBreaksRead | webapp/go/owner_handlers.go:212-225 | a first write whose SET fails leaves a counter that makes the dashboard read fail |
| ChairDistance.TornRewriteKeepsStaleStamp | webapp/go/owner_handlers.go:212-225 | a later write whose SET fails leaves a read that succeeds with the new distance and the old stamp |
| ChairDistance.ChairViews | webapp/go/owner_handlers.go:295-318 | one row per chair in order, each showing its chair: id, name, model and registration time copied, active exactly when `is_active != 0`, and the counter's distance and time, or distance 0 and no time without a counter |
| ChairDistance.OwnerGetChairs | webapp/go/owner_handlers.go:264-320 | 500 when the SELECT or the read fails, an owner with no chairs included; else one row per chair, each showing its chair and its counter as `ChairViews` states |
| Backfill.Track | webapp/go/main.go:189-193 | a chair's partition has only that chair's locations from the log |
| Backfill.TrackComplete | webapp/go/main.go:189-193 | every location of the chair in the log is in its partition |
| Backfill.TrackAppend | webapp/go/main.go:189-193 | the partition keeps log order: the partition of two logs joined is the two partitions joined |
| Backfill.PathDistanceAppend | webapp/go/main.go:187-194 | joining two tracks adds the step between them |
| Backfill.PathDistanceAtLeastDisplacement | webapp/go/main.go:187-194 | the summed distance is at least the distance from the first to the last location |
| Backfill.LatestAt | webapp/go/main.go:188 | `MAX(created_at)` is at least every location's time and is one of them |
| Backfill.LatestAtIsLast | webapp/go/main.go:188-191 | in a chronological track the maximum is the last location's time |
| Backfill.DistanceRowOf | webapp/go/main.go:185-194 | both joined columns are NULL exactly when the chair has no location |
| Backfill.DistanceRows | webapp/go/main.go:181-194 | one row per chair, each with its own aggregates |
| Backfill.ReplayDistancesAppend | webapp/go/main.go:198-210 | the loop over two row lists is the first loop, then the second only if the first succeeded |
| Backfill.ReplayFrame | webapp/go/main.go:198-210 | whatever the outcome, the loop writes only the counter keys of the chairs it visits |
| Backfill.AddFirstRow | webapp/go/main.go:198-210 | a fault-free first write adds its row and leaves the rest of the run's preconditions intact |
| Backfill.ReplayAdds | webapp/go/main.go:198-210 | with no fault, every chair's counter rises by its row's distance and its stamp is the row's time |
| Backfill.DistanceSelect | webapp/go/main.go:180-197 | the SELECT succeeds exactly when the database does and every sum and time fits an int64 |
| Backfill.InitializeChairsTotalDistance | webapp/go/main.go:172-212 | the method leaves the store and outcome of the replay of the selected rows |
| Backfill.RecomputedDistance | webapp/go/main.go:198-206 | a chair's recomputed distance is its path length, 0 with no location |
| Backfill.RecomputedUpdatedAt | webapp/go/main.go:198-202 | a chair's recomputed stamp is its latest location time, 0 with no location |
| Backfill.RowIdsOfDistanceRows | webapp/go/main.go:181-194 | the backfill visits the chairs in table order |
| Backfill.BackfillAfterFlush | webapp/go/main.go:154-212 | on a flushed store with no fault, every chair's counter and stamp are the recomputed values |
| Backfill.ReplayOnceReadsBack | webapp/go/main.go:198-210 | after one fault-free loop from a flushed store, each counter reads as its row's distance and can take it again |
| Backfill.ReplayTwice | webapp/go/main.go:198-210 | two fault-free loops from a flushed store succeed and leave each counter at twice its row's distance |
| Backfill.BackfillTwiceDoubles | webapp/go/main.go:198-210 | a second backfill without FLUSHALL doubles every distance counter |
| Backfill.ReadPair | webapp/go/owner_handlers.go:247-259 | a pair written by the backfill decodes to the values written |
| Backfill.SlotsDecode | webapp/go/owner_handlers.go:234-259 | a store holding formatted counters gives, slot by slot, those counters |
| Backfill.ReadBackCounters | webapp/go/owner_handlers.go:233-262 | such a store reads back every chair, and only those, with its values |
| Backfill.BackfillThenRead | webapp/go/owner_handlers.go:233-262 | after a fault-free backfill on a flushed store, the dashboard reads each chair's recomputed values |
| Backfill.ReplayFailsFirst | webapp/go/main.go:207-209 | a failed first INCRBY ends the loop with nothing written |
| Backfill.ReplayFailsFirstSet | webapp/go/owner_handlers.go:214-219 | a failed first SET ends the loop with that chair's increment written and its stamp untouched |
| Backfill.ReplayPrefixFromEmpty | webapp/go/main.go:198-210 | a fault-free prefix of the loop writes those chairs and no others |
| Backfill.ReplayStopsAt | webapp/go/main.go:198-210 | the loop fails at the first row whose INCRBY fails, earlier rows written, that row and later rows untouched |
| Backfill.BackfillStopsAtFirstFailure | webapp/go/main.go:172-212 | a backfill whose INCRBY fails at one chair leaves earlier chairs recomputed and that chair and later chairs unwritten |
| Backfill.OtherChairKeys | webapp/go/owner_handlers.go:204-210 | two different chairs have four different counter keys |
| Backfill.ReplayStopsAtSet | webapp/go/main.go:198-210 | the loop fails at the first row whose SET fails: earlier rows written, that row's counter holds its distance with no stamp, later rows untouched |
| Backfill.BackfillStopsAtSetFailure | webapp/go/main.go:172-212 | a backfill whose SET fails at one chair leaves earlier chairs recomputed, that chair's counter at its recomputed distance with no stamp, and later chairs unwritten |
| RideCountBackfill.EvaluatedCountPositive | webapp/go/main.go:222-227 | a chair's count is positive exactly when one of its rides is evaluated |
| RideCountBackfill.EvaluatedChairsSpec | webapp/go/main.go:226-227 | the groups are distinct and are exactly the chairs with a positive count |
| RideCountBackfill.RideCountRows | webapp/go/main.go:222-227 | one row per group: the chair, its count of evaluated rides and the sum of their evaluations |
| RideCountBackfill.RideCountSelect | webapp/go/main.go:219-230 | the SELECT fails when the database does or an evaluated ride has no chair (NULL `chair_id` does not scan), else returns the groups |
| RideCountBackfill.ReplayRideCountsWrites | webapp/go/main.go:231-235 | with no fault every group's chair holds its row's record and other records are unchanged |
| RideCountBackfill.RideCountsAfterFlush | webapp/go/main.go:214-237 | after a flush with no fault, exactly the chairs with an evaluated ride have a record, holding their count and sum |
| RideCountBackfill.InitializeChairsTotalRideCount | webapp/go/main.go:214-237 | the method leaves the records and outcome of the replay of the selected groups, and no counter key changes |
| Initialize.Settings.constructor | webapp/go/main.go:149 | the settings row holds the given URL |
| Initialize.Settings.SetPaymentGatewayUrl | webapp/go/main.go:149-152 | the UPDATE stores the URL, or fails and changes nothing |
| Initialize.PostInitialize | webapp/go/main.go:136-169 | the handler's status, completed steps, URL and store equal the step function's |
| Initialize.StatusFollowsSteps | webapp/go/main.go:136-169 | completed steps are a prefix of the fixed order; 400 exactly on a bad body, 200 exactly when all ran, else 500 |
| Initialize.NothingChangesBeforeItsStep | webapp/go/main.go:144-157 | the URL changes only once the UPDATE ran, and Redis only once FLUSHALL ran |
| Initialize.FirstFailureStops | webapp/go/main.go:144-167 | the step that failed is the first one whose call failed; the ride-count records stay empty when the distance backfill fails |
| Initialize.InitializeRebuildsCounters | webapp/go/main.go:136-237 | with no fault the answer is 200, the URL is the requested one, and all counters and records are the recomputed ones |
| Auth.TokenCache.constructor | webapp/go/middlewares.go:49 | a new cache is empty |
| Auth.TokenCache.Get | webapp/go/middlewares.go:56 | the cache returns the entity stored under the token, or nothing |
| Auth.TokenCache.Set | webapp/go/middlewares.go:71 | the token now maps to the entity |
| Auth.TokenCache.GetCached | webapp/go/middlewares.go:52-74 | the database is asked exactly on a miss; result and new cache are the read-through function's |
| Auth.Authenticate | webapp/go/middlewares.go:11-47 | all three middlewares: the outcome and the new cache are the decision function's, with no lookup without a token |
| Auth.MissingCookieRejected | webapp/go/middlewares.go:17-21 | a missing or empty session cookie, and only that, yields 401 naming the cookie |
| Auth.CacheHitIgnoresDatabase | webapp/go/middlewares.go:119-124 | a cached token resolves to its entity whatever the database says, and the cache is unchanged |
| Auth.MissThenHit | webapp/go/middlewares.go:184-202 | a miss that finds the row caches it, and the next lookup of the token is a hit with that entity |
| Auth.CacheOnlyGrows | webapp/go/middlewares.go:126-137 | entries are never removed or overwritten; a new entry is a found row; a failed query changes nothing |
| Auth.LookupNeverNoRows | webapp/go/middlewares.go:63-69 | no error the lookup returns is or wraps `sql.ErrNoRows` |
| Auth.UnknownTokenIsServerError | webapp/go/middlewares.go:98-106 | an unknown token is answered 500 "invalid access token"; only a missing cookie gives 401 |
| Auth.AuthenticatedIff | webapp/go/middlewares.go:162-174 | `next` runs exactly when a token is cached or found, with the entity under the realm's context key |

## Left out

- The fare formula (`calculateFare`) is not part of this model. The fare is a function parameter.
- Time values are Unix milliseconds. The `+999µs` widening of `until` and the SQL `BETWEEN` filter are not modelled. The rides each chair's query returns are an input.
- The SQL engines, the transaction in `ownerGetSales`, the pipeline wrapper `TxPipelined`, tracing spans and logging are not modelled. Each SQL statement is a value or a failure flag.
- Redis and the database are reached over the network. Each command's failure is an input flag or a set of failing chair ids.
- HTTP and JSON plumbing (`bindJSON`, `writeJSON`, `writeError`, cookies as headers) is not modelled. A body that does not bind is `None`. A handler's answer is a status and a value.
- The init script `pg_init.sh` is an input flag. Its effect on the database is the table contents the backfill reads.
- `setChairTotalRideCount` is not among the modelled files. Its records are a separate map of (count, evaluation) values, written as absolute overwrites.
- SQL row order is unspecified. The distance rows follow the chairs table. The ride-count groups follow the first evaluated ride of each chair.
- The location log is taken in `created_at` order. `LAG` therefore pairs each location with the one before it in the log.
- Go map iteration order is not modelled. `Sales.ModelList` proves its properties for any order.
- Go `int` and `int64` arithmetic is unbounded in the model. INCRBY overflow, the int64 bounds of parsed values and of the distance SELECT's scanned columns are modelled explicitly.
- RideCountBackfill.RideCountSelect: the COUNT and SUM columns scanned into Go `int` are unbounded; a group whose count or sum does not fit 64 bits is not an error here, because no realistic ride table reaches that size.
- ChairDistance.DecodeReply: a distance slot that is present beside a nil updated-at slot is a Go panic in the source (the type assertion `vals[i+1].(string)`, webapp/go/owner_handlers.go:251). The panic is recovered by `middleware.Recoverer` (webapp/go/main.go:79), which answers 500. The model returns `Failure(MissingUpdatedAt)` instead, which also gives 500 in `ownerGetChairs`. The panic's stack trace and the absence of the error body are not modelled.
- Sales.AggregateByChair: sums of fares are unbounded; Go's wrap-around on overflow of `res.TotalSales` is not modelled, because fares are an abstract parameter.
- JSON `null` for an empty chair list is not modelled. An empty sequence stands for both.
- The token caches' concurrency and the cache type `NewCache` are not modelled. Each cache is a map with Get and Set.
- An `errors.New` value is compared by its text. Go compares the addresses of the two error values. Only the `sql.ErrNoRows` sentinel is ever tested, so this difference does not matter here.
- The `context.WithValue` call and the `next` handler are an outcome value naming the context key and the entity.
- `internal_handlers.go`, `gotemplates` and `oteldbmysql.go` are outside the modelled core.
