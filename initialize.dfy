/**
 * `POST /api/initialize`: bind the request, rerun the database init script,
 * store the payment gateway URL, flush Redis, then rebuild the per-chair
 * distance counters and ride-count records, stopping at the first failure.
 */
module Initialize {
  import opened Base
  import opened Decimal
  import opened Entities
  import opened RedisStore
  import opened ChairDistance
  import opened Backfill
  import opened RideCountBackfill

  /** The `settings` table row that `postInitialize` updates. */
  class Settings {
    var paymentGatewayUrl: string

    constructor (url: string)
      ensures paymentGatewayUrl == url
    {
      paymentGatewayUrl := url;
    }

    /** `UPDATE settings SET value = ? WHERE name = 'payment_gateway_url'`; an unreachable database changes nothing. */
    method SetPaymentGatewayUrl(url: string, reachable: bool) returns (r: Outcome<StoreError>)
      modifies this
      ensures r == if reachable then Pass else Fail(Transport)
      ensures paymentGatewayUrl == if reachable then url else old(paymentGatewayUrl)
    {
      if !reachable {
        return Fail(Transport);
      }
      paymentGatewayUrl := url;
      return Pass;
    }
  }

  /** The decoded body of the request: `payment_server`. */
  datatype InitializeRequest = InitializeRequest(paymentServer: string)

  /** The tables the backfill reads once the init script has run. */
  datatype Database = Database(chairIds: seq<string>, log: seq<Location>, rides: seq<Ride>)

  /** Which external calls fail: the script, the database, Redis, and the writes of each backfill. */
  datatype Faults = Faults(
    scriptOk: bool,
    settingsReachable: bool,
    flushReachable: bool,
    distanceSelectOk: bool,
    incrDown: set<string>,
    setDown: set<string>,
    rideCountSelectOk: bool,
    rideCountSetDown: set<string>)

  function NoFaults(): Faults
  {
    Faults(true, true, true, true, {}, {}, true, {})
  }

  datatype Step = Bind | InitScript | UpdateSettings | FlushStore | BackfillDistances | BackfillRideCounts

  /** The fixed order of the handler's steps. */
  function AllSteps(): seq<Step>
  {
    [Bind, InitScript, UpdateSettings, FlushStore, BackfillDistances, BackfillRideCounts]
  }

  /** What the handler leaves behind: the payment gateway URL and the Redis contents. */
  datatype State = State(paymentGatewayUrl: string, kv: map<string, string>, rideCounts: map<string, RideCount>)

  /** The status code, the steps that completed, and the state afterwards. */
  datatype Reply = Reply(status: int, completed: seq<Step>, state: State)

  /** `postInitialize` as a function of the state before it. */
  function PostInitializeOf(s: State, req: Option<InitializeRequest>, db: Database, f: Faults): Reply
  {
    var steps := AllSteps();
    if req.None? then Reply(400, [], s)
    else if !f.scriptOk then Reply(500, steps[..1], s)
    else if !f.settingsReachable then Reply(500, steps[..2], s)
    else
      var configured := s.(paymentGatewayUrl := req.value.paymentServer);
      if !f.flushReachable then Reply(500, steps[..3], configured)
      else
        var distances := DistanceBackfill(map[], db.chairIds, db.log, f.distanceSelectOk, f.incrDown, f.setDown);
        var backfilled := configured.(kv := distances.kv, rideCounts := map[]);
        if distances.outcome.Fail? then Reply(500, steps[..4], backfilled)
        else
          var counts := RideCountBackfillOf(map[], db.rides, f.rideCountSelectOk, f.rideCountSetDown);
          var counted := backfilled.(rideCounts := counts.counts);
          if counts.outcome.Fail? then Reply(500, steps[..5], counted)
          else Reply(200, steps, counted)
  }

  /** The handler, over the settings row and the Redis store. */
  method PostInitialize(settings: Settings, store: CounterStore, req: Option<InitializeRequest>, db: Database, f: Faults)
    returns (status: int, completed: seq<Step>)
    modifies settings, store
    ensures Reply(status, completed, State(settings.paymentGatewayUrl, store.kv, store.rideCounts))
         == PostInitializeOf(State(old(settings.paymentGatewayUrl), old(store.kv), old(store.rideCounts)), req, db, f)
  {
    var steps := AllSteps();
    if req.None? {
      return 400, [];
    }
    if !f.scriptOk {
      return 500, steps[..1];
    }
    var updated := settings.SetPaymentGatewayUrl(req.value.paymentServer, f.settingsReachable);
    if updated.Fail? {
      return 500, steps[..2];
    }
    var flushed := store.FlushAll(f.flushReachable);
    if flushed.Fail? {
      return 500, steps[..3];
    }
    var distances := InitializeChairsTotalDistance(store, db.chairIds, db.log, f.distanceSelectOk, f.incrDown, f.setDown);
    if distances.Fail? {
      return 500, steps[..4];
    }
    var counts := InitializeChairsTotalRideCount(store, db.rides, f.rideCountSelectOk, f.rideCountSetDown);
    if counts.Fail? {
      return 500, steps[..5];
    }
    return 200, steps;
  }

  /**
   * The steps run in their fixed order and the first failure ends the
   * handler: only a bad request answers 400, every later failure answers
   * 500, and 200 comes exactly when all six steps completed.
   */
  lemma StatusFollowsSteps(s: State, req: Option<InitializeRequest>, db: Database, f: Faults)
    ensures var r := PostInitializeOf(s, req, db, f);
      && |r.completed| <= |AllSteps()|
      && r.completed == AllSteps()[..|r.completed|]
      && (r.status == 400 <==> req.None?)
      && (req.None? ==> r.completed == [])
      && (r.status == 200 <==> r.completed == AllSteps())
      && (r.status != 200 && r.status != 400 ==> r.status == 500)
  {
  }

  /** Steps that did not run left no trace: the URL changes only after the script, Redis only after the settings update. */
  lemma NothingChangesBeforeItsStep(s: State, req: Option<InitializeRequest>, db: Database, f: Faults)
    ensures var r := PostInitializeOf(s, req, db, f);
      && (UpdateSettings !in r.completed ==> r.state.paymentGatewayUrl == s.paymentGatewayUrl)
      && (UpdateSettings in r.completed ==> req.Some? && r.state.paymentGatewayUrl == req.value.paymentServer)
      && (!f.flushReachable || UpdateSettings !in r.completed ==> r.state.kv == s.kv && r.state.rideCounts == s.rideCounts)
  {
    var steps := AllSteps();
    assert steps[..1] == [Bind] && steps[..2] == [Bind, InitScript];
    assert steps[..3][2] == steps[..4][2] == steps[..5][2] == steps[2] == UpdateSettings;
  }

  /** Which step failed: each completed step met its condition and the first missing one did not. */
  lemma FirstFailureStops(s: State, req: Option<InitializeRequest>, db: Database, f: Faults)
    requires req.Some?
    ensures var r := PostInitializeOf(s, req, db, f);
      && (|r.completed| == 1 <==> !f.scriptOk)
      && (|r.completed| == 2 <==> f.scriptOk && !f.settingsReachable)
      && (|r.completed| == 3 <==> f.scriptOk && f.settingsReachable && !f.flushReachable)
      && (|r.completed| >= 4 ==> r.state.kv == DistanceBackfill(map[], db.chairIds, db.log, f.distanceSelectOk, f.incrDown, f.setDown).kv)
      && (|r.completed| == 4 ==> r.state.rideCounts == map[])
  {
  }

  /**
   * With nothing failing, the handler answers 200, stores the requested
   * URL, and leaves every chair's counters equal to the totals recomputed
   * from its location history and its ride-count record equal to the count
   * and sum of its evaluations, with no record for a chair never evaluated.
   */
  lemma InitializeRebuildsCounters(s: State, req: InitializeRequest, db: Database)
    requires Distinct(db.chairIds) && RowsFit(DistanceRows(db.chairIds, db.log))
    requires !HasUnassignedEvaluation(db.rides)
    ensures var r := PostInitializeOf(s, Some(req), db, NoFaults());
      && r.status == 200
      && r.state.paymentGatewayUrl == req.paymentServer
      && (forall id :: id in db.chairIds ==>
            && TotalDistanceKey(id) in r.state.kv
            && r.state.kv[TotalDistanceKey(id)] == FormatInt(RecomputedDistance(db.log, id))
            && UpdatedAtKey(id) in r.state.kv
            && r.state.kv[UpdatedAtKey(id)] == FormatInt(RecomputedUpdatedAt(db.log, id)))
      && (forall id :: id in r.state.rideCounts <==> exists i :: 0 <= i < |db.rides| && EvaluatedFor(db.rides[i], id))
      && (forall id :: id in r.state.rideCounts ==>
            r.state.rideCounts[id] == RideCount(EvaluatedCount(db.rides, id), EvaluationSum(db.rides, id)))
  {
    BackfillAfterFlush(db.chairIds, db.log, {}, {});
    RideCountsAfterFlush(db.rides, {});
  }
}
