/**
 * The ride-count half of the backfill run by `POST /api/initialize`: the
 * per-chair aggregate over evaluated rides that its SQL defines, and the
 * loop that writes one record per group.
 */
module RideCountBackfill {
  import opened Base
  import opened Entities
  import opened RedisStore
  import opened Backfill

  /** A ride takes part in the aggregate once it has been evaluated (`WHERE evaluation IS NOT NULL`). */
  predicate EvaluatedFor(ride: Ride, chairId: string)
  {
    ride.evaluation.Some? && ride.chairId == Some(chairId)
  }

  /** `COUNT(id)` over the evaluated rides of one chair. */
  function EvaluatedCount(rides: seq<Ride>, chairId: string): nat
  {
    if rides == [] then 0
    else
      var n := |rides| - 1;
      EvaluatedCount(rides[..n], chairId) + (if EvaluatedFor(rides[n], chairId) then 1 else 0)
  }

  /** `SUM(COALESCE(evaluation, 0))` over the evaluated rides of one chair. */
  function EvaluationSum(rides: seq<Ride>, chairId: string): int
  {
    if rides == [] then 0
    else
      var n := |rides| - 1;
      EvaluationSum(rides[..n], chairId) + (if EvaluatedFor(rides[n], chairId) then rides[n].evaluation.value else 0)
  }

  /** A chair's count is positive exactly when one of its rides is evaluated. */
  lemma {:induction false} EvaluatedCountPositive(rides: seq<Ride>, chairId: string)
    ensures EvaluatedCount(rides, chairId) > 0 <==> exists i :: 0 <= i < |rides| && EvaluatedFor(rides[i], chairId)
  {
    if rides != [] {
      var n := |rides| - 1;
      EvaluatedCountPositive(rides[..n], chairId);
      if exists i :: 0 <= i < |rides| && EvaluatedFor(rides[i], chairId) {
        var i :| 0 <= i < |rides| && EvaluatedFor(rides[i], chairId);
        if i < n {
          assert rides[..n][i] == rides[i];
        }
      }
      if exists i :: 0 <= i < n && EvaluatedFor(rides[..n][i], chairId) {
        var i :| 0 <= i < n && EvaluatedFor(rides[..n][i], chairId);
        assert rides[i] == rides[..n][i];
      }
    }
  }

  /**
   * The groups of `GROUP BY chair_id` that carry a chair id: every chair
   * with an evaluated ride, once, in the order of its first evaluated ride.
   */
  function EvaluatedChairs(rides: seq<Ride>): seq<string>
  {
    if rides == [] then []
    else
      var n := |rides| - 1;
      var prev := EvaluatedChairs(rides[..n]);
      var ride := rides[n];
      if ride.evaluation.Some? && ride.chairId.Some? && ride.chairId.value !in prev then prev + [ride.chairId.value]
      else prev
  }

  /** The groups are distinct and are exactly the chairs with a positive count. */
  lemma {:induction false} EvaluatedChairsSpec(rides: seq<Ride>)
    ensures Distinct(EvaluatedChairs(rides))
    ensures forall id :: id in EvaluatedChairs(rides) <==> EvaluatedCount(rides, id) > 0
  {
    if rides != [] {
      var n := |rides| - 1;
      EvaluatedChairsSpec(rides[..n]);
      var prev := EvaluatedChairs(rides[..n]);
      var ride := rides[n];
      if ride.evaluation.Some? && ride.chairId.Some? && ride.chairId.value !in prev {
        var ids := prev + [ride.chairId.value];
        assert forall k :: 0 <= k < |prev| ==> ids[k] == prev[k];
      }
    }
  }

  /** An evaluated ride with no chair forms a group whose NULL `chair_id` does not scan into a string. */
  predicate HasUnassignedEvaluation(rides: seq<Ride>)
  {
    exists i :: 0 <= i < |rides| && rides[i].evaluation.Some? && rides[i].chairId.None?
  }

  datatype RideCountRow = RideCountRow(chairId: string, totalRideCount: int, totalEvaluation: int)

  function RideCountRows(rides: seq<Ride>): (rows: seq<RideCountRow>)
    ensures |rows| == |EvaluatedChairs(rides)|
    ensures forall k :: 0 <= k < |rows| ==>
      var id := EvaluatedChairs(rides)[k];
      rows[k] == RideCountRow(id, EvaluatedCount(rides, id), EvaluationSum(rides, id))
  {
    var ids := EvaluatedChairs(rides);
    seq(|ids|, k requires 0 <= k < |ids| => RideCountRow(ids[k], EvaluatedCount(rides, ids[k]), EvaluationSum(rides, ids[k])))
  }

  /** The SELECT of `initializeChairsTotalRideCount`. */
  function RideCountSelect(rides: seq<Ride>, selectOk: bool): (r: Result<seq<RideCountRow>, BackfillError>)
    ensures r.Success? <==> selectOk && !HasUnassignedEvaluation(rides)
    ensures r.Success? ==> r.value == RideCountRows(rides)
    ensures r.Failure? ==> r.error == SelectFailed
  {
    if selectOk && !HasUnassignedEvaluation(rides) then Success(RideCountRows(rides)) else Failure(SelectFailed)
  }

  /** The ride-count records and the outcome after a sequence of writes. */
  datatype CountReplay = CountReplay(counts: map<string, RideCount>, outcome: Outcome<BackfillError>)

  /** The loop: one `setChairTotalRideCount` per row, in order, stopping at the first failed write. */
  function ReplayRideCounts(counts: map<string, RideCount>, rows: seq<RideCountRow>, setDown: set<string>): CountReplay
    decreases |rows|
  {
    if rows == [] then CountReplay(counts, Pass)
    else if rows[0].chairId in setDown then CountReplay(counts, Fail(WriteFailed(rows[0].chairId)))
    else
      var row := rows[0];
      ReplayRideCounts(counts[row.chairId := RideCount(row.totalRideCount, row.totalEvaluation)], rows[1..], setDown)
  }

  /** `initializeChairsTotalRideCount` as a function of the records before it. */
  function RideCountBackfillOf(counts: map<string, RideCount>, rides: seq<Ride>, selectOk: bool, setDown: set<string>): CountReplay
  {
    match RideCountSelect(rides, selectOk)
    case Failure(e) => CountReplay(counts, Fail(e))
    case Success(rows) => ReplayRideCounts(counts, rows, setDown)
  }

  /** No two rows are for the same chair. */
  predicate DistinctChairs(rows: seq<RideCountRow>)
  {
    forall i, j :: 0 <= i < j < |rows| ==> rows[i].chairId != rows[j].chairId
  }

  /** `chairId` is the chair of one of the rows. */
  predicate HasRowFor(rows: seq<RideCountRow>, chairId: string)
  {
    exists k :: 0 <= k < |rows| && rows[k].chairId == chairId
  }

  /**
   * Without a failed write, every row's chair ends up with exactly that
   * row's record (the writes are absolute overwrites), and records of other
   * chairs are left as they were.
   */
  lemma {:induction false} ReplayRideCountsWrites(counts: map<string, RideCount>, rows: seq<RideCountRow>, setDown: set<string>)
    requires DistinctChairs(rows)
    requires forall k :: 0 <= k < |rows| ==> rows[k].chairId !in setDown
    decreases |rows|
    ensures var r := ReplayRideCounts(counts, rows, setDown);
      && r.outcome.Pass?
      && (forall k :: 0 <= k < |rows| ==>
            rows[k].chairId in r.counts && r.counts[rows[k].chairId] == RideCount(rows[k].totalRideCount, rows[k].totalEvaluation))
      && (forall id :: !HasRowFor(rows, id) ==> (id in r.counts <==> id in counts) && (id in counts ==> r.counts[id] == counts[id]))
  {
    if rows != [] {
      var row := rows[0];
      var rest := rows[1..];
      var next := counts[row.chairId := RideCount(row.totalRideCount, row.totalEvaluation)];
      assert forall k :: 0 <= k < |rest| ==> rest[k] == rows[k + 1];
      assert DistinctChairs(rest);
      ReplayRideCountsWrites(next, rest, setDown);
      assert !HasRowFor(rest, row.chairId);
      forall id | !HasRowFor(rows, id)
        ensures !HasRowFor(rest, id) && id != row.chairId
      {
        assert rows[0].chairId == row.chairId;
      }
    }
  }

  /**
   * After FLUSHALL and with no failure, the records are exactly the chairs
   * with an evaluated ride, each holding its count and its sum of
   * evaluations; a chair without an evaluated ride has no record.
   */
  lemma RideCountsAfterFlush(rides: seq<Ride>, setDown: set<string>)
    requires !HasUnassignedEvaluation(rides)
    requires setDown == {}
    ensures var r := RideCountBackfillOf(map[], rides, true, setDown);
      && r.outcome.Pass?
      && (forall id :: id in r.counts <==> exists i :: 0 <= i < |rides| && EvaluatedFor(rides[i], id))
      && (forall id :: id in r.counts ==>
            r.counts[id] == RideCount(EvaluatedCount(rides, id), EvaluationSum(rides, id)) && r.counts[id].count > 0)
  {
    var rows := RideCountRows(rides);
    var ids := EvaluatedChairs(rides);
    EvaluatedChairsSpec(rides);
    assert forall k :: 0 <= k < |rows| ==> rows[k].chairId == ids[k];
    ReplayRideCountsWrites(map[], rows, setDown);
    var r := ReplayRideCounts(map[], rows, setDown);
    forall id
      ensures id in r.counts <==> exists i :: 0 <= i < |rides| && EvaluatedFor(rides[i], id)
      ensures id in r.counts ==> r.counts[id] == RideCount(EvaluatedCount(rides, id), EvaluationSum(rides, id))
    {
      EvaluatedCountPositive(rides, id);
      if id in ids {
        var k :| 0 <= k < |ids| && ids[k] == id;
        assert rows[k].chairId == id;
      }
    }
  }

  /** `initializeChairsTotalRideCount`: one SELECT, then one `setChairTotalRideCount` per group until one fails. */
  method InitializeChairsTotalRideCount(store: CounterStore, rides: seq<Ride>, selectOk: bool, setDown: set<string>)
    returns (r: Outcome<BackfillError>)
    modifies store
    ensures CountReplay(store.rideCounts, r) == RideCountBackfillOf(old(store.rideCounts), rides, selectOk, setDown)
    ensures store.kv == old(store.kv)
  {
    var selected := RideCountSelect(rides, selectOk);
    if selected.Failure? {
      return Fail(selected.error);
    }
    var rows := selected.value;
    var i := 0;
    while i < |rows|
      invariant 0 <= i <= |rows|
      invariant ReplayRideCounts(store.rideCounts, rows[i..], setDown) == ReplayRideCounts(old(store.rideCounts), rows, setDown)
      invariant store.kv == old(store.kv)
    {
      var row := rows[i];
      assert rows[i..][0] == row && rows[i..][1..] == rows[i + 1..];
      var written := store.SetRideCount(row.chairId, row.totalRideCount, row.totalEvaluation, row.chairId !in setDown);
      if written.Fail? {
        return Fail(WriteFailed(row.chairId));
      }
      i := i + 1;
    }
    return Pass;
  }
}
