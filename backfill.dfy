/**
 * The distance half of the backfill run by `POST /api/initialize`: the
 * aggregates its SQL defines over the location history, the per-chair write
 * loop, and what the owners' chair list reads afterwards.
 */
module Backfill {
  import opened Base
  import opened Decimal
  import opened Entities
  import opened RedisStore
  import opened ChairDistance

  // ---------------------------------------------------------------------
  // Distance aggregates over `chair_locations`
  // ---------------------------------------------------------------------

  /**
   * The `PARTITION BY chair_id` of one chair: its locations and no others,
   * in log order (the log is listed by `created_at`).
   */
  function Track(log: seq<Location>, chairId: string): (t: seq<Location>)
    ensures forall l :: l in t ==> l in log && l.chairId == chairId
    ensures |t| <= |log|
  {
    if log == [] then []
    else (if log[0].chairId == chairId then [log[0]] else []) + Track(log[1..], chairId)
  }

  /** Conversely, every location of the chair in the log is on its track. */
  lemma {:induction false} TrackComplete(log: seq<Location>, chairId: string)
    ensures forall i :: 0 <= i < |log| && log[i].chairId == chairId ==> log[i] in Track(log, chairId)
  {
    if log != [] {
      TrackComplete(log[1..], chairId);
      assert forall i :: 1 <= i < |log| ==> log[i] == log[1..][i - 1];
    }
  }

  /** The partition keeps the log's order: the track of a split log is the tracks of its parts, joined. */
  lemma {:induction false} TrackAppend(a: seq<Location>, b: seq<Location>, chairId: string)
    ensures Track(a + b, chairId) == Track(a, chairId) + Track(b, chairId)
  {
    if a == [] {
      assert a + b == b;
    } else {
      assert (a + b)[0] == a[0];
      assert (a + b)[1..] == a[1..] + b;
      TrackAppend(a[1..], b, chairId);
    }
  }

  /**
   * `SUM(COALESCE(ABS(lat - LAG(lat)) + ABS(lon - LAG(lon)), 0))` over one
   * chair's partition: the distance between each location and the one before
   * it; the first location has no predecessor and adds 0.
   */
  function PathDistance(track: seq<Location>): nat
  {
    if |track| <= 1 then 0
    else Manhattan(track[0].position, track[1].position) + PathDistance(track[1..])
  }

  /** Joining two tracks adds the step between them. */
  lemma {:induction false} PathDistanceAppend(a: seq<Location>, b: seq<Location>)
    requires a != [] && b != []
    ensures PathDistance(a + b) == PathDistance(a) + Manhattan(a[|a| - 1].position, b[0].position) + PathDistance(b)
  {
    if |a| == 1 {
      assert a + b == [a[0]] + b;
      assert (a + b)[1..] == b;
    } else {
      assert (a + b)[1..] == a[1..] + b;
      PathDistanceAppend(a[1..], b);
    }
  }

  /** A chair travels at least the distance between its first and last recorded positions. */
  lemma {:induction false} PathDistanceAtLeastDisplacement(track: seq<Location>)
    requires track != []
    ensures PathDistance(track) >= Manhattan(track[0].position, track[|track| - 1].position)
  {
    if |track| > 1 {
      PathDistanceAtLeastDisplacement(track[1..]);
      ManhattanTriangle(track[0].position, track[1].position, track[|track| - 1].position);
    }
  }

  /** `MAX(created_at)` over one chair's partition. */
  function LatestAt(track: seq<Location>): (t: int)
    requires track != []
    ensures forall l :: l in track ==> l.createdAt <= t
    ensures exists l :: l in track && l.createdAt == t
  {
    if |track| == 1 then track[0].createdAt
    else
      var rest := LatestAt(track[1..]);
      if track[0].createdAt >= rest then track[0].createdAt else rest
  }

  predicate Chronological(track: seq<Location>)
  {
    forall i, j :: 0 <= i < j < |track| ==> track[i].createdAt <= track[j].createdAt
  }

  /** In a chronological track the latest timestamp is that of the last location. */
  lemma LatestAtIsLast(track: seq<Location>)
    requires track != [] && Chronological(track)
    ensures LatestAt(track) == track[|track| - 1].createdAt
  {
    if |track| > 1 {
      assert Chronological(track[1..]) by {
        assert forall i :: 0 <= i < |track| - 1 ==> track[1..][i] == track[i + 1];
      }
      LatestAtIsLast(track[1..]);
    }
  }

  /** The `distance_table` row a chair is LEFT JOINed with; both columns are NULL for a chair with no location. */
  datatype DistanceRow = DistanceRow(chairId: string, totalDistance: Option<int>, updatedAt: Option<int>)

  function DistanceRowOf(log: seq<Location>, chairId: string): (r: DistanceRow)
    ensures r.chairId == chairId
    ensures r.totalDistance.None? <==> Track(log, chairId) == []
    ensures r.updatedAt.None? <==> Track(log, chairId) == []
  {
    var t := Track(log, chairId);
    if t == [] then DistanceRow(chairId, None, None)
    else DistanceRow(chairId, Some(PathDistance(t)), Some(LatestAt(t)))
  }

  /** The result of the backfill SELECT: one row per chair, in the order of `chairs`. */
  function DistanceRows(chairIds: seq<string>, log: seq<Location>): (rows: seq<DistanceRow>)
    ensures |rows| == |chairIds|
    ensures forall k :: 0 <= k < |chairIds| ==> rows[k] == DistanceRowOf(log, chairIds[k])
  {
    seq(|chairIds|, k requires 0 <= k < |chairIds| => DistanceRowOf(log, chairIds[k]))
  }

  /** The NULL-to-zero conversion of the loop. */
  function RowDistance(row: DistanceRow): int
  {
    if row.totalDistance.Some? then row.totalDistance.value else 0
  }

  function RowUpdatedAt(row: DistanceRow): int
  {
    if row.updatedAt.Some? then row.updatedAt.value else 0
  }

  /** A row scans into the loop's int64 columns. */
  predicate RowFits(row: DistanceRow)
  {
    IsInt64(RowDistance(row)) && IsInt64(RowUpdatedAt(row))
  }

  predicate RowsFit(rows: seq<DistanceRow>)
  {
    forall k :: 0 <= k < |rows| ==> RowFits(rows[k])
  }

  function RowIds(rows: seq<DistanceRow>): (ids: seq<string>)
    ensures |ids| == |rows| && forall k :: 0 <= k < |rows| ==> ids[k] == rows[k].chairId
  {
    seq(|rows|, k requires 0 <= k < |rows| => rows[k].chairId)
  }

  datatype BackfillError = SelectFailed | AddFailed(chairId: string, cause: AddError) | WriteFailed(chairId: string)

  /** The store and the outcome after a sequence of per-chair writes. */
  datatype Replay = Replay(kv: map<string, string>, outcome: Outcome<BackfillError>)

  /**
   * The loop of `initializeChairsTotalDistance`: one `addChairTotalDistance`
   * per row, in order, stopping at the first failed write.
   */
  function ReplayDistances(kv: map<string, string>, rows: seq<DistanceRow>,
                           incrDown: set<string>, setDown: set<string>): Replay
    requires RowsFit(rows)
    decreases |rows|
  {
    if rows == [] then Replay(kv, Pass)
    else
      var row := rows[0];
      var r := AddTotalDistance(kv, row.chairId, RowDistance(row), RowUpdatedAt(row),
                                row.chairId !in incrDown, row.chairId !in setDown);
      if r.outcome.Fail? then Replay(r.kv, Fail(AddFailed(row.chairId, r.outcome.error)))
      else ReplayDistances(r.kv, rows[1..], incrDown, setDown)
  }

  /**
   * Writes are applied one chair after the other: replaying `a + b` is
   * replaying `a`, then, only if that succeeded, `b` on its result. So a
   * failure leaves every earlier chair's writes in the store.
   */
  lemma {:induction false} ReplayDistancesAppend(kv: map<string, string>, a: seq<DistanceRow>, b: seq<DistanceRow>,
                                                 incrDown: set<string>, setDown: set<string>)
    requires RowsFit(a) && RowsFit(b)
    decreases |a|
    ensures RowsFit(a + b)
    ensures var ra := ReplayDistances(kv, a, incrDown, setDown);
      ReplayDistances(kv, a + b, incrDown, setDown)
        == if ra.outcome.Pass? then ReplayDistances(ra.kv, b, incrDown, setDown) else ra
  {
    assert forall k :: 0 <= k < |a + b| ==> (a + b)[k] == if k < |a| then a[k] else b[k - |a|];
    if a != [] {
      assert (a + b)[0] == a[0];
      assert (a + b)[1..] == a[1..] + b;
      var row := a[0];
      var r := AddTotalDistance(kv, row.chairId, RowDistance(row), RowUpdatedAt(row),
                                row.chairId !in incrDown, row.chairId !in setDown);
      if r.outcome.Pass? {
        ReplayDistancesAppend(r.kv, a[1..], b, incrDown, setDown);
      }
    } else {
      assert a + b == b;
    }
  }

  /** The two counter keys of every chair in `ids`. */
  ghost predicate IsCounterKeyOf(key: string, ids: seq<string>)
  {
    exists k :: 0 <= k < |ids| && (key == TotalDistanceKey(ids[k]) || key == UpdatedAtKey(ids[k]))
  }

  /** `a` and `b` hold the same keys and values outside the counters of `ids`. */
  ghost predicate AgreeOutside(a: map<string, string>, b: map<string, string>, ids: seq<string>)
  {
    forall key :: !IsCounterKeyOf(key, ids) ==> (key in a <==> key in b) && (key in a ==> a[key] == b[key])
  }

  /** Whatever its outcome, the backfill writes only the counter keys of the chairs it visits. */
  lemma {:induction false} ReplayFrame(kv: map<string, string>, rows: seq<DistanceRow>,
                                       incrDown: set<string>, setDown: set<string>)
    requires RowsFit(rows)
    decreases |rows|
    ensures AgreeOutside(ReplayDistances(kv, rows, incrDown, setDown).kv, kv, RowIds(rows))
  {
    if rows != [] {
      var row := rows[0];
      var id := row.chairId;
      var step := AddTotalDistance(kv, id, RowDistance(row), RowUpdatedAt(row), id !in incrDown, id !in setDown);
      var rest := rows[1..];
      assert RowsFit(rest) by {
        assert forall k :: 0 <= k < |rest| ==> rest[k] == rows[k + 1];
      }
      ReplayFrame(step.kv, rest, incrDown, setDown);
      forall key | !IsCounterKeyOf(key, RowIds(rows))
        ensures !IsCounterKeyOf(key, RowIds(rest))
        ensures key != TotalDistanceKey(id) && key != UpdatedAtKey(id)
        ensures (key in step.kv <==> key in kv) && (key in kv ==> step.kv[key] == kv[key])
      {
        assert RowIds(rows)[0] == id;
      }
    }
  }

  /** The distance counter of a chair as an integer, 0 when absent or unreadable. */
  function Prior(kv: map<string, string>, chairId: string): int
  {
    var n := StoredInteger(kv, TotalDistanceKey(chairId));
    if n.Some? then n.value else 0
  }

  /** The per-chair precondition of `ReplayAdds`: the counter reads as an integer and the sum fits. */
  predicate CanAdd(kv: map<string, string>, row: DistanceRow)
  {
    && StoredInteger(kv, TotalDistanceKey(row.chairId)).Some?
    && IsInt64(Prior(kv, row.chairId) + RowDistance(row))
  }

  /** Chair `chairId` has both counter keys, holding `total` and `stamp`. */
  ghost predicate Holds(kv: map<string, string>, chairId: string, total: int, stamp: int)
  {
    && TotalDistanceKey(chairId) in kv && kv[TotalDistanceKey(chairId)] == FormatInt(total)
    && UpdatedAtKey(chairId) in kv && kv[UpdatedAtKey(chairId)] == FormatInt(stamp)
  }

  /** Chair `row.chairId` holds its counters as `AddTotalDistance` leaves them after adding `row` to `before`. */
  ghost predicate HoldsAdded(after: map<string, string>, before: map<string, string>, row: DistanceRow)
  {
    Holds(after, row.chairId, Prior(before, row.chairId) + RowDistance(row), RowUpdatedAt(row))
  }

  /** Writes to other chairs' counters leave a chair's counters as they were. */
  lemma KeepsHolds(after: map<string, string>, before: map<string, string>, ids: seq<string>,
                   chairId: string, total: int, stamp: int)
    requires AgreeOutside(after, before, ids) && Holds(before, chairId, total, stamp)
    requires !IsCounterKeyOf(TotalDistanceKey(chairId), ids) && !IsCounterKeyOf(UpdatedAtKey(chairId), ids)
    ensures Holds(after, chairId, total, stamp)
  {
  }

  /** Adding one row when both writes are reachable. */
  lemma AddRow(kv: map<string, string>, row: DistanceRow)
    requires RowFits(row) && CanAdd(kv, row)
    ensures var step := AddTotalDistance(kv, row.chairId, RowDistance(row), RowUpdatedAt(row), true, true);
      && step.outcome.Pass?
      && HoldsAdded(step.kv, kv, row)
  {
    KeysDisjoint(row.chairId, row.chairId);
  }

  /** The counter keys of a chair are none of the counter keys of other chairs. */
  lemma NotCounterKeyOfOthers(id: string, ids: seq<string>)
    requires id !in ids
    ensures !IsCounterKeyOf(TotalDistanceKey(id), ids) && !IsCounterKeyOf(UpdatedAtKey(id), ids)
  {
    forall k | 0 <= k < |ids|
      ensures TotalDistanceKey(id) != TotalDistanceKey(ids[k]) && TotalDistanceKey(id) != UpdatedAtKey(ids[k])
      ensures UpdatedAtKey(id) != TotalDistanceKey(ids[k]) && UpdatedAtKey(id) != UpdatedAtKey(ids[k])
    {
      assert ids[k] != id;
      if TotalDistanceKey(ids[k]) == TotalDistanceKey(id) { TotalDistanceKeyInjective(ids[k], id); }
      if UpdatedAtKey(ids[k]) == UpdatedAtKey(id) { UpdatedAtKeyInjective(ids[k], id); }
      KeysDisjoint(ids[k], id);
      KeysDisjoint(id, ids[k]);
    }
  }

  /** The first write of a fault-free run: the chair written, and the rows left. */
  function FirstStep(kv: map<string, string>, rows: seq<DistanceRow>, incrDown: set<string>, setDown: set<string>): AddResult
    requires rows != [] && RowsFit(rows)
  {
    AddTotalDistance(kv, rows[0].chairId, RowDistance(rows[0]), RowUpdatedAt(rows[0]),
                     rows[0].chairId !in incrDown, rows[0].chairId !in setDown)
  }

  /** The first write of `ReplayAdds`, and what it leaves for the other chairs. */
  lemma AddFirstRow(kv: map<string, string>, rows: seq<DistanceRow>, incrDown: set<string>, setDown: set<string>)
    requires rows != [] && RowsFit(rows) && Distinct(RowIds(rows))
    requires forall k :: 0 <= k < |rows| ==> CanAdd(kv, rows[k])
    requires rows[0].chairId !in incrDown && rows[0].chairId !in setDown
    ensures var step := FirstStep(kv, rows, incrDown, setDown);
      && step.outcome.Pass?
      && HoldsAdded(step.kv, kv, rows[0])
      && !IsCounterKeyOf(TotalDistanceKey(rows[0].chairId), RowIds(rows[1..]))
      && !IsCounterKeyOf(UpdatedAtKey(rows[0].chairId), RowIds(rows[1..]))
      && RowsFit(rows[1..]) && Distinct(RowIds(rows[1..]))
      && forall k :: 0 <= k < |rows| - 1 ==>
           CanAdd(step.kv, rows[1..][k]) && Prior(step.kv, rows[1..][k].chairId) == Prior(kv, rows[1..][k].chairId)
  {
    var row := rows[0];
    var id := row.chairId;
    AddRow(kv, row);
    var kv1 := FirstStep(kv, rows, incrDown, setDown).kv;
    assert kv1 == AddTotalDistance(kv, id, RowDistance(row), RowUpdatedAt(row), true, true).kv;
    var rest := rows[1..];
    var ids := RowIds(rest);
    assert forall k :: 0 <= k < |rest| ==> rest[k] == rows[k + 1] && ids[k] == RowIds(rows)[k + 1];
    assert id !in ids by {
      assert RowIds(rows)[0] == id;
    }
    NotCounterKeyOfOthers(id, ids);
    assert RowIds([row]) == [id];
    ReplayFrame(kv, [row], {}, {});
    assert AgreeOutside(kv1, kv, [id]);
    forall k | 0 <= k < |rest|
      ensures CanAdd(kv1, rest[k]) && Prior(kv1, rest[k].chairId) == Prior(kv, rest[k].chairId)
    {
      NotCounterKeyOfOthers(rest[k].chairId, [id]);
    }
  }

  /** Every row's chair holds its counters as adding the row to `before` leaves them. */
  ghost predicate AllAdded(after: map<string, string>, before: map<string, string>, rows: seq<DistanceRow>)
  {
    forall k :: 0 <= k < |rows| ==> HoldsAdded(after, before, rows[k])
  }

  lemma AllAddedCons(after: map<string, string>, before: map<string, string>, mid: map<string, string>, rows: seq<DistanceRow>)
    requires rows != [] && HoldsAdded(after, before, rows[0]) && AllAdded(after, mid, rows[1..])
    requires forall k :: 0 <= k < |rows| - 1 ==> Prior(mid, rows[1..][k].chairId) == Prior(before, rows[1..][k].chairId)
    ensures AllAdded(after, before, rows)
  {
    forall k | 0 < k < |rows|
      ensures HoldsAdded(after, before, rows[k])
    {
      assert rows[1..][k - 1] == rows[k];
      assert HoldsAdded(after, mid, rows[1..][k - 1]);
    }
  }

  /**
   * With every write reachable and distinct chairs whose counters can take
   * the addition, the backfill succeeds, each chair's distance counter rises
   * by its recomputed distance and its updated-at key holds the latest
   * timestamp.
   */
  lemma {:induction false} ReplayAdds(kv: map<string, string>, rows: seq<DistanceRow>,
                                      incrDown: set<string>, setDown: set<string>)
    requires RowsFit(rows) && Distinct(RowIds(rows))
    requires forall k :: 0 <= k < |rows| ==> CanAdd(kv, rows[k])
    requires forall k :: 0 <= k < |rows| ==> rows[k].chairId !in incrDown && rows[k].chairId !in setDown
    decreases |rows|
    ensures var r := ReplayDistances(kv, rows, incrDown, setDown);
      r.outcome.Pass? && AllAdded(r.kv, kv, rows)
  {
    if rows != [] {
      var row := rows[0];
      AddFirstRow(kv, rows, incrDown, setDown);
      var kv1 := FirstStep(kv, rows, incrDown, setDown).kv;
      var rest := rows[1..];
      assert ReplayDistances(kv, rows, incrDown, setDown) == ReplayDistances(kv1, rest, incrDown, setDown);
      assert forall k :: 0 <= k < |rest| ==> rest[k] == rows[k + 1];
      ReplayAdds(kv1, rest, incrDown, setDown);
      ReplayFrame(kv1, rest, incrDown, setDown);
      var r := ReplayDistances(kv1, rest, incrDown, setDown);
      KeepsHolds(r.kv, kv1, RowIds(rest), row.chairId, Prior(kv, row.chairId) + RowDistance(row), RowUpdatedAt(row));
      AllAddedCons(r.kv, kv, kv1, rows);
    }
  }

  /**
   * The SELECT of `initializeChairsTotalDistance`: it fails when the database
   * does, or when a sum or a timestamp does not scan into an int64 column.
   */
  function DistanceSelect(chairIds: seq<string>, log: seq<Location>, selectOk: bool): (r: Result<seq<DistanceRow>, BackfillError>)
    ensures r.Success? <==> selectOk && RowsFit(DistanceRows(chairIds, log))
    ensures r.Success? ==> r.value == DistanceRows(chairIds, log)
    ensures r.Failure? ==> r.error == SelectFailed
  {
    var rows := DistanceRows(chairIds, log);
    if selectOk && RowsFit(rows) then Success(rows) else Failure(SelectFailed)
  }

  /** `initializeChairsTotalDistance` as a function of the store before it. */
  function DistanceBackfill(kv: map<string, string>, chairIds: seq<string>, log: seq<Location>, selectOk: bool,
                            incrDown: set<string>, setDown: set<string>): Replay
  {
    match DistanceSelect(chairIds, log, selectOk)
    case Failure(e) => Replay(kv, Fail(e))
    case Success(rows) => ReplayDistances(kv, rows, incrDown, setDown)
  }

  lemma RowsFitSuffix(rows: seq<DistanceRow>, i: nat)
    requires RowsFit(rows) && i < |rows|
    ensures RowsFit(rows[i..]) && RowFits(rows[i]) && rows[i..][0] == rows[i] && rows[i..][1..] == rows[i + 1..]
  {
    assert forall k :: 0 <= k < |rows| - i ==> rows[i..][k] == rows[i + k];
  }

  /** `initializeChairsTotalDistance`: one SELECT, then one `addChairTotalDistance` per chair until one fails. */
  method InitializeChairsTotalDistance(store: CounterStore, chairIds: seq<string>, log: seq<Location>, selectOk: bool,
                                       incrDown: set<string>, setDown: set<string>)
    returns (r: Outcome<BackfillError>)
    modifies store
    ensures Replay(store.kv, r) == DistanceBackfill(old(store.kv), chairIds, log, selectOk, incrDown, setDown)
    ensures store.rideCounts == old(store.rideCounts)
  {
    var selected := DistanceSelect(chairIds, log, selectOk);
    if selected.Failure? {
      return Fail(selected.error);
    }
    var rows := selected.value;
    var i := 0;
    while i < |rows|
      invariant 0 <= i <= |rows|
      invariant RowsFit(rows[i..])
      invariant ReplayDistances(store.kv, rows[i..], incrDown, setDown)
             == ReplayDistances(old(store.kv), rows, incrDown, setDown)
      invariant store.rideCounts == old(store.rideCounts)
    {
      RowsFitSuffix(rows, i);
      var row := rows[i];
      var added := AddChairTotalDistance(store, row.chairId, RowDistance(row), RowUpdatedAt(row),
                                         row.chairId !in incrDown, row.chairId !in setDown);
      if added.Fail? {
        return Fail(AddFailed(row.chairId, added.error));
      }
      i := i + 1;
    }
    return Pass;
  }

  /** The distance a chair's counter should hold: the length of its track, 0 with no location. */
  function RecomputedDistance(log: seq<Location>, chairId: string): (d: nat)
    ensures Track(log, chairId) == [] ==> d == 0
    ensures Track(log, chairId) != [] ==> d == PathDistance(Track(log, chairId))
  {
    RowDistance(DistanceRowOf(log, chairId))
  }

  /** The updated-at stamp a chair's counter should carry: its latest location, 0 with no location. */
  function RecomputedUpdatedAt(log: seq<Location>, chairId: string): (t: int)
    ensures Track(log, chairId) == [] ==> t == 0
    ensures Track(log, chairId) != [] ==> t == LatestAt(Track(log, chairId))
  {
    RowUpdatedAt(DistanceRowOf(log, chairId))
  }

  lemma RowIdsOfDistanceRows(chairIds: seq<string>, log: seq<Location>)
    ensures RowIds(DistanceRows(chairIds, log)) == chairIds
  {
  }

  /**
   * After FLUSHALL, with every write reachable, the backfill succeeds and
   * every chair, with or without locations, has both keys set: its
   * recomputed distance and its latest location time.
   */
  lemma BackfillAfterFlush(chairIds: seq<string>, log: seq<Location>,
                           incrDown: set<string>, setDown: set<string>)
    requires Distinct(chairIds) && RowsFit(DistanceRows(chairIds, log))
    requires forall id :: id in chairIds ==> id !in incrDown && id !in setDown
    ensures var r := DistanceBackfill(map[], chairIds, log, true, incrDown, setDown);
      && r.outcome.Pass?
      && forall id :: id in chairIds ==>
           && TotalDistanceKey(id) in r.kv && r.kv[TotalDistanceKey(id)] == FormatInt(RecomputedDistance(log, id))
           && UpdatedAtKey(id) in r.kv && r.kv[UpdatedAtKey(id)] == FormatInt(RecomputedUpdatedAt(log, id))
  {
    var rows := DistanceRows(chairIds, log);
    RowIdsOfDistanceRows(chairIds, log);
    assert forall k :: 0 <= k < |rows| ==> Prior(map[], rows[k].chairId) == 0 && CanAdd(map[], rows[k]);
    ReplayAdds(map[], rows, incrDown, setDown);
    forall id | id in chairIds
      ensures HoldsAdded(ReplayDistances(map[], rows, incrDown, setDown).kv, map[], DistanceRowOf(log, id))
    {
      var k :| 0 <= k < |chairIds| && chairIds[k] == id;
      assert rows[k] == DistanceRowOf(log, id);
    }
  }

  /** Counters written once from a flushed store read back as the distances written, with room for one more. */
  lemma AddedOnceReadsBack(kv: map<string, string>, rows: seq<DistanceRow>)
    requires AllAdded(kv, map[], rows)
    requires forall k :: 0 <= k < |rows| ==> IsInt64(2 * RowDistance(rows[k]))
    ensures forall k :: 0 <= k < |rows| ==> Prior(kv, rows[k].chairId) == RowDistance(rows[k]) && CanAdd(kv, rows[k])
  {
    forall k | 0 <= k < |rows|
      ensures Prior(kv, rows[k].chairId) == RowDistance(rows[k]) && CanAdd(kv, rows[k])
    {
      assert HoldsAdded(kv, map[], rows[k]);
      RedisIntegerFormat(RowDistance(rows[k]));
    }
  }

  /** After one fault-free run from a flushed store, each counter reads as its row's distance and can take it again. */
  lemma ReplayOnceReadsBack(rows: seq<DistanceRow>, incrDown: set<string>, setDown: set<string>)
    requires RowsFit(rows) && Distinct(RowIds(rows))
    requires forall k :: 0 <= k < |rows| ==> rows[k].chairId !in incrDown && rows[k].chairId !in setDown
    requires forall k :: 0 <= k < |rows| ==> IsInt64(2 * RowDistance(rows[k]))
    ensures var once := ReplayDistances(map[], rows, incrDown, setDown);
      forall k :: 0 <= k < |rows| ==> Prior(once.kv, rows[k].chairId) == RowDistance(rows[k]) && CanAdd(once.kv, rows[k])
  {
    assert forall k :: 0 <= k < |rows| ==> Prior(map[], rows[k].chairId) == 0 && CanAdd(map[], rows[k]);
    ReplayAdds(map[], rows, incrDown, setDown);
    AddedOnceReadsBack(ReplayDistances(map[], rows, incrDown, setDown).kv, rows);
  }

  /** Two fault-free runs over the same rows from a flushed store: each counter holds twice its row's distance. */
  lemma ReplayTwice(rows: seq<DistanceRow>, incrDown: set<string>, setDown: set<string>)
    requires RowsFit(rows) && Distinct(RowIds(rows))
    requires forall k :: 0 <= k < |rows| ==> rows[k].chairId !in incrDown && rows[k].chairId !in setDown
    requires forall k :: 0 <= k < |rows| ==> IsInt64(2 * RowDistance(rows[k]))
    ensures var once := ReplayDistances(map[], rows, incrDown, setDown);
      var twice := ReplayDistances(once.kv, rows, incrDown, setDown);
      && twice.outcome.Pass?
      && forall k :: 0 <= k < |rows| ==>
           TotalDistanceKey(rows[k].chairId) in twice.kv && twice.kv[TotalDistanceKey(rows[k].chairId)] == FormatInt(2 * RowDistance(rows[k]))
  {
    ReplayOnceReadsBack(rows, incrDown, setDown);
    var once := ReplayDistances(map[], rows, incrDown, setDown);
    ReplayAdds(once.kv, rows, incrDown, setDown);
    var twice := ReplayDistances(once.kv, rows, incrDown, setDown);
    forall k | 0 <= k < |rows|
      ensures TotalDistanceKey(rows[k].chairId) in twice.kv
      ensures twice.kv[TotalDistanceKey(rows[k].chairId)] == FormatInt(2 * RowDistance(rows[k]))
    {
      assert HoldsAdded(twice.kv, once.kv, rows[k]);
    }
  }

  /**
   * The backfill adds to the counters: run a second time without FLUSHALL,
   * each chair's distance counter holds twice its distance.
   */
  lemma BackfillTwiceDoubles(chairIds: seq<string>, log: seq<Location>,
                             incrDown: set<string>, setDown: set<string>)
    requires Distinct(chairIds) && RowsFit(DistanceRows(chairIds, log))
    requires forall id :: id in chairIds ==> id !in incrDown && id !in setDown
    requires forall id :: id in chairIds ==> IsInt64(2 * RecomputedDistance(log, id))
    ensures var once := DistanceBackfill(map[], chairIds, log, true, incrDown, setDown);
      var twice := DistanceBackfill(once.kv, chairIds, log, true, incrDown, setDown);
      && twice.outcome.Pass?
      && forall id :: id in chairIds ==>
           && TotalDistanceKey(id) in twice.kv
           && twice.kv[TotalDistanceKey(id)] == FormatInt(2 * RecomputedDistance(log, id))
  {
    var rows := DistanceRows(chairIds, log);
    RowIdsOfDistanceRows(chairIds, log);
    assert forall k :: 0 <= k < |rows| ==> rows[k].chairId == chairIds[k] && RowDistance(rows[k]) == RecomputedDistance(log, chairIds[k]);
    ReplayTwice(rows, incrDown, setDown);
    forall id | id in chairIds
      ensures exists k :: 0 <= k < |rows| && rows[k].chairId == id
    {
      var k :| 0 <= k < |chairIds| && chairIds[k] == id;
      assert rows[k].chairId == id;
    }
  }

  /** A pair written by `addChairTotalDistance` decodes to the values written. */
  lemma ReadPair(chairId: string, distance: int, updatedAtMilli: int)
    requires IsInt64(distance) && IsInt64(updatedAtMilli)
    ensures DecodePair(chairId, FormatInt(distance), Some(FormatInt(updatedAtMilli)))
         == Success(ChairTotalDistance(chairId, distance, updatedAtMilli))
  {
    ParseFormat(distance);
    ParseFormat(updatedAtMilli);
  }

  /** The MGET slots of chairs whose counters hold `distance(id)` and `updatedAt(id)` decode to those values. */
  lemma SlotsDecode(kv: map<string, string>, chairIds: seq<string>, distance: string -> int, updatedAt: string -> int)
    requires forall id :: id in chairIds ==>
      && IsInt64(distance(id)) && IsInt64(updatedAt(id))
      && TotalDistanceKey(id) in kv && kv[TotalDistanceKey(id)] == FormatInt(distance(id))
      && UpdatedAtKey(id) in kv && kv[UpdatedAtKey(id)] == FormatInt(updatedAt(id))
    ensures var vals := MGetValues(kv, DistanceKeys(chairIds));
      forall k :: 0 <= k < |chairIds| ==>
        && vals[2 * k].Some?
        && DecodePair(chairIds[k], vals[2 * k].value, vals[2 * k + 1])
           == Success(ChairTotalDistance(chairIds[k], distance(chairIds[k]), updatedAt(chairIds[k])))
  {
    var vals := MGetValues(kv, DistanceKeys(chairIds));
    forall k | 0 <= k < |chairIds|
      ensures vals[2 * k].Some?
      ensures DecodePair(chairIds[k], vals[2 * k].value, vals[2 * k + 1])
           == Success(ChairTotalDistance(chairIds[k], distance(chairIds[k]), updatedAt(chairIds[k])))
    {
      var id := chairIds[k];
      assert id in chairIds;
      ReadPair(id, distance(id), updatedAt(id));
    }
  }

  /** A store whose counters hold `distance(id)` and `updatedAt(id)` for each chair reads back as those values. */
  lemma ReadBackCounters(kv: map<string, string>, chairIds: seq<string>, distance: string -> int, updatedAt: string -> int)
    requires Distinct(chairIds)
    requires forall id :: id in chairIds ==>
      && IsInt64(distance(id)) && IsInt64(updatedAt(id))
      && TotalDistanceKey(id) in kv && kv[TotalDistanceKey(id)] == FormatInt(distance(id))
      && UpdatedAtKey(id) in kv && kv[UpdatedAtKey(id)] == FormatInt(updatedAt(id))
    ensures var read := DecodeTotalDistances(chairIds, MGetValues(kv, DistanceKeys(chairIds)));
      && read.Success?
      && (forall id :: id in read.value <==> id in chairIds)
      && forall id :: id in chairIds ==> read.value[id] == ChairTotalDistance(id, distance(id), updatedAt(id))
  {
    var vals := MGetValues(kv, DistanceKeys(chairIds));
    SlotsDecode(kv, chairIds, distance, updatedAt);
    DecodeTotalDistancesSpec(chairIds, vals);
    var read := DecodeTotalDistances(chairIds, vals);
    forall k | 0 <= k < |chairIds|
      ensures !BadPair(chairIds, vals, k)
    {
    }
    forall id | id in chairIds
      ensures id in read.value
      ensures read.value[id] == ChairTotalDistance(id, distance(id), updatedAt(id))
    {
      var k :| 0 <= k < |chairIds| && chairIds[k] == id;
    }
    forall id | id in read.value
      ensures id in chairIds
    {
      assert id in (set k | 0 <= k < |chairIds| :: chairIds[k]);
    }
  }

  /**
   * What the owners' chair list reads after a backfill on a flushed store:
   * every chair decodes, to its recomputed distance and latest location time.
   */
  lemma BackfillThenRead(chairIds: seq<string>, log: seq<Location>,
                         incrDown: set<string>, setDown: set<string>)
    requires Distinct(chairIds) && RowsFit(DistanceRows(chairIds, log))
    requires forall id :: id in chairIds ==> id !in incrDown && id !in setDown
    ensures var kv := DistanceBackfill(map[], chairIds, log, true, incrDown, setDown).kv;
      var read := DecodeTotalDistances(chairIds, MGetValues(kv, DistanceKeys(chairIds)));
      && read.Success?
      && (forall id :: id in read.value <==> id in chairIds)
      && forall id :: id in chairIds ==> read.value[id] == ChairTotalDistance(id, RecomputedDistance(log, id), RecomputedUpdatedAt(log, id))
  {
    BackfillAfterFlush(chairIds, log, incrDown, setDown);
    var distance := (id: string) => RecomputedDistance(log, id);
    var updatedAt := (id: string) => RecomputedUpdatedAt(log, id);
    var rows := DistanceRows(chairIds, log);
    forall id | id in chairIds
      ensures IsInt64(distance(id)) && IsInt64(updatedAt(id))
    {
      var k :| 0 <= k < |chairIds| && chairIds[k] == id;
      assert RowFits(rows[k]);
    }
    ReadBackCounters(DistanceBackfill(map[], chairIds, log, true, incrDown, setDown).kv, chairIds, distance, updatedAt);
  }

  /** `ReplayDistancesAppend` at the split of `rows` before row `j`. */
  lemma ReplaySplitAt(kv: map<string, string>, rows: seq<DistanceRow>, j: nat, incrDown: set<string>, setDown: set<string>)
    requires RowsFit(rows) && j < |rows|
    ensures RowsFit(rows[..j]) && RowsFit(rows[j..]) && rows[j..] != [] && rows[j..][0] == rows[j]
    ensures var ra := ReplayDistances(kv, rows[..j], incrDown, setDown);
      ReplayDistances(kv, rows, incrDown, setDown)
        == if ra.outcome.Pass? then ReplayDistances(ra.kv, rows[j..], incrDown, setDown) else ra
  {
    assert rows == rows[..j] + rows[j..];
    RowsFitSuffix(rows, j);
    ReplayDistancesAppend(kv, rows[..j], rows[j..], incrDown, setDown);
  }

  /** An unreachable INCRBY on the first chair ends the run with nothing written. */
  lemma ReplayFailsFirst(kv: map<string, string>, rows: seq<DistanceRow>, incrDown: set<string>, setDown: set<string>)
    requires RowsFit(rows) && rows != [] && rows[0].chairId in incrDown
    ensures ReplayDistances(kv, rows, incrDown, setDown) == Replay(kv, Fail(AddFailed(rows[0].chairId, IncrFailed(Transport))))
  {
  }

  /** A fault-free run over the first `j` rows on a flushed store writes those chairs and no others. */
  lemma ReplayPrefixFromEmpty(rows: seq<DistanceRow>, j: nat, incrDown: set<string>, setDown: set<string>)
    requires RowsFit(rows) && Distinct(RowIds(rows)) && j <= |rows|
    requires forall k :: 0 <= k < j ==> rows[k].chairId !in incrDown && rows[k].chairId !in setDown
    ensures RowsFit(rows[..j])
    ensures var mid := ReplayDistances(map[], rows[..j], incrDown, setDown);
      && mid.outcome.Pass?
      && (forall k :: 0 <= k < j ==> HoldsAdded(mid.kv, map[], rows[k]))
      && (forall k :: j <= k < |rows| ==> TotalDistanceKey(rows[k].chairId) !in mid.kv && UpdatedAtKey(rows[k].chairId) !in mid.kv)
  {
    var pre := rows[..j];
    assert forall k :: 0 <= k < |pre| ==> pre[k] == rows[k] && RowIds(pre)[k] == RowIds(rows)[k];
    assert Distinct(RowIds(pre));
    assert forall k :: 0 <= k < |pre| ==> Prior(map[], pre[k].chairId) == 0 && CanAdd(map[], pre[k]);
    ReplayAdds(map[], pre, incrDown, setDown);
    ReplayFrame(map[], pre, incrDown, setDown);
    forall k | j <= k < |rows|
      ensures rows[k].chairId !in RowIds(pre)
    {
      assert RowIds(rows)[k] == rows[k].chairId;
    }
    forall k | j <= k < |rows|
      ensures !IsCounterKeyOf(TotalDistanceKey(rows[k].chairId), RowIds(pre))
      ensures !IsCounterKeyOf(UpdatedAtKey(rows[k].chairId), RowIds(pre))
    {
      NotCounterKeyOfOthers(rows[k].chairId, RowIds(pre));
    }
  }

  /** A run from a flushed store whose first fault is the INCRBY of row `j`. */
  lemma ReplayStopsAt(rows: seq<DistanceRow>, j: nat, incrDown: set<string>, setDown: set<string>)
    requires RowsFit(rows) && Distinct(RowIds(rows)) && j < |rows|
    requires forall k :: 0 <= k < j ==> rows[k].chairId !in incrDown && rows[k].chairId !in setDown
    requires rows[j].chairId in incrDown
    ensures var r := ReplayDistances(map[], rows, incrDown, setDown);
      && r.outcome == Fail(AddFailed(rows[j].chairId, IncrFailed(Transport)))
      && (forall k :: 0 <= k < j ==> HoldsAdded(r.kv, map[], rows[k]))
      && (forall k :: j <= k < |rows| ==> TotalDistanceKey(rows[k].chairId) !in r.kv && UpdatedAtKey(rows[k].chairId) !in r.kv)
  {
    ReplayPrefixFromEmpty(rows, j, incrDown, setDown);
    var mid := ReplayDistances(map[], rows[..j], incrDown, setDown).kv;
    ReplaySplitAt(map[], rows, j, incrDown, setDown);
    ReplayFailsFirst(mid, rows[j..], incrDown, setDown);
  }

  /** A chair written from an empty store by its own row holds its recomputed counters. */
  lemma HoldsRecomputed(kv: map<string, string>, chairIds: seq<string>, log: seq<Location>, k: nat)
    requires k < |chairIds| && HoldsAdded(kv, map[], DistanceRows(chairIds, log)[k])
    ensures Holds(kv, chairIds[k], RecomputedDistance(log, chairIds[k]), RecomputedUpdatedAt(log, chairIds[k]))
  {
    assert Prior(map[], chairIds[k]) == 0;
  }

  /**
   * A backfill that fails at a chair stops there: every chair before it
   * holds its recomputed counters, and no chair after it has been written.
   */
  lemma BackfillStopsAtFirstFailure(chairIds: seq<string>, log: seq<Location>, j: nat,
                                    incrDown: set<string>, setDown: set<string>)
    requires Distinct(chairIds) && RowsFit(DistanceRows(chairIds, log)) && j < |chairIds|
    requires forall k :: 0 <= k < j ==> chairIds[k] !in incrDown && chairIds[k] !in setDown
    requires chairIds[j] in incrDown
    ensures var r := DistanceBackfill(map[], chairIds, log, true, incrDown, setDown);
      && r.outcome == Fail(AddFailed(chairIds[j], IncrFailed(Transport)))
      && (forall k :: 0 <= k < j ==> Holds(r.kv, chairIds[k], RecomputedDistance(log, chairIds[k]), RecomputedUpdatedAt(log, chairIds[k])))
      && (forall k :: j <= k < |chairIds| ==>
            TotalDistanceKey(chairIds[k]) !in r.kv && UpdatedAtKey(chairIds[k]) !in r.kv)
  {
    var rows := DistanceRows(chairIds, log);
    RowIdsOfDistanceRows(chairIds, log);
    ReplayStopsAt(rows, j, incrDown, setDown);
    var r := ReplayDistances(map[], rows, incrDown, setDown);
    forall k | 0 <= k < j
      ensures Holds(r.kv, chairIds[k], RecomputedDistance(log, chairIds[k]), RecomputedUpdatedAt(log, chairIds[k]))
    {
      HoldsRecomputed(r.kv, chairIds, log, k);
    }
  }

  /** The counter keys of two different chairs are four different keys. */
  lemma OtherChairKeys(a: string, b: string)
    requires a != b
    ensures TotalDistanceKey(a) != TotalDistanceKey(b) && TotalDistanceKey(a) != UpdatedAtKey(b)
    ensures UpdatedAtKey(a) != TotalDistanceKey(b) && UpdatedAtKey(a) != UpdatedAtKey(b)
  {
    if TotalDistanceKey(a) == TotalDistanceKey(b) { TotalDistanceKeyInjective(a, b); }
    if UpdatedAtKey(a) == UpdatedAtKey(b) { UpdatedAtKeyInjective(a, b); }
    KeysDisjoint(a, b);
    KeysDisjoint(b, a);
  }

  /** A failed SET on the first chair ends the run with that chair's increment applied and its stamp untouched. */
  lemma ReplayFailsFirstSet(kv: map<string, string>, rows: seq<DistanceRow>, incrDown: set<string>, setDown: set<string>)
    requires RowsFit(rows) && rows != [] && CanAdd(kv, rows[0])
    requires rows[0].chairId !in incrDown && rows[0].chairId in setDown
    ensures var id := rows[0].chairId;
      ReplayDistances(kv, rows, incrDown, setDown)
        == Replay(kv[TotalDistanceKey(id) := FormatInt(Prior(kv, id) + RowDistance(rows[0]))], Fail(AddFailed(id, SetFailed(Transport))))
  {
  }

  /**
   * A run from a flushed store whose first fault is the SET of row `j`: the
   * earlier rows are written, row `j`'s counter holds its distance with no
   * stamp beside it, and the later rows are untouched.
   */
  lemma ReplayStopsAtSet(rows: seq<DistanceRow>, j: nat, incrDown: set<string>, setDown: set<string>)
    requires RowsFit(rows) && Distinct(RowIds(rows)) && j < |rows|
    requires forall k :: 0 <= k < j ==> rows[k].chairId !in incrDown && rows[k].chairId !in setDown
    requires rows[j].chairId !in incrDown && rows[j].chairId in setDown
    ensures var r := ReplayDistances(map[], rows, incrDown, setDown);
      && r.outcome == Fail(AddFailed(rows[j].chairId, SetFailed(Transport)))
      && (forall k :: 0 <= k < j ==> HoldsAdded(r.kv, map[], rows[k]))
      && TotalDistanceKey(rows[j].chairId) in r.kv
      && r.kv[TotalDistanceKey(rows[j].chairId)] == FormatInt(RowDistance(rows[j]))
      && UpdatedAtKey(rows[j].chairId) !in r.kv
      && (forall k :: j < k < |rows| ==> TotalDistanceKey(rows[k].chairId) !in r.kv && UpdatedAtKey(rows[k].chairId) !in r.kv)
  {
    ReplayPrefixFromEmpty(rows, j, incrDown, setDown);
    var mid := ReplayDistances(map[], rows[..j], incrDown, setDown).kv;
    var id := rows[j].chairId;
    var after := mid[TotalDistanceKey(id) := FormatInt(RowDistance(rows[j]))];
    ReplaySplitAt(map[], rows, j, incrDown, setDown);
    assert Prior(mid, id) == 0;
    ReplayFailsFirstSet(mid, rows[j..], incrDown, setDown);
    forall k | 0 <= k < |rows| && k != j
      ensures TotalDistanceKey(id) != TotalDistanceKey(rows[k].chairId) && TotalDistanceKey(id) != UpdatedAtKey(rows[k].chairId)
    {
      assert RowIds(rows)[k] != RowIds(rows)[j];
      OtherChairKeys(id, rows[k].chairId);
    }
    KeysDisjoint(id, id);
  }

  /**
   * A backfill whose first failure is the SET of one chair (the torn write):
   * earlier chairs hold their recomputed counters, that chair's distance
   * counter holds its recomputed distance but it has no stamp, and later
   * chairs have not been written.
   */
  lemma BackfillStopsAtSetFailure(chairIds: seq<string>, log: seq<Location>, j: nat,
                                  incrDown: set<string>, setDown: set<string>)
    requires Distinct(chairIds) && RowsFit(DistanceRows(chairIds, log)) && j < |chairIds|
    requires forall k :: 0 <= k < j ==> chairIds[k] !in incrDown && chairIds[k] !in setDown
    requires chairIds[j] !in incrDown && chairIds[j] in setDown
    ensures var r := DistanceBackfill(map[], chairIds, log, true, incrDown, setDown);
      && r.outcome == Fail(AddFailed(chairIds[j], SetFailed(Transport)))
      && (forall k :: 0 <= k < j ==> Holds(r.kv, chairIds[k], RecomputedDistance(log, chairIds[k]), RecomputedUpdatedAt(log, chairIds[k])))
      && TotalDistanceKey(chairIds[j]) in r.kv
      && r.kv[TotalDistanceKey(chairIds[j])] == FormatInt(RecomputedDistance(log, chairIds[j]))
      && UpdatedAtKey(chairIds[j]) !in r.kv
      && (forall k :: j < k < |chairIds| ==>
            TotalDistanceKey(chairIds[k]) !in r.kv && UpdatedAtKey(chairIds[k]) !in r.kv)
  {
    var rows := DistanceRows(chairIds, log);
    RowIdsOfDistanceRows(chairIds, log);
    ReplayStopsAtSet(rows, j, incrDown, setDown);
    var r := ReplayDistances(map[], rows, incrDown, setDown);
    forall k | 0 <= k < j
      ensures Holds(r.kv, chairIds[k], RecomputedDistance(log, chairIds[k]), RecomputedUpdatedAt(log, chairIds[k]))
    {
      HoldsRecomputed(r.kv, chairIds, log, k);
    }
  }
}
