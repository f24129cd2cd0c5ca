/**
 * The per-chair travelled-distance counters kept in Redis: their key names,
 * the increment-and-stamp write, the batched read used by the owner
 * dashboard, and the dashboard's per-chair rows.
 */
module ChairDistance {
  import opened Base
  import opened Decimal
  import opened Entities
  import opened RedisStore

  /** `chairTotalDistanceKey`. */
  function TotalDistanceKey(chairId: string): string
  {
    "chair:" + chairId + ":total_distance"
  }

  /** `chairTotalDistanceUpdatedAtKey`. */
  function UpdatedAtKey(chairId: string): string
  {
    "chair:" + chairId + ":total_distance_updated_at"
  }

  /** Two chairs never share a distance key. */
  lemma TotalDistanceKeyInjective(a: string, b: string)
    requires TotalDistanceKey(a) == TotalDistanceKey(b)
    ensures a == b
  {
    var ka := TotalDistanceKey(a);
    assert |a| == |b|;
    assert a == ka[6..6 + |a|];
  }

  /** Two chairs never share an updated-at key. */
  lemma UpdatedAtKeyInjective(a: string, b: string)
    requires UpdatedAtKey(a) == UpdatedAtKey(b)
    ensures a == b
  {
    var ka := UpdatedAtKey(a);
    assert |a| == |b|;
    assert a == ka[6..6 + |a|];
  }

  /** No distance key is ever an updated-at key, whatever the two chair ids: their last characters differ. */
  lemma KeysDisjoint(a: string, b: string)
    ensures TotalDistanceKey(a) != UpdatedAtKey(b)
  {
    var ka, kb := TotalDistanceKey(a), UpdatedAtKey(b);
    assert ka[|ka| - 1] == 'e';
    assert kb[|kb| - 1] == 't';
  }

  datatype AddError = IncrFailed(cause: StoreError) | SetFailed(cause: StoreError)

  /** The store and the returned error after `addChairTotalDistance`. */
  datatype AddResult = AddResult(kv: map<string, string>, outcome: Outcome<AddError>)

  /**
   * `addChairTotalDistance`: INCRBY on the distance key, then SET of the
   * updated-at key. Both commands go to the client itself, not to the
   * transaction pipeline, so they are two independent writes: a failed SET
   * leaves the increment in place.
   */
  function AddTotalDistance(kv: map<string, string>, chairId: string, distance: int, updatedAtMilli: int,
                            incrReachable: bool, setReachable: bool): AddResult
    requires IsInt64(distance)
  {
    if !incrReachable then AddResult(kv, Fail(IncrFailed(Transport)))
    else
      match Incremented(kv, TotalDistanceKey(chairId), distance)
      case Failure(e) => AddResult(kv, Fail(IncrFailed(e)))
      case Success(incremented) =>
        if !setReachable then AddResult(incremented, Fail(SetFailed(Transport)))
        else AddResult(incremented[UpdatedAtKey(chairId) := FormatInt(updatedAtMilli)], Pass)
  }

  /**
   * Success path: the distance counter rises by exactly `distance` (an
   * absent counter counts as 0), the updated-at key holds `updatedAtMilli`,
   * and no other key changes.
   */
  lemma AddTotalDistanceSuccess(kv: map<string, string>, chairId: string, distance: int, updatedAtMilli: int,
                                incrReachable: bool, setReachable: bool)
    requires IsInt64(distance) && IsInt64(updatedAtMilli)
    requires AddTotalDistance(kv, chairId, distance, updatedAtMilli, incrReachable, setReachable).outcome.Pass?
    ensures var after := AddTotalDistance(kv, chairId, distance, updatedAtMilli, incrReachable, setReachable).kv;
      && incrReachable && setReachable
      && StoredInteger(kv, TotalDistanceKey(chairId)).Some?
      && StoredInteger(after, TotalDistanceKey(chairId)) == Some(StoredInteger(kv, TotalDistanceKey(chairId)).value + distance)
      && StoredInteger(after, UpdatedAtKey(chairId)) == Some(updatedAtMilli)
      && after.Keys == kv.Keys + {TotalDistanceKey(chairId), UpdatedAtKey(chairId)}
      && (forall k :: k in kv && k != TotalDistanceKey(chairId) && k != UpdatedAtKey(chairId) ==> after[k] == kv[k])
  {
    var dk, uk := TotalDistanceKey(chairId), UpdatedAtKey(chairId);
    KeysDisjoint(chairId, chairId);
    var incr := Incremented(kv, dk, distance);
    assert incrReachable && incr.Success? && setReachable;
    var n := StoredInteger(kv, dk).value;
    var after := incr.value[uk := FormatInt(updatedAtMilli)];
    assert after == kv[dk := FormatInt(n + distance)][uk := FormatInt(updatedAtMilli)];
    assert after[dk] == FormatInt(n + distance) && after[uk] == FormatInt(updatedAtMilli);
    RedisIntegerFormat(n + distance);
    RedisIntegerFormat(updatedAtMilli);
  }

  /**
   * Failure paths: a failed INCRBY changes nothing; a failed SET leaves the
   * increment applied and the updated-at key as it was, so the two keys can
   * disagree afterwards.
   */
  lemma AddTotalDistanceFailure(kv: map<string, string>, chairId: string, distance: int, updatedAtMilli: int,
                                incrReachable: bool, setReachable: bool)
    requires IsInt64(distance)
    ensures var r := AddTotalDistance(kv, chairId, distance, updatedAtMilli, incrReachable, setReachable);
      var incr := Incremented(kv, TotalDistanceKey(chairId), distance);
      && (r.outcome.Pass? <==> incrReachable && incr.Success? && setReachable)
      && (r.outcome.Fail? && r.outcome.error.IncrFailed? <==> !incrReachable || incr.Failure?)
      && (r.outcome.Fail? && r.outcome.error.IncrFailed? ==> r.kv == kv)
      && (r.outcome.Fail? && r.outcome.error.SetFailed? ==>
            && StoredInteger(r.kv, TotalDistanceKey(chairId)) == Some(StoredInteger(kv, TotalDistanceKey(chairId)).value + distance)
            && (UpdatedAtKey(chairId) in r.kv <==> UpdatedAtKey(chairId) in kv)
            && (UpdatedAtKey(chairId) in kv ==> r.kv[UpdatedAtKey(chairId)] == kv[UpdatedAtKey(chairId)]))
  {
    var incr := Incremented(kv, TotalDistanceKey(chairId), distance);
    if incrReachable && incr.Success? {
      KeysDisjoint(chairId, chairId);
      RedisIntegerFormat(StoredInteger(kv, TotalDistanceKey(chairId)).value + distance);
    }
  }

  /** `addChairTotalDistance` against the store. */
  method AddChairTotalDistance(store: CounterStore, chairId: string, distance: int, updatedAtMilli: int,
                               incrReachable: bool, setReachable: bool) returns (r: Outcome<AddError>)
    requires IsInt64(distance) && IsInt64(updatedAtMilli)
    modifies store
    ensures AddResult(store.kv, r) == AddTotalDistance(old(store.kv), chairId, distance, updatedAtMilli, incrReachable, setReachable)
    ensures store.rideCounts == old(store.rideCounts)
  {
    var incr := store.IncrBy(TotalDistanceKey(chairId), distance, incrReachable);
    if incr.Failure? {
      return Fail(IncrFailed(incr.error));
    }
    var stamp := store.Set(UpdatedAtKey(chairId), FormatInt(updatedAtMilli), setReachable);
    if stamp.Fail? {
      return Fail(SetFailed(stamp.error));
    }
    return Pass;
  }

  datatype ChairTotalDistance = ChairTotalDistance(chairId: string, totalDistance: int, updatedAt: int)

  datatype ReadError =
    | MGetFailed(cause: StoreError)
    | BadTotalDistance     // strconv.Atoi failed on the distance slot
    | MissingUpdatedAt     // the updated-at slot is nil: the type assertion panics
    | BadUpdatedAt         // strconv.ParseInt failed on the updated-at slot

  /** The MGET key list: the distance key then the updated-at key of each chair, in order. */
  function DistanceKeys(chairIds: seq<string>): (keys: seq<string>)
    ensures |keys| == 2 * |chairIds|
    ensures forall k :: 0 <= k < |chairIds| ==>
      keys[2 * k] == TotalDistanceKey(chairIds[k]) && keys[2 * k + 1] == UpdatedAtKey(chairIds[k])
  {
    if chairIds == [] then []
    else [TotalDistanceKey(chairIds[0]), UpdatedAtKey(chairIds[0])] + DistanceKeys(chairIds[1..])
  }

  /** One chair's two slots when the first is non-nil, checked in the order the source checks them. */
  function DecodePair(chairId: string, distance: string, updatedAt: Option<string>): Result<ChairTotalDistance, ReadError>
  {
    match Atoi(distance)
    case None => Failure(BadTotalDistance)
    case Some(d) =>
      match updatedAt
      case None => Failure(MissingUpdatedAt)
      case Some(u) =>
        match ParseInt(u)
        case None => Failure(BadUpdatedAt)
        case Some(t) => Success(ChairTotalDistance(chairId, d, t))
  }

  /** The decoding loop from the pair of `chairIds[0]` on, having built `acc` so far. */
  function DecodeFrom(chairIds: seq<string>, vals: seq<Option<string>>, acc: map<string, ChairTotalDistance>)
    : Result<map<string, ChairTotalDistance>, ReadError>
    requires |vals| == 2 * |chairIds|
  {
    if chairIds == [] then Success(acc)
    else if vals[0].None? then DecodeFrom(chairIds[1..], vals[2..], acc)
    else
      match DecodePair(chairIds[0], vals[0].value, vals[1])
      case Failure(e) => Failure(e)
      case Success(t) => DecodeFrom(chairIds[1..], vals[2..], acc[chairIds[0] := t])
  }

  /** What `getChairsTotalDistances` makes of the MGET reply `vals`. */
  function DecodeTotalDistances(chairIds: seq<string>, vals: seq<Option<string>>): Result<map<string, ChairTotalDistance>, ReadError>
    requires |vals| == 2 * |chairIds|
  {
    DecodeFrom(chairIds, vals, map[])
  }

  /** The pair of chair `k` is read (its distance slot is non-nil) and fails to decode. */
  predicate BadPair(chairIds: seq<string>, vals: seq<Option<string>>, k: int)
    requires |vals| == 2 * |chairIds|
  {
    0 <= k < |chairIds| && vals[2 * k].Some? && DecodePair(chairIds[k], vals[2 * k].value, vals[2 * k + 1]).Failure?
  }

  lemma DecodeFromShift(chairIds: seq<string>, vals: seq<Option<string>>)
    requires |vals| == 2 * |chairIds| && chairIds != []
    ensures |vals[2..]| == 2 * |chairIds[1..]|
    ensures forall k :: 0 <= k < |chairIds| - 1 ==>
      chairIds[1..][k] == chairIds[k + 1] && vals[2..][2 * k] == vals[2 * (k + 1)] && vals[2..][2 * k + 1] == vals[2 * (k + 1) + 1]
  {
  }

  /** The decode fails exactly when some read pair fails to decode. */
  lemma {:induction false} DecodeFromFailure(chairIds: seq<string>, vals: seq<Option<string>>, acc: map<string, ChairTotalDistance>)
    requires |vals| == 2 * |chairIds|
    ensures DecodeFrom(chairIds, vals, acc).Failure? <==> exists k :: BadPair(chairIds, vals, k)
  {
    if chairIds != [] {
      var ids', vals' := chairIds[1..], vals[2..];
      DecodeFromShift(chairIds, vals);
      assert forall k :: 0 <= k < |ids'| ==> (BadPair(ids', vals', k) <==> BadPair(chairIds, vals, k + 1));
      if vals[0].None? {
        DecodeFromFailure(ids', vals', acc);
        assert !BadPair(chairIds, vals, 0);
        if exists k :: BadPair(chairIds, vals, k) {
          var k :| BadPair(chairIds, vals, k);
          assert BadPair(ids', vals', k - 1);
        }
      } else {
        var p := DecodePair(chairIds[0], vals[0].value, vals[1]);
        if p.Success? {
          DecodeFromFailure(ids', vals', acc[chairIds[0] := p.value]);
          if exists k :: BadPair(chairIds, vals, k) {
            var k :| BadPair(chairIds, vals, k);
            assert BadPair(ids', vals', k - 1);
          }
        } else {
          assert BadPair(chairIds, vals, 0);
        }
      }
    }
  }

  /**
   * A successful decode keeps what was already built, adds only chair ids,
   * and (for distinct ids not built yet) holds chair `k` exactly when its
   * distance slot is non-nil, with the two decoded slots as its value.
   */
  lemma {:induction false} DecodeFromEntries(chairIds: seq<string>, vals: seq<Option<string>>, acc: map<string, ChairTotalDistance>)
    requires |vals| == 2 * |chairIds|
    requires Distinct(chairIds)
    requires forall k :: 0 <= k < |chairIds| ==> chairIds[k] !in acc
    requires DecodeFrom(chairIds, vals, acc).Success?
    ensures var m := DecodeFrom(chairIds, vals, acc).value;
      && m.Keys <= acc.Keys + (set k | 0 <= k < |chairIds| :: chairIds[k])
      && (forall id :: id in acc ==> id in m && m[id] == acc[id])
      && (forall k :: 0 <= k < |chairIds| ==>
            && (chairIds[k] in m <==> vals[2 * k].Some?)
            && (vals[2 * k].Some? ==> Success(m[chairIds[k]]) == DecodePair(chairIds[k], vals[2 * k].value, vals[2 * k + 1])))
  {
    if chairIds != [] {
      var ids', vals' := chairIds[1..], vals[2..];
      DecodeFromShift(chairIds, vals);
      var acc' := if vals[0].None? then acc else acc[chairIds[0] := DecodePair(chairIds[0], vals[0].value, vals[1]).value];
      assert DecodeFrom(chairIds, vals, acc) == DecodeFrom(ids', vals', acc');
      DecodeFromEntries(ids', vals', acc');
      assert (set k | 0 <= k < |chairIds| :: chairIds[k]) == {chairIds[0]} + (set k | 0 <= k < |ids'| :: ids'[k]);
    }
  }

  /** `getChairsTotalDistances` reads only the given chairs, and each exactly as its two slots say. */
  lemma DecodeTotalDistancesSpec(chairIds: seq<string>, vals: seq<Option<string>>)
    requires |vals| == 2 * |chairIds| && Distinct(chairIds)
    ensures var r := DecodeTotalDistances(chairIds, vals);
      && (r.Failure? <==> exists k :: BadPair(chairIds, vals, k))
      && (r.Success? ==>
            && r.value.Keys <= (set k | 0 <= k < |chairIds| :: chairIds[k])
            && (forall k :: 0 <= k < |chairIds| ==>
                  && (chairIds[k] in r.value <==> vals[2 * k].Some?)
                  && (vals[2 * k].Some? ==> Success(r.value[chairIds[k]]) == DecodePair(chairIds[k], vals[2 * k].value, vals[2 * k + 1]))))
  {
    DecodeFromFailure(chairIds, vals, map[]);
    if DecodeTotalDistances(chairIds, vals).Success? {
      DecodeFromEntries(chairIds, vals, map[]);
    }
  }

  /**
   * What `getChairsTotalDistances` returns for the store `kv`: the MGET
   * error when Redis is unreachable or there is no chair (an MGET without
   * keys is rejected), otherwise the decoded reply.
   */
  function ReadTotalDistances(kv: map<string, string>, chairIds: seq<string>, reachable: bool)
    : (r: Result<map<string, ChairTotalDistance>, ReadError>)
    ensures !reachable ==> r == Failure(MGetFailed(Transport))
    ensures reachable && chairIds == [] ==> r == Failure(MGetFailed(WrongArity))
    ensures reachable && chairIds != [] ==> r == DecodeTotalDistances(chairIds, MGetValues(kv, DistanceKeys(chairIds)))
  {
    if !reachable then Failure(MGetFailed(Transport))
    else if chairIds == [] then Failure(MGetFailed(WrongArity))
    else DecodeTotalDistances(chairIds, MGetValues(kv, DistanceKeys(chairIds)))
  }

  /** `getChairsTotalDistances`: one MGET, then the reply is decoded. */
  method GetChairsTotalDistances(store: CounterStore, chairIds: seq<string>, reachable: bool)
    returns (r: Result<map<string, ChairTotalDistance>, ReadError>)
    ensures !reachable ==> r == Failure(MGetFailed(Transport))
    ensures reachable && chairIds == [] ==> r == Failure(MGetFailed(WrongArity))
    ensures reachable && chairIds != [] ==> r == DecodeTotalDistances(chairIds, MGetValues(store.kv, DistanceKeys(chairIds)))
  {
    var keys := DistanceKeys(chairIds);
    var reply := store.MGet(keys, reachable);
    if reply.Failure? {
      return Failure(MGetFailed(reply.error));
    }
    r := DecodeReply(chairIds, reply.value);
  }

  /** The decoding loop of `getChairsTotalDistances`, two slots at a time. */
  method DecodeReply(chairIds: seq<string>, vals: seq<Option<string>>)
    returns (r: Result<map<string, ChairTotalDistance>, ReadError>)
    requires |vals| == 2 * |chairIds|
    ensures r == DecodeTotalDistances(chairIds, vals)
  {
    var distances: map<string, ChairTotalDistance> := map[];
    var i, j := 0, 0;
    // the chairs and slots not yet read
    ghost var ids, rest := chairIds, vals;
    while i < |vals|
      invariant i == 2 * j && j <= |chairIds|
      invariant ids == chairIds[j..] && rest == vals[i..] && |rest| == 2 * |ids|
      invariant DecodeTotalDistances(chairIds, vals) == DecodeFrom(ids, rest, distances)
    {
      assert ids[0] == chairIds[j] && rest[0] == vals[i] && rest[1] == vals[i + 1];
      if vals[i].Some? {
        var pair := DecodePair(chairIds[j], vals[i].value, vals[i + 1]);
        if pair.Failure? {
          return Failure(pair.error);
        }
        distances := distances[chairIds[j] := pair.value];
      }
      i, j := i + 2, j + 1;
      ids, rest := ids[1..], rest[2..];
    }
    return Success(distances);
  }

  /**
   * The two writes are not atomic, and the read side is not prepared for
   * that: when the SET after a chair's first INCRBY fails, the distance slot
   * is present and the updated-at slot nil, and the dashboard read of that
   * chair stops at the nil type assertion.
   */
  lemma TornWriteBreaksRead(kv: map<string, string>, chairId: string, distance: int, updatedAtMilli: int)
    requires IsInt64(distance)
    requires TotalDistanceKey(chairId) !in kv && UpdatedAtKey(chairId) !in kv
    ensures var torn := AddTotalDistance(kv, chairId, distance, updatedAtMilli, true, false);
      && torn.outcome == Fail(SetFailed(Transport))
      && DecodeTotalDistances([chairId], MGetValues(torn.kv, DistanceKeys([chairId]))) == Failure(MissingUpdatedAt)
  {
    KeysDisjoint(chairId, chairId);
    RedisIntegerFormat(distance);
    ParseFormat(distance);
    var torn := AddTotalDistance(kv, chairId, distance, updatedAtMilli, true, false);
    assert torn.kv == kv[TotalDistanceKey(chairId) := FormatInt(distance)];
    var vals := MGetValues(torn.kv, DistanceKeys([chairId]));
    assert vals == [Some(FormatInt(distance)), None];
  }

  /**
   * The other half of the torn write: once a chair has both keys, a later
   * write whose SET fails leaves the read working, with the new distance
   * beside the old, now stale, stamp.
   */
  lemma TornRewriteKeepsStaleStamp(kv: map<string, string>, chairId: string, before: int, stamp: int,
                                   distance: int, updatedAtMilli: int)
    requires IsInt64(before) && IsInt64(stamp) && IsInt64(distance) && IsInt64(before + distance)
    requires TotalDistanceKey(chairId) in kv && kv[TotalDistanceKey(chairId)] == FormatInt(before)
    requires UpdatedAtKey(chairId) in kv && kv[UpdatedAtKey(chairId)] == FormatInt(stamp)
    ensures var torn := AddTotalDistance(kv, chairId, distance, updatedAtMilli, true, false);
      && torn.outcome == Fail(SetFailed(Transport))
      && DecodeTotalDistances([chairId], MGetValues(torn.kv, DistanceKeys([chairId])))
           == Success(map[chairId := ChairTotalDistance(chairId, before + distance, stamp)])
  {
    KeysDisjoint(chairId, chairId);
    RedisIntegerFormat(before);
    ParseFormat(before + distance);
    ParseFormat(stamp);
    var torn := AddTotalDistance(kv, chairId, distance, updatedAtMilli, true, false);
    assert torn.kv == kv[TotalDistanceKey(chairId) := FormatInt(before + distance)];
    var vals := MGetValues(torn.kv, DistanceKeys([chairId]));
    assert vals == [Some(FormatInt(before + distance)), Some(FormatInt(stamp))];
    var t := ChairTotalDistance(chairId, before + distance, stamp);
    assert DecodePair(chairId, vals[0].value, vals[1]) == Success(t);
    assert [chairId][1..] == [] && vals[2..] == [];
    assert DecodeFrom([chairId], vals, map[]) == DecodeFrom([], [], map[chairId := t]);
  }

  /** One row of the owner's chair dashboard (`ownerGetChairResponseChair`). */
  datatype ChairView = ChairView(
    id: string,
    name: string,
    model: string,
    active: bool,
    registeredAt: int,
    totalDistance: int,
    totalDistanceUpdatedAt: Option<int>)

  /**
   * Row `v` of the dashboard shows chair `c`: its id, name, model and
   * registration time, `active` exactly when `is_active` is non-zero, and
   * its counter record when it has one, else distance 0 and no timestamp.
   */
  predicate ShowsChair(c: Chair, distances: map<string, ChairTotalDistance>, v: ChairView)
  {
    && v.id == c.id && v.name == c.name && v.model == c.model && v.registeredAt == c.createdAt
    && (v.active <==> c.isActive != 0)
    && (c.id !in distances ==> v.totalDistance == 0 && v.totalDistanceUpdatedAt == None)
    && (c.id in distances ==>
          v.totalDistance == distances[c.id].totalDistance && v.totalDistanceUpdatedAt == Some(distances[c.id].updatedAt))
  }

  /** One row per chair, in order, each showing its chair. */
  predicate ShowsChairs(chairs: seq<Chair>, distances: map<string, ChairTotalDistance>, views: seq<ChairView>)
  {
    |views| == |chairs| && forall k :: 0 <= k < |chairs| ==> ShowsChair(chairs[k], distances, views[k])
  }

  /** The response-building loop of `ownerGetChairs`. */
  method ChairViews(chairs: seq<Chair>, distances: map<string, ChairTotalDistance>) returns (views: seq<ChairView>)
    ensures ShowsChairs(chairs, distances, views)
  {
    views := [];
    for i := 0 to |chairs|
      invariant |views| == i
      invariant forall k :: 0 <= k < i ==> ShowsChair(chairs[k], distances, views[k])
    {
      var chair := chairs[i];
      var isActive := false;
      if chair.isActive != 0 {
        isActive := true;
      }
      var totalDistance := 0;
      var updatedAt: Option<int> := None;
      if chair.id in distances {
        totalDistance := distances[chair.id].totalDistance;
        updatedAt := Some(distances[chair.id].updatedAt);
      }
      views := views + [ChairView(chair.id, chair.name, chair.model, isActive, chair.createdAt, totalDistance, updatedAt)];
    }
  }

  /**
   * `ownerGetChairs`: the owner's chairs (None when the SELECT fails), their
   * counters read in one batch, then one row per chair; any failure is a 500.
   */
  method OwnerGetChairs(store: CounterStore, ownedChairs: Option<seq<Chair>>, mgetReachable: bool)
    returns (res: Response<seq<ChairView>>)
    ensures ownedChairs.None? ==> res == ErrorStatus(500)
    ensures ownedChairs.Some? ==>
      var ids := seq(|ownedChairs.value|, k requires 0 <= k < |ownedChairs.value| => ownedChairs.value[k].id);
      var read := ReadTotalDistances(store.kv, ids, mgetReachable);
      && (read.Failure? ==> res == ErrorStatus(500))
      && (read.Success? ==> res.Ok? && ShowsChairs(ownedChairs.value, read.value, res.body))
  {
    if ownedChairs.None? {
      return ErrorStatus(500);
    }
    var chairs := ownedChairs.value;
    var ids := seq(|chairs|, k requires 0 <= k < |chairs| => chairs[k].id);
    var read := GetChairsTotalDistances(store, ids, mgetReachable);
    if read.Failure? {
      return ErrorStatus(500);
    }
    var views := ChairViews(chairs, read.value);
    return Ok(views);
  }
}
