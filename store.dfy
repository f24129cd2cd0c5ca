/**
 * The Redis instance as the core uses it: a map from key to string value
 * with INCRBY, SET, MGET and FLUSHALL, plus the per-chair ride-count records
 * written by `setChairTotalRideCount`, whose key layout is not visible in
 * the modelled files and is therefore held as a separate map of records.
 *
 * Every command takes a `reachable` flag standing for the transport: when it
 * is false the command fails with `Transport` and the store is unchanged.
 */
module RedisStore {
  import opened Base
  import opened Decimal

  datatype StoreError =
    | Transport
    | NotAnInteger   // "ERR value is not an integer or out of range"
    | Overflow       // "ERR increment or decrement would overflow"
    | WrongArity     // "ERR wrong number of arguments": MGET needs at least one key

  datatype RideCount = RideCount(count: int, evaluation: int)

  /** The integer INCRBY sees at `key`: an absent key counts as 0. */
  function StoredInteger(kv: map<string, string>, key: string): Option<int>
  {
    if key in kv then RedisInteger(kv[key]) else Some(0)
  }

  /** INCRBY on a reachable server: the new map, or the error Redis replies with. */
  function Incremented(kv: map<string, string>, key: string, delta: int): (r: Result<map<string, string>, StoreError>)
    requires IsInt64(delta)
    ensures r.Success? <==> StoredInteger(kv, key).Some? && IsInt64(StoredInteger(kv, key).value + delta)
    ensures r.Success? ==> r.value == kv[key := FormatInt(StoredInteger(kv, key).value + delta)]
  {
    match StoredInteger(kv, key)
    case None => Failure(NotAnInteger)
    case Some(current) =>
      if IsInt64(current + delta) then Success(kv[key := FormatInt(current + delta)]) else Failure(Overflow)
  }

  /** A successful INCRBY stores the sum in the canonical form that the next INCRBY reads back. */
  lemma IncrementedReadsBack(kv: map<string, string>, key: string, delta: int)
    requires IsInt64(delta)
    requires StoredInteger(kv, key).Some? && IsInt64(StoredInteger(kv, key).value + delta)
    ensures Incremented(kv, key, delta).Success?
    ensures StoredInteger(Incremented(kv, key, delta).value, key) == Some(StoredInteger(kv, key).value + delta)
  {
    RedisIntegerFormat(StoredInteger(kv, key).value + delta);
  }

  /** Two INCRBYs on one key equal one INCRBY by their sum, when no step overflows. */
  lemma IncrementedTwice(kv: map<string, string>, key: string, d1: int, d2: int)
    requires IsInt64(d1) && IsInt64(d2)
    requires StoredInteger(kv, key).Some?
    requires IsInt64(StoredInteger(kv, key).value + d1)
    requires IsInt64(StoredInteger(kv, key).value + d1 + d2)
    requires IsInt64(d1 + d2)
    ensures Incremented(kv, key, d1).Success?
    ensures Incremented(Incremented(kv, key, d1).value, key, d2) == Incremented(kv, key, d1 + d2)
  {
    IncrementedReadsBack(kv, key, d1);
    var n := StoredInteger(kv, key).value;
    var once := Incremented(kv, key, d1).value;
    assert once[key := FormatInt(n + d1 + d2)] == kv[key := FormatInt(n + (d1 + d2))];
  }

  /** MGET on a reachable server: one slot per key, None for an absent key. */
  function MGetValues(kv: map<string, string>, keys: seq<string>): (vals: seq<Option<string>>)
    ensures |vals| == |keys|
    ensures forall i :: 0 <= i < |keys| ==> vals[i] == (if keys[i] in kv then Some(kv[keys[i]]) else None)
  {
    seq(|keys|, i requires 0 <= i < |keys| => if keys[i] in kv then Some(kv[keys[i]]) else None)
  }

  class CounterStore {
    var kv: map<string, string>
    var rideCounts: map<string, RideCount>

    constructor ()
      ensures kv == map[] && rideCounts == map[]
    {
      kv := map[];
      rideCounts := map[];
    }

    /** FLUSHALL: every key is removed. */
    method FlushAll(reachable: bool) returns (r: Outcome<StoreError>)
      modifies this
      ensures r == if reachable then Pass else Fail(Transport)
      ensures reachable ==> kv == map[] && rideCounts == map[]
      ensures !reachable ==> kv == old(kv) && rideCounts == old(rideCounts)
    {
      if !reachable {
        return Fail(Transport);
      }
      kv := map[];
      rideCounts := map[];
      return Pass;
    }

    /** INCRBY key delta: returns the new value. */
    method IncrBy(key: string, delta: int, reachable: bool) returns (r: Result<int, StoreError>)
      requires IsInt64(delta)
      modifies this
      ensures rideCounts == old(rideCounts)
      ensures r.Success? <==> reachable && Incremented(old(kv), key, delta).Success?
      ensures r.Success? ==> kv == Incremented(old(kv), key, delta).value
      ensures r.Success? ==> r.value == StoredInteger(old(kv), key).value + delta
      ensures r.Failure? ==> kv == old(kv)
      ensures r.Failure? ==> r.error == if reachable then Incremented(old(kv), key, delta).error else Transport
    {
      if !reachable {
        return Failure(Transport);
      }
      var next := Incremented(kv, key, delta);
      if next.Failure? {
        return Failure(next.error);
      }
      r := Success(StoredInteger(kv, key).value + delta);
      kv := next.value;
    }

    /** SET key value (no expiry). */
    method Set(key: string, value: string, reachable: bool) returns (r: Outcome<StoreError>)
      modifies this
      ensures rideCounts == old(rideCounts)
      ensures r == if reachable then Pass else Fail(Transport)
      ensures kv == if reachable then old(kv)[key := value] else old(kv)
    {
      if !reachable {
        return Fail(Transport);
      }
      kv := kv[key := value];
      return Pass;
    }

    /** MGET keys...: reads only; Redis rejects it without a key. */
    method MGet(keys: seq<string>, reachable: bool) returns (r: Result<seq<Option<string>>, StoreError>)
      ensures !reachable ==> r == Failure(Transport)
      ensures reachable && keys == [] ==> r == Failure(WrongArity)
      ensures reachable && keys != [] ==> r == Success(MGetValues(kv, keys))
    {
      if !reachable {
        return Failure(Transport);
      }
      if keys == [] {
        return Failure(WrongArity);
      }
      return Success(MGetValues(kv, keys));
    }

    /** `setChairTotalRideCount`: an absolute overwrite of one chair's ride-count record. */
    method SetRideCount(chairId: string, count: int, evaluation: int, reachable: bool) returns (r: Outcome<StoreError>)
      modifies this
      ensures kv == old(kv)
      ensures r == if reachable then Pass else Fail(Transport)
      ensures rideCounts == if reachable then old(rideCounts)[chairId := RideCount(count, evaluation)] else old(rideCounts)
    {
      if !reachable {
        return Fail(Transport);
      }
      rideCounts := rideCounts[chairId := RideCount(count, evaluation)];
      return Pass;
    }
  }
}
