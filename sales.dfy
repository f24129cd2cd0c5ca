/**
 * The owner sales report (`GET /api/owner/sales`): the per-ride fare summed
 * over each owned chair's completed rides, the grand total, and the total per
 * chair model.
 *
 * `calculateFare` is not part of this model: the fare of a ride is whatever
 * the parameter `fare` returns for its pickup and destination coordinates.
 */
module Sales {
  import opened Base
  import opened Decimal
  import opened Entities

  /** `calculateFare(pickupLat, pickupLon, destLat, destLon)`, left abstract. */
  type Fare = (int, int, int, int) -> int

  /** `calculateSale`: the fare of one ride. */
  function CalculateSale(fare: Fare, ride: Ride): int
  {
    fare(ride.pickup.latitude, ride.pickup.longitude, ride.destination.latitude, ride.destination.longitude)
  }

  /** The sum of the fares of `rides`. */
  function TotalSales(fare: Fare, rides: seq<Ride>): int
  {
    if rides == [] then 0 else CalculateSale(fare, rides[0]) + TotalSales(fare, rides[1..])
  }

  /** Summing sales distributes over concatenation of ride lists. */
  lemma {:induction false} TotalSalesAppend(fare: Fare, a: seq<Ride>, b: seq<Ride>)
    ensures TotalSales(fare, a + b) == TotalSales(fare, a) + TotalSales(fare, b)
  {
    if a == [] {
      assert a + b == b;
    } else {
      assert (a + b)[1..] == a[1..] + b;
      TotalSalesAppend(fare, a[1..], b);
    }
  }

  /** `sumSales`: accumulates the fare of each ride in turn. */
  method SumSales(fare: Fare, rides: seq<Ride>) returns (sale: int)
    ensures sale == TotalSales(fare, rides)
  {
    sale := 0;
    for i := 0 to |rides|
      invariant sale == TotalSales(fare, rides[..i])
    {
      assert rides[..i + 1] == rides[..i] + [rides[i]];
      TotalSalesAppend(fare, rides[..i], [rides[i]]);
      sale := sale + CalculateSale(fare, rides[i]);
    }
    assert rides[..|rides|] == rides;
  }

  datatype ChairSales = ChairSales(id: string, name: string, sales: int)

  datatype ModelSales = ModelSales(model: string, sales: int)

  datatype SalesReport = SalesReport(totalSales: int, chairs: seq<ChairSales>, models: seq<ModelSales>)

  /** The `[since, until]` filter on a ride's completion time, in Unix milliseconds. */
  datatype Window = Window(since: int, until: int)

  datatype QueryParam = Since | Until

  /** `time.Date(9999, 12, 31, 23, 59, 59, 0, time.UTC)` as Unix milliseconds. */
  const EndOfTimeMilli: int := 253_402_300_799_000

  /**
   * The query parameters `since` and `until` (an absent parameter reads as
   * ""): absent means the epoch and the end of year 9999; present must parse
   * as a decimal int64 of milliseconds; `since` is looked at first.
   */
  function ParseWindow(since: string, until: string): (r: Result<Window, QueryParam>)
    ensures r.Failure? <==> (since != "" && ParseInt(since).None?) || (until != "" && ParseInt(until).None?)
    ensures r.Failure? && since != "" && ParseInt(since).None? ==> r.error == Since
    ensures r.Success? && since == "" ==> r.value.since == 0
    ensures r.Success? && until == "" ==> r.value.until == EndOfTimeMilli
    ensures r.Success? && since != "" ==> IsInt64(r.value.since)
    ensures r.Success? && until != "" ==> IsInt64(r.value.until)
  {
    if since != "" && ParseInt(since).None? then Failure(Since)
    else if until != "" && ParseInt(until).None? then Failure(Until)
    else
      Success(Window(
        if since == "" then 0 else ParseInt(since).value,
        if until == "" then EndOfTimeMilli else ParseInt(until).value))
  }

  /** A window sent as two formatted int64 values is read back exactly. */
  lemma WindowRoundTrip(since: int, until: int)
    requires IsInt64(since) && IsInt64(until)
    ensures ParseWindow(FormatInt(since), FormatInt(until)) == Success(Window(since, until))
  {
    ParseFormat(since);
    ParseFormat(until);
  }

  /** The database as `ownerGetSales` sees it; a None is a failed statement. */
  datatype SalesDb = SalesDb(
    beginOk: bool,
    ownedChairs: Option<seq<Chair>>,
    completedRides: (string, Window) -> Option<seq<Ride>>)

  function SumChairSales(s: seq<ChairSales>): int
  {
    if s == [] then 0 else SumChairSales(s[..|s| - 1]) + s[|s| - 1].sales
  }

  function SumModelSales(s: seq<ModelSales>): int
  {
    if s == [] then 0 else SumModelSales(s[..|s| - 1]) + s[|s| - 1].sales
  }

  function ModelNames(chairs: seq<Chair>): set<string>
  {
    set c | c in chairs :: c.model
  }

  /** The summed sales of the chairs of model `m`, reading `sales` alongside `chairs`. */
  function ModelTotal(chairs: seq<Chair>, sales: seq<ChairSales>, m: string): int
    requires |chairs| == |sales|
  {
    if chairs == [] then 0
    else
      var n := |chairs| - 1;
      ModelTotal(chairs[..n], sales[..n], m) + (if chairs[n].model == m then sales[n].sales else 0)
  }

  /** The sum of the values of a map, in no particular order. */
  ghost function MapSum(m: map<string, int>): int
    decreases |m.Keys|
  {
    if m.Keys == {} then 0
    else
      var k :| k in m.Keys;
      assert (m - {k}).Keys == m.Keys - {k};
      m[k] + MapSum(m - {k})
  }

  /** Any key may be taken out first: the order of summation is irrelevant. */
  lemma {:induction false} MapSumRemove(m: map<string, int>, k: string)
    requires k in m
    ensures MapSum(m) == m[k] + MapSum(m - {k})
    decreases |m.Keys|
  {
    assert m.Keys != {};
    var j :| j in m.Keys && MapSum(m) == m[j] + MapSum(m - {j});
    if j != k {
      assert (m - {j}).Keys == m.Keys - {j};
      assert (m - {k}).Keys == m.Keys - {k};
      MapSumRemove(m - {j}, k);
      MapSumRemove(m - {k}, j);
      assert m - {j} - {k} == m - {k} - {j};
    }
  }

  /** Adding `v` to the entry of `k` (absent counts as 0) adds `v` to the map's sum. */
  lemma MapSumAdd(m: map<string, int>, k: string, v: int)
    ensures MapSum(m[k := (if k in m then m[k] else 0) + v]) == MapSum(m) + v
  {
    var m' := m[k := (if k in m then m[k] else 0) + v];
    MapSumRemove(m', k);
    assert m' - {k} == m - {k};
    if k in m {
      MapSumRemove(m, k);
    } else {
      assert m - {k} == m;
    }
  }

  /** Everything the source promises of a successful report. */
  ghost predicate IsSalesReport(fare: Fare, chairs: seq<Chair>, rides: seq<seq<Ride>>, report: SalesReport)
    requires |rides| == |chairs|
  {
    && |report.chairs| == |chairs|
    && (forall k :: 0 <= k < |chairs| ==>
          report.chairs[k] == ChairSales(chairs[k].id, chairs[k].name, TotalSales(fare, rides[k])))
    && report.totalSales == SumChairSales(report.chairs)
    && report.totalSales == SumModelSales(report.models)
    && (forall i, j :: 0 <= i < j < |report.models| ==> report.models[i].model != report.models[j].model)
    && Names(report.models) == ModelNames(chairs)
    && (forall e :: e in report.models ==> e.sales == ModelTotal(chairs, report.chairs, e.model))
  }

  /** Each chair's completed rides in the window, when every query succeeded. */
  function RidesOfChairs(chairs: seq<Chair>, w: Window, q: (string, Window) -> Option<seq<Ride>>): (r: seq<seq<Ride>>)
    requires forall k :: 0 <= k < |chairs| ==> q(chairs[k].id, w).Some?
    ensures |r| == |chairs|
    ensures forall k :: 0 <= k < |chairs| ==> r[k] == q(chairs[k].id, w).value
  {
    seq(|chairs|, k requires 0 <= k < |chairs| => q(chairs[k].id, w).value)
  }

  /** The state of the chair loop of `ownerGetSales` once it has run to the end. */
  datatype Aggregate = Aggregate(total: int, chairs: seq<ChairSales>, byModel: map<string, int>)

  /** The per-model map holds, for each model seen so far, the summed sales of its chairs. */
  ghost predicate ByModelInv(chairs: seq<Chair>, out: seq<ChairSales>, byModel: map<string, int>)
  {
    && |chairs| == |out|
    && byModel.Keys == ModelNames(chairs)
    && (forall m :: m in byModel ==> byModel[m] == ModelTotal(chairs, out, m))
  }

  /** `byModel[model] += amount` on a Go map, where a missing key reads as 0. */
  function AddSale(byModel: map<string, int>, model: string, amount: int): map<string, int>
  {
    byModel[model := (if model in byModel then byModel[model] else 0) + amount]
  }

  /** The map `modelSalesByModel` after the chair loop has seen `chairs` with the sales `out`. */
  function ModelMap(chairs: seq<Chair>, out: seq<ChairSales>): map<string, int>
    requires |chairs| == |out|
  {
    if chairs == [] then map[]
    else
      var n := |chairs| - 1;
      AddSale(ModelMap(chairs[..n], out[..n]), chairs[n].model, out[n].sales)
  }

  lemma {:induction false} ModelTotalUnseen(chairs: seq<Chair>, out: seq<ChairSales>, m: string)
    requires |chairs| == |out| && m !in ModelNames(chairs)
    ensures ModelTotal(chairs, out, m) == 0
  {
    if chairs != [] {
      var n := |chairs| - 1;
      assert chairs[n] in chairs;
      assert ModelNames(chairs[..n]) <= ModelNames(chairs);
      ModelTotalUnseen(chairs[..n], out[..n], m);
    }
  }

  lemma ModelMapSnoc(cs: seq<Chair>, os: seq<ChairSales>, c: Chair, e: ChairSales)
    requires |cs| == |os|
    ensures ModelMap(cs + [c], os + [e]) == AddSale(ModelMap(cs, os), c.model, e.sales)
  {
    assert (cs + [c])[..|cs|] == cs;
    assert (os + [e])[..|cs|] == os;
  }

  lemma ModelTotalSnoc(cs: seq<Chair>, os: seq<ChairSales>, c: Chair, e: ChairSales, m: string)
    requires |cs| == |os|
    ensures ModelTotal(cs + [c], os + [e], m) == ModelTotal(cs, os, m) + (if c.model == m then e.sales else 0)
  {
    assert (cs + [c])[..|cs|] == cs;
    assert (os + [e])[..|cs|] == os;
  }

  /**
   * Accumulating `modelSalesByModel[chair.Model] += sales` yields, for each
   * model present among the chairs and no other, the summed sales of its
   * chairs.
   */
  lemma {:induction false} ModelMapCorrect(chairs: seq<Chair>, out: seq<ChairSales>)
    requires |chairs| == |out|
    ensures ByModelInv(chairs, out, ModelMap(chairs, out))
  {
    if chairs != [] {
      var n := |chairs| - 1;
      var c, e := chairs[n], out[n];
      var cs, os := chairs[..n], out[..n];
      assert chairs == cs + [c] && out == os + [e];
      ModelMapCorrect(cs, os);
      ModelMapSnoc(cs, os, c, e);
      var prev := ModelMap(cs, os);
      assert ModelNames(chairs) == ModelNames(cs) + {c.model};
      if c.model !in prev {
        ModelTotalUnseen(cs, os, c.model);
      }
      forall m | m in ModelMap(chairs, out)
        ensures ModelMap(chairs, out)[m] == ModelTotal(chairs, out, m)
      {
        ModelTotalSnoc(cs, os, c, e, m);
      }
    }
  }

  /** The per-model totals add up to the chairs' total. */
  lemma {:induction false} ModelMapSum(chairs: seq<Chair>, out: seq<ChairSales>)
    requires |chairs| == |out|
    ensures MapSum(ModelMap(chairs, out)) == SumChairSales(out)
  {
    if chairs != [] {
      var n := |chairs| - 1;
      var cs, os := chairs[..n], out[..n];
      assert chairs == cs + [chairs[n]] && out == os + [out[n]];
      ModelMapSum(cs, os);
      ModelMapSnoc(cs, os, chairs[n], out[n]);
      SumChairSalesNext(os, out[n]);
      MapSumAdd(ModelMap(cs, os), chairs[n].model, out[n].sales);
    }
  }

  lemma SumChairSalesNext(out: seq<ChairSales>, e: ChairSales)
    ensures SumChairSales(out + [e]) == SumChairSales(out) + e.sales
  {
    assert (out + [e])[..|out|] == out;
  }

  /** What the chair loop of `ownerGetSales` has built after the first `i` chairs. */
  ghost predicate ChairLoopInv(fare: Fare, chairs: seq<Chair>, w: Window, q: (string, Window) -> Option<seq<Ride>>,
                               i: nat, total: int, out: seq<ChairSales>, byModel: map<string, int>)
  {
    && i <= |chairs| && |out| == i
    && (forall k :: 0 <= k < i ==> q(chairs[k].id, w).Some?)
    && (forall k :: 0 <= k < i ==>
          out[k] == ChairSales(chairs[k].id, chairs[k].name, TotalSales(fare, q(chairs[k].id, w).value)))
    && total == SumChairSales(out)
    && byModel == ModelMap(chairs[..i], out)
  }

  /** One more chair whose query succeeded keeps `ChairLoopInv`. */
  lemma ChairLoopStep(fare: Fare, chairs: seq<Chair>, w: Window, q: (string, Window) -> Option<seq<Ride>>,
                      i: nat, total: int, out: seq<ChairSales>, byModel: map<string, int>)
    requires ChairLoopInv(fare, chairs, w, q, i, total, out, byModel)
    requires i < |chairs| && q(chairs[i].id, w).Some?
    ensures var sales := TotalSales(fare, q(chairs[i].id, w).value);
      ChairLoopInv(fare, chairs, w, q, i + 1, total + sales, out + [ChairSales(chairs[i].id, chairs[i].name, sales)],
                   AddSale(byModel, chairs[i].model, sales))
  {
    var e := ChairSales(chairs[i].id, chairs[i].name, TotalSales(fare, q(chairs[i].id, w).value));
    assert chairs[..i + 1] == chairs[..i] + [chairs[i]];
    ModelMapSnoc(chairs[..i], out, chairs[i], e);
    SumChairSalesNext(out, e);
  }

  /**
   * The chair loop of `ownerGetSales`: one query and one `sumSales` per
   * chair, in order, adding to the total, to the chair list and to the
   * per-model map; None as soon as a query fails.
   */
  method AggregateByChair(fare: Fare, chairs: seq<Chair>, w: Window, q: (string, Window) -> Option<seq<Ride>>)
    returns (r: Option<Aggregate>)
    ensures r.Some? <==> forall k :: 0 <= k < |chairs| ==> q(chairs[k].id, w).Some?
    ensures r.Some? ==>
      && |r.value.chairs| == |chairs|
      && (forall k :: 0 <= k < |chairs| ==>
            r.value.chairs[k] == ChairSales(chairs[k].id, chairs[k].name, TotalSales(fare, q(chairs[k].id, w).value)))
      && r.value.total == SumChairSales(r.value.chairs)
      && r.value.byModel == ModelMap(chairs, r.value.chairs)
  {
    var total := 0;
    var out: seq<ChairSales> := [];
    var byModel: map<string, int> := map[];
    for i := 0 to |chairs|
      invariant ChairLoopInv(fare, chairs, w, q, i, total, out, byModel)
    {
      var rides := q(chairs[i].id, w);
      if rides.None? {
        return None;
      }
      var sales := SumSales(fare, rides.value);
      ChairLoopStep(fare, chairs, w, q, i, total, out, byModel);
      total := total + sales;
      out := out + [ChairSales(chairs[i].id, chairs[i].name, sales)];
      byModel := AddSale(byModel, chairs[i].model, sales);
    }
    assert chairs[..|chairs|] == chairs;
    return Some(Aggregate(total, out, byModel));
  }

  function Names(models: seq<ModelSales>): set<string>
  {
    set e | e in models :: e.model
  }

  /** What `ModelList` has built so far from the entries no longer in `rest`. */
  ghost predicate ModelListInv(byModel: map<string, int>, rest: map<string, int>, models: seq<ModelSales>)
  {
    && rest.Keys <= byModel.Keys
    && (forall m :: m in rest ==> rest[m] == byModel[m])
    && SumModelSales(models) + MapSum(rest) == MapSum(byModel)
    && Names(models) == byModel.Keys - rest.Keys
    && (forall i, j :: 0 <= i < j < |models| ==> models[i].model != models[j].model)
    && (forall e :: e in models ==> e.model in byModel && e.sales == byModel[e.model])
  }

  lemma ModelListStep(byModel: map<string, int>, rest: map<string, int>, models: seq<ModelSales>, m: string)
    requires ModelListInv(byModel, rest, models) && m in rest
    ensures ModelListInv(byModel, rest - {m}, models + [ModelSales(m, rest[m])])
  {
    MapSumRemove(rest, m);
    var entry := ModelSales(m, rest[m]);
    assert (models + [entry])[..|models|] == models;
    assert Names(models + [entry]) == Names(models) + {m};
    assert (rest - {m}).Keys == rest.Keys - {m};
  }

  /** The `range` over the per-model map: one entry per model, in whatever order the map yields. */
  method ModelList(byModel: map<string, int>) returns (models: seq<ModelSales>)
    ensures SumModelSales(models) == MapSum(byModel)
    ensures forall i, j :: 0 <= i < j < |models| ==> models[i].model != models[j].model
    ensures Names(models) == byModel.Keys
    ensures forall e :: e in models ==> e.model in byModel && e.sales == byModel[e.model]
  {
    models := [];
    var rest := byModel;
    while rest != map[]
      invariant ModelListInv(byModel, rest, models)
      decreases |rest.Keys|
    {
      var m :| m in rest;
      ModelListStep(byModel, rest, models, m);
      models := models + [ModelSales(m, rest[m])];
      assert (rest - {m}).Keys == rest.Keys - {m};
      rest := rest - {m};
    }
    assert rest.Keys == {};
  }

  /**
   * `ownerGetSales`: 400 on a malformed window before any database work, 500
   * when a statement fails, otherwise the report.
   */
  method OwnerGetSales(fare: Fare, since: string, until: string, db: SalesDb) returns (res: Response<SalesReport>)
    ensures ParseWindow(since, until).Failure? ==> res == ErrorStatus(400)
    ensures ParseWindow(since, until).Success? ==>
      var w := ParseWindow(since, until).value;
      && (res.Ok? <==>
            db.beginOk && db.ownedChairs.Some?
            && forall k :: 0 <= k < |db.ownedChairs.value| ==> db.completedRides(db.ownedChairs.value[k].id, w).Some?)
      && (res.ErrorStatus? ==> res.status == 500)
      && (res.Ok? ==> IsSalesReport(fare, db.ownedChairs.value,
                                    RidesOfChairs(db.ownedChairs.value, w, db.completedRides), res.body))
  {
    var parsed := ParseWindow(since, until);
    if parsed.Failure? {
      return ErrorStatus(400);
    }
    var w := parsed.value;
    if !db.beginOk || db.ownedChairs.None? {
      return ErrorStatus(500);
    }
    var chairs := db.ownedChairs.value;
    var agg := AggregateByChair(fare, chairs, w, db.completedRides);
    if agg.None? {
      return ErrorStatus(500);
    }
    ModelMapCorrect(chairs, agg.value.chairs);
    ModelMapSum(chairs, agg.value.chairs);
    var models := ModelList(agg.value.byModel);
    res := Ok(SalesReport(agg.value.total, agg.value.chairs, models));
  }
}
