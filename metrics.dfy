/**
 * The in-memory request-statistics aggregator: global request and error
 * totals, a per-status-code counter, and per-"METHOD route" bundles of
 * count, errors and latency sum, read back as a point-in-time snapshot.
 */
module Metrics {
  import opened Tally
  import opened Text

  const ServiceName: string := "ops-observability-dashboard"

  /** Status codes from this value up count as errors. */
  const ErrorStatus: int := 400

  /** The statistics bundle of one (method, route) pair; latency in whole milliseconds. */
  datatype RouteStats = RouteStats(count: nat, errors: nat, totalLatencyMs: nat)

  /** One entry of the snapshot's route list. */
  datatype RouteReport = RouteReport(route: string, httpMethod: string, count: nat, errors: nat, avgMs: real)

  /** What the metrics endpoint reports. */
  datatype MetricsSnapshot = MetricsSnapshot(
    service: string,
    uptimeSeconds: int,
    requestsTotal: nat,
    errorsTotal: nat,
    byStatus: map<string, nat>,
    byRoute: seq<RouteReport>)

  /** The key a (method, route) pair is aggregated under. */
  function RouteKey(httpMethod: string, route: string): string {
    httpMethod + " " + route
  }

  /** The bundle stored under `key`, or the fresh all-zero bundle the defaultdict would create. */
  function StatsOf(m: map<string, RouteStats>, key: string): RouteStats {
    if key in m then m[key] else RouteStats(0, 0, 0)
  }

  /** A bundle after one more request, an error one or not, with the given latency. */
  function Recorded(stats: RouteStats, isError: bool, latencyMs: nat): RouteStats {
    RouteStats(
      stats.count + 1,
      if isError then stats.errors + 1 else stats.errors,
      stats.totalLatencyMs + latencyMs)
  }

  /** The per-route request counts. */
  function Counts(m: map<string, RouteStats>): map<string, nat> {
    map k | k in m :: m[k].count
  }

  /** The per-route error counts. */
  function Errors(m: map<string, RouteStats>): map<string, nat> {
    map k | k in m :: m[k].errors
  }

  /** The sum of the counts in a route list. */
  function TotalCount(reports: seq<RouteReport>): nat {
    if reports == [] then 0 else TotalCount(reports[..|reports| - 1]) + reports[|reports| - 1].count
  }

  /** The sum of the error counts in a route list. */
  function TotalErrors(reports: seq<RouteReport>): nat {
    if reports == [] then 0 else TotalErrors(reports[..|reports| - 1]) + reports[|reports| - 1].errors
  }

  /** Python's `int(x)` on a float: truncation toward zero. */
  function TruncToInt(x: real): (r: int)
    ensures 0.0 <= x ==> 0 <= r && r as real <= x < r as real + 1.0
    ensures x < 0.0 ==> r <= 0 && r as real - 1.0 < x <= r as real
  {
    if x >= 0.0 then x.Floor else -((-x).Floor)
  }

  /**
   * The report of one route bundle: the key taken apart at its first space,
   * and the average latency, which is 0 for a bundle with no requests.
   */
  function Report(key: string, stats: RouteStats): (r: RouteReport)
    requires ' ' in key
    ensures RouteKey(r.httpMethod, r.route) == key && ' ' !in r.httpMethod
    ensures r.count == stats.count && r.errors == stats.errors
    ensures stats.count == 0 ==> r.avgMs == 0.0
    ensures stats.count > 0 ==> r.avgMs * (stats.count as real) == stats.totalLatencyMs as real
  {
    var (httpMethod, route) := SplitAtFirstSpace(key);
    var avgMs := if stats.count != 0 then stats.totalLatencyMs as real / stats.count as real else 0.0;
    RouteReport(route, httpMethod, stats.count, stats.errors, avgMs)
  }

  /** A route recorded under a method without spaces reports that same httpMethod and route. */
  lemma ReportRoundTrip(httpMethod: string, route: string, stats: RouteStats)
    requires ' ' !in httpMethod
    ensures Report(RouteKey(httpMethod, route), stats).httpMethod == httpMethod
    ensures Report(RouteKey(httpMethod, route), stats).route == route
  {
    SplitJoin(httpMethod, route);
  }

  /** No route has more errors than requests, so neither has the whole store. */
  lemma ErrorsAtMostRequests(routes: map<string, RouteStats>)
    requires forall k :: k in routes ==> routes[k].errors <= routes[k].count
    ensures MapSum(Errors(routes)) <= MapSum(Counts(routes))
  {
    MapSumMono(Errors(routes), Counts(routes));
  }

  lemma CountsAfter(routes: map<string, RouteStats>, key: string, stats: RouteStats)
    ensures Counts(routes[key := stats]) == Counts(routes)[key := stats.count]
  {
  }

  lemma ErrorsAfter(routes: map<string, RouteStats>, key: string, stats: RouteStats)
    ensures Errors(routes[key := stats]) == Errors(routes)[key := stats.errors]
  {
  }

  /** The aggregator's counters, as one value. */
  datatype MetricsState = MetricsState(
    requestsTotal: nat,
    errorsTotal: nat,
    byStatus: map<string, nat>,
    byRoute: map<string, RouteStats>,
    routeOrder: seq<string>)

  /** The state before any request is recorded. */
  const Initial: MetricsState := MetricsState(0, 0, map[], map[], [])

  /**
   * The aggregator's invariant: the totals agree with the per-status and the
   * per-route counters, `routeOrder` lists each route key once, every route key
   * holds a space (so it can be split again), every listed route has had a
   * request, and no route has more errors than requests.
   */
  ghost predicate Consistent(st: MetricsState) {
    Enumerates(st.routeOrder, st.byRoute.Keys) &&
    st.requestsTotal == MapSum(st.byStatus) &&
    st.requestsTotal == MapSum(Counts(st.byRoute)) &&
    st.errorsTotal == MapSum(Errors(st.byRoute)) &&
    (forall k :: k in st.byRoute ==>
       ' ' in k && 1 <= st.byRoute[k].count && st.byRoute[k].errors <= st.byRoute[k].count)
  }

  /** The state after one more request counted under route key `key` and status key `statusKey`. */
  function RecordAt(st: MetricsState, key: string, statusKey: string, isError: bool, latencyMs: nat): MetricsState {
    MetricsState(
      st.requestsTotal + 1,
      if isError then st.errorsTotal + 1 else st.errorsTotal,
      st.byStatus[statusKey := Get(st.byStatus, statusKey) + 1],
      st.byRoute[key := Recorded(StatsOf(st.byRoute, key), isError, latencyMs)],
      if key in st.byRoute then st.routeOrder else st.routeOrder + [key])
  }

  /** The state after recording one request. */
  function RecordInto(st: MetricsState, route: string, httpMethod: string, statusCode: int, latencyMs: nat): MetricsState {
    RecordAt(st, RouteKey(httpMethod, route), IntToDecimal(statusCode), statusCode >= ErrorStatus, latencyMs)
  }

  /**
   * What recording one request changes: the request total by one, the error
   * total and the route's error count by one exactly when the status is an
   * error, the counter of that status code by one, the route's count by one and
   * its latency sum by the latency; every other status counter and route bundle
   * is unchanged.
   */
  lemma RecordEffect(st: MetricsState, route: string, httpMethod: string, statusCode: int, latencyMs: nat)
    ensures
      var st' := RecordInto(st, route, httpMethod, statusCode, latencyMs);
      var key, statusKey := RouteKey(httpMethod, route), IntToDecimal(statusCode);
      && st'.requestsTotal == st.requestsTotal + 1
      && (st'.errorsTotal == st.errorsTotal + 1 <==> statusCode >= ErrorStatus)
      && (st'.errorsTotal == st.errorsTotal <==> statusCode < ErrorStatus)
      && Get(st'.byStatus, statusKey) == Get(st.byStatus, statusKey) + 1
      && (forall k :: k != statusKey ==> Get(st'.byStatus, k) == Get(st.byStatus, k))
      && StatsOf(st'.byRoute, key).count == StatsOf(st.byRoute, key).count + 1
      && StatsOf(st'.byRoute, key).totalLatencyMs == StatsOf(st.byRoute, key).totalLatencyMs + latencyMs
      && (StatsOf(st'.byRoute, key).errors == StatsOf(st.byRoute, key).errors + 1 <==> statusCode >= ErrorStatus)
      && (StatsOf(st'.byRoute, key).errors == StatsOf(st.byRoute, key).errors <==> statusCode < ErrorStatus)
      && (forall k :: k != key ==> StatsOf(st'.byRoute, k) == StatsOf(st.byRoute, k))
  {
  }

  /**
   * Status codes are counted apart: recording one code leaves the counter of
   * every other code as it was, since distinct codes render as distinct keys.
   */
  lemma StatusCountersSeparate(st: MetricsState, route: string, httpMethod: string, statusCode: int,
                               latencyMs: nat, other: int)
    requires other != statusCode
    ensures Get(RecordInto(st, route, httpMethod, statusCode, latencyMs).byStatus, IntToDecimal(other))
            == Get(st.byStatus, IntToDecimal(other))
  {
    if IntToDecimal(other) == IntToDecimal(statusCode) {
      IntToDecimalInjective(other, statusCode);
    }
  }

  lemma InitialConsistent()
    ensures Consistent(Initial)
  {
    assert Counts(map[]) == map[];
    assert Errors(map[]) == map[];
  }

  /** Recording into one route bundle moves the count and error totals by that bundle's change alone. */
  lemma RecordedTotals(byRoute: map<string, RouteStats>, key: string, isError: bool, latencyMs: nat)
    ensures MapSum(Counts(byRoute[key := Recorded(StatsOf(byRoute, key), isError, latencyMs)]))
            == MapSum(Counts(byRoute)) + 1
    ensures MapSum(Errors(byRoute[key := Recorded(StatsOf(byRoute, key), isError, latencyMs)]))
            == MapSum(Errors(byRoute)) + (if isError then 1 else 0)
  {
    var stats := Recorded(StatsOf(byRoute, key), isError, latencyMs);
    var counts, errors := Counts(byRoute), Errors(byRoute);
    assert Get(counts, key) == StatsOf(byRoute, key).count;
    assert Get(errors, key) == StatsOf(byRoute, key).errors;
    CountsAfter(byRoute, key, stats);
    ErrorsAfter(byRoute, key, stats);
    MapSumUpdate(counts, key, stats.count);
    MapSumUpdate(errors, key, stats.errors);
  }

  /** Recording keeps the route keys enumerated, splittable, non-empty and with errors bounded by counts. */
  lemma RecordedShape(st: MetricsState, key: string, statusKey: string, isError: bool, latencyMs: nat)
    requires Consistent(st) && ' ' in key
    ensures Enumerates(RecordAt(st, key, statusKey, isError, latencyMs).routeOrder,
                       RecordAt(st, key, statusKey, isError, latencyMs).byRoute.Keys)
    ensures forall k :: k in RecordAt(st, key, statusKey, isError, latencyMs).byRoute ==>
              var stats := RecordAt(st, key, statusKey, isError, latencyMs).byRoute[k];
              ' ' in k && 1 <= stats.count && stats.errors <= stats.count
  {
    EnumeratesAdd(st.routeOrder, st.byRoute.Keys, key);
    assert RecordAt(st, key, statusKey, isError, latencyMs).byRoute.Keys == st.byRoute.Keys + {key};
  }

  /** Recording one request under a splittable route key keeps the aggregator consistent. */
  lemma RecordKeepsConsistent(st: MetricsState, key: string, statusKey: string, isError: bool, latencyMs: nat)
    requires Consistent(st) && ' ' in key
    ensures Consistent(RecordAt(st, key, statusKey, isError, latencyMs))
  {
    var st' := RecordAt(st, key, statusKey, isError, latencyMs);
    MapSumUpdate(st.byStatus, statusKey, Get(st.byStatus, statusKey) + 1);
    assert st'.requestsTotal == MapSum(st'.byStatus);
    RecordedTotals(st.byRoute, key, isError, latencyMs);
    assert st'.requestsTotal == MapSum(Counts(st'.byRoute));
    assert st'.errorsTotal == MapSum(Errors(st'.byRoute));
    RecordedShape(st, key, statusKey, isError, latencyMs);
  }

  /** Every key of `order` has a bundle whose key can be split at a space. */
  predicate Splittable(order: seq<string>, byRoute: map<string, RouteStats>) {
    forall i :: 0 <= i < |order| ==> order[i] in byRoute && ' ' in order[i]
  }

  /** The reports of the routes listed in `order` add up to the totals along that order. */
  lemma {:induction false} ReportTotals(order: seq<string>, byRoute: map<string, RouteStats>, reports: seq<RouteReport>)
    requires Splittable(order, byRoute)
    requires |reports| == |order|
    requires forall i :: 0 <= i < |order| ==> reports[i] == Report(order[i], byRoute[order[i]])
    ensures TotalCount(reports) == SumAlong(order, Counts(byRoute))
    ensures TotalErrors(reports) == SumAlong(order, Errors(byRoute))
  {
    if order != [] {
      var n := |order| - 1;
      ReportTotals(order[..n], byRoute, reports[..n]);
    }
  }

  class MetricsStore {
    var startTime: real
    var requestsTotal: nat
    var errorsTotal: nat
    var byStatus: map<string, nat>
    var byRoute: map<string, RouteStats>
    /** The keys of `byRoute` in the order they were first recorded (a dict's iteration order). */
    var routeOrder: seq<string>

    /** The counters held in the fields. */
    function State(): MetricsState
      reads this
    {
      MetricsState(requestsTotal, errorsTotal, byStatus, byRoute, routeOrder)
    }

    ghost predicate Valid()
      reads this
    {
      Consistent(State())
    }

    /** A store with nothing recorded, started at `now`. */
    constructor (now: real)
      ensures Valid()
      ensures startTime == now
      ensures State() == Initial
    {
      startTime := now;
      requestsTotal := 0;
      errorsTotal := 0;
      byStatus := map[];
      byRoute := map[];
      routeOrder := [];
      InitialConsistent();
    }

    /** Accounts for one completed request (see `RecordInto` and `RecordEffect`). */
    method Record(route: string, httpMethod: string, statusCode: int, latencyMs: nat)
      requires Valid()
      modifies this
      ensures Valid()
      ensures State() == RecordInto(old(State()), route, httpMethod, statusCode, latencyMs)
      ensures startTime == old(startTime)
    {
      var key := RouteKey(httpMethod, route);
      assert key[|httpMethod|] == ' ';
      RecordKeepsConsistent(State(), key, IntToDecimal(statusCode), statusCode >= ErrorStatus, latencyMs);
      var next := RecordInto(State(), route, httpMethod, statusCode, latencyMs);
      requestsTotal, errorsTotal := next.requestsTotal, next.errorsTotal;
      byStatus, byRoute, routeOrder := next.byStatus, next.byRoute, next.routeOrder;
      assert State() == next;
    }

    /**
     * The snapshot at time `now`: the current totals and status counters, and
     * one report per route in recording order, whose counts and errors add up
     * to the totals.
     */
    method Snapshot(now: real) returns (s: MetricsSnapshot)
      requires Valid()
      ensures s.service == ServiceName
      ensures s.uptimeSeconds == TruncToInt(now - startTime)
      ensures s.requestsTotal == requestsTotal && s.errorsTotal == errorsTotal
      ensures s.byStatus == byStatus
      ensures |s.byRoute| == |routeOrder|
      ensures forall i :: 0 <= i < |s.byRoute| ==> s.byRoute[i] == Report(routeOrder[i], byRoute[routeOrder[i]])
      ensures TotalCount(s.byRoute) == s.requestsTotal
      ensures TotalErrors(s.byRoute) == s.errorsTotal
    {
      var uptime := TruncToInt(now - startTime);
      var order, stats := routeOrder, byRoute;
      assert Splittable(order, stats);
      var routes: seq<RouteReport> := [];
      var i := 0;
      while i < |order|
        invariant 0 <= i <= |order|
        invariant |routes| == i
        invariant forall j :: 0 <= j < i ==> routes[j] == Report(order[j], stats[order[j]])
      {
        var key := order[i];
        routes := routes + [Report(key, stats[key])];
        i := i + 1;
      }
      ReportTotals(order, stats, routes);
      SumAlongIsMapSum(order, Counts(stats));
      SumAlongIsMapSum(order, Errors(stats));
      s := MetricsSnapshot(ServiceName, uptime, requestsTotal, errorsTotal, byStatus, routes);
    }
  }
}
