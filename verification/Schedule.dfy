/** The static schedule graph and its queries (internal/graph/graph.go). */
module Schedule {
  import opened Common

  datatype Stop = Stop(id: string, name: string, locationType: int, parentStation: string)

  datatype Trip = Trip(id: string, routeId: string, serviceId: string, directionId: int)

  /** One stop_times row; times are service-day seconds and may exceed 86400. */
  datatype StopTime = StopTime(tripId: string, stopId: string, arrivalSecs: int, departureSecs: int, stopSequence: int)

  datatype Transfer = Transfer(fromStop: string, toStop: string, transferType: int, minTransferTime: int)

  /** route, direction, parent station, hour */
  type HeadwayKey = (string, int, string, int)

  const OVERNIGHT_WINDOW_SECS := 4 * 3600
  const DAY_SECS := 86400

  /** A fixed offset from UTC and the present moment, both in seconds. */
  datatype Clock = Clock(utcOffset: int, now: int)

  /** Seconds since local midnight of a Unix time, or of the present when it is not positive. */
  function SecsSinceMidnight(c: Clock, ts: int): int { ((if ts > 0 then ts else c.now) + c.utcOffset) % DAY_SECS }

  /** The reading is what is left of the local time, or of the present for a time not after 1970, beyond whole days. */
  lemma ClockReading(c: Clock, ts: int) returns (day: int)
    ensures 0 <= SecsSinceMidnight(c, ts) < 86400
    ensures ts > 0 ==> ts + c.utcOffset == 86400 * day + SecsSinceMidnight(c, ts)
    ensures ts <= 0 ==> c.now + c.utcOffset == 86400 * day + SecsSinceMidnight(c, ts)
  {
    day := ((if ts > 0 then ts else c.now) + c.utcOffset) / 86400;
  }

  function ParentStation(id: string, stops: map<string, Stop>): string {
    if id in stops && stops[id].parentStation != "" then stops[id].parentStation else id
  }

  predicate SortedByDeparture(list: seq<StopTime>) {
    forall i, j :: 0 <= i < j < |list| ==> list[i].departureSecs <= list[j].departureSecs
  }

  predicate SortedBySequence(list: seq<StopTime>) {
    forall i, j :: 0 <= i < j < |list| ==> list[i].stopSequence <= list[j].stopSequence
  }

  /** The index maps of TransitGraph. Go's missing-key zero values are made explicit by the accessors. */
  datatype Graph = Graph(
    stops: map<string, Stop>,
    tripRoute: map<string, string>,
    tripDirection: map<string, int>,
    byStop: map<string, seq<StopTime>>,
    byTrip: map<string, seq<StopTime>>,
    transfersByStop: map<string, seq<Transfer>>,
    routesAtStop: map<string, set<string>>,
    tripSuffix: map<string, string>,
    headways: map<HeadwayKey, real>)
  {
    function Parent(id: string): string { ParentStation(id, stops) }

    function RouteOf(trip: string): string { if trip in tripRoute then tripRoute[trip] else "" }

    function DirectionOf(trip: string): int { if trip in tripDirection then tripDirection[trip] else 0 }

    function KnownDirection(trip: string): Option<int> {
      if trip in tripDirection then Some(tripDirection[trip]) else None
    }

    function Departures(stop: string): seq<StopTime> {
      if Parent(stop) in byStop then byStop[Parent(stop)] else []
    }

    function TripStops(trip: string): seq<StopTime> { if trip in byTrip then byTrip[trip] else [] }

    function RoutesAt(stop: string): set<string> {
      if Parent(stop) in routesAtStop then routesAtStop[Parent(stop)] else {}
    }

    function TransfersFrom(stop: string): seq<Transfer> {
      if Parent(stop) in transfersByStop then transfersByStop[Parent(stop)] else []
    }

    /** What BuildGraph's sort establishes and the binary search relies on. */
    predicate Sorted() { forall s :: s in byStop ==> SortedByDeparture(byStop[s]) }
  }

  /* ---------------- departures ---------------- */

  /** Every row of the list on the route departing at or after the time, in list order: the plain scan. */
  function OnRoute(g: Graph, list: seq<StopTime>, route: string, after: int): seq<StopTime> {
    if list == [] then []
    else
      var rest := OnRoute(g, list[1..], route, after);
      if list[0].departureSecs >= after && g.RouteOf(list[0].tripId) == route then [list[0]] + rest else rest
  }

  function NextDepartures(g: Graph, stop: string, route: string, after: int, n: int): seq<StopTime> {
    Take(OnRoute(g, g.Departures(stop), route, after), n)
  }

  /** The wrap-aware lookup: departures together with the frame they are expressed in. */
  function NextDeparturesWrapped(g: Graph, stop: string, route: string, tod: int, n: int): (seq<StopTime>, int) {
    var deps := NextDepartures(g, stop, route, tod, n);
    var late := NextDepartures(g, stop, route, tod + DAY_SECS, n);
    if tod < OVERNIGHT_WINDOW_SECS && late != [] &&
       (deps == [] || late[0].departureSecs - (tod + DAY_SECS) < deps[0].departureSecs - tod)
    then (late, tod + DAY_SECS)
    else (deps, tod)
  }

  lemma {:induction false} OnRouteSkip(g: Graph, list: seq<StopTime>, route: string, after: int, k: nat)
    requires k <= |list|
    requires forall i :: 0 <= i < k ==> list[i].departureSecs < after
    ensures OnRoute(g, list, route, after) == OnRoute(g, list[k..], route, after)
  {
    if k == 0 {
      assert list[0..] == list;
    } else {
      OnRouteSkip(g, list[1..], route, after, k - 1);
      assert list[1..][k - 1..] == list[k..];
    }
  }

  /** What the scan returns: exactly the matching rows, in time order. */
  lemma {:induction false} OnRouteExact(g: Graph, list: seq<StopTime>, route: string, after: int)
    requires SortedByDeparture(list)
    ensures SortedByDeparture(OnRoute(g, list, route, after))
    ensures forall st :: st in OnRoute(g, list, route, after) <==>
                         st in list && st.departureSecs >= after && g.RouteOf(st.tripId) == route
  {
    if list != [] {
      OnRouteExact(g, list[1..], route, after);
      assert list == [list[0]] + list[1..];
      forall st | st in OnRoute(g, list[1..], route, after)
        ensures list[0].departureSecs <= st.departureSecs
      {
        var i :| 0 <= i < |list[1..]| && list[1..][i] == st;
        assert list[i + 1] == st;
      }
    }
  }

  /** A later query returns a suffix of an earlier one; what it drops departs before the later time. */
  lemma {:induction false} OnRouteSplit(g: Graph, list: seq<StopTime>, route: string, a: int, b: int)
    requires SortedByDeparture(list) && a <= b
    ensures var x := OnRoute(g, list, route, a);
            var y := OnRoute(g, list, route, b);
            && |y| <= |x|
            && x[|x| - |y|..] == y
            && forall i :: 0 <= i < |x| - |y| ==> x[i].departureSecs < b
  {
    if list != [] {
      OnRouteSplit(g, list[1..], route, a, b);
      if list[0].departureSecs >= b {
        forall i | 0 <= i < |list| ensures list[i].departureSecs >= b {}
        OnRouteAllLate(g, list, route, a, b);
      } else {
        var x := OnRoute(g, list, route, a);
        var x' := OnRoute(g, list[1..], route, a);
        var y := OnRoute(g, list, route, b);
        assert y == OnRoute(g, list[1..], route, b);
        if x != x' {
          assert x == [list[0]] + x';
          assert x[|x| - |y|..] == x'[|x'| - |y|..];
        }
      }
    }
  }

  lemma {:induction false} OnRouteAllLate(g: Graph, list: seq<StopTime>, route: string, a: int, b: int)
    requires a <= b && forall i :: 0 <= i < |list| ==> list[i].departureSecs >= b
    ensures OnRoute(g, list, route, a) == OnRoute(g, list, route, b)
  {
    if list != [] { OnRouteAllLate(g, list[1..], route, a, b); }
  }

  /** sort.Search for the first departure at or after the time. */
  method SearchDeparture(all: seq<StopTime>, after: int) returns (start: nat)
    requires SortedByDeparture(all)
    ensures start <= |all|
    ensures forall i :: 0 <= i < start ==> all[i].departureSecs < after
    ensures forall i :: start <= i < |all| ==> all[i].departureSecs >= after
  {
    var lo, hi := 0, |all|;
    while lo < hi
      invariant 0 <= lo <= hi <= |all|
      invariant forall i :: 0 <= i < lo ==> all[i].departureSecs < after
      invariant forall i :: hi <= i < |all| ==> all[i].departureSecs >= after
    {
      var mid := (lo + hi) / 2;
      if all[mid].departureSecs >= after { hi := mid; } else { lo := mid + 1; }
    }
    start := lo;
  }

  method GetNextDepartures(g: Graph, stop: string, route: string, after: int, n: int) returns (deps: seq<StopTime>)
    requires SortedByDeparture(g.Departures(stop))
    ensures deps == NextDepartures(g, stop, route, after, n)
  {
    var all := g.Departures(stop);
    var i := SearchDeparture(all, after);
    OnRouteSkip(g, all, route, after, i);
    ghost var wanted := OnRoute(g, all, route, after);
    deps := [];
    while i < |all| && |deps| < n
      invariant i <= |all|
      invariant forall j :: i <= j < |all| ==> all[j].departureSecs >= after
      invariant |deps| <= Max(n, 0)
      invariant wanted == deps + OnRoute(g, all[i..], route, after)
    {
      OnRouteHead(g, all, route, after, i);
      if g.RouteOf(all[i].tripId) == route {
        deps := deps + [all[i]];
      }
      i := i + 1;
    }
  }

  lemma OnRouteHead(g: Graph, all: seq<StopTime>, route: string, after: int, i: nat)
    requires i < |all|
    ensures OnRoute(g, all[i..], route, after) ==
            (if all[i].departureSecs >= after && g.RouteOf(all[i].tripId) == route then [all[i]] else []) +
            OnRoute(g, all[i + 1..], route, after)
  {
    assert all[i..][1..] == all[i + 1..];
  }

  method NextDeparturesAfter(g: Graph, stop: string, route: string, tod: int, n: int)
    returns (deps: seq<StopTime>, effectiveTod: int)
    requires SortedByDeparture(g.Departures(stop))
    ensures (deps, effectiveTod) == NextDeparturesWrapped(g, stop, route, tod, n)
  {
    deps := GetNextDepartures(g, stop, route, tod, n);
    effectiveTod := tod;
    if tod < OVERNIGHT_WINDOW_SECS {
      var wrapped := tod + DAY_SECS;
      var late := GetNextDepartures(g, stop, route, wrapped, n);
      if |late| > 0 && (|deps| == 0 || late[0].departureSecs - wrapped < deps[0].departureSecs - tod) {
        return late, wrapped;
      }
    }
  }

  /** A row on the route at the station departing no earlier than the frame. */
  predicate Candidate(g: Graph, stop: string, route: string, frame: int, st: StopTime) {
    st in g.Departures(stop) && g.RouteOf(st.tripId) == route && st.departureSecs >= frame
  }

  /** GetNextDepartures returns the earliest candidates: nothing it leaves out departs before what it returns. */
  lemma EarliestDepartures(g: Graph, stop: string, route: string, after: int, n: int)
    requires SortedByDeparture(g.Departures(stop))
    ensures var deps := NextDepartures(g, stop, route, after, n);
            && SortedByDeparture(deps)
            && (forall st :: st in deps ==> Candidate(g, stop, route, after, st))
            && (n > 0 && (exists st :: Candidate(g, stop, route, after, st)) ==> deps != [])
            && (|deps| < n ==> forall st :: Candidate(g, stop, route, after, st) ==> st in deps)
            && (forall st :: Candidate(g, stop, route, after, st) && st !in deps && n > 0 ==>
                             deps != [] && deps[|deps| - 1].departureSecs <= st.departureSecs)
  {
    var all := OnRoute(g, g.Departures(stop), route, after);
    OnRouteExact(g, g.Departures(stop), route, after);
    var deps := NextDepartures(g, stop, route, after, n);
    forall st | Candidate(g, stop, route, after, st) && st !in deps && n > 0
      ensures deps != [] && deps[|deps| - 1].departureSecs <= st.departureSecs
    {
      assert st in all;
      var i :| 0 <= i < |all| && all[i] == st;
      assert i >= n;
    }
  }

  /** The frame chosen offers the least wait to a first departure among the frames allowed at that hour;
      ties keep the raw frame. */
  lemma LeastWaitFrame(g: Graph, stop: string, route: string, tod: int, n: int)
    requires SortedByDeparture(g.Departures(stop)) && n > 0
    ensures var (deps, frame) := NextDeparturesWrapped(g, stop, route, tod, n);
            && (frame == tod || (frame == tod + DAY_SECS && tod < OVERNIGHT_WINDOW_SECS))
            && deps == NextDepartures(g, stop, route, frame, n)
            && (forall f, st :: (f == tod || (f == tod + DAY_SECS && tod < OVERNIGHT_WINDOW_SECS)) &&
                                Candidate(g, stop, route, f, st) ==>
                                deps != [] && deps[0].departureSecs - frame <= st.departureSecs - f)
            && (frame == tod + DAY_SECS ==>
                  deps != [] && forall st :: Candidate(g, stop, route, tod, st) ==>
                                             deps[0].departureSecs - frame < st.departureSecs - tod)
  {
    FirstIsEarliest(g, stop, route, tod, n);
    FirstIsEarliest(g, stop, route, tod + DAY_SECS, n);
  }

  lemma FirstIsEarliest(g: Graph, stop: string, route: string, after: int, n: int)
    requires SortedByDeparture(g.Departures(stop)) && n > 0
    ensures var deps := NextDepartures(g, stop, route, after, n);
            forall st :: Candidate(g, stop, route, after, st) ==>
                         deps != [] && deps[0].departureSecs <= st.departureSecs
  {
    EarliestDepartures(g, stop, route, after, n);
    var deps := NextDepartures(g, stop, route, after, n);
    forall st | Candidate(g, stop, route, after, st)
      ensures deps != [] && deps[0].departureSecs <= st.departureSecs
    {
      assert deps != [];
      if st in deps {
        var i :| 0 <= i < |deps| && deps[i] == st;
      }
    }
  }

  /* ---------------- downstream stops ---------------- */

  /** Stops after the first visit to the station that is not the trip's last stop. */
  function AfterStation(g: Graph, stops: seq<StopTime>, station: string, j: nat): seq<StopTime>
    requires j <= |stops|
    decreases |stops| - j
  {
    if j + 1 >= |stops| then []
    else if g.Parent(stops[j].stopId) == station then stops[j + 1..]
    else AfterStation(g, stops, station, j + 1)
  }

  function DownstreamScan(g: Graph, list: seq<StopTime>, route: string, station: string, dir: int): seq<StopTime> {
    if list == [] then []
    else
      var trip := list[0].tripId;
      if g.RouteOf(trip) == route && g.DirectionOf(trip) == dir && AfterStation(g, g.TripStops(trip), station, 0) != []
      then AfterStation(g, g.TripStops(trip), station, 0)
      else DownstreamScan(g, list[1..], route, station, dir)
  }

  function Downstream(g: Graph, route: string, stop: string, dir: int): seq<StopTime> {
    DownstreamScan(g, g.Departures(stop), route, g.Parent(stop), dir)
  }

  method GetDownstreamStops(g: Graph, route: string, stop: string, dir: int) returns (stops: seq<StopTime>)
    ensures stops == Downstream(g, route, stop, dir)
  {
    var station := g.Parent(stop);
    var all := g.Departures(stop);
    var i := 0;
    while i < |all|
      invariant 0 <= i <= |all|
      invariant Downstream(g, route, stop, dir) == DownstreamScan(g, all[i..], route, station, dir)
    {
      assert all[i..][1..] == all[i + 1..];
      var trip := all[i].tripId;
      if g.RouteOf(trip) == route && g.DirectionOf(trip) == dir {
        var tripStops := g.TripStops(trip);
        var j := 0;
        while j < |tripStops|
          invariant 0 <= j <= |tripStops|
          invariant AfterStation(g, tripStops, station, 0) == AfterStation(g, tripStops, station, j)
        {
          if g.Parent(tripStops[j].stopId) == station && j + 1 < |tripStops| {
            return tripStops[j + 1..];
          }
          j := j + 1;
        }
      }
      i := i + 1;
    }
    stops := [];
  }

  /** trip's stop k is a visit to the station on the route and direction, with further stops behind it. */
  predicate Continues(g: Graph, trip: string, k: nat, route: string, station: string, dir: int) {
    && g.RouteOf(trip) == route && g.DirectionOf(trip) == dir
    && k + 1 < |g.TripStops(trip)| && g.Parent(g.TripStops(trip)[k].stopId) == station
  }

  lemma {:induction false} AfterStationMeaning(g: Graph, stops: seq<StopTime>, station: string, j: nat)
    requires j <= |stops|
    ensures var a := AfterStation(g, stops, station, j);
            && (a == [] <==> forall k :: j <= k && k + 1 < |stops| ==> g.Parent(stops[k].stopId) != station)
            && (a != [] ==>
                  exists k :: j <= k && k + 1 < |stops| && g.Parent(stops[k].stopId) == station && a == stops[k + 1..])
    decreases |stops| - j
  {
    if j + 1 < |stops| && g.Parent(stops[j].stopId) != station {
      AfterStationMeaning(g, stops, station, j + 1);
    }
  }

  /** The result is the tail of a trip of that route and direction behind a visit to the station; it is empty
      exactly when no trip listed at the station continues past it. */
  lemma {:induction false} DownstreamMeaning(g: Graph, list: seq<StopTime>, route: string, station: string, dir: int)
    ensures var ds := DownstreamScan(g, list, route, station, dir);
            && (ds == [] <==>
                forall i, k :: 0 <= i < |list| && 0 <= k ==> !Continues(g, list[i].tripId, k, route, station, dir))
            && (ds != [] ==>
                  exists i, k :: 0 <= i < |list| && 0 <= k && Continues(g, list[i].tripId, k, route, station, dir) &&
                                 ds == g.TripStops(list[i].tripId)[k + 1..])
  {
    if list != [] {
      var trip := list[0].tripId;
      AfterStationMeaning(g, g.TripStops(trip), station, 0);
      DownstreamMeaning(g, list[1..], route, station, dir);
      var ds := DownstreamScan(g, list, route, station, dir);
      var here := AfterStation(g, g.TripStops(trip), station, 0);
      if g.RouteOf(trip) == route && g.DirectionOf(trip) == dir && here != [] {
        var k :| 0 <= k && k + 1 < |g.TripStops(trip)| && g.Parent(g.TripStops(trip)[k].stopId) == station &&
                 here == g.TripStops(trip)[k + 1..];
        assert Continues(g, list[0].tripId, k, route, station, dir);
      } else {
        forall k: nat ensures !Continues(g, trip, k, route, station, dir) {}
        if ds == [] {
          forall i, k | 0 <= i < |list| && 0 <= k ensures !Continues(g, list[i].tripId, k, route, station, dir) {
            if i > 0 { assert list[i] == list[1..][i - 1]; }
          }
        } else {
          var i, k :| 0 <= i < |list[1..]| && 0 <= k && Continues(g, list[1..][i].tripId, k, route, station, dir) &&
                      ds == g.TripStops(list[1..][i].tripId)[k + 1..];
          assert list[i + 1] == list[1..][i];
        }
      }
    }
  }

  /* ---------------- trip and row resolution ---------------- */

  function ResolveTripId(g: Graph, rtTripId: string): Option<string> {
    if rtTripId == "" then None
    else if rtTripId in g.byTrip then Some(rtTripId)
    else if rtTripId in g.tripSuffix && g.tripSuffix[rtTripId] != "" then Some(g.tripSuffix[rtTripId])
    else None
  }

  /** The calls of the trip an id resolves to. */
  function CallsOf(g: Graph, trip: string): seq<StopTime> {
    match ResolveTripId(g, trip) case None => [] case Some(resolved) => g.TripStops(resolved)
  }

  function FirstAtStop(stops: seq<StopTime>, stop: string): Option<StopTime> {
    if stops == [] then None
    else if stops[0].stopId == stop then Some(stops[0])
    else FirstAtStop(stops[1..], stop)
  }

  function FirstAtStation(g: Graph, stops: seq<StopTime>, station: string): Option<StopTime> {
    if stops == [] then None
    else if g.Parent(stops[0].stopId) == station then Some(stops[0])
    else FirstAtStation(g, stops[1..], station)
  }

  /** The trip's row at the stop: by raw id first, then by parent station. */
  function ScheduledRow(g: Graph, trip: string, stop: string): Option<StopTime> {
    match ResolveTripId(g, trip)
    case None => None
    case Some(resolved) =>
      var raw := FirstAtStop(g.TripStops(resolved), stop);
      if raw.Some? then raw else FirstAtStation(g, g.TripStops(resolved), g.Parent(stop))
  }

  lemma {:induction false} FirstAtStopAt(stops: seq<StopTime>, stop: string) returns (k: nat)
    ensures k <= |stops| && forall j :: 0 <= j < k ==> stops[j].stopId != stop
    ensures FirstAtStop(stops, stop) == if k < |stops| then Some(stops[k]) else None
    ensures k < |stops| ==> stops[k].stopId == stop
  {
    k := 0;
    if stops != [] && stops[0].stopId != stop {
      k := FirstAtStopAt(stops[1..], stop);
      k := k + 1;
    }
  }

  lemma {:induction false} FirstAtStationAt(g: Graph, stops: seq<StopTime>, station: string) returns (k: nat)
    ensures k <= |stops| && forall j :: 0 <= j < k ==> g.Parent(stops[j].stopId) != station
    ensures FirstAtStation(g, stops, station) == if k < |stops| then Some(stops[k]) else None
    ensures k < |stops| ==> g.Parent(stops[k].stopId) == station
  {
    k := 0;
    if stops != [] && g.Parent(stops[0].stopId) != station {
      k := FirstAtStationAt(g, stops[1..], station);
      k := k + 1;
    }
  }

  /** The row at position k is the trip's first at the very stop, or else, when the trip never calls at that very stop,
      its first at the stop's station. */
  predicate FirstCall(g: Graph, stops: seq<StopTime>, stop: string, k: int) {
    && 0 <= k < |stops|
    && (stops[k].stopId == stop || g.Parent(stops[k].stopId) == g.Parent(stop))
    && (stops[k].stopId == stop ==> forall j :: 0 <= j < k ==> stops[j].stopId != stop)
    && (stops[k].stopId != stop ==>
          && (forall j :: 0 <= j < |stops| ==> stops[j].stopId != stop)
          && (forall j :: 0 <= j < k ==> g.Parent(stops[j].stopId) != g.Parent(stop)))
  }

  /** The row found is the resolved trip's first call, and there is none exactly when the trip is unknown or never calls
      at the stop's station. */
  lemma ScheduledRowMeaning(g: Graph, trip: string, stop: string, row: StopTime)
    ensures ScheduledRow(g, trip, stop) == Some(row) <==>
            exists k :: FirstCall(g, CallsOf(g, trip), stop, k) && row == CallsOf(g, trip)[k]
  {
    var calls := CallsOf(g, trip);
    var k := FirstAtStopAt(calls, stop);
    var m := FirstAtStationAt(g, calls, g.Parent(stop));
    hide FirstAtStop, FirstAtStation, ParentStation;
    if k < |calls| {
      assert FirstCall(g, calls, stop, k);
    } else if m < |calls| {
      assert FirstCall(g, calls, stop, m);
    }
  }

  method GetScheduledStopTime(g: Graph, trip: string, stop: string) returns (row: Option<StopTime>)
    ensures row == ScheduledRow(g, trip, stop)
  {
    var resolved := ResolveTripId(g, trip);
    if resolved.None? { return None; }
    var sts := g.TripStops(resolved.value);
    var i := 0;
    while i < |sts|
      invariant 0 <= i <= |sts|
      invariant FirstAtStop(sts, stop) == FirstAtStop(sts[i..], stop)
    {
      if sts[i].stopId == stop { return Some(sts[i]); }
      assert sts[i..][1..] == sts[i + 1..];
      i := i + 1;
    }
    var wantParent := g.Parent(stop);
    i := 0;
    while i < |sts|
      invariant 0 <= i <= |sts|
      invariant FirstAtStation(g, sts, wantParent) == FirstAtStation(g, sts[i..], wantParent)
    {
      if g.Parent(sts[i].stopId) == wantParent { return Some(sts[i]); }
      assert sts[i..][1..] == sts[i + 1..];
      i := i + 1;
    }
    row := None;
  }
}
