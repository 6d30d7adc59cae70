/** The index loops of BuildGraph (internal/graph/graph.go) and their agreement with the plain row list. */
module GraphBuild {
  import opened Common
  import opened Schedule
  import opened Sorting
  import opened Headway

  type Lists = map<string, seq<StopTime>>

  /** The parsed files and the services active on the date. */
  datatype Feed = Feed(
    stops: map<string, Stop>, trips: map<string, Trip>, rows: seq<StopTime>, transfers: seq<Transfer>,
    active: set<string>)
  {
    function Parent(id: string): string { ParentStation(id, stops) }

    predicate ActiveTrip(t: string) { t in trips && trips[t].serviceId in active }

    /** trips is keyed by trip id. */
    predicate Keyed() { forall t :: t in trips ==> trips[t].id == t }
  }

  function At(m: Lists, k: string): seq<StopTime> { if k in m then m[k] else [] }

  /** The active rows at a station, in file order. */
  function RowsAt(f: Feed, rows: seq<StopTime>, station: string): seq<StopTime> {
    if rows == [] then []
    else
      var st := rows[|rows| - 1];
      RowsAt(f, rows[..|rows| - 1], station) +
      if f.ActiveTrip(st.tripId) && f.Parent(st.stopId) == station then [st] else []
  }

  /** The rows of an active trip, in file order. */
  function RowsOf(f: Feed, rows: seq<StopTime>, trip: string): seq<StopTime> {
    if rows == [] then []
    else
      var st := rows[|rows| - 1];
      RowsOf(f, rows[..|rows| - 1], trip) + if f.ActiveTrip(st.tripId) && st.tripId == trip then [st] else []
  }

  function RouteNames(f: Feed, sts: seq<StopTime>): set<string> {
    set i | 0 <= i < |sts| && sts[i].tripId in f.trips :: f.trips[sts[i].tripId].routeId
  }

  /* ---------------- trip id suffixes ---------------- */

  function FirstUnderscore(s: string): int
    ensures -1 <= FirstUnderscore(s) < |s|
  {
    if s == "" then -1
    else if s[0] == '_' then 0
    else
      var r := FirstUnderscore(s[1..]);
      if r < 0 then -1 else r + 1
  }

  /** It is the position of the first underscore, or -1 without one. */
  lemma {:induction false} FirstUnderscoreMeaning(s: string)
    ensures var i := FirstUnderscore(s);
            && (i >= 0 ==> s[i] == '_' && '_' !in s[..i])
            && (i < 0 ==> '_' !in s)
  {
    if s != "" && s[0] != '_' {
      FirstUnderscoreMeaning(s[1..]);
      var i := FirstUnderscore(s);
      assert s == [s[0]] + s[1..];
      assert i >= 0 ==> s[..i] == [s[0]] + s[1..][..i - 1];
    }
  }

  /** The realtime-shaped tail of a static trip id: what follows its first underscore, when anything does. */
  function Suffix(trip: string): Option<string> {
    var i := FirstUnderscore(trip);
    if 0 <= i < |trip| - 1 then Some(trip[i + 1..]) else None
  }

  /** The id is a part without underscores, an underscore, and the tail. */
  ghost predicate EndsAs(trip: string, tail: string) {
    exists head: string :: '_' !in head && trip == head + "_" + tail
  }

  /** The suffix of an id is what follows its first underscore, unless nothing does. */
  lemma SuffixMeaning(trip: string, x: string)
    ensures Suffix(trip) == Some(x) <==> x != "" && EndsAs(trip, x)
  {
    var i := FirstUnderscore(trip);
    FirstUnderscoreMeaning(trip);
    if i >= 0 { assert trip == trip[..i] + "_" + trip[i + 1..]; }
    if head: string :| '_' !in head && trip == head + "_" + x {
      assert trip[|head|] == '_' && trip[..|head|] == head;
      assert i >= 0 && i == |head|;
      assert trip[i + 1..] == x;
    }
  }

  ghost predicate HasSuffix(suffix: string -> Option<string>, trips: set<string>, x: string) {
    exists t :: t in trips && suffix(t) == Some(x)
  }

  /** t is the only one of the trips with the suffix. */
  ghost predicate SoleOwner(suffix: string -> Option<string>, trips: set<string>, x: string, t: string) {
    t in trips && suffix(t) == Some(x) && forall u :: u in trips && suffix(u) == Some(x) ==> u == t
  }

  /** The suffix index over a set of trips: each suffix to its sole owner, to "" when several trips share it. */
  ghost predicate SuffixesOf(suffix: string -> Option<string>, trips: set<string>, m: map<string, string>) {
    && (forall x :: x in m <==> HasSuffix(suffix, trips, x))
    && (forall x, t :: x in m && t != "" ==> (m[x] == t <==> SoleOwner(suffix, trips, x, t)))
  }

  /* ---------------- sorting ---------------- */

  /** A list index is the grouping it started from with every list sorted on the key. */
  ghost predicate SortedLists(key: StopTime -> int, before: Lists, after: Lists) {
    && after.Keys == before.Keys
    && forall k :: k in before ==> SortedOn(key, after[k]) && multiset(after[k]) == multiset(before[k])
  }

  method SortAll(key: StopTime -> int, lists: Lists) returns (out: Lists)
    ensures SortedLists(key, lists, out)
  {
    out := lists;
    var todo := lists.Keys;
    while todo != {}
      invariant todo <= lists.Keys == out.Keys
      invariant forall k :: k in todo ==> out[k] == lists[k]
      invariant forall k :: k in lists && k !in todo ==>
                  SortedOn(key, out[k]) && multiset(out[k]) == multiset(lists[k])
      decreases todo
    {
      var k :| k in todo;
      todo := todo - {k};
      SortSorts(key, out[k]);
      out := out[k := SortOn(key, out[k])];
    }
  }

  /* ---------------- transfers ---------------- */

  /** Outbound transfers of a station, platforms replaced by their stations, impossible transfers dropped. */
  function TransfersOf(f: Feed, ts: seq<Transfer>, station: string): seq<Transfer> {
    if ts == [] then []
    else
      var t := ts[|ts| - 1];
      TransfersOf(f, ts[..|ts| - 1], station) +
      if t.transferType != 3 && f.Parent(t.fromStop) == station
      then [Transfer(station, f.Parent(t.toStop), t.transferType, t.minTransferTime)] else []
  }

  function TransfersAt(m: map<string, seq<Transfer>>, s: string): seq<Transfer> { if s in m then m[s] else [] }

  lemma TransfersStep(f: Feed, i: nat)
    requires i < |f.transfers|
    ensures var t := f.transfers[i];
            forall s :: TransfersOf(f, f.transfers[..i + 1], s) ==
                        if t.transferType != 3 && f.Parent(t.fromStop) == s
                        then TransfersOf(f, f.transfers[..i], s) +
                             [Transfer(s, f.Parent(t.toStop), t.transferType, t.minTransferTime)]
                        else TransfersOf(f, f.transfers[..i], s)
  {
    assert f.transfers[..i + 1][..i] == f.transfers[..i];
  }

  /** The index holds the transfers among the first n, station by station. */
  ghost predicate TransfersGrouped(f: Feed, n: nat, m: map<string, seq<Transfer>>)
    requires n <= |f.transfers|
  {
    forall s :: TransfersAt(m, s) == TransfersOf(f, f.transfers[..n], s)
  }

  lemma TransferSkipped(f: Feed, i: nat, m: map<string, seq<Transfer>>)
    requires i < |f.transfers| && TransfersGrouped(f, i, m) && f.transfers[i].transferType == 3
    ensures TransfersGrouped(f, i + 1, m)
  {
    TransfersStep(f, i);
    hide TransfersOf;
    forall s ensures TransfersAt(m, s) == TransfersOf(f, f.transfers[..i + 1], s) {
      assert TransfersAt(m, s) == TransfersOf(f, f.transfers[..i], s);
    }
  }

  lemma TransferAdded(f: Feed, i: nat, m: map<string, seq<Transfer>>)
    requires i < |f.transfers| && TransfersGrouped(f, i, m) && f.transfers[i].transferType != 3
    ensures var t := f.transfers[i];
            var from := f.Parent(t.fromStop);
            var entry := Transfer(from, f.Parent(t.toStop), t.transferType, t.minTransferTime);
            TransfersGrouped(f, i + 1, m[from := TransfersAt(m, from) + [entry]])
  {
    TransfersStep(f, i);
    hide TransfersOf;
    var t := f.transfers[i];
    var from := f.Parent(t.fromStop);
    var entry := Transfer(from, f.Parent(t.toStop), t.transferType, t.minTransferTime);
    var more := m[from := TransfersAt(m, from) + [entry]];
    forall s ensures TransfersAt(more, s) == TransfersOf(f, f.transfers[..i + 1], s) {
      assert TransfersAt(m, s) == TransfersOf(f, f.transfers[..i], s);
    }
  }

  method IndexTransfers(f: Feed) returns (out: map<string, seq<Transfer>>)
    ensures forall s :: TransfersAt(out, s) == TransfersOf(f, f.transfers, s)
  {
    out := map[];
    for i := 0 to |f.transfers|
      invariant TransfersGrouped(f, i, out)
    {
      var tf := f.transfers[i];
      if tf.transferType == 3 {
        TransferSkipped(f, i, out);
        continue;
      }
      TransferAdded(f, i, out);
      var from := f.Parent(tf.fromStop);
      var entry := Transfer(from, f.Parent(tf.toStop), tf.transferType, tf.minTransferTime);
      out := out[from := TransfersAt(out, from) + [entry]];
    }
    assert f.transfers[..|f.transfers|] == f.transfers;
  }

  /* ---------------- the index loops ---------------- */

  /** The lists hold exactly the non-empty groups of the first n rows. */
  ghost predicate StopsGrouped(f: Feed, n: nat, byStop: Lists)
    requires n <= |f.rows|
  {
    forall s :: At(byStop, s) == RowsAt(f, f.rows[..n], s) && (s in byStop <==> At(byStop, s) != [])
  }

  ghost predicate TripsGrouped(f: Feed, n: nat, byTrip: Lists)
    requires n <= |f.rows|
  {
    forall t :: At(byTrip, t) == RowsOf(f, f.rows[..n], t) && (t in byTrip <==> At(byTrip, t) != [])
  }

  /** Each station's routes are those of its rows. */
  ghost predicate RoutesMatch(f: Feed, byStop: Lists, routes: map<string, set<string>>) {
    routes.Keys == byStop.Keys && forall s :: s in routes ==> routes[s] == RouteNames(f, byStop[s])
  }

  lemma StopsMore(f: Feed, n: nat, byStop: Lists, byStop': Lists)
    requires n < |f.rows| && StopsGrouped(f, n, byStop)
    requires var st := f.rows[n]; var s := f.Parent(st.stopId);
             byStop' == if f.ActiveTrip(st.tripId) then byStop[s := At(byStop, s) + [st]] else byStop
    ensures StopsGrouped(f, n + 1, byStop')
  {
    assert f.rows[..n + 1][..n] == f.rows[..n];
    forall s ensures At(byStop', s) == RowsAt(f, f.rows[..n + 1], s) {
      assert At(byStop, s) == RowsAt(f, f.rows[..n], s);
    }
  }

  lemma TripsMore(f: Feed, n: nat, byTrip: Lists, byTrip': Lists)
    requires n < |f.rows| && TripsGrouped(f, n, byTrip)
    requires var st := f.rows[n];
             byTrip' == if f.ActiveTrip(st.tripId) then byTrip[st.tripId := At(byTrip, st.tripId) + [st]] else byTrip
    ensures TripsGrouped(f, n + 1, byTrip')
  {
    assert f.rows[..n + 1][..n] == f.rows[..n];
    forall t ensures At(byTrip', t) == RowsOf(f, f.rows[..n + 1], t) {
      assert At(byTrip, t) == RowsOf(f, f.rows[..n], t);
    }
  }

  lemma RouteNamesMore(f: Feed, sts: seq<StopTime>, st: StopTime)
    requires st.tripId in f.trips
    ensures RouteNames(f, sts + [st]) == RouteNames(f, sts) + {f.trips[st.tripId].routeId}
  {
    var more := sts + [st];
    forall r | r in RouteNames(f, sts) ensures r in RouteNames(f, more) {
      var i :| 0 <= i < |sts| && sts[i].tripId in f.trips && f.trips[sts[i].tripId].routeId == r;
      assert more[i] == sts[i];
    }
    assert more[|sts|] == st;
  }

  lemma RoutesMore(f: Feed, byStop: Lists, routes: map<string, set<string>>, st: StopTime)
    requires RoutesMatch(f, byStop, routes) && st.tripId in f.trips
    ensures var s := f.Parent(st.stopId);
            RoutesMatch(f, byStop[s := At(byStop, s) + [st]],
                        routes[s := (if s in routes then routes[s] else {}) + {f.trips[st.tripId].routeId}])
  {
    var s := f.Parent(st.stopId);
    RouteNamesMore(f, At(byStop, s), st);
    assert RouteNames(f, []) == {};
  }

  method GroupRows(f: Feed) returns (byStop: Lists, byTrip: Lists, routes: map<string, set<string>>)
    ensures StopsGrouped(f, |f.rows|, byStop) && TripsGrouped(f, |f.rows|, byTrip) && RoutesMatch(f, byStop, routes)
  {
    byStop, byTrip, routes := map[], map[], map[];
    for i := 0 to |f.rows|
      invariant StopsGrouped(f, i, byStop) && TripsGrouped(f, i, byTrip) && RoutesMatch(f, byStop, routes)
    {
      hide StopsGrouped, TripsGrouped, RoutesMatch;
      var st := f.rows[i];
      if !f.ActiveTrip(st.tripId) {
        StopsMore(f, i, byStop, byStop);
        TripsMore(f, i, byTrip, byTrip);
        continue;
      }
      var parent := f.Parent(st.stopId);
      RoutesMore(f, byStop, routes, st);
      var stops' := byStop[parent := At(byStop, parent) + [st]];
      var trips' := byTrip[st.tripId := At(byTrip, st.tripId) + [st]];
      StopsMore(f, i, byStop, stops');
      TripsMore(f, i, byTrip, trips');
      byStop, byTrip := stops', trips';
      routes := routes[parent := (if parent in routes then routes[parent] else {}) + {f.trips[st.tripId].routeId}];
    }
  }

  method IndexSuffixes(trips: set<string>) returns (out: map<string, string>)
    ensures SuffixesOf(Suffix, trips, out)
  {
    out := map[];
    var todo := trips;
    assert SuffixesOf(Suffix, trips - todo, out);
    while todo != {}
      invariant todo <= trips && SuffixesOf(Suffix, trips - todo, out)
      decreases todo
    {
      hide SuffixesOf, Suffix;
      var trip :| trip in todo;
      ghost var seen := trips - todo;
      todo := todo - {trip};
      assert trips - todo == seen + {trip};
      var suffix := Suffix(trip);
      EmptyHasNoSuffix(trip);
      SuffixMore(Suffix, seen, out, trip);
      if suffix.None? { continue; }
      out := out[suffix.value := if suffix.value in out then "" else trip];
    }
    assert trips - todo == trips;
  }

  lemma SuffixMore(suffix: string -> Option<string>, seen: set<string>, m: map<string, string>, trip: string)
    requires SuffixesOf(suffix, seen, m) && trip !in seen && (suffix(trip).Some? ==> trip != "")
    ensures suffix(trip).None? ==> SuffixesOf(suffix, seen + {trip}, m)
    ensures suffix(trip).Some? ==>
              SuffixesOf(suffix, seen + {trip}, m[suffix(trip).value := if suffix(trip).value in m then "" else trip])
  {
    var more := seen + {trip};
    forall x ensures HasSuffix(suffix, more, x) <==> HasSuffix(suffix, seen, x) || suffix(trip) == Some(x) {
      if HasSuffix(suffix, seen, x) {
        var t :| t in seen && suffix(t) == Some(x);
        assert t in more;
      }
    }
    forall x, t ensures SoleOwner(suffix, more, x, t) <==>
                        if suffix(trip) == Some(x) then t == trip && !HasSuffix(suffix, seen, x)
                        else SoleOwner(suffix, seen, x, t)
    {
    }
  }

  lemma EmptyHasNoSuffix(t: string)
    ensures Suffix(t).Some? ==> t != ""
  {
  }

  method IndexTrips(f: Feed) returns (tripRoute: map<string, string>, tripDirection: map<string, int>)
    requires f.Keyed()
    ensures tripRoute == (map t | t in f.trips :: f.trips[t].routeId)
    ensures tripDirection == (map t | t in f.trips :: f.trips[t].directionId)
  {
    tripRoute, tripDirection := map[], map[];
    var todo := f.trips.Keys;
    while todo != {}
      invariant todo <= f.trips.Keys
      invariant tripRoute == (map t | t in f.trips && t !in todo :: f.trips[t].routeId)
      invariant tripDirection == (map t | t in f.trips && t !in todo :: f.trips[t].directionId)
      decreases todo
    {
      var k :| k in todo;
      todo := todo - {k};
      tripRoute := tripRoute[f.trips[k].id := f.trips[k].routeId];
      tripDirection := tripDirection[f.trips[k].id := f.trips[k].directionId];
    }
  }

  /** What BuildGraph delivers, whatever order its maps are walked in and however ties are sorted. */
  ghost predicate Indexes(f: Feed, g: Graph) {
    && g.stops == f.stops
    && g.tripRoute == (map t | t in f.trips :: f.trips[t].routeId)
    && g.tripDirection == (map t | t in f.trips :: f.trips[t].directionId)
    && (forall s :: SortedByDeparture(At(g.byStop, s)) && multiset(At(g.byStop, s)) == multiset(RowsAt(f, f.rows, s)))
    && (forall t :: SortedBySequence(At(g.byTrip, t)) && multiset(At(g.byTrip, t)) == multiset(RowsOf(f, f.rows, t)))
    && (forall t :: t in g.byTrip <==> RowsOf(f, f.rows, t) != [])
    && (forall s :: (if s in g.routesAtStop then g.routesAtStop[s] else {}) == RouteNames(f, RowsAt(f, f.rows, s)))
    && SuffixesOf(Suffix, g.byTrip.Keys, g.tripSuffix)
    && (forall s :: TransfersAt(g.transfersByStop, s) == TransfersOf(f, f.transfers, s))
  }

  lemma ListsIndexed(f: Feed, byStop: Lists, byTrip: Lists, byStop': Lists, byTrip': Lists)
    requires StopsGrouped(f, |f.rows|, byStop) && TripsGrouped(f, |f.rows|, byTrip)
    requires SortedLists((st: StopTime) => st.departureSecs, byStop, byStop')
    requires SortedLists((st: StopTime) => st.stopSequence, byTrip, byTrip')
    ensures forall s :: SortedByDeparture(At(byStop', s)) && multiset(At(byStop', s)) == multiset(RowsAt(f, f.rows, s))
    ensures forall t :: SortedBySequence(At(byTrip', t)) && multiset(At(byTrip', t)) == multiset(RowsOf(f, f.rows, t))
    ensures forall t :: t in byTrip' <==> RowsOf(f, f.rows, t) != []
  {
    assert f.rows[..|f.rows|] == f.rows;
    forall s ensures SortedByDeparture(At(byStop', s)) && multiset(At(byStop', s)) == multiset(RowsAt(f, f.rows, s)) {
      assert At(byStop, s) == RowsAt(f, f.rows[..|f.rows|], s);
      hide RowsAt;
    }
    forall t ensures SortedBySequence(At(byTrip', t)) && multiset(At(byTrip', t)) == multiset(RowsOf(f, f.rows, t)) {
      assert At(byTrip, t) == RowsOf(f, f.rows[..|f.rows|], t);
      hide RowsOf;
    }
  }

  lemma RoutesIndexed(f: Feed, byStop: Lists, routes: map<string, set<string>>)
    requires StopsGrouped(f, |f.rows|, byStop) && RoutesMatch(f, byStop, routes)
    ensures forall s :: (if s in routes then routes[s] else {}) == RouteNames(f, RowsAt(f, f.rows, s))
  {
    assert f.rows[..|f.rows|] == f.rows;
    hide RowsAt;
    assert RouteNames(f, []) == {};
    forall s ensures (if s in routes then routes[s] else {}) == RouteNames(f, RowsAt(f, f.rows, s)) {
      assert At(byStop, s) == RowsAt(f, f.rows[..|f.rows|], s);
    }
  }

  lemma ListsSorted(byStop: Lists)
    requires forall s :: SortedByDeparture(At(byStop, s))
    ensures forall s :: s in byStop ==> SortedByDeparture(byStop[s])
  {
    forall s | s in byStop ensures SortedByDeparture(byStop[s]) { assert byStop[s] == At(byStop, s); }
  }

  /** The whole build: the row indices first, then the headway index computed from them. */
  method BuildGraph(f: Feed) returns (g: Graph)
    requires f.Keyed()
    ensures Indexes(f, g) && g.Sorted() && HeadwaysIndexed(g)
  {
    var rows := BuildIndices(f);
    g := BuildHeadwayIndex(rows);
    hide StopsGrouped, TripsGrouped, RoutesMatch, SuffixesOf, TransfersOf, RowsAt, RowsOf, SortedByDeparture;
    hide SortedBySequence, HeadwaysIndexed;
  }

  method BuildIndices(f: Feed) returns (g: Graph)
    requires f.Keyed()
    ensures Indexes(f, g) && g.Sorted()
  {
    var tripRoute, tripDirection := IndexTrips(f);
    var groupedStop, groupedTrip, routes := GroupRows(f);
    var suffixes := IndexSuffixes(groupedTrip.Keys);
    var byStop := SortAll((st: StopTime) => st.departureSecs, groupedStop);
    var byTrip := SortAll((st: StopTime) => st.stopSequence, groupedTrip);
    var transfers := IndexTransfers(f);
    g := Graph(f.stops, tripRoute, tripDirection, byStop, byTrip, transfers, routes, suffixes, map[]);
    ListsIndexed(f, groupedStop, groupedTrip, byStop, byTrip);
    RoutesIndexed(f, groupedStop, routes);
    ListsSorted(byStop);
    hide StopsGrouped, TripsGrouped, RoutesMatch, SuffixesOf, TransfersOf, RowsAt, RowsOf, SortedByDeparture;
    hide SortedBySequence;
  }

  /* ---------------- agreement with the row list ---------------- */

  lemma {:induction false} RowsAtCount(f: Feed, rows: seq<StopTime>, station: string, r: StopTime)
    ensures multiset(RowsAt(f, rows, station))[r] ==
            if f.ActiveTrip(r.tripId) && f.Parent(r.stopId) == station then multiset(rows)[r] else 0
  {
    if rows != [] {
      RowsAtCount(f, rows[..|rows| - 1], station, r);
      assert rows == rows[..|rows| - 1] + [rows[|rows| - 1]];
    }
  }

  lemma {:induction false} RowsOfCount(f: Feed, rows: seq<StopTime>, trip: string, r: StopTime)
    ensures multiset(RowsOf(f, rows, trip))[r] ==
            if f.ActiveTrip(r.tripId) && r.tripId == trip then multiset(rows)[r] else 0
  {
    if rows != [] {
      RowsOfCount(f, rows[..|rows| - 1], trip, r);
      assert rows == rows[..|rows| - 1] + [rows[|rows| - 1]];
    }
  }

  /** Every active row is listed, as often as it occurs, at exactly its own station and its own trip; inactive rows
      are listed nowhere. */
  lemma RowsListedOnce(f: Feed, g: Graph, r: StopTime, station: string, trip: string)
    requires Indexes(f, g)
    ensures var n := if r.tripId in f.trips && f.trips[r.tripId].serviceId in f.active then multiset(f.rows)[r] else 0;
            && multiset(At(g.byStop, station))[r] == (if station == f.Parent(r.stopId) then n else 0)
            && multiset(At(g.byTrip, trip))[r] == (if trip == r.tripId then n else 0)
  {
    RowsAtCount(f, f.rows, station, r);
    RowsOfCount(f, f.rows, trip, r);
  }

  /** A route is listed at a station exactly when some departure query for it there has an answer. */
  lemma RoutesAreQueryable(f: Feed, g: Graph, stop: string, route: string)
    requires Indexes(f, g)
    ensures route in g.RoutesAt(stop) <==> exists after :: NextDepartures(g, stop, route, after, 1) != []
  {
    if route in g.RoutesAt(stop) {
      var st := RouteHasRow(f, g, stop, route);
      EarliestDepartures(g, stop, route, st.departureSecs, 1);
      assert NextDepartures(g, stop, route, st.departureSecs, 1) != [];
    }
    if after :| NextDepartures(g, stop, route, after, 1) != [] {
      EarliestDepartures(g, stop, route, after, 1);
      var st := NextDepartures(g, stop, route, after, 1)[0];
      assert Candidate(g, stop, route, after, st);
      RowHasRoute(f, g, stop, route, st);
    }
  }

  lemma SameRows(f: Feed, g: Graph, stop: string, st: StopTime)
    requires Indexes(f, g)
    ensures SortedByDeparture(g.Departures(stop))
    ensures st in g.Departures(stop) <==> st in RowsAt(f, f.rows, g.Parent(stop))
  {
    var rows := RowsAt(f, f.rows, g.Parent(stop));
    assert g.Departures(stop) == At(g.byStop, g.Parent(stop));
    assert st in g.Departures(stop) <==> st in multiset(g.Departures(stop));
    assert st in rows <==> st in multiset(rows);
  }

  lemma RouteHasRow(f: Feed, g: Graph, stop: string, route: string) returns (st: StopTime)
    requires Indexes(f, g) && route in g.RoutesAt(stop)
    ensures Candidate(g, stop, route, st.departureSecs, st) && SortedByDeparture(g.Departures(stop))
  {
    var rows := RowsAt(f, f.rows, g.Parent(stop));
    hide RowsAt;
    assert g.RoutesAt(stop) == RouteNames(f, rows);
    var i :| 0 <= i < |rows| && rows[i].tripId in f.trips && f.trips[rows[i].tripId].routeId == route;
    st := rows[i];
    SameRows(f, g, stop, st);
  }

  lemma RowHasRoute(f: Feed, g: Graph, stop: string, route: string, st: StopTime)
    requires Indexes(f, g) && st in g.Departures(stop) && g.RouteOf(st.tripId) == route
    ensures route in g.RoutesAt(stop)
  {
    SameRows(f, g, stop, st);
    var rows := RowsAt(f, f.rows, g.Parent(stop));
    RowsAtActive(f, f.rows, g.Parent(stop), st);
    hide RowsAt;
    assert g.RoutesAt(stop) == RouteNames(f, rows);
    var i :| 0 <= i < |rows| && rows[i] == st;
    assert f.trips[rows[i].tripId].routeId in RouteNames(f, rows);
  }

  lemma RowsAtActive(f: Feed, rows: seq<StopTime>, station: string, st: StopTime)
    requires st in RowsAt(f, rows, station)
    ensures f.ActiveTrip(st.tripId) && f.Parent(st.stopId) == station
  {
    RowsAtCount(f, rows, station, st);
    assert st in multiset(RowsAt(f, rows, station));
  }

  /** Resolution: the id itself when indexed; otherwise the one indexed trip that ends as the id says behind its first
      underscore; a tail shared by two trips, like one nobody has, resolves to nothing. */
  lemma ResolvesUniquely(f: Feed, g: Graph, rt: string, t: string)
    requires Indexes(f, g)
    ensures rt == "" ==> ResolveTripId(g, rt) == None
    ensures rt != "" && rt in g.byTrip ==> ResolveTripId(g, rt) == Some(rt)
    ensures rt != "" && rt !in g.byTrip ==>
              (ResolveTripId(g, rt) == Some(t) <==>
               t in g.byTrip && EndsAs(t, rt) && forall u :: u in g.byTrip && EndsAs(u, rt) ==> u == t)
  {
    hide *;
    ResolvesOwner(f, g, rt, t);
    if rt != "" { SoleOwnerMeaning(g.byTrip.Keys, rt, t); }
  }

  lemma SoleOwnerMeaning(trips: set<string>, rt: string, t: string)
    requires rt != ""
    ensures SoleOwner(Suffix, trips, rt, t) <==>
            t in trips && EndsAs(t, rt) && forall u :: u in trips && EndsAs(u, rt) ==> u == t
  {
    forall u ensures Suffix(u) == Some(rt) <==> EndsAs(u, rt) { SuffixMeaning(u, rt); }
    hide Suffix, EndsAs;
  }

  lemma ResolvesOwner(f: Feed, g: Graph, rt: string, t: string)
    requires Indexes(f, g)
    ensures rt == "" ==> ResolveTripId(g, rt) == None
    ensures rt != "" && rt in g.byTrip ==> ResolveTripId(g, rt) == Some(rt)
    ensures rt != "" && rt !in g.byTrip ==>
              (ResolveTripId(g, rt) == Some(t) <==> SoleOwner(Suffix, g.byTrip.Keys, rt, t))
  {
    hide Suffix;
    EmptyHasNoSuffix(t);
    assert SoleOwner(Suffix, g.byTrip.Keys, rt, t) ==> HasSuffix(Suffix, g.byTrip.Keys, rt);
    assert rt in g.tripSuffix <==> HasSuffix(Suffix, g.byTrip.Keys, rt);
  }

  /** The i-th file row allows the transfer x out of the station: both ends taken to their stations, and possible. */
  ghost predicate Allows(f: Feed, ts: seq<Transfer>, i: nat, station: string, x: Transfer) {
    && i < |ts| && ts[i].transferType != 3 && f.Parent(ts[i].fromStop) == station
    && x.fromStop == station && x.toStop == f.Parent(ts[i].toStop)
    && x.transferType == ts[i].transferType && x.minTransferTime == ts[i].minTransferTime
  }

  /** The transfers of a station are exactly those that some row allows. */
  lemma {:induction false} TransfersExactly(f: Feed, ts: seq<Transfer>, station: string, x: Transfer)
    ensures x in TransfersOf(f, ts, station) <==> exists i: nat :: Allows(f, ts, i, station, x)
  {
    if ts != [] {
      var n := |ts| - 1;
      TransfersExactly(f, ts[..n], station, x);
      forall i: nat | i < n ensures Allows(f, ts[..n], i, station, x) == Allows(f, ts, i, station, x) {
        assert ts[..n][i] == ts[i];
      }
      assert Allows(f, ts, n, station, x) <==>
             x in if ts[n].transferType != 3 && f.Parent(ts[n].fromStop) == station
                  then [Transfer(station, f.Parent(ts[n].toStop), ts[n].transferType, ts[n].minTransferTime)] else [];
      hide Allows;
    }
  }

  /** No station has a parent of its own, as the GTFS reference demands of stops.txt. */
  ghost predicate Flat(f: Feed) { forall id :: f.Parent(f.Parent(id)) == f.Parent(id) }

  /** Indexed transfers lead to stations, never to platforms, and none is of the impossible type. */
  lemma {:induction false} TransfersReachStations(f: Feed, ts: seq<Transfer>, station: string, x: Transfer)
    requires Flat(f) && x in TransfersOf(f, ts, station)
    ensures f.Parent(x.toStop) == x.toStop && x.transferType != 3 && x.fromStop == station
  {
    if x in TransfersOf(f, ts[..|ts| - 1], station) {
      TransfersReachStations(f, ts[..|ts| - 1], station, x);
    }
  }
}
