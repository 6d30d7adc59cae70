/** Pending predictions, the choice of the primary, and baselineDelays (internal/evaluation/evaluator.go). */
module Tracking {
  import opened Common
  import opened Schedule
  import opened Cascade

  /** fromRoute:route:stop:nanos:seq */
  datatype PendingId = PendingId(fromRoute: string, route: string, stop: string, nanos: int, seqNo: nat)

  datatype Pending = Pending(
    id: PendingId, agency: string, fromRoute: string, route: string, station: string, sourceStation: string,
    direction: int, sourceDelay: int, predicted: int, baseline: int, schedConnDep: int, earliestCatch: int,
    confidence: real, hops: int, hour: int, isPrimary: bool, createdAt: int, expiresAt: int,
    observedMax: int, matched: bool)

  const PREDICTION_WINDOW_SECS := 1800
  const MAX_BASELINE_ROUTES := 3

  /* ---------------- the primary impact ---------------- */

  predicate HopOne(impacts: seq<Impact>, toRoute: string, i: int) {
    0 <= i < |impacts| && impacts[i].hops == 1 && impacts[i].routeId == toRoute
  }

  /** p is the first of the least-delayed hop-1 impacts on the receiving route among the first n, or -1. */
  ghost predicate IsPrimaryUpTo(impacts: seq<Impact>, toRoute: string, n: nat, p: int) {
    if p < 0 then p == -1 && forall i :: HopOne(impacts, toRoute, i) ==> i >= n
    else
      && HopOne(impacts, toRoute, p) && p < n
      && forall i :: HopOne(impacts, toRoute, i) && i < n ==>
                     impacts[p].delay <= impacts[i].delay && (i < p ==> impacts[p].delay < impacts[i].delay)
  }

  ghost predicate IsPrimary(impacts: seq<Impact>, toRoute: string, p: int) {
    IsPrimaryUpTo(impacts, toRoute, |impacts|, p)
  }

  lemma {:induction false} SomePrimaryUpTo(impacts: seq<Impact>, toRoute: string, n: nat) returns (p: int)
    requires n <= |impacts|
    ensures IsPrimaryUpTo(impacts, toRoute, n, p)
  {
    p := -1;
    if n > 0 {
      p := SomePrimaryUpTo(impacts, toRoute, n - 1);
      if HopOne(impacts, toRoute, n - 1) && (p < 0 || impacts[n - 1].delay < impacts[p].delay) { p := n - 1; }
    }
  }

  method FindPrimary(impacts: seq<Impact>, toRoute: string) returns (primaryIdx: int)
    ensures IsPrimary(impacts, toRoute, primaryIdx)
    ensures primaryIdx != -1 ==>
              0 <= primaryIdx < |impacts| && impacts[primaryIdx].hops == 1 && impacts[primaryIdx].routeId == toRoute
    ensures forall i :: 0 <= i < |impacts| && impacts[i].hops == 1 && impacts[i].routeId == toRoute ==>
                        && primaryIdx >= 0 && impacts[primaryIdx].delay <= impacts[i].delay
                        && (i < primaryIdx ==> impacts[primaryIdx].delay < impacts[i].delay)
  {
    primaryIdx := -1;
    var primaryDelay := 0;
    for i := 0 to |impacts|
      invariant -1 <= primaryIdx < i
      invariant primaryIdx >= 0 ==> primaryDelay == impacts[primaryIdx].delay
      invariant IsPrimaryUpTo(impacts, toRoute, i, primaryIdx)
    {
      if impacts[i].hops != 1 || impacts[i].routeId != toRoute { continue; }
      if primaryIdx == -1 || impacts[i].delay < primaryDelay {
        primaryIdx := i;
        primaryDelay := impacts[i].delay;
      }
    }
    assert forall i :: 0 <= i < |impacts| && impacts[i].hops == 1 && impacts[i].routeId == toRoute ==>
                         HopOne(impacts, toRoute, i);
  }

  /* ---------------- baselines ---------------- */

  /** The distinct routes of the impacts in order of appearance, up to the scan cap. */
  function ScannedRoutes(impacts: seq<Impact>): seq<string> {
    if impacts == [] then []
    else
      var before := ScannedRoutes(impacts[..|impacts| - 1]);
      var r := impacts[|impacts| - 1].routeId;
      if r in before || |before| >= MAX_BASELINE_ROUTES then before else before + [r]
  }

  /** stop and delay of an observed state */
  type Observed = (string, int)

  /** The largest positive delay among the observations at a station, 0 when there is none. */
  function MaxDelayAt(g: Graph, obs: seq<Observed>, station: string): int {
    if obs == [] then 0
    else
      var before := MaxDelayAt(g, obs[..|obs| - 1], station);
      var (stop, delay) := obs[|obs| - 1];
      if g.Parent(stop) == station then Max(before, delay) else before
  }

  /** m is the largest of the delays observed at the station and zero. */
  ghost predicate LargestAt(g: Graph, obs: seq<Observed>, station: string, m: int) {
    && m >= 0
    && (forall j :: 0 <= j < |obs| && g.Parent(obs[j].0) == station ==> obs[j].1 <= m)
    && (m > 0 ==> exists j :: 0 <= j < |obs| && g.Parent(obs[j].0) == station && obs[j].1 == m)
  }

  lemma {:induction false} MaxDelayIsLargest(g: Graph, obs: seq<Observed>, station: string)
    ensures LargestAt(g, obs, station, MaxDelayAt(g, obs, station))
  {
    if obs != [] {
      var n := |obs| - 1;
      MaxDelayIsLargest(g, obs[..n], station);
      var m, before := MaxDelayAt(g, obs, station), MaxDelayAt(g, obs[..n], station);
      if m > 0 && m == before {
        var j :| 0 <= j < n && g.Parent(obs[..n][j].0) == station && obs[..n][j].1 == m;
        assert obs[j].1 == m;
      }
      forall j | 0 <= j < |obs| && g.Parent(obs[j].0) == station ensures obs[j].1 <= m {
        assert j < n ==> obs[..n][j] == obs[j];
      }
    }
  }

  /** The routes of the first n impacts. */
  function RoutesBefore(impacts: seq<Impact>, n: nat): set<string>
    requires n <= |impacts|
  {
    set j | 0 <= j < n :: impacts[j].routeId
  }

  /** The route is one of the first three of the result: fewer than three appear before it does. */
  ghost predicate FirstThree(impacts: seq<Impact>, route: string) {
    exists i :: 0 <= i < |impacts| && impacts[i].routeId == route && |RoutesBefore(impacts, i)| < 3
  }

  function SetOf(s: seq<string>): set<string> { set x | x in s }

  /** Nothing is scanned twice, and below the cap everything met so far has been. */
  lemma {:induction false} ScannedSet(impacts: seq<Impact>)
    ensures var s, all := ScannedRoutes(impacts), RoutesBefore(impacts, |impacts|);
            |SetOf(s)| == |s| <= MAX_BASELINE_ROUTES && SetOf(s) <= all &&
                (|s| < MAX_BASELINE_ROUTES ==> SetOf(s) == all)
  {
    if impacts != [] {
      var n := |impacts| - 1;
      ScannedSet(impacts[..n]);
      var before, r := ScannedRoutes(impacts[..n]), impacts[n].routeId;
      assert RoutesBefore(impacts, n + 1) == RoutesBefore(impacts[..n], n) + {r};
      assert SetOf(before + [r]) == SetOf(before) + {r};
    }
  }

  lemma {:induction false} ScannedExactly(impacts: seq<Impact>, route: string)
    ensures route in ScannedRoutes(impacts) <==> FirstThree(impacts, route)
  {
    if impacts != [] {
      var n := |impacts| - 1;
      var front, before := impacts[..n], ScannedRoutes(impacts[..n]);
      ScannedExactly(front, route);
      ScannedSet(front);
      forall i: nat | i <= n ensures RoutesBefore(impacts, i) == RoutesBefore(front, i) {
        assert forall j :: 0 <= j < i ==> front[j] == impacts[j];
      }
      if |before| == MAX_BASELINE_ROUTES { SubsetSize(SetOf(before), RoutesBefore(front, n)); }
      assert FirstThree(impacts, route) <==>
             FirstThree(front, route) || (impacts[n].routeId == route && |RoutesBefore(impacts, n)| < 3) by {
        if i :| 0 <= i < n && front[i].routeId == route && |RoutesBefore(front, i)| < 3 {
          assert impacts[i].routeId == route;
        }
        if i :| 0 <= i < |impacts| && impacts[i].routeId == route && |RoutesBefore(impacts, i)| < 3 {
          assert i < n ==> front[i].routeId == route;
        }
      }
    }
  }

  function Lookup(m: map<Key, int>, k: Key): int { if k in m then m[k] else 0 }

  /** delays(route) is the answer of the route scan, None when it failed. */
  function Baseline(g: Graph, impacts: seq<Impact>, delays: string -> Option<seq<Observed>>, k: Key): int {
    if k.0 in ScannedRoutes(impacts) && delays(k.0).Some? then MaxDelayAt(g, delays(k.0).value, k.1) else 0
  }

  /** The delay already present at each impacted route and station; the running maximum of one scan per route. */
  method BaselineDelays(g: Graph, impacts: seq<Impact>, delays: string -> Option<seq<Observed>>)
    returns (out: map<Key, int>)
    ensures forall k :: Lookup(out, k) == Baseline(g, impacts, delays, k)
  {
    out := map[];
    var seen: seq<string> := [];
    var i := 0;
    while i < |impacts|
      invariant 0 <= i <= |impacts| && seen == ScannedRoutes(impacts[..i]) && |seen| <= MAX_BASELINE_ROUTES
      invariant forall k :: Lookup(out, k) == Baseline(g, impacts[..i], delays, k)
    {
      var route := impacts[i].routeId;
      assert impacts[..i + 1][..i] == impacts[..i];
      i := i + 1;
      if route in seen { continue; }
      if |seen| >= MAX_BASELINE_ROUTES {
        FullScan(impacts, i);
        break;
      }
      seen := seen + [route];
      if delays(route).None? { continue; }
      out := AddRoute(g, route, delays(route).value, out);
    }
    assert impacts[..|impacts|] == impacts;
  }

  lemma {:induction false} FullScan(impacts: seq<Impact>, i: nat)
    requires i <= |impacts| && |ScannedRoutes(impacts[..i])| >= MAX_BASELINE_ROUTES
    ensures ScannedRoutes(impacts) == ScannedRoutes(impacts[..i])
  {
    if i == |impacts| {
      assert impacts[..i] == impacts;
    } else {
      var rest := impacts[..|impacts| - 1];
      assert rest[..i] == impacts[..i];
      FullScan(rest, i);
    }
  }

  method AddRoute(g: Graph, route: string, obs: seq<Observed>, before: map<Key, int>) returns (out: map<Key, int>)
    requires forall s :: Lookup(before, (route, s)) == 0
    ensures forall k :: Lookup(out, k) == if k.0 == route then MaxDelayAt(g, obs, k.1) else Lookup(before, k)
  {
    out := before;
    for j := 0 to |obs|
      invariant forall k :: Lookup(out, k) ==
                            if k.0 == route then MaxDelayAt(g, obs[..j], k.1) else Lookup(before, k)
    {
      assert obs[..j + 1][..j] == obs[..j];
      var key := (route, g.Parent(obs[j].0));
      if obs[j].1 > Lookup(out, key) { out := out[key := obs[j].1]; }
    }
    assert obs[..|obs|] == obs;
  }
}
