/** The results of a walk in terms of the timetable and the configuration alone: where each impact comes from, and what
    cannot be missing (internal/propagation/engine.go). */
module CascadeMeaning {
  import opened Common
  import opened Schedule
  import opened ImpactHeap
  import opened Cascade
  import opened CascadeTheorems

  /* ---------------- the stops behind a station ---------------- */

  /** The row is the n-th call behind a visit, at position k, to the station by the trip of the d-th departure listed
      there, which serves the route in the given direction. */
  ghost predicate CallBehind(g: Graph, route: string, stop: string, dir: int, d: nat, k: nat, n: nat, row: StopTime) {
    && d < |g.Departures(stop)|
    && var trip := g.Departures(stop)[d].tripId;
    && trip in g.byTrip && k + 1 + n < |g.byTrip[trip]|
    && (if trip in g.tripRoute then g.tripRoute[trip] else "") == route
    && (if trip in g.tripDirection then g.tripDirection[trip] else 0) == dir
    && g.Parent(g.byTrip[trip][k].stopId) == g.Parent(stop)
    && g.byTrip[trip][k + 1 + n] == row
  }

  lemma DownstreamAt(g: Graph, route: string, stop: string, dir: int) returns (d: nat, k: nat)
    ensures var ds := Downstream(g, route, stop, dir);
            && (forall n: nat :: n < |ds| ==> CallBehind(g, route, stop, dir, d, k, n, ds[n]))
            && (forall row :: !CallBehind(g, route, stop, dir, d, k, |ds|, row))
            && (ds == [] ==> forall d', k', n, row :: !CallBehind(g, route, stop, dir, d', k', n, row))
  {
    d, k := |g.Departures(stop)|, 0;
    var list := g.Departures(stop);
    DownstreamMeaning(g, list, route, g.Parent(stop), dir);
    var ds := Downstream(g, route, stop, dir);
    hide DownstreamScan;
    if ds != [] {
      d, k :| 0 <= d < |list| && 0 <= k && Continues(g, list[d].tripId, k, route, g.Parent(stop), dir) &&
              ds == g.TripStops(list[d].tripId)[k + 1..];
    } else {
      forall d': nat, k': nat, n: nat, row ensures !CallBehind(g, route, stop, dir, d', k', n, row) {
        assert d' < |list| ==> !Continues(g, list[d'].tripId, k', route, g.Parent(stop), dir);
      }
    }
  }

  /** What reaches the n-th stop: nothing is added at the first one; from the second on the delay has grown by a dwell
      step a stop and is blended with what was observed there, and the confidence has decayed. */
  ghost predicate RipplesTo(env: Env, seed: Seed, n: nat, row: StopTime, q: Item) {
    && q.routeId == seed.route && q.stopId == row.stopId && q.hops == seed.hops && q.kind == seed.kind
    && (n == 0 ==> q.delay == seed.startDelay && q.confidence == seed.baseConf)
    && (n > 0 ==>
          && q.confidence == seed.baseConf * Pow(env.cfg.confidenceDecay, n + 1)
          && q.delay == BlendPerStop(env, seed.route, row.stopId, seed.startDelay + n * DwellStepOf(env.cfg)))
  }

  /** The n-th stop is still reached: always the first one, and a later one as long as confidence and the delay before
      blending hold up. */
  ghost predicate Reaches(env: Env, seed: Seed, n: nat) {
    n == 0 ||
    (&& seed.baseConf * Pow(env.cfg.confidenceDecay, n + 1) >= env.cfg.minConfidence
     && seed.startDelay + n * DwellStepOf(env.cfg) >= env.cfg.minDelayThreshold)
  }

  /** What a seed pushes: one item for each call behind one visit to its station, up to the first not reached. */
  lemma SeedWritten(env: Env, seed: Seed) returns (d: nat, k: nat, rows: seq<StopTime>)
    ensures var items := SeedItems(env, seed);
            && |items| <= |rows|
            && (forall n: nat :: n < |rows| ==> CallBehind(env.g, seed.route, seed.station, seed.dir, d, k, n, rows[n]))
            && (forall row :: !CallBehind(env.g, seed.route, seed.station, seed.dir, d, k, |rows|, row))
            && (forall n: nat :: n < |items| ==> RipplesTo(env, seed, n, rows[n], items[n]) && Reaches(env, seed, n))
            && (|items| < |rows| ==> !Reaches(env, seed, |items|))
            && (items == [] ==> forall d', k', n, row ::
                  !CallBehind(env.g, seed.route, seed.station, seed.dir, d', k', n, row))
  {
    rows := SeedDownstreamStops(env, seed);
    d, k := DownstreamAt(env.g, seed.route, seed.station, seed.dir);
    SeedItemsMeaning(env, seed);
    var items := SeedItems(env, seed);
    hide SeedItems, Downstream, CallBehind, BlendPerStop, Pow;
    forall n: nat | n <= |items| ensures Reaches(env, seed, n) <==> n == 0 || RunPasses(env, seed, n) {
      AccumulatedClosed(env, seed, n);
    }
    forall n: nat | n < |items| ensures RipplesTo(env, seed, n, rows[n], items[n]) {
      AccumulatedClosed(env, seed, n);
    }
  }

  /* ---------------- the transfers a delay breaks ---------------- */

  /** The delay the route is known to have at the stop's station. */
  ghost function LiveAt(env: Env, route: string, stop: string): int {
    var k := (route, env.g.Parent(stop));
    if k in env.live then env.live[k] else 0
  }

  /** The delay at p breaks the transfer x to the route, and what is left of it is worth reporting. */
  ghost predicate Gated(env: Env, p: Item, x: Transfer, route: string) {
    && p.hops < env.cfg.maxDepth && p.delay >= env.cfg.minDelayThreshold
    && x in env.g.TransfersFrom(env.g.Parent(p.stopId)) && route in env.g.RoutesAt(x.toStop) && route != p.routeId
    && p.delay >= (if x.minTransferTime > 0 then x.minTransferTime else 120) + LiveAt(env, route, x.toStop)
    && p.confidence * env.cfg.confidenceDecay >= env.cfg.minConfidence
    && Trunc(p.delay as real * env.cfg.dwellElasticity) >= env.cfg.minDelayThreshold
  }

  /** c is what the broken transfer passes on. */
  ghost predicate PassedOn(env: Env, p: Item, x: Transfer, c: Item) {
    && c.stopId == x.toStop && c.kind == CascadeTransfer && c.hops == p.hops + 1
    && c.delay == Trunc(p.delay as real * env.cfg.dwellElasticity)
    && c.confidence == p.confidence * env.cfg.confidenceDecay
  }

  /** The route's next departure at the station, counted from the time of the walk, runs in the direction. */
  ghost predicate NextRuns(env: Env, route: string, station: string, dir: int) {
    var (deps, _) := NextDeparturesWrapped(env.g, station, route, env.tod, 1);
    && deps != [] && deps[0].tripId in env.g.tripDirection && env.g.tripDirection[deps[0].tripId] == dir
  }

  /** The seed of the ripple behind the cascade p. */
  ghost predicate IsRippleSeed(env: Env, p: Item, seed: Seed) {
    && p.kind == CascadeTransfer && p.hops < env.cfg.maxDepth && p.delay >= env.cfg.minDelayThreshold
    && NextRuns(env, p.routeId, env.g.Parent(p.stopId), seed.dir)
    && seed.route == p.routeId && seed.station == env.g.Parent(p.stopId) && seed.startDelay == p.delay
    && seed.baseConf == p.confidence && seed.hops == p.hops && seed.kind == CascadeDwell
  }

  lemma RippleWritten(env: Env, p: Item, seed: Seed)
    ensures IsRippleSeed(env, p, seed) <==>
            env.Expands(p) && p.kind == CascadeTransfer &&
            exists dir :: DeriveDirection(env, p.routeId, env.g.Parent(p.stopId)) == Some(dir) &&
                seed == Ripple(env, p, dir)
  {
  }

  /* ---------------- whole results ---------------- */

  /** Every impact of a cascade comes from an earlier impact whose delay breaks a transfer to it. */
  lemma CascadeOrigin(env: Env, src: Seed, run: seq<WalkState>, i: nat) returns (j: nat, x: Transfer)
    requires IsSource(src) && IsRun(env, src, run) && i < |Last(run).impacts|
    requires Last(run).impacts[i].kind == CascadeTransfer
    ensures var impacts := Last(run).impacts;
            j < i && Gated(env, impacts[j], x, impacts[i].routeId) && PassedOn(env, impacts[j], x, impacts[i])
  {
    Provenance(env, src, run, i);
    hide IsRun;
    var impacts := Last(run).impacts;
    j, x :| 0 <= j < i && FromTransfer(env, impacts[j], x, impacts[i]);
  }

  /** Every impact of a ripple comes from an earlier cascade upstream. */
  lemma RippleOriginWritten(env: Env, src: Seed, run: seq<WalkState>, i: nat)
    returns (j: nat, seed: Seed, d: nat, k: nat, n: nat, row: StopTime)
    requires IsSource(src) && IsRun(env, src, run) && i < |Last(run).impacts|
    requires Last(run).impacts[i].kind == CascadeDwell
    ensures var impacts := Last(run).impacts;
            && j < i && IsRippleSeed(env, impacts[j], seed)
            && CallBehind(env.g, seed.route, seed.station, seed.dir, d, k, n, row)
            && RipplesTo(env, seed, n, row, impacts[i]) && Reaches(env, seed, n)
  {
    Provenance(env, src, run, i);
    hide IsRun;
    var impacts := Last(run).impacts;
    var c := impacts[i];
    var dir: int;
    j, dir, n :| 0 <= j < i && 0 <= n && FromRipple(env, impacts[j], dir, n, c);
    seed := Ripple(env, impacts[j], dir);
    RippleWritten(env, impacts[j], seed);
    d, k := DownstreamAt(env.g, seed.route, seed.station, seed.dir);
    row := Downstream(env.g, seed.route, seed.station, dir)[n];
    AccumulatedClosed(env, seed, n);
    hide CallBehind, Downstream, Pow, BlendPerStop, IsRippleSeed;
  }

  /** Nothing is missing from a result that ran to the end of its queue: every destination of a transfer that a reported
      delay breaks is reported, and so is every stop that the ripple behind a reported cascade reaches. */
  lemma NothingMissing(env: Env, src: Seed, run: seq<WalkState>)
    requires IsRun(env, src, run) && Last(run).queue == multiset{}
    ensures var impacts := Last(run).impacts;
            var keys := ReportedKeys(env, impacts);
            && (forall i, x, r :: 0 <= i < |impacts| && Gated(env, impacts[i], x, r) ==>
                (r, env.g.Parent(x.toStop)) in keys)
            && (forall i, seed, n :: 0 <= i < |impacts| && IsRippleSeed(env, impacts[i], seed) &&
                                     0 <= n < |SeedItems(env, seed)| ==>
                                       (seed.route, env.g.Parent(SeedItems(env, seed)[n].stopId)) in keys)
  {
    Closure(env, src, run);
    var impacts := Last(run).impacts;
    var keys := ReportedKeys(env, impacts);
    hide IsRun, ReportedKeys;
    forall i, x, r | 0 <= i < |impacts| && Gated(env, impacts[i], x, r) ensures (r, env.g.Parent(x.toStop)) in keys {
      assert env.Expands(impacts[i]) && x in OutboundTransfers(env, impacts[i]) && Breaks(env, impacts[i], x, r);
      assert Destination(env, x, r) == (r, env.g.Parent(x.toStop));
    }
    forall i, seed, n: nat | 0 <= i < |impacts| && IsRippleSeed(env, impacts[i], seed) && n < |SeedItems(env, seed)|
      ensures (seed.route, env.g.Parent(SeedItems(env, seed)[n].stopId)) in keys
    {
      var p := impacts[i];
      RippleWritten(env, p, seed);
      SeedItemsMeaning(env, seed);
      hide SeedItems, IsRippleSeed;
      var dir :| DeriveDirection(env, p.routeId, env.g.Parent(p.stopId)) == Some(dir) && seed == Ripple(env, p, dir);
      var c := SeedItems(env, seed)[n];
      assert RippleItems(env, p) == SeedItems(env, seed) && c in RippleItems(env, p);
      assert env.KeyOf(c) == (seed.route, env.g.Parent(c.stopId));
    }
  }
}
