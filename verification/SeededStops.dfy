/** The stops a walk is seeded with: TrackPrediction finds its primary among them, and when no cascade reaches their
    delays they are reported first (internal/propagation/engine.go, internal/evaluation/evaluator.go). */
module SeededStops {
  import opened Common
  import opened Schedule
  import opened ImpactHeap
  import opened Cascade
  import opened CascadeTheorems
  import opened CascadeMeaning
  import opened CascadeDescending
  import opened Tracking

  /* ---------------- any configuration, any history: the primary is a seeded stop ---------------- */

  predicate KindFits(q: Item) { q.hops >= 1 && (q.kind == DwellIncrease <==> q.hops == 1) }

  ghost predicate KindInv(s: WalkState) {
    && (forall q :: q in s.queue ==> KindFits(q))
    && (forall i :: 0 <= i < |s.impacts| ==> KindFits(s.impacts[i]))
  }

  lemma KindStep(env: Env, s: WalkState, item: Item, s': WalkState)
    requires KindInv(s) && StepOn(env, s, item, s')
    ensures KindInv(s')
  {
    hide Pushes;
    forall q | q in s'.queue ensures KindFits(q) {
      QueuedAfter(env, s, item, q);
      if q !in s.queue { PushedOrigin(env, s.visited + {env.KeyOf(item)}, item, q); }
    }
  }

  lemma KindInit(env: Env, src: Seed)
    requires IsSource(src)
    ensures KindInv(Initial(env, src))
  {
    SeedKind(env, src);
  }

  lemma {:induction false} KindHolds(env: Env, src: Seed, run: seq<WalkState>, n: nat)
    requires IsSource(src) && IsRun(env, src, run) && n < |run|
    ensures KindInv(run[n])
  {
    hide *;
    if n == 0 {
      StartAt(env, src, run);
      KindInit(env, src);
    } else {
      KindHolds(env, src, run, n - 1);
      var item := StepAt(env, src, run, n);
      KindStep(env, run[n - 1], item, run[n]);
    }
  }

  /** The hop-1 impacts of a walk are exactly its reported seeded stops. */
  lemma HopOneIsSeeded(env: Env, src: Seed, run: seq<WalkState>, i: nat)
    requires IsSource(src) && IsRun(env, src, run) && i < |Last(run).impacts|
    ensures HopOne(ToImpacts(env, Last(run).impacts), src.route, i) <==> Last(run).impacts[i] in SeedItems(env, src)
  {
    KindHolds(env, src, run, |run| - 1);
    assert KindFits(Last(run).impacts[i]);
    Provenance(env, src, run, i);
    SeedKind(env, src);
    hide SeedItems;
  }

  /** The direction of the next viable trip, or direction 0 when there is none or the schedule does not know it. */
  ghost predicate IsDirection(g: Graph, imp: TransferImpact, dir: int) {
    if imp.nextViableTrip != "" && imp.nextViableTrip in g.tripDirection
    then dir == g.tripDirection[imp.nextViableTrip] else dir == 0
  }

  /** Every hop-1 impact of a result is on the receiving route, at a call behind the transfer's station in the direction
      of the next viable trip. The first such call gets the initial delay, for the receiving route's own delay at the
      station, at full confidence; a later one gets the blend of that delay with one dwell step more for each call
      further on, at a confidence that has decayed once more than it is calls away. */
  lemma HopOneFollowsViable(
    env: Env, imp: TransferImpact, histAvg: real, histCount: nat, run: seq<WalkState>, i: nat, dir: int)
    returns (d: nat, k: nat, n: nat, row: StopTime)
    requires IsRun(env, SourceSeed(env, imp, histAvg, histCount), run) && i < |Last(run).impacts|
    requires Last(run).impacts[i].hops == 1 && IsDirection(env.g, imp, dir)
    ensures var x := ToImpacts(env, Last(run).impacts)[i];
            var k0 := (imp.toRoute, env.g.Parent(imp.station));
            var start := InitialDelay(env, imp, dir, if k0 in env.live then env.live[k0] else 0, histAvg, histCount);
            && x.routeId == imp.toRoute && x.kind == DwellIncrease && x.hops == 1
            && CallBehind(env.g, imp.toRoute, imp.station, dir, d, k, n, row) && x.stopId == env.g.Parent(row.stopId)
            && (n == 0 ==> x.delay == start && x.confidence == 1.0)
            && (n > 0 ==>
                  && x.confidence == Pow(env.cfg.confidenceDecay, n + 1)
                  && x.delay == BlendPerStop(env, imp.toRoute, row.stopId, start + n * DwellStepOf(env.cfg)))
  {
    var src := SourceSeed(env, imp, histAvg, histCount);
    var q := Last(run).impacts[i];
    HopOneSeeded(env, src, run, i);
    var rows;
    d, k, rows := SeedWritten(env, src);
    hide SeedItems, InitialDelay, BlendPerStop, CallBehind, IsRun, Pow, DwellStepOf;
    n :| 0 <= n < |SeedItems(env, src)| && SeedItems(env, src)[n] == q;
    row := rows[n];
    assert RipplesTo(env, src, n, row, q);
  }

  lemma HopOneSeeded(env: Env, src: Seed, run: seq<WalkState>, i: nat)
    requires IsSource(src) && IsRun(env, src, run) && i < |Last(run).impacts| && Last(run).impacts[i].hops == 1
    ensures Last(run).impacts[i] in SeedItems(env, src)
  {
    KindHolds(env, src, run, |run| - 1);
    assert KindFits(Last(run).impacts[i]);
    Provenance(env, src, run, i);
    hide SeedItems;
  }

  lemma {:induction false} ImpactsGrow(env: Env, src: Seed, run: seq<WalkState>, m: nat, n: nat)
    requires IsRun(env, src, run) && m <= n < |run|
    ensures run[m].impacts <= run[n].impacts
    decreases n - m
  {
    if m < n {
      ImpactsGrow(env, src, run, m, n - 1);
      var item := StepAt(env, src, run, n);
      hide Pushes, IsRun;
    }
  }

  /** With a cap of at least one, the first impact of every result is a seeded stop. */
  lemma FirstImpactIsSeeded(env: Env, src: Seed, run: seq<WalkState>)
    requires SeedItems(env, src) != [] && env.cfg.maxImpacts >= 1 && Complete(env, src, run)
    ensures Last(run).impacts != [] && Last(run).impacts[0] in SeedItems(env, src)
  {
    var items := SeedItems(env, src);
    assert items[0] in multiset(items) && items[0] in run[0].queue;
    assert |run| > 1;
    var item := StepAt(env, src, run, 1);
    ImpactsGrow(env, src, run, 1, |run| - 1);
    hide Pushes, SeedItems;
    assert run[1].impacts == [item];
  }

  /** Under every configuration with a cap of at least one, with any observed averages: a walk that seeds a stop has a
      primary, and it is the seeded stop of least delay among those reported. */
  lemma PrimaryIsLeastReported(env: Env, src: Seed, run: seq<WalkState>, p: int)
    requires IsSource(src) && SeedItems(env, src) != [] && env.cfg.maxImpacts >= 1 && Complete(env, src, run)
    requires IsPrimary(ToImpacts(env, Last(run).impacts), src.route, p)
    ensures 0 <= p < |Last(run).impacts| && Last(run).impacts[p] in SeedItems(env, src)
    ensures forall i :: 0 <= i < |Last(run).impacts| && Last(run).impacts[i] in SeedItems(env, src) ==>
                        Last(run).impacts[p].delay <= Last(run).impacts[i].delay
  {
    var impacts := Last(run).impacts;
    FirstImpactIsSeeded(env, src, run);
    forall i | 0 <= i < |impacts|
      ensures HopOne(ToImpacts(env, impacts), src.route, i) <==> impacts[i] in SeedItems(env, src)
    {
      HopOneIsSeeded(env, src, run, i);
    }
    hide SeedItems, Complete;
    assert HopOne(ToImpacts(env, impacts), src.route, 0);
  }

  /* ---------------- the seeded stops come first ---------------- */

  /** x is seeded, and no other stop seeded at its station has a greater delay. */
  ghost predicate Top(env: Env, items: seq<Item>, x: Item) {
    x in items && forall j :: 0 <= j < |items| && env.KeyOf(items[j]) == env.KeyOf(x) ==> items[j].delay <= x.delay
  }

  /** No cascade out of a seeded stop reaches the delay of any seeded stop, and the cap leaves room for every seeded
      station. */
  ghost predicate SeedsLead(env: Env, src: Seed) {
    var items := SeedItems(env, src);
    && IsSource(src) && items != [] && |ReportedKeys(env, items)| <= env.cfg.maxImpacts
    && forall i, j :: 0 <= i < |items| && 0 <= j < |items| && env.Expands(items[i]) &&
                      CascadeDelay(env, items[i]) >= env.cfg.minDelayThreshold ==>
                        CascadeDelay(env, items[i]) < items[j].delay
  }

  predicate BelowAll(items: seq<Item>, q: Item) { forall j :: 0 <= j < |items| ==> q.delay < items[j].delay }

  ghost predicate StationLeft(env: Env, items: seq<Item>, s: WalkState) {
    exists j :: 0 <= j < |items| && env.KeyOf(items[j]) !in s.visited
  }

  /** Seeded stops stay queued until their station is visited. */
  ghost predicate Kept(env: Env, items: seq<Item>, s: WalkState) {
    forall j :: 0 <= j < |items| ==> items[j] in s.queue || env.KeyOf(items[j]) in s.visited
  }

  /** Until all seeded stations are visited, only seeded stops are reported and everything else queued is smaller. */
  ghost predicate OnlySeeds(env: Env, items: seq<Item>, s: WalkState) {
    StationLeft(env, items, s) ==>
      && (forall q :: q in s.queue ==> q in items || BelowAll(items, q))
      && (forall i :: 0 <= i < |s.impacts| ==> s.impacts[i] in items)
  }

  /** A seeded station is reported with its greatest seeded delay. */
  ghost predicate TopsTaken(env: Env, items: seq<Item>, s: WalkState) {
    forall i :: 0 <= i < |s.impacts| && env.KeyOf(s.impacts[i]) in ReportedKeys(env, items) ==>
                  Top(env, items, s.impacts[i])
  }

  ghost predicate SeedInv(env: Env, items: seq<Item>, s: WalkState) {
    Kept(env, items, s) && OnlySeeds(env, items, s) && TopsTaken(env, items, s)
  }

  lemma SeedPushesBelow(env: Env, src: Seed, visited: set<Key>, p: Item, c: Item)
    requires SeedsLead(env, src) && p in SeedItems(env, src) && c in Pushes(env, visited, p)
    ensures BelowAll(SeedItems(env, src), c)
  {
    SeedKind(env, src);
    var items := SeedItems(env, src);
    var i :| 0 <= i < |items| && items[i] == p;
    PushedOrigin(env, visited, p, c);
    var x :| FromTransfer(env, p, x, c);
  }

  lemma KeptStep(env: Env, items: seq<Item>, s: WalkState, item: Item, s': WalkState)
    requires Kept(env, items, s) && StepOn(env, s, item, s')
    ensures Kept(env, items, s')
  {
    hide Pushes;
    forall j | 0 <= j < |items| ensures items[j] in s'.queue || env.KeyOf(items[j]) in s'.visited {
      if items[j] != item && items[j] in s.queue { assert items[j] in s.queue - multiset{item}; }
    }
  }

  /** While a seeded station is unvisited, what is popped is a seeded stop, the greatest left at its station. */
  lemma SeedPopped(env: Env, items: seq<Item>, s: WalkState, item: Item)
    requires Kept(env, items, s) && OnlySeeds(env, items, s) && StationLeft(env, items, s) && Greatest(item, s.queue)
    ensures item in items
    ensures env.KeyOf(item) !in s.visited ==> Top(env, items, item)
  {
    var j :| 0 <= j < |items| && env.KeyOf(items[j]) !in s.visited;
    assert items[j] in s.queue && !BelowAll(items, item);
  }

  lemma OnlySeedsStep(env: Env, src: Seed, s: WalkState, item: Item, s': WalkState)
    requires SeedsLead(env, src) && StepOn(env, s, item, s')
    requires Kept(env, SeedItems(env, src), s) && OnlySeeds(env, SeedItems(env, src), s)
    ensures OnlySeeds(env, SeedItems(env, src), s')
  {
    var items := SeedItems(env, src);
    hide SeedsLead, SeedItems, Pushes, BelowAll, Kept;
    if StationLeft(env, items, s') {
      var j :| 0 <= j < |items| && env.KeyOf(items[j]) !in s'.visited;
      assert StationLeft(env, items, s);
      SeedPopped(env, items, s, item);
      forall q | q in s'.queue ensures q in items || BelowAll(items, q) {
        QueuedAfter(env, s, item, q);
        if q !in s.queue { SeedPushesBelow(env, src, s.visited + {env.KeyOf(item)}, item, q); }
      }
    }
  }

  lemma TopsTakenStep(env: Env, items: seq<Item>, s: WalkState, item: Item, s': WalkState)
    requires SeedInv(env, items, s) && StepOn(env, s, item, s')
    ensures TopsTaken(env, items, s')
  {
    hide Pushes, Top, Kept, OnlySeeds;
    forall i | 0 <= i < |s'.impacts| && env.KeyOf(s'.impacts[i]) in ReportedKeys(env, items)
      ensures Top(env, items, s'.impacts[i])
    {
      if i == |s.impacts| {
        assert StationLeft(env, items, s);
        SeedPopped(env, items, s, item);
      }
    }
  }

  lemma SeedInit(env: Env, src: Seed)
    ensures SeedInv(env, SeedItems(env, src), Initial(env, src))
  {
    var items := SeedItems(env, src);
    assert forall j :: 0 <= j < |items| ==> items[j] in multiset(items);
  }

  lemma SeedStep(env: Env, src: Seed, s: WalkState, item: Item, s': WalkState)
    requires SeedsLead(env, src) && SeedInv(env, SeedItems(env, src), s) && StepOn(env, s, item, s')
    ensures SeedInv(env, SeedItems(env, src), s')
  {
    hide SeedsLead, SeedItems, StepOn, Kept, OnlySeeds, TopsTaken;
    KeptStep(env, SeedItems(env, src), s, item, s');
    OnlySeedsStep(env, src, s, item, s');
    TopsTakenStep(env, SeedItems(env, src), s, item, s');
  }

  lemma {:induction false} SeedHolds(env: Env, src: Seed, run: seq<WalkState>, n: nat)
    requires SeedsLead(env, src) && IsRun(env, src, run) && n < |run|
    ensures SeedInv(env, SeedItems(env, src), run[n])
  {
    hide *;
    if n == 0 {
      StartAt(env, src, run);
      SeedInit(env, src);
    } else {
      SeedHolds(env, src, run, n - 1);
      var item := StepAt(env, src, run, n);
      SeedStep(env, src, run[n - 1], item, run[n]);
    }
  }

  /** The cap never cuts a seeded station off. */
  lemma AllSeedsVisited(env: Env, src: Seed, run: seq<WalkState>)
    requires SeedsLead(env, src) && Complete(env, src, run)
    ensures ReportedKeys(env, SeedItems(env, src)) <= Last(run).visited
  {
    var items, s := SeedItems(env, src), Last(run);
    SeedHolds(env, src, run, |run| - 1);
    KeysHold(env, src, run, |run| - 1);
    hide SeedItems, IsRun, Capped, ReportedKeys, TopsTaken;
    if !(ReportedKeys(env, items) <= s.visited) {
      var k :| k in ReportedKeys(env, items) && k !in s.visited;
      KeyStation(env, items, k);
      OnlySeedKeys(env, items, s.impacts);
      KeysCount(env, s.impacts);
      SubsetSize(s.visited, ReportedKeys(env, items) - {k});
    }
  }

  lemma KeyStation(env: Env, items: seq<Item>, k: Key)
    ensures k in ReportedKeys(env, items) <==> exists j :: 0 <= j < |items| && env.KeyOf(items[j]) == k
  {
  }

  lemma OnlySeedKeys(env: Env, items: seq<Item>, impacts: seq<Item>)
    requires forall i :: 0 <= i < |impacts| ==> impacts[i] in items
    ensures ReportedKeys(env, impacts) <= ReportedKeys(env, items)
  {
    forall i | 0 <= i < |impacts| ensures env.KeyOf(impacts[i]) in ReportedKeys(env, items) {
      var m :| 0 <= m < |items| && items[m] == impacts[i];
    }
  }

  /** With any observed averages, when no cascade out of a seeded stop reaches the seeded delays: every seeded station
      is reported once, with its greatest seeded delay, and the primary is the least of these. */
  lemma PrimaryIdentity(env: Env, src: Seed, run: seq<WalkState>, p: int)
    requires SeedsLead(env, src) && Complete(env, src, run)
    requires IsPrimary(ToImpacts(env, Last(run).impacts), src.route, p)
    ensures var items := SeedItems(env, src);
            && 0 <= p < |Last(run).impacts| && Top(env, items, Last(run).impacts[p])
            && (forall x :: Top(env, items, x) ==> Last(run).impacts[p].delay <= x.delay)
  {
    var items, s := SeedItems(env, src), Last(run);
    LeadingPrimary(env, src, run, p);
    SeedHolds(env, src, run, |run| - 1);
    AllSeedsVisited(env, src, run);
    KeysHold(env, src, run, |run| - 1);
    hide SeedItems, IsRun, Capped, Finished, Kept, OnlySeeds, IsPrimary, SeedsLead, Top;
    KeyOfItem(env, items, s.impacts[p]);
    forall x | Top(env, items, x) ensures s.impacts[p].delay <= x.delay {
      var i := TopReported(env, items, s, x);
    }
  }

  lemma KeyOfItem(env: Env, items: seq<Item>, x: Item)
    requires x in items
    ensures env.KeyOf(x) in ReportedKeys(env, items)
  {
    var j :| 0 <= j < |items| && items[j] == x;
  }

  /** The impact that reports the station of a top seeded stop, with that stop's delay. */
  lemma TopReported(env: Env, items: seq<Item>, s: WalkState, x: Item) returns (i: nat)
    requires TopsTaken(env, items, s) && ReportedKeys(env, items) <= s.visited && KeysInv(env, s) && Top(env, items, x)
    ensures i < |s.impacts| && s.impacts[i] in items
    ensures env.KeyOf(s.impacts[i]) == env.KeyOf(x) && s.impacts[i].delay == x.delay
  {
    KeyOfItem(env, items, x);
    hide DistinctKeys;
    i :| 0 <= i < |s.impacts| && env.KeyOf(s.impacts[i]) == env.KeyOf(x);
    assert Top(env, items, s.impacts[i]);
    var j :| 0 <= j < |items| && items[j] == x;
    var m :| 0 <= m < |items| && items[m] == s.impacts[i];
  }

  lemma LeadingPrimary(env: Env, src: Seed, run: seq<WalkState>, p: int)
    requires SeedsLead(env, src) && Complete(env, src, run)
    requires IsPrimary(ToImpacts(env, Last(run).impacts), src.route, p)
    ensures 0 <= p < |Last(run).impacts| && Last(run).impacts[p] in SeedItems(env, src)
    ensures forall i :: 0 <= i < |Last(run).impacts| && Last(run).impacts[i] in SeedItems(env, src) ==>
                        Last(run).impacts[p].delay <= Last(run).impacts[i].delay
  {
    assert env.KeyOf(SeedItems(env, src)[0]) in ReportedKeys(env, SeedItems(env, src));
    hide SeedItems, Complete, IsPrimary;
    PrimaryIsLeastReported(env, src, run, p);
  }
}
