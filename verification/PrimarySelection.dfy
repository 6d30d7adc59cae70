/** The engine and the evaluator agree on the primary: when the impact TrackPrediction marks is the first downstream
    stop's, and with what predicted delay (internal/propagation/engine.go, internal/evaluation/evaluator.go). */
module PrimarySelection {
  import opened Common
  import opened Schedule
  import opened ImpactHeap
  import opened Cascade
  import opened CascadeTheorems
  import opened CascadeOrder
  import opened CascadeDescending
  import opened Tracking
  import opened Registration
  import opened SeededStops

  /* ---------------- when the primary is the first downstream stop's ---------------- */

  /** The first downstream stop has the greatest seeded delay of its station, and that is less than the greatest of any
      other seeded station. */
  ghost predicate FirstLeads(env: Env, src: Seed) {
    var items := SeedItems(env, src);
    && items != [] && Top(env, items, items[0])
    && forall x :: Top(env, items, x) && env.KeyOf(x) != env.KeyOf(items[0]) ==> items[0].delay < x.delay
  }

  /** The p-th impact is at the first downstream stop's station, with the initial-delay estimate as its delay. */
  ghost predicate FirstStops(env: Env, src: Seed, impacts: seq<Item>, p: int) {
    && 0 <= p < |impacts| && SeedItems(env, src) != []
    && env.KeyOf(impacts[p]) == env.KeyOf(SeedItems(env, src)[0]) && impacts[p].delay == src.startDelay
  }

  lemma FirstDelay(env: Env, src: Seed)
    requires SeedItems(env, src) != []
    ensures SeedItems(env, src)[0].delay == src.startDelay && SeedItems(env, src)[0].routeId == src.route
    ensures SeedDownstreamStops(env, src) != []
    ensures SeedItems(env, src)[0].stopId == SeedDownstreamStops(env, src)[0].stopId
  {
    SeedItemsMeaning(env, src);
  }

  lemma FirstLeadsPrimary(env: Env, src: Seed, run: seq<WalkState>, p: int)
    requires SeedsLead(env, src) && FirstLeads(env, src) && Complete(env, src, run)
    requires IsPrimary(ToImpacts(env, Last(run).impacts), src.route, p)
    ensures FirstStops(env, src, Last(run).impacts, p)
  {
    PrimaryIdentity(env, src, run, p);
    FirstDelay(env, src);
    hide SeedItems, Complete, IsPrimary, SeedsLead;
    var items, x := SeedItems(env, src), Last(run).impacts[p];
    assert Top(env, items, items[0]);
    SameTop(env, items, items[0], x);
  }

  lemma SameTop(env: Env, items: seq<Item>, x: Item, y: Item)
    requires Top(env, items, x) && Top(env, items, y)
    ensures env.KeyOf(x) == env.KeyOf(y) ==> x.delay == y.delay
  {
    var i :| 0 <= i < |items| && items[i] == x;
    var j :| 0 <= j < |items| && items[j] == y;
  }

  /** A greatest item, at another key than k if there is one. */
  lemma GreatestElsewhere(env: Env, queue: multiset<Item>, k: Key) returns (x: Item)
    requires queue != multiset{}
    ensures Greatest(x, queue)
    ensures env.KeyOf(x) == k ==> forall y :: y in queue && y.delay == x.delay ==> env.KeyOf(y) == k
  {
    x := SomeGreatest(queue);
    if y :| y in queue && y.delay == x.delay && env.KeyOf(y) != k { x := y; }
  }

  /** Another seeded station was reported, with a delay of d, before the station k was. */
  ghost predicate Postponed(env: Env, items: seq<Item>, k: Key, d: int, s: WalkState) {
    k in s.visited ==>
      exists a, b :: 0 <= a < b < |s.impacts| && env.KeyOf(s.impacts[b]) == k && env.KeyOf(s.impacts[a]) != k &&
                     s.impacts[a] in items && s.impacts[a].delay == d
  }

  lemma PostponedStep(env: Env, items: seq<Item>, x: Item, s: WalkState, item: Item, s': WalkState)
    requires items != [] && SeedInv(env, items, s) && KeysInv(env, s) && StepOn(env, s, item, s')
    requires Top(env, items, items[0]) && Top(env, items, x) && x.delay == items[0].delay
    requires env.KeyOf(x) != env.KeyOf(items[0])
    requires env.KeyOf(item) == env.KeyOf(items[0]) ==>
               forall y :: y in s.queue && y.delay == item.delay ==> env.KeyOf(y) == env.KeyOf(items[0])
    requires Postponed(env, items, env.KeyOf(items[0]), x.delay, s)
    ensures Postponed(env, items, env.KeyOf(items[0]), x.delay, s')
  {
    var k := env.KeyOf(items[0]);
    hide Pushes, Kept, OnlySeeds, TopsTaken, KeysInv, Top;
    if k in s.visited {
      var a, b :| 0 <= a < b < |s.impacts| && env.KeyOf(s.impacts[b]) == k && env.KeyOf(s.impacts[a]) != k &&
                  s.impacts[a] in items && s.impacts[a].delay == x.delay;
      assert s'.impacts[a] == s.impacts[a] && s'.impacts[b] == s.impacts[b];
    } else if env.KeyOf(item) == k {
      OthersFirst(env, items, x, s, item);
      var a := VisitedTop(env, items, s, x);
      assert s'.impacts[a] == s.impacts[a] && s'.impacts[|s.impacts|] == item;
    }
  }

  /** When the first stop's station is popped although ties are resolved against it, the tied station is visited. */
  lemma OthersFirst(env: Env, items: seq<Item>, x: Item, s: WalkState, item: Item)
    requires items != [] && SeedInv(env, items, s) && Greatest(item, s.queue)
    requires Top(env, items, items[0]) && Top(env, items, x) && x.delay == items[0].delay
    requires env.KeyOf(item) == env.KeyOf(items[0]) != env.KeyOf(x) && env.KeyOf(item) !in s.visited
    requires forall y :: y in s.queue && y.delay == item.delay ==> env.KeyOf(y) == env.KeyOf(items[0])
    ensures env.KeyOf(x) in s.visited
  {
    assert StationLeft(env, items, s);
    SeedPopped(env, items, s, item);
    SameTop(env, items, items[0], item);
    var j :| 0 <= j < |items| && items[j] == x;
    hide OnlySeeds, TopsTaken;
    assert x !in s.queue && env.KeyOf(items[j]) in s.visited;
  }

  /** The impact that reports a top seeded stop's visited station has its delay. */
  lemma VisitedTop(env: Env, items: seq<Item>, s: WalkState, x: Item) returns (i: nat)
    requires TopsTaken(env, items, s) && env.KeyOf(x) in s.visited && KeysInv(env, s) && Top(env, items, x)
    ensures i < |s.impacts| && s.impacts[i] in items
    ensures env.KeyOf(s.impacts[i]) == env.KeyOf(x) && s.impacts[i].delay == x.delay
  {
    KeyOfItem(env, items, x);
    hide DistinctKeys;
    i :| 0 <= i < |s.impacts| && env.KeyOf(s.impacts[i]) == env.KeyOf(x);
    assert Top(env, items, s.impacts[i]);
    SameTop(env, items, x, s.impacts[i]);
  }

  /** Heap ties resolved against the first downstream stop. */
  lemma {:induction false} PostponedRun(env: Env, src: Seed, x: Item, run: seq<WalkState>)
    returns (whole: seq<WalkState>)
    requires SeedsLead(env, src) && IsRun(env, src, run) && Capped(env, run)
    requires var items := SeedItems(env, src);
             && items != [] && Top(env, items, items[0]) && Top(env, items, x) && x.delay == items[0].delay
             && env.KeyOf(x) != env.KeyOf(items[0])
             && Postponed(env, items, env.KeyOf(items[0]), x.delay, Last(run))
    ensures Complete(env, src, whole)
    ensures Postponed(env, SeedItems(env, src), env.KeyOf(SeedItems(env, src)[0]), x.delay, Last(whole))
    decreases |Universe(env, src) - Last(run).visited|, |Last(run).queue|
  {
    var s, items := Last(run), SeedItems(env, src);
    if Finished(env, s) { return run; }
    var item := GreatestElsewhere(env, s.queue, env.KeyOf(items[0]));
    var s' := Next(env, s, item);
    assert StepOn(env, s, item, s') && Step(env, s, s') && |s.impacts| < env.cfg.maxImpacts;
    assert |run| > 0 && run[|run| - 1] == s && Last(run + [s']) == s';
    hide *;
    SeedHolds(env, src, run, |run| - 1);
    KeysHold(env, src, run, |run| - 1);
    UniverseHolds(env, src, run, |run| - 1);
    PostponedStep(env, items, x, s, item, s');
    StepDecreases(env, src, s, s');
    ExtendRun(env, src, run, s');
    whole := PostponedRun(env, src, x, run + [s']);
  }

  lemma StartRun(env: Env, src: Seed)
    ensures IsRun(env, src, [Initial(env, src)]) && Capped(env, [Initial(env, src)])
    ensures Last([Initial(env, src)]).visited == {}
  {
  }

  lemma AnyRun(env: Env, src: Seed) returns (run: seq<WalkState>)
    ensures Complete(env, src, run)
  {
    StartRun(env, src);
    hide IsRun, Capped, Initial;
    run := ReachesExit(env, src, [Initial(env, src)]);
  }

  /** With another station in a tie for the least, the mark can go there. */
  lemma TiedRun(env: Env, src: Seed, x: Item) returns (run: seq<WalkState>, p: int)
    requires SeedsLead(env, src)
    requires var items := SeedItems(env, src);
             && items != [] && Top(env, items, items[0]) && Top(env, items, x) && x.delay == items[0].delay
             && env.KeyOf(x) != env.KeyOf(items[0])
    ensures Complete(env, src, run) && IsPrimary(ToImpacts(env, Last(run).impacts), src.route, p)
    ensures !FirstStops(env, src, Last(run).impacts, p)
  {
    var items := SeedItems(env, src);
    assert IsSource(src);
    StartRun(env, src);
    hide IsRun, Capped, SeedItems, Initial, SeedsLead, Top;
    run := PostponedRun(env, src, x, [Initial(env, src)]);
    p := SomePrimaryOf(env, src, run);
    FirstDelay(env, src);
    hide Finished;
    if FirstStops(env, src, Last(run).impacts, p) {
      KeysHold(env, src, run, |run| - 1);
      var s := Last(run);
      assert env.KeyOf(s.impacts[p]) in ReportedKeys(env, s.impacts);
      var i, j :| 0 <= i < j < |s.impacts| && env.KeyOf(s.impacts[j]) == env.KeyOf(items[0]) &&
                  s.impacts[i] in items && s.impacts[i].delay == x.delay;
      assert j == p;
      SeededBefore(env, src, run, p, i);
    }
  }

  /** The primary is strictly below every seeded impact reported before it. */
  lemma SeededBefore(env: Env, src: Seed, run: seq<WalkState>, p: int, i: nat)
    requires IsSource(src) && IsRun(env, src, run) && i < p < |Last(run).impacts|
    requires IsPrimary(ToImpacts(env, Last(run).impacts), src.route, p) && Last(run).impacts[i] in SeedItems(env, src)
    ensures Last(run).impacts[p].delay < Last(run).impacts[i].delay
  {
    HopOneIsSeeded(env, src, run, i);
    hide IsRun, SeedItems;
  }

  /** Where the first stop is not the greatest of its station, or another station lies below it, the mark goes elsewhere
      on every walk. */
  lemma FirstBeaten(env: Env, src: Seed, run: seq<WalkState>, p: int)
    requires SeedsLead(env, src) && Complete(env, src, run)
    requires IsPrimary(ToImpacts(env, Last(run).impacts), src.route, p)
    requires var items := SeedItems(env, src);
             && items != []
             && (!Top(env, items, items[0]) || exists x :: Top(env, items, x) && x.delay < items[0].delay)
    ensures !FirstStops(env, src, Last(run).impacts, p)
  {
    PrimaryIdentity(env, src, run, p);
    FirstDelay(env, src);
    hide Complete, IsPrimary, SeedItems, SeedsLead;
    assert SeedItems(env, src)[0] in SeedItems(env, src);
  }

  /** Whatever the configuration and the observed averages, when no cascade reaches the seeded delays: on every walk the
      impact TrackPrediction marks is at the first downstream stop's station and predicts exactly the initial-delay
      estimate, if and only if that stop leads. */
  lemma PrimaryExactly(env: Env, src: Seed)
    requires SeedsLead(env, src)
    ensures FirstLeads(env, src) <==>
            forall run, p :: Complete(env, src, run) && IsPrimary(ToImpacts(env, Last(run).impacts), src.route, p) ==>
                               FirstStops(env, src, Last(run).impacts, p)
  {
    var items := SeedItems(env, src);
    if FirstLeads(env, src) {
      forall run, p | Complete(env, src, run) && IsPrimary(ToImpacts(env, Last(run).impacts), src.route, p)
        ensures FirstStops(env, src, Last(run).impacts, p)
      {
        FirstLeadsPrimary(env, src, run, p);
      }
    } else {
      var run, p := FirstOvertaken(env, src);
    }
  }

  lemma FirstOvertaken(env: Env, src: Seed) returns (run: seq<WalkState>, p: int)
    requires SeedsLead(env, src) && !FirstLeads(env, src)
    ensures Complete(env, src, run) && IsPrimary(ToImpacts(env, Last(run).impacts), src.route, p)
    ensures !FirstStops(env, src, Last(run).impacts, p)
  {
    var items := SeedItems(env, src);
    assert items != [];
    hide Complete, IsPrimary, SeedItems, SeedsLead, Top, FirstStops;
    if x :| Top(env, items, items[0]) && Top(env, items, x) && env.KeyOf(x) != env.KeyOf(items[0]) &&
            x.delay == items[0].delay {
      run, p := TiedRun(env, src, x);
    } else {
      run := AnyRun(env, src);
      p := SomePrimaryOf(env, src, run);
      FirstBeaten(env, src, run, p);
    }
  }

  lemma SomePrimaryOf(env: Env, src: Seed, run: seq<WalkState>) returns (p: int)
    requires Complete(env, src, run)
    ensures IsPrimary(ToImpacts(env, Last(run).impacts), src.route, p)
  {
    var impacts := ToImpacts(env, Last(run).impacts);
    p := SomePrimaryUpTo(impacts, src.route, |impacts|);
  }

  /** The first downstream stop's station always survives the engine's cap; the stop's own impact does unless a later
      call at that station is at least as late. */
  lemma FirstAlwaysReported(env: Env, src: Seed, run: seq<WalkState>)
    requires SeedsLead(env, src) && Complete(env, src, run)
    ensures var items, impacts := SeedItems(env, src), Last(run).impacts;
            && env.KeyOf(items[0]) in ReportedKeys(env, impacts)
            && ((forall j :: 0 < j < |items| && env.KeyOf(items[j]) == env.KeyOf(items[0]) ==>
                               items[j].delay < items[0].delay) ==> items[0] in impacts)
  {
    var items, s := SeedItems(env, src), Last(run);
    SeedHolds(env, src, run, |run| - 1);
    AllSeedsVisited(env, src, run);
    KeysHold(env, src, run, |run| - 1);
    hide SeedItems, IsRun, Capped, Finished, Kept, OnlySeeds;
    KeyOfItem(env, items, items[0]);
    var i :| 0 <= i < |s.impacts| && env.KeyOf(s.impacts[i]) == env.KeyOf(items[0]);
    assert Top(env, items, s.impacts[i]);
    var m :| 0 <= m < |items| && items[m] == s.impacts[i];
  }

  /* ---------------- the shipped defaults ---------------- */

  predicate DefaultWalk(env: Env, src: Seed) {
    env.cfg == DEFAULT_CONFIG && IsSource(src) && SeedItems(env, src) != []
  }

  /** No other stop seeded on the source's own run is at the first downstream stop's station. */
  ghost predicate FirstStopAlone(env: Env, src: Seed) {
    var items := SeedItems(env, src);
    items != [] && forall i :: 0 < i < |items| ==> env.KeyOf(items[i]) != env.KeyOf(items[0])
  }

  lemma DefaultNumbers()
    ensures DwellStepOf(DEFAULT_CONFIG) == 1
    ensures Pow(0.7, 5) < 0.2
  {
    assert Pow(0.7, 1) == 0.7 * Pow(0.7, 0);
    assert Pow(0.7, 2) == 0.7 * Pow(0.7, 1);
    assert Pow(0.7, 3) == 0.7 * Pow(0.7, 2);
    assert Pow(0.7, 4) == 0.7 * Pow(0.7, 3);
    assert Pow(0.7, 5) == 0.7 * Pow(0.7, 4);
  }

  /** Confidence lets at most four stops be seeded; without blending each is one second later than the one before. */
  lemma DefaultSeeds(env: Env, src: Seed)
    requires DefaultWalk(env, src)
    ensures |SeedItems(env, src)| <= 4
    ensures BlendingOff(env) ==>
              forall i :: 0 <= i < |SeedItems(env, src)| ==> SeedItems(env, src)[i].delay == src.startDelay + i
  {
    DefaultNumbers();
    SeedItemsMeaning(env, src);
    var items := SeedItems(env, src);
    assert !RunPasses(env, src, 4) by { assert RunConfidence(env, src, 4) == 1.0 * Pow(0.7, 5); }
    forall i | 0 <= i < |items| && BlendingOff(env) ensures items[i].delay == src.startDelay + i {
      AccumulatedClosed(env, src, i);
    }
  }

  lemma {:induction false} KeysAtMost(env: Env, items: seq<Item>)
    ensures |ReportedKeys(env, items)| <= |items|
  {
    if items != [] {
      var n := |items| - 1;
      KeysAtMost(env, items[..n]);
      ReportOneMore(env, items[..n], items[n]);
      assert items == items[..n] + [items[n]];
    }
  }

  /** Under the defaults, without blending, the seeded stops lead, and the first one leads them exactly when no other is
      at its station. */
  lemma DefaultsLead(env: Env, src: Seed)
    requires DefaultWalk(env, src) && BlendingOff(env)
    ensures SeedsLead(env, src)
    ensures FirstLeads(env, src) <==> FirstStopAlone(env, src)
  {
    DefaultSeeds(env, src);
    KeysAtMost(env, SeedItems(env, src));
    hide SeedItems;
    var items := SeedItems(env, src);
    forall i, j | 0 <= i < |items| && 0 <= j < |items| && env.Expands(items[i]) && CascadeDelay(env, items[i]) >= 15
      ensures CascadeDelay(env, items[i]) < items[j].delay
    {
      TruncBounds(items[i].delay as real * 0.3);
      assert 15.0 <= CascadeDelay(env, items[i]) as real <= items[i].delay as real * 0.3;
    }
    FirstLeadsAlone(env, src);
  }

  lemma FirstLeadsAlone(env: Env, src: Seed)
    requires SeedItems(env, src) != []
    requires forall i :: 0 <= i < |SeedItems(env, src)| ==> SeedItems(env, src)[i].delay == src.startDelay + i
    ensures FirstLeads(env, src) <==> FirstStopAlone(env, src)
  {
    hide SeedItems;
    var items := SeedItems(env, src);
    if FirstStopAlone(env, src) {
      assert Top(env, items, items[0]);
    }
  }

  /** On the shipped defaults without blending, walk by walk: the impact marked is the first downstream stop's,
      predicted at exactly the initial-delay estimate, if and only if that stop's station is not seeded a second time.
      */
  lemma DefaultPrimaryExactly(env: Env, src: Seed, run: seq<WalkState>, p: int)
    requires DefaultWalk(env, src) && BlendingOff(env) && Complete(env, src, run)
    requires IsPrimary(ToImpacts(env, Last(run).impacts), src.route, p)
    ensures FirstStopAlone(env, src) <==> FirstStops(env, src, Last(run).impacts, p)
  {
    var items := SeedItems(env, src);
    DefaultsLead(env, src);
    DefaultSeeds(env, src);
    if FirstStopAlone(env, src) {
      hide *;
      FirstLeadsPrimary(env, src, run, p);
    } else {
      var k :| 0 < k < |items| && env.KeyOf(items[k]) == env.KeyOf(items[0]);
      assert !Top(env, items, items[0]);
      assert items != [];
      hide *;
      FirstBeaten(env, src, run, p);
    }
  }

  /** End to end: what Propagate returned and TrackPrediction hands to Add first. */
  lemma StoredPrimary(env: Env, imp: TransferImpact, histAvg: real, histCount: nat, run: seq<WalkState>,
                      c: Call, p: int)
    requires var src := SourceSeed(env, imp, histAvg, histCount);
             SeedsLead(env, src) && FirstLeads(env, src) && Complete(env, src, run)
    requires c.src == imp && c.g == env.g && c.impacts == ToImpacts(env, Last(run).impacts)
    requires IsPrimary(c.impacts, imp.toRoute, p)
    ensures 0 <= p < |c.impacts|
    ensures var dir := SourceDirection(env, imp);
            var added := Added(c, p);
            var stops := Downstream(env.g, imp.toRoute, imp.station, dir);
            && added != [] && stops != []
            && added[0].isPrimary && (forall k :: 0 < k < |added| ==> !added[k].isPrimary)
            && added[0].route == imp.toRoute && added[0].station == env.g.Parent(stops[0].stopId)
            && added[0].predicted ==
               InitialDelay(env, imp, dir, env.LiveDelay((imp.toRoute, env.g.Parent(imp.station))), histAvg, histCount)
            && added[0].sourceStation == env.g.Parent(imp.station)
            && added[0].schedConnDep == imp.schedConnDep && added[0].earliestCatch == imp.earliestCatch
  {
    var src := SourceSeed(env, imp, histAvg, histCount);
    FirstLeadsPrimary(env, src, run, p);
    FirstDelay(env, src);
    PrimaryTrackedFirst(c, p);
    hide InitialDelay, SourceDirection, Added, Complete, SeedsLead, FirstLeads, SeedItems;
  }
}
