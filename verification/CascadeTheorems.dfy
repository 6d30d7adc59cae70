/** What every run of the cascade walk satisfies. */
module CascadeTheorems {
  import opened Common
  import opened Schedule
  import opened ImpactHeap
  import opened Cascade

  lemma StepAt(env: Env, src: Seed, run: seq<WalkState>, n: nat) returns (item: Item)
    requires IsRun(env, src, run) && 0 < n < |run|
    ensures StepOn(env, run[n - 1], item, run[n]) && Step(env, run[n - 1], run[n])
    ensures item in run[n - 1].queue
  {
    var m := n - 1;
    assert Step(env, run[m], run[m + 1]);
    item :| StepOn(env, run[n - 1], item, run[n]);
  }

  lemma StartAt(env: Env, src: Seed, run: seq<WalkState>)
    requires IsRun(env, src, run)
    ensures run != [] && run[0] == Initial(env, src)
  {
  }

  /* ---------------- provenance ---------------- */

  /** c is the cascade over transfer x out of the accepted impact p. */
  ghost predicate FromTransfer(env: Env, p: Item, x: Transfer, c: Item) {
    && env.Expands(p)
    && x in OutboundTransfers(env, p) && c.routeId in env.g.RoutesAt(x.toStop) && c.routeId != p.routeId
    && p.delay >= MinTransfer(x) + env.LiveDelay(Destination(env, x, c.routeId))
    && c.stopId == x.toStop && c.kind == CascadeTransfer && c.directionId == 0
    && c.delay == Trunc(p.delay as real * env.cfg.dwellElasticity) >= env.cfg.minDelayThreshold
    && c.confidence == p.confidence * env.cfg.confidenceDecay >= env.cfg.minConfidence
    && c.hops == p.hops + 1
  }

  /** c ripples down the route that the accepted cascade p reached, k + 1 stops behind it. */
  ghost predicate FromRipple(env: Env, p: Item, dir: int, k: nat, c: Item) {
    && env.Expands(p) && p.kind == CascadeTransfer && c.kind == CascadeDwell
    && DeriveDirection(env, p.routeId, env.g.Parent(p.stopId)) == Some(dir)
    && var stops := Downstream(env.g, p.routeId, env.g.Parent(p.stopId), dir);
    && k < |stops| && c == RunItem(env, Ripple(env, p, dir), stops[k].stopId, k)
    && (k > 0 ==> RunPasses(env, Ripple(env, p, dir), k))
  }

  ghost predicate HasOrigin(env: Env, src: Seed, impacts: seq<Item>, c: Item) {
    match c.kind
    case DwellIncrease => c in SeedItems(env, src)
    case CascadeTransfer => exists j, x :: 0 <= j < |impacts| && FromTransfer(env, impacts[j], x, c)
    case CascadeDwell => exists j, dir, k :: 0 <= j < |impacts| && 0 <= k && FromRipple(env, impacts[j], dir, k, c)
  }

  ghost predicate ProvenanceInv(env: Env, src: Seed, s: WalkState) {
    && (forall q :: q in s.queue ==> HasOrigin(env, src, s.impacts, q))
    && (forall i :: 0 <= i < |s.impacts| ==> HasOrigin(env, src, s.impacts[..i], s.impacts[i]))
  }

  lemma PushedOrigin(env: Env, visited: set<Key>, p: Item, c: Item)
    requires c in Pushes(env, visited, p)
    ensures (exists x :: FromTransfer(env, p, x, c) && Destination(env, x, c.routeId) !in visited) ||
            exists dir, k :: 0 <= k && FromRipple(env, p, dir, k, c)
  {
    var xs := OutboundTransfers(env, p);
    TransferItemsMeaning(env, visited, p, xs);
    if c in TransferItems(env, visited, p, xs) {
      var x, r :| x in xs && Breaks(env, p, x, r) && Destination(env, x, r) !in visited &&
                  c == TransferItem(env, p, x, r);
      assert FromTransfer(env, p, x, c);
    } else {
      var dir, k := RippleOrigin(env, p, c);
      assert 0 <= k;
    }
  }

  lemma RippleOrigin(env: Env, p: Item, c: Item) returns (dir: int, k: nat)
    requires env.Expands(p) && c in RippleItems(env, p)
    ensures FromRipple(env, p, dir, k, c) && k < |RippleItems(env, p)|
  {
    dir := DeriveDirection(env, p.routeId, env.g.Parent(p.stopId)).value;
    SeedItemsMeaning(env, Ripple(env, p, dir));
    var items := SeedItems(env, Ripple(env, p, dir));
    k :| 0 <= k < |items| && items[k] == c;
    assert k > 0 ==> RunPasses(env, Ripple(env, p, dir), k);
  }

  lemma OriginGrows(env: Env, src: Seed, impacts: seq<Item>, p: Item, c: Item)
    requires HasOrigin(env, src, impacts, c)
    ensures HasOrigin(env, src, impacts + [p], c)
  {
    var more := impacts + [p];
    match c.kind
    case DwellIncrease =>
    case CascadeTransfer =>
      var j, x :| 0 <= j < |impacts| && FromTransfer(env, impacts[j], x, c);
      assert more[j] == impacts[j];
    case CascadeDwell =>
      var j, dir, k :| 0 <= j < |impacts| && 0 <= k && FromRipple(env, impacts[j], dir, k, c);
      assert more[j] == impacts[j];
  }

  /** A child of the last accepted impact has its origin in the list. */
  lemma ChildOrigin(env: Env, src: Seed, impacts: seq<Item>, visited: set<Key>, p: Item, c: Item)
    requires c in Pushes(env, visited, p)
    ensures HasOrigin(env, src, impacts + [p], c)
  {
    PushedOrigin(env, visited, p, c);
    var more := impacts + [p];
    assert more[|impacts|] == p;
    if x :| FromTransfer(env, p, x, c) {
      assert FromTransfer(env, more[|impacts|], x, c);
    } else {
      var dir, k :| 0 <= k && FromRipple(env, p, dir, k, c);
      assert FromRipple(env, more[|impacts|], dir, k, c);
    }
  }

  /** What can be in the queue after a step: what was there, or a push of the item just accepted. */
  lemma QueuedAfter(env: Env, s: WalkState, item: Item, q: Item)
    requires q in Next(env, s, item).queue
    ensures q in s.queue ||
            (env.KeyOf(item) !in s.visited && q in Pushes(env, s.visited + {env.KeyOf(item)}, item))
  {
  }

  lemma ProvenanceStep(env: Env, src: Seed, s: WalkState, item: Item, s': WalkState)
    requires ProvenanceInv(env, src, s) && StepOn(env, s, item, s')
    ensures ProvenanceInv(env, src, s')
  {
    if env.KeyOf(item) in s.visited {
      forall q | q in s'.queue ensures HasOrigin(env, src, s'.impacts, q) { assert q in s.queue; }
    } else {
      forall q | q in s'.queue ensures HasOrigin(env, src, s'.impacts, q) {
        QueuedAfter(env, s, item, q);
        if q in s.queue {
          OriginGrows(env, src, s.impacts, item, q);
        } else {
          ChildOrigin(env, src, s.impacts, s.visited + {env.KeyOf(item)}, item, q);
        }
      }
      forall i | 0 <= i < |s'.impacts| ensures HasOrigin(env, src, s'.impacts[..i], s'.impacts[i]) {
        assert s'.impacts[..i] == s.impacts[..i];
      }
    }
  }

  lemma SeedKind(env: Env, seed: Seed)
    ensures forall q :: q in SeedItems(env, seed) ==>
                          q.kind == seed.kind && q.hops == seed.hops && q.routeId == seed.route
  {
    SeedItemsMeaning(env, seed);
  }

  lemma ProvenanceInit(env: Env, src: Seed)
    requires IsSource(src)
    ensures ProvenanceInv(env, src, Initial(env, src))
  {
    SeedKind(env, src);
  }

  lemma {:induction false} ProvenanceHolds(env: Env, src: Seed, run: seq<WalkState>, n: nat)
    requires IsSource(src) && IsRun(env, src, run) && n < |run|
    ensures ProvenanceInv(env, src, run[n])
  {
    hide *;
    if n == 0 {
      StartAt(env, src, run);
      ProvenanceInit(env, src);
    } else {
      ProvenanceHolds(env, src, run, n - 1);
      var item := StepAt(env, src, run, n);
      ProvenanceStep(env, src, run[n - 1], item, run[n]);
    }
  }

  /** Every impact is on the initial seed or has an earlier impact of the same result as its parent: a cascade over a
      transfer has one whose delay met the margin, a dwell cascade has the earlier cascade onto its route, upstream of
      it and at the same hop count. */
  lemma Provenance(env: Env, src: Seed, run: seq<WalkState>, i: nat)
    requires IsSource(src) && IsRun(env, src, run) && i < |Last(run).impacts|
    ensures var impacts := Last(run).impacts;
            var c := impacts[i];
            match c.kind
            case DwellIncrease => c in SeedItems(env, src)
            case CascadeTransfer => exists j, x :: 0 <= j < i && FromTransfer(env, impacts[j], x, c)
            case CascadeDwell => exists j, dir, k :: 0 <= j < i && 0 <= k && FromRipple(env, impacts[j], dir, k, c)
  {
    ProvenanceHolds(env, src, run, |run| - 1);
    var impacts := Last(run).impacts;
    assert HasOrigin(env, src, impacts[..i], impacts[i]);
    match impacts[i].kind
    case DwellIncrease =>
    case CascadeTransfer =>
      var j, x :| 0 <= j < |impacts[..i]| && FromTransfer(env, impacts[..i][j], x, impacts[i]);
      assert FromTransfer(env, impacts[j], x, impacts[i]);
    case CascadeDwell =>
      var j, dir, k :| 0 <= j < |impacts[..i]| && 0 <= k && FromRipple(env, impacts[..i][j], dir, k, impacts[i]);
      assert FromRipple(env, impacts[j], dir, k, impacts[i]);
  }

  /* ---------------- grading and keys ---------------- */

  /** The bounds the configuration must respect for the grading to make sense. */
  predicate Graded(cfg: Config) { cfg.maxDepth >= 1 && cfg.minConfidence <= 1.0 && 0.0 < cfg.confidenceDecay <= 1.0 }

  ghost predicate Grade(cfg: Config, q: Item)
  {
    && 1 <= q.hops <= cfg.maxDepth
    && cfg.minConfidence <= q.confidence <= Pow(cfg.confidenceDecay, q.hops - 1)
    && 0.0 < q.confidence
    && (q.kind == DwellIncrease <==> q.hops == 1)
  }

  ghost predicate GradeInv(env: Env, s: WalkState) {
    && (forall q :: q in s.queue ==> Grade(env.cfg, q))
    && (forall i :: 0 <= i < |s.impacts| ==> Grade(env.cfg, s.impacts[i]))
  }

  ghost function ReportedKeys(env: Env, impacts: seq<Item>): set<Key> {
    set i | 0 <= i < |impacts| :: env.KeyOf(impacts[i])
  }

  ghost predicate DistinctKeys(env: Env, impacts: seq<Item>) {
    forall i, j :: 0 <= i < j < |impacts| ==> env.KeyOf(impacts[i]) != env.KeyOf(impacts[j])
  }

  /** The visited set is the set of keys reported, each once. */
  ghost predicate KeysInv(env: Env, s: WalkState) {
    s.visited == ReportedKeys(env, s.impacts) && DistinctKeys(env, s.impacts)
  }

  /** Decaying a confidence once more keeps it within the bound for one more hop. */
  lemma DecayOnce(b: real, conf: real, hops: nat)
    requires 0.0 < b <= 1.0 && 0.0 < conf <= Pow(b, hops)
    ensures 0.0 < conf * b <= Pow(b, hops + 1)
  {
    MulMono(b, conf, Pow(b, hops));
    MulBelow(b, conf);
  }

  lemma RunItemGrade(env: Env, seed: Seed, stop: string, i: nat)
    requires Graded(env.cfg) && 1 <= seed.hops <= env.cfg.maxDepth
    requires env.cfg.minConfidence <= seed.baseConf <= Pow(env.cfg.confidenceDecay, seed.hops - 1)
    requires 0.0 < seed.baseConf && (seed.kind == DwellIncrease <==> seed.hops == 1)
    requires i > 0 ==> RunConfidence(env, seed, i) >= env.cfg.minConfidence
    ensures Grade(env.cfg, RunItem(env, seed, stop, i))
  {
    if i > 0 { RunConfidenceBelow(env, seed, i); }
  }

  lemma RunConfidenceBelow(env: Env, seed: Seed, i: nat)
    requires 0.0 < env.cfg.confidenceDecay <= 1.0 && 0.0 < seed.baseConf
    ensures 0.0 < RunConfidence(env, seed, i) <= seed.baseConf
  {
    var f := Pow(env.cfg.confidenceDecay, i + 1);
    PowUnit(env.cfg.confidenceDecay, i + 1);
    ScaledBelow(seed.baseConf, f, RunConfidence(env, seed, i));
  }

  lemma SeedGrade(env: Env, seed: Seed)
    requires Graded(env.cfg) && 1 <= seed.hops <= env.cfg.maxDepth
    requires env.cfg.minConfidence <= seed.baseConf <= Pow(env.cfg.confidenceDecay, seed.hops - 1)
    requires 0.0 < seed.baseConf && (seed.kind == DwellIncrease <==> seed.hops == 1)
    ensures forall q :: q in SeedItems(env, seed) ==> Grade(env.cfg, q)
  {
    SeedItemsMeaning(env, seed);
    var items := SeedItems(env, seed);
    var ds := SeedDownstreamStops(env, seed);
    forall q | q in items ensures Grade(env.cfg, q) {
      var i :| 0 <= i < |items| && items[i] == q;
      assert i > 0 ==> RunPasses(env, seed, i);
      RunItemGrade(env, seed, ds[i].stopId, i);
    }
  }

  lemma ChildGrade(env: Env, visited: set<Key>, p: Item, c: Item)
    requires Graded(env.cfg) && Grade(env.cfg, p) && c in Pushes(env, visited, p)
    ensures Grade(env.cfg, c)
  {
    PushedOrigin(env, visited, p, c);
    if x :| FromTransfer(env, p, x, c) {
      TransferGrade(env, p, x, c);
    } else {
      var dir, k :| 0 <= k && FromRipple(env, p, dir, k, c);
      RippleGrade(env, p, dir, k, c);
    }
  }

  lemma TransferGrade(env: Env, p: Item, x: Transfer, c: Item)
    requires Graded(env.cfg) && Grade(env.cfg, p) && FromTransfer(env, p, x, c)
    ensures Grade(env.cfg, c)
  {
    DecayOnce(env.cfg.confidenceDecay, p.confidence, p.hops - 1);
  }

  lemma RippleGrade(env: Env, p: Item, dir: int, k: nat, c: Item)
    requires Graded(env.cfg) && Grade(env.cfg, p) && FromRipple(env, p, dir, k, c)
    ensures Grade(env.cfg, c)
  {
    var seed := Ripple(env, p, dir);
    assert seed.kind == CascadeDwell && seed.hops == p.hops && seed.baseConf == p.confidence;
    RunItemGrade(env, seed, c.stopId, k);
  }

  lemma GradeStep(env: Env, s: WalkState, item: Item, s': WalkState)
    requires Graded(env.cfg) && GradeInv(env, s) && StepOn(env, s, item, s')
    ensures GradeInv(env, s')
  {
    forall q | q in s'.queue ensures Grade(env.cfg, q) {
      QueuedAfter(env, s, item, q);
      if q !in s.queue { ChildGrade(env, s.visited + {env.KeyOf(item)}, item, q); }
    }
  }

  lemma ReportOneMore(env: Env, impacts: seq<Item>, item: Item)
    ensures ReportedKeys(env, impacts + [item]) == ReportedKeys(env, impacts) + {env.KeyOf(item)}
  {
    var more := impacts + [item];
    forall k | k in ReportedKeys(env, impacts) ensures k in ReportedKeys(env, more) {
      var i :| 0 <= i < |impacts| && env.KeyOf(impacts[i]) == k;
      assert more[i] == impacts[i];
    }
    assert more[|impacts|] == item;
  }

  lemma KeysStep(env: Env, s: WalkState, item: Item, s': WalkState)
    requires KeysInv(env, s) && StepOn(env, s, item, s')
    ensures KeysInv(env, s')
  {
    ReportOneMore(env, s.impacts, item);
    forall i, j | 0 <= i < j < |s'.impacts| ensures env.KeyOf(s'.impacts[i]) != env.KeyOf(s'.impacts[j]) {
      if j == |s.impacts| { assert env.KeyOf(s.impacts[i]) in s.visited; }
    }
  }

  lemma {:induction false} KeysHold(env: Env, src: Seed, run: seq<WalkState>, n: nat)
    requires IsRun(env, src, run) && n < |run|
    ensures KeysInv(env, run[n])
  {
    if n > 0 {
      hide *;
      KeysHold(env, src, run, n - 1);
      var item := StepAt(env, src, run, n);
      KeysStep(env, run[n - 1], item, run[n]);
    }
  }

  lemma GradeInit(env: Env, src: Seed)
    requires Graded(env.cfg) && IsSource(src)
    ensures GradeInv(env, Initial(env, src))
  {
    SeedGrade(env, src);
  }

  lemma {:induction false} GradeHolds(env: Env, src: Seed, run: seq<WalkState>, n: nat)
    requires Graded(env.cfg) && IsSource(src) && IsRun(env, src, run) && n < |run|
    ensures GradeInv(env, run[n])
  {
    hide *;
    if n == 0 {
      StartAt(env, src, run);
      GradeInit(env, src);
    } else {
      GradeHolds(env, src, run, n - 1);
      GradeNext(env, src, run, n);
    }
  }

  lemma GradeNext(env: Env, src: Seed, run: seq<WalkState>, n: nat)
    requires Graded(env.cfg) && IsRun(env, src, run) && 0 < n < |run| && GradeInv(env, run[n - 1])
    ensures GradeInv(env, run[n])
  {
    var item := StepAt(env, src, run, n);
    GradeStep(env, run[n - 1], item, run[n]);
  }

  lemma {:induction false} CapHolds(env: Env, src: Seed, run: seq<WalkState>, n: nat)
    requires IsRun(env, src, run) && Capped(env, run) && n < |run| && env.cfg.maxImpacts >= 0
    ensures |run[n].impacts| <= env.cfg.maxImpacts
  {
    if n > 0 {
      hide *;
      CapHolds(env, src, run, n - 1);
      var _ := StepAt(env, src, run, n);
    }
  }

  /** Hops, confidence, pairwise distinct keys and the cap, on every result. */
  lemma Grading(env: Env, src: Seed, run: seq<WalkState>)
    requires Graded(env.cfg) && IsSource(src) && IsRun(env, src, run)
    ensures var impacts := Last(run).impacts;
            && (forall i :: 0 <= i < |impacts| ==>
                  && 1 <= impacts[i].hops <= env.cfg.maxDepth
                  && env.cfg.minConfidence <= impacts[i].confidence
                  && impacts[i].confidence <= Pow(env.cfg.confidenceDecay, impacts[i].hops - 1))
            && DistinctKeys(env, impacts)
            && (Capped(env, run) && env.cfg.maxImpacts >= 0 ==> |impacts| <= env.cfg.maxImpacts)
  {
    GradeHolds(env, src, run, |run| - 1);
    KeysHold(env, src, run, |run| - 1);
    if Capped(env, run) && env.cfg.maxImpacts >= 0 { CapHolds(env, src, run, |run| - 1); }
    forall i | 0 <= i < |Last(run).impacts| ensures Grade(env.cfg, Last(run).impacts[i]) {}
  }

  /* ---------------- termination ---------------- */

  lemma {:induction false} UniverseHolds(env: Env, src: Seed, run: seq<WalkState>, n: nat)
    requires IsRun(env, src, run) && n < |run|
    ensures InUniverse(env, src, run[n])
  {
    if n == 0 {
      SeedInUniverse(env, src, src);
    } else {
      hide *;
      UniverseHolds(env, src, run, n - 1);
      var _ := StepAt(env, src, run, n);
      StepDecreases(env, src, run[n - 1], run[n]);
    }
  }

  lemma {:induction false} SomeGreatest(items: multiset<Item>) returns (x: Item)
    requires items != multiset{}
    ensures Greatest(x, items)
    decreases |items|
  {
    var y :| y in items;
    var rest := items - multiset{y};
    if rest == multiset{} {
      assert items == multiset{y};
      x := y;
    } else {
      var z := SomeGreatest(rest);
      x := if z.delay >= y.delay then z else y;
      forall w | w in items ensures w.delay <= x.delay {
        if w != y { assert w in rest; }
      }
    }
  }

  /** Whatever happened so far, the loop reaches its exit: every run entered below the cap extends to a finished one
      that keeps the impacts already emitted. */
  lemma {:induction false} ReachesExit(env: Env, src: Seed, run: seq<WalkState>) returns (whole: seq<WalkState>)
    requires IsRun(env, src, run) && Capped(env, run)
    ensures IsRun(env, src, whole) && Capped(env, whole) && run <= whole && Finished(env, Last(whole))
    ensures Last(run).impacts <= Last(whole).impacts
    decreases |Universe(env, src) - Last(run).visited|, |Last(run).queue|
  {
    var s := Last(run);
    if Finished(env, s) { return run; }
    var item := SomeGreatest(s.queue);
    var s' := Next(env, s, item);
    var longer := run + [s'];
    assert StepOn(env, s, item, s') && Step(env, s, s');
    assert run <= longer && Last(longer) == s' && s.impacts <= s'.impacts;
    UniverseHolds(env, src, run, |run| - 1);
    assert InUniverse(env, src, s) && |s.impacts| < env.cfg.maxImpacts;
    hide *;
    StepDecreases(env, src, s, s');
    ExtendRun(env, src, run, s');
    whole := ReachesExit(env, src, longer);
  }

  /** No run emits more impacts than there are keys, cap or no cap. */
  lemma ImpactsWithinUniverse(env: Env, src: Seed, run: seq<WalkState>)
    requires IsRun(env, src, run)
    ensures |Last(run).impacts| <= |Universe(env, src)|
  {
    KeysHold(env, src, run, |run| - 1);
    UniverseHolds(env, src, run, |run| - 1);
    KeysCount(env, Last(run).impacts);
    SubsetSize(ReportedKeys(env, Last(run).impacts), Universe(env, src));
  }

  lemma {:induction false} KeysCount(env: Env, impacts: seq<Item>)
    requires DistinctKeys(env, impacts)
    ensures |ReportedKeys(env, impacts)| == |impacts|
  {
    if impacts != [] {
      var n := |impacts| - 1;
      KeysCount(env, impacts[..n]);
      ReportOneMore(env, impacts[..n], impacts[n]);
      assert impacts == impacts[..n] + [impacts[n]];
    }
  }

  /* ---------------- closure ---------------- */

  ghost predicate Covered(env: Env, s: WalkState, k: Key) {
    k in s.visited || exists q :: q in s.queue && env.KeyOf(q) == k
  }

  ghost predicate ExpandedCovered(env: Env, s: WalkState, p: Item) {
    env.Expands(p) ==>
      && (forall x, r :: x in OutboundTransfers(env, p) && Breaks(env, p, x, r) ==>
                           Covered(env, s, Destination(env, x, r)))
      && (forall c :: c in RippleItems(env, p) ==> Covered(env, s, env.KeyOf(c)))
  }

  ghost predicate ClosureInv(env: Env, src: Seed, s: WalkState) {
    && (forall c :: c in SeedItems(env, src) ==> Covered(env, s, env.KeyOf(c)))
    && (forall i :: 0 <= i < |s.impacts| ==> ExpandedCovered(env, s, s.impacts[i]))
  }

  lemma CoveredGrows(env: Env, s: WalkState, item: Item, k: Key)
    requires Covered(env, s, k) && item in s.queue
    ensures Covered(env, Next(env, s, item), k)
  {
    if k !in s.visited && k != env.KeyOf(item) {
      var q :| q in s.queue && env.KeyOf(q) == k;
      assert q in s.queue - multiset{item};
      assert q in Next(env, s, item).queue;
    }
  }

  lemma PushedCovered(env: Env, s: WalkState, item: Item, c: Item)
    requires env.KeyOf(item) !in s.visited && c in Pushes(env, s.visited + {env.KeyOf(item)}, item)
    ensures Covered(env, Next(env, s, item), env.KeyOf(c))
  {
    assert c in Next(env, s, item).queue;
  }

  lemma AcceptedCovered(env: Env, s: WalkState, item: Item)
    requires item in s.queue && env.KeyOf(item) !in s.visited
    ensures ExpandedCovered(env, Next(env, s, item), item)
  {
    if env.Expands(item) {
      var visited := s.visited + {env.KeyOf(item)};
      var xs := OutboundTransfers(env, item);
      TransferItemsMeaning(env, visited, item, xs);
      forall x, r | x in xs && Breaks(env, item, x, r)
        ensures Covered(env, Next(env, s, item), Destination(env, x, r))
      {
        if Destination(env, x, r) !in visited {
          var c := TransferItem(env, item, x, r);
          assert c in TransferItems(env, visited, item, xs);
          PushedCovered(env, s, item, c);
        }
      }
      forall c | c in RippleItems(env, item) ensures Covered(env, Next(env, s, item), env.KeyOf(c)) {
        assert c in multiset(RippleItems(env, item));
        PushedCovered(env, s, item, c);
      }
    }
  }

  lemma ClosureStep(env: Env, src: Seed, s: WalkState, item: Item, s': WalkState)
    requires ClosureInv(env, src, s) && StepOn(env, s, item, s')
    ensures ClosureInv(env, src, s')
  {
    forall c | c in SeedItems(env, src) ensures Covered(env, s', env.KeyOf(c)) {
      CoveredGrows(env, s, item, env.KeyOf(c));
    }
    forall i | 0 <= i < |s'.impacts| ensures ExpandedCovered(env, s', s'.impacts[i]) {
      if i < |s.impacts| {
        var p := s.impacts[i];
        if env.Expands(p) {
          forall x, r | x in OutboundTransfers(env, p) && Breaks(env, p, x, r)
            ensures Covered(env, s', Destination(env, x, r)) { CoveredGrows(env, s, item, Destination(env, x, r)); }
          forall c | c in RippleItems(env, p) ensures Covered(env, s', env.KeyOf(c)) {
            CoveredGrows(env, s, item, env.KeyOf(c));
          }
        }
      } else {
        AcceptedCovered(env, s, item);
      }
    }
  }

  lemma ClosureInit(env: Env, src: Seed)
    ensures ClosureInv(env, src, Initial(env, src))
  {
    var s := Initial(env, src);
    forall c | c in SeedItems(env, src) ensures Covered(env, s, env.KeyOf(c)) { assert c in s.queue; }
  }

  lemma {:induction false} ClosureHolds(env: Env, src: Seed, run: seq<WalkState>, n: nat)
    requires IsRun(env, src, run) && n < |run|
    ensures ClosureInv(env, src, run[n])
  {
    hide *;
    if n == 0 {
      StartAt(env, src, run);
      ClosureInit(env, src);
    } else {
      ClosureHolds(env, src, run, n - 1);
      var item := StepAt(env, src, run, n);
      ClosureStep(env, src, run[n - 1], item, run[n]);
    }
  }

  /** When the walk ends with an empty queue its result is closed: every seeded stop, every destination that an
      expanded impact's delay breaks, and every gated stop behind an expanded cascade is reported. */
  lemma Closure(env: Env, src: Seed, run: seq<WalkState>)
    requires IsRun(env, src, run) && Last(run).queue == multiset{}
    ensures var impacts := Last(run).impacts;
            && (forall c :: c in SeedItems(env, src) ==> env.KeyOf(c) in ReportedKeys(env, impacts))
            && (forall i, x, r ::
                  0 <= i < |impacts| && env.Expands(impacts[i]) &&
                  x in OutboundTransfers(env, impacts[i]) && Breaks(env, impacts[i], x, r) ==>
                    Destination(env, x, r) in ReportedKeys(env, impacts))
            && (forall i, c :: 0 <= i < |impacts| && env.Expands(impacts[i]) && c in RippleItems(env, impacts[i]) ==>
                               env.KeyOf(c) in ReportedKeys(env, impacts))
  {
    var s := Last(run);
    ClosureHolds(env, src, run, |run| - 1);
    KeysHold(env, src, run, |run| - 1);
    forall k | Covered(env, s, k) ensures k in ReportedKeys(env, s.impacts) {}
    forall i | 0 <= i < |s.impacts| ensures ExpandedCovered(env, s, s.impacts[i]) {}
  }
}
