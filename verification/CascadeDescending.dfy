/** Descending delay order, which internal/evaluation/evaluator.go (lines 126-128) takes for granted: for which
    configurations every result has it. */
module CascadeDescending {
  import opened Common
  import opened Schedule
  import opened ImpactHeap
  import opened Cascade
  import opened CascadeTheorems
  import opened CascadeOrder

  /** The runs whose impacts Propagate can return. */
  ghost predicate Complete(env: Env, src: Seed, run: seq<WalkState>) {
    IsRun(env, src, run) && Capped(env, run) && Finished(env, Last(run))
  }

  ghost predicate Descending(impacts: seq<Item>) {
    forall i, j :: 0 <= i < j < |impacts| ==> impacts[j].delay <= impacts[i].delay
  }

  /** Every result computed under cfg, on any schedule, live delays, observed averages, source and tie-breaking, is
      descending. */
  ghost predicate AlwaysDescending(cfg: Config) {
    forall env: Env, imp, histAvg, histCount: nat, run ::
      (env.cfg == cfg && env.g.Sorted() && Complete(env, SourceSeed(env, imp, histAvg, histCount), run)) ==>
        Descending(Last(run).impacts)
  }

  /** As above, for the walks in which no stop has enough samples for blending. */
  ghost predicate AlwaysDescendingUnblended(cfg: Config) {
    forall env: Env, imp, histAvg, histCount: nat, run ::
      (env.cfg == cfg && BlendingOff(env) && env.g.Sorted() &&
       Complete(env, SourceSeed(env, imp, histAvg, histCount), run)) ==>
        Descending(Last(run).impacts)
  }

  /** An elasticity of nothing against a positive threshold: no transfer ever passes a delay on. */
  predicate NoCascades(cfg: Config) { cfg.dwellElasticity == 0.0 && cfg.minDelayThreshold > 0 }

  /** What keeps every push at or below what pushed it: too few hops for a ripple below a cascade, too little confidence
      for a ripple's second stop, or no cascades at all. */
  predicate NoInflation(cfg: Config) {
    cfg.maxDepth <= 2 || Pow(cfg.confidenceDecay, 3) < cfg.minConfidence || NoCascades(cfg)
  }

  /** What rules an inversion out: that, or a cap that cuts the result before the first ripple. */
  predicate NoRoomToInvert(cfg: Config) { NoInflation(cfg) || cfg.maxImpacts <= 2 }

  /** Without blending, dwell that rounds to nothing rules it out too. */
  predicate NoRoomUnblended(cfg: Config) { NoRoomToInvert(cfg) || DwellStepOf(cfg) == 0 }

  /* ---------------- no room: always descending ---------------- */

  lemma {:induction false} SomeLongest(trips: map<string, seq<StopTime>>) returns (longest: nat)
    ensures forall t :: t in trips ==> |trips[t]| <= longest + 2
    decreases |trips|
  {
    if trips == map[] { return 0; }
    var t :| t in trips;
    var rest := map u | u in trips && u != t :: trips[u];
    assert rest.Keys == trips.Keys - {t};
    assert |rest| < |trips|;
    var l := SomeLongest(rest);
    longest := if |trips[t]| > l + 2 then |trips[t]| else l;
    forall u | u in trips ensures |trips[u]| <= longest + 2 {
      if u != t { assert u in rest; }
    }
  }

  /** Too little confidence: a ripple stops after its first stop. */
  lemma ShortRipples(env: Env)
    requires Shrinking(env.cfg) && Pow(env.cfg.confidenceDecay, 3) < env.cfg.minConfidence
    ensures LongestRun(env, 0)
  {
    forall p: Item | p.confidence <= env.cfg.confidenceDecay ensures |RippleItems(env, p)| <= 0 + 1 {
      if |RippleItems(env, p)| > 1 {
        var dir := DeriveDirection(env, p.routeId, env.g.Parent(p.stopId)).value;
        SeedItemsMeaning(env, Ripple(env, p, dir));
        assert RunPasses(env, Ripple(env, p, dir), 1);
        SecondStopConfidence(env.cfg.confidenceDecay, p.confidence);
      }
    }
  }

  lemma SecondStopConfidence(b: real, conf: real)
    requires 0.0 < b <= 1.0 && conf <= b
    ensures conf * Pow(b, 2) <= Pow(b, 3)
  {
    PowUnit(b, 2);
    var f := Pow(b, 2);
    MulMono(f, conf, b);
    assert Pow(b, 3) == b * f;
  }

  ghost predicate FirstTwoInv(s: WalkState) {
    && (s.impacts == [] ==> s.visited == {} && forall q :: q in s.queue ==> q.kind == DwellIncrease)
    && (|s.impacts| == 1 ==> forall q :: q in s.queue ==> q.delay <= s.impacts[0].delay)
    && (|s.impacts| >= 2 ==> s.impacts[1].delay <= s.impacts[0].delay)
  }

  /** Before any impact the queue holds only seeded items, whose pushes never exceed them. */
  lemma FirstPushesBelow(env: Env, visited: set<Key>, item: Item, q: Item)
    requires Shrinking(env.cfg) && item.kind == DwellIncrease && q in Pushes(env, visited, item)
    ensures q.delay <= item.delay
  {
    PushedOrigin(env, visited, item, q);
    var x :| FromTransfer(env, item, x, q);
    TransferCeiling(env, 0, item, x, q);
  }

  lemma FirstTwoStep(env: Env, s: WalkState, item: Item, s': WalkState)
    requires Shrinking(env.cfg) && FirstTwoInv(s) && StepOn(env, s, item, s')
    ensures FirstTwoInv(s')
  {
    hide Pushes;
    if s.impacts == [] {
      forall q | q in s'.queue ensures q.delay <= item.delay {
        QueuedAfter(env, s, item, q);
        if q !in s.queue { FirstPushesBelow(env, s.visited + {env.KeyOf(item)}, item, q); }
      }
    } else if env.KeyOf(item) in s.visited {
      assert forall q :: q in s'.queue ==> q in s.queue;
    }
  }

  lemma {:induction false} FirstTwoHolds(env: Env, src: Seed, run: seq<WalkState>, n: nat)
    requires Shrinking(env.cfg) && IsSource(src) && IsRun(env, src, run) && n < |run|
    ensures FirstTwoInv(run[n])
  {
    if n == 0 {
      SeedKind(env, src);
    } else {
      hide *;
      FirstTwoHolds(env, src, run, n - 1);
      var item := StepAt(env, src, run, n);
      FirstTwoStep(env, run[n - 1], item, run[n]);
    }
  }

  lemma {:induction false} TwoAtMost(env: Env, src: Seed, run: seq<WalkState>, n: nat)
    requires IsRun(env, src, run) && Capped(env, run) && n < |run| && env.cfg.maxImpacts <= 2
    ensures |run[n].impacts| <= 2
  {
    if n > 0 {
      TwoAtMost(env, src, run, n - 1);
      var m := n - 1;
      assert |run[m].impacts| < env.cfg.maxImpacts;
      var _ := StepAt(env, src, run, n);
    }
  }

  /** Nothing queued exceeds anything reported; without cascades nothing but seeded stops is queued. */
  ghost predicate DescendingInv(env: Env, s: WalkState) {
    && Descending(s.impacts)
    && (forall i, q :: 0 <= i < |s.impacts| && q in s.queue ==> q.delay <= s.impacts[i].delay)
    && (NoCascades(env.cfg) ==> forall q :: q in s.queue ==> q.kind == DwellIncrease)
  }

  /** Where there is no room, a push never exceeds what pushed it, blended or not: cascades and the first stop of a
      ripple are never blended, and there are no other pushes. */
  lemma PushedBelow(env: Env, visited: set<Key>, p: Item, c: Item)
    requires Shrinking(env.cfg) && Grade(env.cfg, p) && c in Pushes(env, visited, p)
    requires NoInflation(env.cfg)
    requires NoCascades(env.cfg) ==> p.kind == DwellIncrease
    ensures c.delay <= p.delay && !NoCascades(env.cfg)
  {
    PushedOrigin(env, visited, p, c);
    if x :| FromTransfer(env, p, x, c) {
      TransferCeiling(env, 0, p, x, c);
      if env.cfg.dwellElasticity == 0.0 { assert p.delay as real * env.cfg.dwellElasticity == 0.0; }
    } else {
      assert c.kind == CascadeDwell && p.kind == CascadeTransfer && p.hops >= 2;
      var dir, k := RippleIndex(env, visited, p, c);
      CascadeConfidenceBound(env, p);
      if Pow(env.cfg.confidenceDecay, 3) < env.cfg.minConfidence {
        ShortRipples(env);
        assert |RippleItems(env, p)| <= 0 + 1;
      }
    }
  }

  lemma DescendingStep(env: Env, s: WalkState, item: Item, s': WalkState)
    requires Shrinking(env.cfg) && NoInflation(env.cfg)
    requires GradeInv(env, s) && DescendingInv(env, s) && StepOn(env, s, item, s')
    ensures DescendingInv(env, s')
  {
    assert NoCascades(env.cfg) ==> item.kind == DwellIncrease;
    assert GradeInv(env, s) ==> Grade(env.cfg, item);
    hide Pushes, Grade, Shrinking, NoCascades, NoInflation;
    forall q | q in s'.queue && q !in s.queue
      ensures q.delay <= item.delay && !NoCascades(env.cfg)
    {
      QueuedAfter(env, s, item, q);
      PushedBelow(env, s.visited + {env.KeyOf(item)}, item, q);
    }
    DescendingMore(env, s, item, s');
  }

  lemma DescendingMore(env: Env, s: WalkState, item: Item, s': WalkState)
    requires DescendingInv(env, s) && StepOn(env, s, item, s')
    requires forall q :: q in s'.queue && q !in s.queue ==> q.delay <= item.delay && !NoCascades(env.cfg)
    ensures DescendingInv(env, s')
  {
    hide Pushes, NoCascades;
  }

  lemma {:induction false} DescendingHolds(env: Env, src: Seed, run: seq<WalkState>, n: nat)
    requires Shrinking(env.cfg) && NoInflation(env.cfg)
    requires IsSource(src) && IsRun(env, src, run) && n < |run|
    ensures DescendingInv(env, run[n])
  {
    if n == 0 {
      StartAt(env, src, run);
      SeedKind(env, src);
    } else {
      DescendingHolds(env, src, run, n - 1);
      DescendingNext(env, src, run, n);
    }
  }

  lemma DescendingNext(env: Env, src: Seed, run: seq<WalkState>, n: nat)
    requires Shrinking(env.cfg) && NoInflation(env.cfg)
    requires IsSource(src) && IsRun(env, src, run) && 0 < n < |run| && DescendingInv(env, run[n - 1])
    ensures DescendingInv(env, run[n])
  {
    hide *;
    IsGraded(env.cfg);
    GradeHolds(env, src, run, n - 1);
    var item := StepAt(env, src, run, n);
    DescendingStep(env, run[n - 1], item, run[n]);
  }

  /** Nothing queued exceeds anything reported, so ceilings without growth hold. */
  lemma DescendingOrders(env: Env, s: WalkState)
    requires DescendingInv(env, s)
    ensures OrderInv(env, 0, s)
  {
    hide MaxBudget, Budget, NoCascades;
    assert 0 * MaxBudget(env) == 0;
    forall q: Item ensures Ceiling(env, 0, q) == q.delay { assert 0 * Budget(env, q) == 0; }
  }

  lemma QueuedIsBeaten(env: Env, s: WalkState, q: Item)
    requires q in s.queue
    ensures Beaten(env, s, q)
  {
  }

  lemma {:induction false} BeatenThroughout(env: Env, src: Seed, run: seq<WalkState>, t: nat, n: nat, q: Item)
    requires Shrinking(env.cfg) && NoInflation(env.cfg)
    requires IsSource(src) && IsRun(env, src, run) && t <= n < |run| && q in run[t].queue
    ensures Beaten(env, run[n], q)
    decreases n - t
  {
    hide *;
    if t == n {
      QueuedIsBeaten(env, run[t], q);
    } else {
      BeatenThroughout(env, src, run, t, n - 1, q);
      DescendingHolds(env, src, run, n - 1);
      DescendingOrders(env, run[n - 1]);
      BeatenNext(env, src, run, n, q);
    }
  }

  /** Blending on or off, where no push exceeds what pushed it: the reported delay of a key is the largest ever queued
      for it during the run. */
  lemma LargestQueuedBlended(env: Env, src: Seed, run: seq<WalkState>, i: nat, t: nat, q: Item)
    requires Shrinking(env.cfg) && NoInflation(env.cfg)
    requires IsSource(src) && IsRun(env, src, run) && i < |Last(run).impacts|
    requires t < |run| && q in run[t].queue && env.KeyOf(q) == env.KeyOf(Last(run).impacts[i])
    ensures q.delay <= Last(run).impacts[i].delay
  {
    var s := Last(run);
    BeatenThroughout(env, src, run, t, |run| - 1, q);
    DescendingHolds(env, src, run, |run| - 1);
    KeysHold(env, src, run, |run| - 1);
    hide IsRun, NoCascades, NoInflation;
    if q !in s.queue {
      var j :| 0 <= j < |s.impacts| && env.KeyOf(s.impacts[j]) == env.KeyOf(q) && s.impacts[j].delay >= q.delay;
      assert j <= i <= j by { assert DistinctKeys(env, s.impacts); }
    }
  }

  /** Where there is no room, every result is in descending order, blending on or off. */
  lemma NoRoomDescends(env: Env, src: Seed, run: seq<WalkState>)
    requires Shrinking(env.cfg) && NoRoomToInvert(env.cfg)
    requires IsSource(src) && IsRun(env, src, run) && Capped(env, run)
    ensures Descending(Last(run).impacts)
  {
    if NoInflation(env.cfg) {
      DescendingHolds(env, src, run, |run| - 1);
    } else {
      TwoAtMost(env, src, run, |run| - 1);
      FirstTwoHolds(env, src, run, |run| - 1);
    }
  }

  /** Without blending, dwell that rounds to nothing keeps the order as well. */
  lemma NoDwellDescends(env: Env, src: Seed, run: seq<WalkState>)
    requires Usual(env.cfg) && DwellStepOf(env.cfg) == 0 && BlendingOff(env)
    requires IsSource(src) && IsRun(env, src, run)
    ensures Descending(Last(run).impacts)
  {
    var impacts := Last(run).impacts;
    var longest := SomeLongest(env.g.byTrip);
    LongestTripBounds(env, longest);
    assert longest * env.DwellStep() * MaxBudget(env) == 0;
    forall i, j | 0 <= i < j < |impacts| ensures impacts[j].delay <= impacts[i].delay {
      BoundedInversion(env, src, longest, run, i, j);
    }
  }

  /* ---------------- room: a schedule on which the order is inverted ---------------- */

  const ROW_A0 := StopTime("a", "S", 0, 0, 1)
  const ROW_A1 := StopTime("a", "T", 60, 60, 2)
  const ROW_B0 := StopTime("b", "T", 120, 120, 1)
  const ROW_B1 := StopTime("b", "U", 180, 180, 2)
  const ROW_B2 := StopTime("b", "V", 240, 240, 3)

  const CONNECTION := Transfer("T", "T", 2, 1)

  /** Line A runs S-T, line B runs T-U-V, and T is a transfer between them. */
  const TWO_LINES := Graph(
    map[],
    map["a" := "A", "b" := "B"],
    map["a" := 0, "b" := 0],
    map["S" := [ROW_A0], "T" := [ROW_A1, ROW_B0], "U" := [ROW_B1], "V" := [ROW_B2]],
    map["a" := [ROW_A0, ROW_A1], "b" := [ROW_B0, ROW_B1, ROW_B2]],
    map["T" := [CONNECTION]],
    map["S" := {"A"}, "T" := {"A", "B"}, "U" := {"B"}, "V" := {"B"}],
    map[], map[])

  /** A connection from elsewhere onto line A at S, missed by one delay, which the next train makes up for. */
  function MissedConnection(delay: int): TransferImpact {
    TransferImpact("x", "X", "A", "S", delay, 0, 0, true, 0, "a", delay, 0, 0)
  }

  function MissedSeed(delay: int): Seed { Seed("A", "S", 0, delay, 1.0, 1, DwellIncrease) }

  function TwoLineEnv(cfg: Config, hist: map<Key, (real, nat)>): Env { Env(TWO_LINES, cfg, map[], hist, 0) }

  /** A walk on the two lines: the configuration, the averages observed per stop, the delay the walk starts from, the
      delay e of the cascade onto line B, and the delay v its ripple has at V. */
  datatype Case = Case(cfg: Config, hist: map<Key, (real, nat)>, delay: int, e: int, v: int)
  {
    function Inputs(): Env { TwoLineEnv(cfg, hist) }

    function Source(): Seed { MissedSeed(delay) }

    /** The delay, confidence and type each stage carries. */
    function Hop1(): Item { Item("A", "T", delay, 1.0, 1, DwellIncrease, 0) }

    function Hop2(): Item { Item("B", "T", e, 1.0 * cfg.confidenceDecay, 2, CascadeTransfer, 0) }

    function RippleU(): Item { Item("B", "U", e, 1.0 * cfg.confidenceDecay, 2, CascadeDwell, 0) }

    function RippleV(): Item {
      Item("B", "V", v, 1.0 * cfg.confidenceDecay * Pow(cfg.confidenceDecay, 2), 2, CascadeDwell, 0)
    }

    /** There is room for the cascade and two rippled stops, the second later than the cascade. */
    predicate Room() {
      && Shrinking(cfg) && cfg.maxDepth > 2 && Pow(cfg.confidenceDecay, 3) >= cfg.minConfidence
      && delay >= 1 && delay >= cfg.minDelayThreshold
      && e == Trunc(delay as real * cfg.dwellElasticity) >= cfg.minDelayThreshold
      && e + DwellStepOf(cfg) >= cfg.minDelayThreshold
      && v == BlendPerStop(Inputs(), "B", "V", e + DwellStepOf(cfg)) > e
    }

    ghost function State(n: nat): WalkState {
      var a := ("A", "T");
      var b := ("B", "T");
      if n == 0 then WalkState(multiset{Hop1()}, {}, [])
      else if n == 1 then WalkState(multiset{Hop2()}, {a}, [Hop1()])
      else WalkState(multiset{RippleU(), RippleV()}, {a, b}, [Hop1(), Hop2()])
    }
  }

  lemma MissedConnectionSeed(c: Case)
    requires c.delay >= 1
    ensures SourceSeed(c.Inputs(), MissedConnection(c.delay), 0.0, 0) == c.Source()
  {
    RoundOfInt(c.delay);
    assert ScheduledHeadway(TWO_LINES, "A", 0, "S", 0) == None;
    assert ScheduleEstimate(c.Inputs(), MissedConnection(c.delay), 0, 0) == c.delay as real;
  }

  lemma LineA(c: Case)
    ensures SeedItems(c.Inputs(), c.Source()) == [c.Hop1()]
  {
    assert AfterStation(TWO_LINES, [ROW_A0, ROW_A1], "S", 0) == [ROW_A1];
    assert SeedDownstreamStops(c.Inputs(), c.Source()) == [ROW_A1];
    assert RunFrom(c.Inputs(), c.Source(), [ROW_A1], 1) == [];
  }

  lemma LineBDirection(c: Case)
    ensures DeriveDirection(c.Inputs(), "B", "T") == Some(0)
  {
    var list := [ROW_A1, ROW_B0];
    assert list[1..] == [ROW_B0] && [ROW_B0][1..] == [];
    assert OnRoute(TWO_LINES, [ROW_B0], "B", 0) == [ROW_B0];
    assert OnRoute(TWO_LINES, list, "B", 0) == [ROW_B0];
    assert OnRoute(TWO_LINES, [ROW_B0], "B", DAY_SECS) == [];
    assert OnRoute(TWO_LINES, list, "B", DAY_SECS) == [];
  }

  lemma LineBStops()
    ensures Downstream(TWO_LINES, "B", "T", 0) == [ROW_B1, ROW_B2]
  {
    var list := [ROW_A1, ROW_B0];
    assert list[1..] == [ROW_B0];
    assert AfterStation(TWO_LINES, [ROW_B0, ROW_B1, ROW_B2], "T", 0) == [ROW_B1, ROW_B2];
    assert DownstreamScan(TWO_LINES, [ROW_B0], "B", "T", 0) == [ROW_B1, ROW_B2];
  }

  lemma RoomConfidence(cfg: Config)
    requires 0.0 < cfg.confidenceDecay <= 1.0
    ensures var b := cfg.confidenceDecay; 1.0 * b * Pow(b, 2) == Pow(b, 3) <= b
  {
    var b := cfg.confidenceDecay;
    assert Pow(b, 3) == b * Pow(b, 2);
    PowUnit(b, 2);
    MulBelow(Pow(b, 2), b);
  }

  /** The only outbound cascade of the first impact is onto line B at T. */
  lemma FirstPushes(c: Case)
    requires c.Room()
    ensures Pushes(c.Inputs(), {("A", "T")}, c.Hop1()) == multiset{c.Hop2()}
  {
    var env, p := c.Inputs(), c.Hop1();
    RoomConfidence(c.cfg);
    hide BlendPerStop, DwellStepOf, Trunc;
    var one := OneTransfer(env, {("A", "T")}, p, CONNECTION);
    assert Breaks(env, p, CONNECTION, "B");
    assert TransferItem(env, p, CONNECTION, "B") == c.Hop2();
    assert one == {c.Hop2()};
    assert [CONNECTION][1..] == [];
    assert TransferItems(env, {("A", "T")}, p, [CONNECTION]) == multiset(one) + multiset{};
    assert RippleItems(env, p) == [];
  }

  /** The cascade finds line A visited and ripples down line B, gaining delay at the second stop. */
  lemma SecondPushes(c: Case)
    requires c.Room()
    ensures Pushes(c.Inputs(), {("A", "T"), ("B", "T")}, c.Hop2()) == multiset{c.RippleU(), c.RippleV()}
  {
    var env, p := c.Inputs(), c.Hop2();
    var visited := {("A", "T"), ("B", "T")};
    SecondRipple(c);
    hide BlendPerStop, DwellStepOf, Trunc, RippleItems;
    assert OneTransfer(env, visited, p, CONNECTION) == {};
    assert [CONNECTION][1..] == [];
    assert TransferItems(env, visited, p, [CONNECTION]) == multiset{};
  }

  lemma SecondRipple(c: Case)
    requires c.Room()
    ensures RippleItems(c.Inputs(), c.Hop2()) == [c.RippleU(), c.RippleV()]
  {
    var env := c.Inputs();
    var seed := Ripple(env, c.Hop2(), 0);
    var ds := [ROW_B1, ROW_B2];
    LineBDirection(c);
    LineBStops();
    RoomConfidence(c.cfg);
    hide BlendPerStop, DwellStepOf, Trunc, DeriveDirection, Downstream;
    assert RunItem(env, seed, "U", 0) == c.RippleU();
    assert Accumulated(env, seed, 1) == Accumulated(env, seed, 0) + DwellStepOf(c.cfg) == c.e + DwellStepOf(c.cfg);
    assert RunPasses(env, seed, 1);
    assert RunItem(env, seed, "V", 1) == c.RippleV();
    assert RunFrom(env, seed, ds, 2) == [];
    assert RunFrom(env, seed, ds, 1) == [c.RippleV()];
  }

  lemma StepAlone(env: Env, s: WalkState, item: Item, k: Key, pushed: multiset<Item>)
    requires s.queue == multiset{item} && env.KeyOf(item) == k && k !in s.visited
    requires Pushes(env, s.visited + {k}, item) == pushed
    ensures StepOn(env, s, item, WalkState(pushed, s.visited + {k}, s.impacts + [item]))
  {
    hide Pushes;
    assert s.queue - multiset{item} == multiset{};
  }

  lemma FirstStep(c: Case)
    requires c.Room()
    ensures StepOn(c.Inputs(), c.State(0), c.Hop1(), c.State(1))
  {
    FirstPushes(c);
    hide Pushes, StepOn;
    assert {} + {("A", "T")} == {("A", "T")};
    StepAlone(c.Inputs(), c.State(0), c.Hop1(), ("A", "T"), multiset{c.Hop2()});
  }

  lemma SecondStep(c: Case)
    requires c.Room()
    ensures StepOn(c.Inputs(), c.State(1), c.Hop2(), c.State(2))
  {
    var env, s := c.Inputs(), c.State(1);
    var b := ("B", "T");
    var pushed := multiset{c.RippleU(), c.RippleV()};
    assert env.KeyOf(c.Hop2()) == b && s.queue == multiset{c.Hop2()};
    assert b !in s.visited && s.visited + {b} == {("A", "T"), b} && s.impacts + [c.Hop2()] == [c.Hop1(), c.Hop2()];
    assert c.State(2) == WalkState(pushed, s.visited + {b}, s.impacts + [c.Hop2()]);
    hide *;
    SecondPushes(c);
    StepAlone(env, s, c.Hop2(), b, pushed);
  }

  /** V outranks U, so it is emitted right after the smaller impact that caused it. */
  lemma ThirdStep(c: Case) returns (s: WalkState)
    requires c.Room()
    ensures StepOn(c.Inputs(), c.State(2), c.RippleV(), s)
    ensures |s.impacts| == 3 && s.impacts[1] == c.Hop2() && s.impacts[2] == c.RippleV()
  {
    hide Pushes, BlendPerStop, DwellStepOf, Trunc;
    s := Next(c.Inputs(), c.State(2), c.RippleV());
    assert c.Inputs().KeyOf(c.RippleV()) == ("B", "V");
  }

  lemma NoElasticity(cfg: Config)
    requires cfg.dwellElasticity == 0.0
    ensures DwellStepOf(cfg) == 0
  {
    assert cfg.baseDwellSecs as real * cfg.loadIncreasePct * cfg.dwellElasticity == 0.0;
  }

  /** A delay to start from that leaves the cascade at least n seconds. */
  lemma BigDelay(cfg: Config, n: int) returns (delay: int, e: int)
    requires Shrinking(cfg) && cfg.dwellElasticity > 0.0 && n >= 1
    ensures delay >= n && e == Trunc(delay as real * cfg.dwellElasticity) >= n
  {
    delay := (n as real / cfg.dwellElasticity).Floor + 1;
    EnoughDelay(cfg.dwellElasticity, n, delay);
    e := Trunc(delay as real * cfg.dwellElasticity);
  }

  lemma EnoughDelay(f: real, n: int, delay: int)
    requires 0.0 < f <= 1.0 && n >= 1 && delay == (n as real / f).Floor + 1
    ensures delay >= n && Trunc(delay as real * f) >= n
  {
    var want := n as real / f;
    assert want * f == n as real;
    assert delay as real > want;
    assert (delay as real - want) * f >= 0.0;
    assert delay as real * f >= n as real;
    if want < n as real {
      assert (n as real - want) * f > 0.0;
      assert n as real * (1.0 - f) >= 0.0;
    }
  }

  /** An observed average under which the blend adds exactly d seconds to the model's delay. */
  lemma AverageAdding(count: nat, model: int, d: int) returns (average: real)
    requires count > 0 && d >= 0
    ensures average >= model as real && Round(Blend(average, count, model as real)) == model + d
  {
    var n := count as real;
    var w := n / (n + SHRINKAGE_K);
    assert w > 0.0;
    var add := d as real / w;
    assert add * w == d as real;
    average := model as real + add;
    BlendsTo(w, model as real, add, d as real);
    assert Blend(average, count, model as real) == (model + d) as real;
    hide Blend;
    RoundOfInt(model + d);
  }

  lemma BlendsTo(w: real, model: real, add: real, d: real)
    requires add * w == d
    ensures w * (model + add) + (1.0 - w) * model == model + d
  {
    assert w * (model + add) == w * model + w * add;
    assert (1.0 - w) * model == model - w * model;
  }

  /** With enough samples at V, whatever the dwell step, V can be blended above the cascade that reached line B. */
  lemma BlendedCase(cfg: Config) returns (c: Case)
    requires Shrinking(cfg) && !NoRoomToInvert(cfg)
    ensures c.cfg == cfg && c.Room()
    ensures forall k :: k in c.hist ==> c.hist[k].0 >= 0.0
  {
    var step := DwellStepOf(cfg);
    var delay, e := CascadeDelays(cfg);
    var count: nat := Max(cfg.perStopMinCount, 1);
    var d := Max(0, -step) + 1;
    var average := AverageAdding(count, e + step, d);
    c := Case(cfg, map[("B", "V") := (average, count)], delay, e, e + step + d);
    BlendedV(c, average, count, e + step);
    hide Round, Trunc, Blend, DwellStepOf, Pow, BlendPerStop, Shrinking;
  }

  /** A delay that leaves the cascade, and the model at its second stop, at or above the threshold. */
  lemma CascadeDelays(cfg: Config) returns (delay: int, e: int)
    requires Shrinking(cfg) && !NoCascades(cfg)
    ensures delay >= 1 && delay >= cfg.minDelayThreshold
    ensures e == Trunc(delay as real * cfg.dwellElasticity) >= cfg.minDelayThreshold
    ensures e + DwellStepOf(cfg) >= cfg.minDelayThreshold
  {
    if cfg.dwellElasticity == 0.0 {
      NoElasticity(cfg);
      delay, e := 1, 0;
      assert delay as real * cfg.dwellElasticity == 0.0;
    } else {
      hide DwellStepOf, Trunc;
      delay, e := BigDelay(cfg, cfg.minDelayThreshold + 1 + Abs(DwellStepOf(cfg)));
    }
  }

  lemma BlendedV(c: Case, average: real, count: nat, model: int)
    requires c.hist == map[("B", "V") := (average, count)] && count >= c.cfg.perStopMinCount
    ensures BlendPerStop(c.Inputs(), "B", "V", model) == Round(Blend(average, count, model as real))
  {
    hide Round, Blend;
  }

  /** Without blending a positive dwell step does the same. */
  lemma UnblendedCase(cfg: Config) returns (c: Case)
    requires Usual(cfg) && !NoRoomUnblended(cfg)
    ensures c.cfg == cfg && c.Room() && c.hist == map[]
  {
    if cfg.dwellElasticity == 0.0 { NoElasticity(cfg); }
    var delay, e := BigDelay(cfg, cfg.minDelayThreshold + 1);
    c := Case(cfg, map[], delay, e, e + DwellStepOf(cfg));
  }

  /** On the two lines the cascade onto line B is reported before V, which exceeds it. */
  lemma InvertedRun(c: Case) returns (whole: seq<WalkState>)
    requires c.Room() && c.cfg.maxImpacts > 2
    ensures Complete(c.Inputs(), SourceSeed(c.Inputs(), MissedConnection(c.delay), 0.0, 0), whole)
    ensures !Descending(Last(whole).impacts) && c.Inputs().g.Sorted()
  {
    var env := c.Inputs();
    MissedConnectionSeed(c);
    var s3 := ThirdStep(c);
    LineA(c);
    FirstStep(c);
    SecondStep(c);
    var run := [c.State(0), c.State(1), c.State(2), s3];
    FourStates(c, s3);
    hide Next, Initial, IsRun, Capped, SourceSeed;
    whole := ReachesExit(env, c.Source(), run);
    PrefixKeeps(s3.impacts, Last(whole).impacts);
    assert Last(whole).impacts[2].delay > Last(whole).impacts[1].delay;
    TwoLinesSorted();
  }

  lemma TwoLinesSorted()
    ensures TWO_LINES.Sorted()
  {
  }

  lemma PrefixKeeps(a: seq<Item>, b: seq<Item>)
    requires a <= b && |a| == 3
    ensures |b| > 2 && b[1] == a[1] && b[2] == a[2]
  {
  }

  lemma FourStates(c: Case, s3: WalkState)
    requires c.State(0) == Initial(c.Inputs(), c.Source())
    requires StepOn(c.Inputs(), c.State(0), c.Hop1(), c.State(1))
    requires StepOn(c.Inputs(), c.State(1), c.Hop2(), c.State(2))
    requires StepOn(c.Inputs(), c.State(2), c.RippleV(), s3) && c.cfg.maxImpacts > 2
    ensures IsRun(c.Inputs(), c.Source(), [c.State(0), c.State(1), c.State(2), s3])
    ensures Capped(c.Inputs(), [c.State(0), c.State(1), c.State(2), s3])
  {
    hide StepOn, Initial;
    assert Step(c.Inputs(), c.State(0), c.State(1)) && Step(c.Inputs(), c.State(1), c.State(2));
    assert Step(c.Inputs(), c.State(2), s3);
  }

  lemma Inverted(cfg: Config)
    requires Shrinking(cfg) && !NoRoomToInvert(cfg)
    ensures !AlwaysDescending(cfg)
  {
    var c := BlendedCase(cfg);
    var whole := InvertedRun(c);
    hide Complete, Descending, SourceSeed;
  }

  lemma InvertedUnblended(cfg: Config)
    requires Usual(cfg) && !NoRoomUnblended(cfg)
    ensures !AlwaysDescendingUnblended(cfg)
  {
    var c := UnblendedCase(cfg);
    var whole := InvertedRun(c);
    assert BlendingOff(c.Inputs());
    hide Complete, Descending, SourceSeed;
  }

  /** Exactly the configurations under which every result is in descending delay order, blending included. */
  lemma DescendingExactly(cfg: Config)
    requires Shrinking(cfg)
    ensures AlwaysDescending(cfg) <==> NoRoomToInvert(cfg)
  {
    if NoRoomToInvert(cfg) {
      forall env: Env, imp, histAvg, histCount: nat, run |
        env.cfg == cfg && env.g.Sorted() && Complete(env, SourceSeed(env, imp, histAvg, histCount), run)
        ensures Descending(Last(run).impacts)
      {
        NoRoomDescends(env, SourceSeed(env, imp, histAvg, histCount), run);
      }
    } else {
      Inverted(cfg);
    }
  }

  /** Exactly the configurations under which every result computed without blending is in descending delay order. */
  lemma DescendingExactlyUnblended(cfg: Config)
    requires Usual(cfg)
    ensures AlwaysDescendingUnblended(cfg) <==> NoRoomUnblended(cfg)
  {
    if NoRoomUnblended(cfg) {
      forall env: Env, imp, histAvg, histCount: nat, run |
        env.cfg == cfg && BlendingOff(env) && env.g.Sorted() &&
        Complete(env, SourceSeed(env, imp, histAvg, histCount), run)
        ensures Descending(Last(run).impacts)
      {
        if NoRoomToInvert(cfg) {
          NoRoomDescends(env, SourceSeed(env, imp, histAvg, histCount), run);
        } else {
          NoDwellDescends(env, SourceSeed(env, imp, histAvg, histCount), run);
        }
      }
    } else {
      InvertedUnblended(cfg);
    }
  }

  /** The shipped defaults leave room: results are not in descending order in general, blending on or off. */
  lemma DefaultsInvert()
    ensures Usual(DEFAULT_CONFIG) && !AlwaysDescending(DEFAULT_CONFIG) && !AlwaysDescendingUnblended(DEFAULT_CONFIG)
  {
    assert Pow(0.7, 1) == 0.7 * Pow(0.7, 0);
    assert Pow(0.7, 2) == 0.7 * Pow(0.7, 1);
    assert Pow(0.7, 3) == 0.7 * Pow(0.7, 2) == 0.343;
    assert DwellStepOf(DEFAULT_CONFIG) == 1;
    DescendingExactly(DEFAULT_CONFIG);
    DescendingExactlyUnblended(DEFAULT_CONFIG);
  }
}
