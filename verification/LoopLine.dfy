/** A schedule on which the impact marked as primary is not the first downstream stop's: a trip that calls twice at one
    station. */
module LoopLine {
  import opened Common
  import opened Schedule
  import opened ImpactHeap
  import opened Cascade
  import opened CascadeOrder
  import opened CascadeDescending
  import opened Tracking
  import opened SeededStops
  import opened PrimarySelection

  const ROW_0 := StopTime("l", "S", 0, 0, 1)
  const ROW_1 := StopTime("l", "T", 60, 60, 2)
  const ROW_2 := StopTime("l", "U", 120, 120, 3)
  const ROW_3 := StopTime("l", "T", 180, 180, 4)

  /** Line L runs S-T-U-T. */
  const LOOP_LINE := Graph(
    map[],
    map["l" := "L"],
    map["l" := 0],
    map["S" := [ROW_0], "T" := [ROW_1, ROW_3], "U" := [ROW_2]],
    map["l" := [ROW_0, ROW_1, ROW_2, ROW_3]],
    map[],
    map["S" := {"L"}, "T" := {"L"}, "U" := {"L"}],
    map[], map[])

  /** The shipped configuration, no live delays and no samples. */
  const LOOP_ENV := Env(LOOP_LINE, DEFAULT_CONFIG, map[], map[], 0)

  /** A connection onto line L at S, missed by one delay, which the next train makes up for. */
  function MissedLoop(delay: int): TransferImpact {
    TransferImpact("x", "X", "L", "S", delay, 0, 0, true, 0, "l", delay, 0, 0)
  }

  function LoopSeed(delay: int): Seed { Seed("L", "S", 0, delay, 1.0, 1, DwellIncrease) }

  lemma MissedLoopSeed(delay: int)
    requires delay >= 1
    ensures SourceSeed(LOOP_ENV, MissedLoop(delay), 0.0, 0) == LoopSeed(delay)
  {
    RoundOfInt(delay);
    assert ScheduledHeadway(LOOP_LINE, "L", 0, "S", 0) == None;
    assert ScheduleEstimate(LOOP_ENV, MissedLoop(delay), 0, 0) == delay as real;
  }

  lemma LoopStops()
    ensures Downstream(LOOP_LINE, "L", "S", 0) == [ROW_1, ROW_2, ROW_3]
    ensures LOOP_LINE.Sorted()
  {
    assert AfterStation(LOOP_LINE, [ROW_0, ROW_1, ROW_2, ROW_3], "S", 0) == [ROW_1, ROW_2, ROW_3];
    assert DownstreamScan(LOOP_LINE, [ROW_0], "L", "S", 0) == [ROW_1, ROW_2, ROW_3];
  }

  /** T is seeded twice, at the first stop's delay and two seconds later, and U in between. */
  lemma LoopSeeds(delay: int)
    requires delay >= 15
    ensures var items := SeedItems(LOOP_ENV, LoopSeed(delay));
            && |items| == 3
            && LOOP_ENV.KeyOf(items[0]) == ("L", "T") && items[0].delay == delay
            && LOOP_ENV.KeyOf(items[1]) == ("L", "U") && items[1].delay == delay + 1
            && LOOP_ENV.KeyOf(items[2]) == ("L", "T") && items[2].delay == delay + 2
  {
    var src := LoopSeed(delay);
    LoopStops();
    DefaultNumbers();
    SeedItemsMeaning(LOOP_ENV, src);
    AccumulatedClosed(LOOP_ENV, src, 1);
    AccumulatedClosed(LOOP_ENV, src, 2);
    assert Pow(0.7, 2) == 0.7 * Pow(0.7, 1) == 0.49;
    assert Pow(0.7, 3) == 0.7 * Pow(0.7, 2) == 0.343;
    assert RunPasses(LOOP_ENV, src, 1) && RunPasses(LOOP_ENV, src, 2);
  }

  /** From every delay at or above the threshold, on the shipped defaults: every walk over line L ends with the primary
      at U, one second above the initial-delay estimate, and there is such a walk. */
  lemma LoopMisleads(delay: int) returns (run: seq<WalkState>)
    requires delay >= 15
    ensures var src := SourceSeed(LOOP_ENV, MissedLoop(delay), 0.0, 0);
            && LOOP_LINE.Sorted() && BlendingOff(LOOP_ENV) && DefaultWalk(LOOP_ENV, src)
            && !FirstStopAlone(LOOP_ENV, src) && !FirstLeads(LOOP_ENV, src)
            && Complete(LOOP_ENV, src, run)
            && forall whole, p :: Complete(LOOP_ENV, src, whole) &&
                                  IsPrimary(ToImpacts(LOOP_ENV, Last(whole).impacts), src.route, p) ==>
                                    0 <= p < |Last(whole).impacts| &&
                                    LOOP_ENV.KeyOf(Last(whole).impacts[p]) == ("L", "U") &&
                                    Last(whole).impacts[p].delay == src.startDelay + 1
  {
    var src := LoopSeed(delay);
    MissedLoopSeed(delay);
    LoopStops();
    LoopSeeds(delay);
    assert IsSource(src) && BlendingOff(LOOP_ENV);
    NotAlone(LOOP_ENV, src);
    hide SeedItems, SourceSeed, Complete, IsPrimary, Top, FirstStopAlone, FirstLeads, SeedsLead;
    DefaultsLead(LOOP_ENV, src);
    var items := SeedItems(LOOP_ENV, src);
    run := AnyRun(LOOP_ENV, src);
    forall whole, p |
      Complete(LOOP_ENV, src, whole) && IsPrimary(ToImpacts(LOOP_ENV, Last(whole).impacts), src.route, p)
      ensures 0 <= p < |Last(whole).impacts| && LOOP_ENV.KeyOf(Last(whole).impacts[p]) == ("L", "U")
      ensures Last(whole).impacts[p].delay == src.startDelay + 1
    {
      PrimaryIdentity(LOOP_ENV, src, whole, p);
      LeastIsU(items, delay, Last(whole).impacts[p]);
    }
  }

  lemma NotAlone(env: Env, src: Seed)
    requires |SeedItems(env, src)| == 3 && env.KeyOf(SeedItems(env, src)[2]) == env.KeyOf(SeedItems(env, src)[0])
    ensures !FirstStopAlone(env, src)
  {
    hide SeedItems;
  }

  /** U is the greatest of its station, and the only one that is not above it. */
  lemma LeastIsU(items: seq<Item>, delay: int, x: Item)
    requires |items| == 3
    requires LOOP_ENV.KeyOf(items[0]) == ("L", "T") && items[0].delay == delay
    requires LOOP_ENV.KeyOf(items[1]) == ("L", "U") && items[1].delay == delay + 1
    requires LOOP_ENV.KeyOf(items[2]) == ("L", "T") && items[2].delay == delay + 2
    requires Top(LOOP_ENV, items, x) && forall y :: Top(LOOP_ENV, items, y) ==> x.delay <= y.delay
    ensures LOOP_ENV.KeyOf(x) == ("L", "U") && x.delay == delay + 1
  {
    assert Top(LOOP_ENV, items, items[1]);
  }
}
