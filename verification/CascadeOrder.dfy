/** How far the order of emitted impacts can stray from descending delay, and exactly when it cannot. */
module CascadeOrder {
  import opened Common
  import opened Schedule
  import opened ImpactHeap
  import opened Cascade
  import opened CascadeTheorems

  /** No stop has enough samples for blending. */
  ghost predicate BlendingOff(env: Env) {
    forall k :: k in env.stopHist ==> env.stopHist[k].1 < env.cfg.perStopMinCount
  }

  /** A configuration under which delays only shrink across transfers. */
  predicate Shrinking(cfg: Config) {
    Graded(cfg) && cfg.minDelayThreshold >= 0 && 0.0 <= cfg.dwellElasticity <= 1.0
  }

  /** As before, and without blending they only grow along a route. */
  predicate Usual(cfg: Config) { Shrinking(cfg) && DwellStepOf(cfg) >= 0 }

  lemma IsGraded(cfg: Config)
    requires Shrinking(cfg) || Usual(cfg)
    ensures Shrinking(cfg) && Graded(cfg)
  {
  }

  /** No cascade pushes more than `longest` stops past its first. */
  ghost predicate LongestRun(env: Env, longest: nat) {
    forall p: Item :: p.confidence <= env.cfg.confidenceDecay ==> |RippleItems(env, p)| <= longest + 1
  }

  /** How many further dwell runs can still lie between an item and its descendants. */
  function Budget(env: Env, q: Item): nat {
    if q.hops >= env.cfg.maxDepth then 0
    else if q.kind == CascadeTransfer then env.cfg.maxDepth - q.hops
    else env.cfg.maxDepth - q.hops - 1
  }

  /** The most any descendant's delay can reach, w being the growth of one dwell run. */
  function Ceiling(env: Env, w: nat, q: Item): int { q.delay + w * Budget(env, q) }

  function MaxBudget(env: Env): nat { if env.cfg.maxDepth <= 2 then 0 else env.cfg.maxDepth - 2 }

  function RunGrowth(env: Env, longest: nat): int { longest * env.DwellStep() }

  lemma BudgetBound(env: Env, w: nat, q: Item)
    requires Grade(env.cfg, q)
    ensures q.delay <= Ceiling(env, w, q) <= q.delay + w * MaxBudget(env)
  {
    MulNat(w, Budget(env, q), MaxBudget(env));
  }

  lemma MulNat(w: nat, a: nat, b: nat)
    requires a <= b
    ensures 0 <= w * a <= w * b
  {
    assert w * (b - a) >= 0;
  }

  lemma TransferCeiling(env: Env, w: nat, p: Item, x: Transfer, c: Item)
    requires Shrinking(env.cfg) && FromTransfer(env, p, x, c)
    ensures c.delay <= p.delay && Ceiling(env, w, c) <= Ceiling(env, w, p)
  {
    TruncScale(p.delay, env.cfg.dwellElasticity);
    MulNat(w, Budget(env, c), Budget(env, p));
  }

  lemma RippleDelay(env: Env, p: Item, dir: int, k: nat, c: Item)
    requires BlendingOff(env) && FromRipple(env, p, dir, k, c)
    ensures c.delay == p.delay + k * env.DwellStep()
  {
    AccumulatedClosed(env, Ripple(env, p, dir), k);
  }

  lemma RippleCeiling(env: Env, longest: nat, p: Item, dir: int, k: nat, c: Item)
    requires Usual(env.cfg) && BlendingOff(env) && FromRipple(env, p, dir, k, c) && k <= longest
    ensures RunGrowth(env, longest) >= 0
    ensures Ceiling(env, RunGrowth(env, longest), c) <= Ceiling(env, RunGrowth(env, longest), p)
  {
    RippleDelay(env, p, dir, k, c);
    assert Budget(env, p) == Budget(env, c) + 1;
    assert env.DwellStep() >= 0;
    RunBelowGrowth(env.DwellStep(), k, longest, Budget(env, c));
    hide Budget, FromRipple, DwellStepOf;
  }

  /** k dwell steps fit into the growth of one whole run. */
  lemma RunBelowGrowth(d: nat, k: nat, longest: nat, b: nat)
    requires k <= longest
    ensures longest * d >= 0
    ensures k * d + longest * d * b <= longest * d * (b + 1)
  {
    MulNat(d, k, longest);
    var w := longest * d;
    assert w == d * longest && k * d == d * k;
    assert w * (b + 1) == w * b + w;
  }

  /** The position of a rippled item within its run. */
  lemma RippleIndex(env: Env, visited: set<Key>, p: Item, c: Item) returns (dir: int, k: nat)
    requires c in Pushes(env, visited, p) && c.kind == CascadeDwell
    ensures FromRipple(env, p, dir, k, c) && k < |RippleItems(env, p)|
  {
    var xs := OutboundTransfers(env, p);
    TransferItemsMeaning(env, visited, p, xs);
    dir, k := RippleOrigin(env, p, c);
  }

  lemma CascadeConfidenceBound(env: Env, p: Item)
    requires Shrinking(env.cfg) && Grade(env.cfg, p) && p.hops >= 2
    ensures p.confidence <= env.cfg.confidenceDecay
  {
    PowAntitone(env.cfg.confidenceDecay, 1, p.hops - 1);
    assert Pow(env.cfg.confidenceDecay, 1) == env.cfg.confidenceDecay * Pow(env.cfg.confidenceDecay, 0);
  }

  /** Nothing pushed can lift the ceiling of what pushed it. */
  lemma ChildCeiling(env: Env, longest: nat, visited: set<Key>, p: Item, c: Item)
    requires Usual(env.cfg) && BlendingOff(env) && LongestRun(env, longest) && Grade(env.cfg, p)
    requires c in Pushes(env, visited, p)
    ensures RunGrowth(env, longest) >= 0
    ensures Ceiling(env, RunGrowth(env, longest), c) <= Ceiling(env, RunGrowth(env, longest), p)
  {
    MulNat(env.DwellStep(), 0, longest);
    PushedOrigin(env, visited, p, c);
    if c.kind == CascadeDwell {
      var dir, k := RippleIndex(env, visited, p, c);
      CascadeConfidenceBound(env, p);
      assert |RippleItems(env, p)| <= longest + 1;
      RippleCeiling(env, longest, p, dir, k, c);
    } else {
      var x :| FromTransfer(env, p, x, c);
      TransferCeiling(env, RunGrowth(env, longest), p, x, c);
    }
  }

  /** slack bounds how much a later impact can exceed an earlier one. */
  ghost predicate OrderInv(env: Env, w: nat, s: WalkState) {
    var slack := w * MaxBudget(env);
    && (forall i, q :: 0 <= i < |s.impacts| && q in s.queue ==> Ceiling(env, w, q) <= s.impacts[i].delay + slack)
    && (forall i, j :: 0 <= i < j < |s.impacts| ==> s.impacts[j].delay <= s.impacts[i].delay + slack)
  }

  lemma OrderStep(env: Env, longest: nat, s: WalkState, item: Item, s': WalkState)
    requires Usual(env.cfg) && BlendingOff(env) && LongestRun(env, longest) && RunGrowth(env, longest) >= 0
    requires GradeInv(env, s) && OrderInv(env, RunGrowth(env, longest), s) && StepOn(env, s, item, s')
    ensures OrderInv(env, RunGrowth(env, longest), s')
  {
    var w := RunGrowth(env, longest);
    var slack := w * MaxBudget(env);
    BudgetBound(env, w, item);
    forall i, q | 0 <= i < |s'.impacts| && q in s'.queue
      ensures Ceiling(env, w, q) <= s'.impacts[i].delay + slack
    {
      QueuedAfter(env, s, item, q);
      if q in s.queue {
        BudgetBound(env, w, q);
      } else {
        ChildCeiling(env, longest, s.visited + {env.KeyOf(item)}, item, q);
      }
    }
    forall i, j | 0 <= i < j < |s'.impacts|
      ensures s'.impacts[j].delay <= s'.impacts[i].delay + slack
    {
      if j == |s.impacts| { assert Ceiling(env, w, item) <= s.impacts[i].delay + slack; }
    }
  }

  lemma OrderNext(env: Env, src: Seed, longest: nat, run: seq<WalkState>, n: nat)
    requires Usual(env.cfg) && BlendingOff(env) && LongestRun(env, longest) && RunGrowth(env, longest) >= 0
    requires IsSource(src) && IsRun(env, src, run) && 0 < n < |run|
    requires OrderInv(env, RunGrowth(env, longest), run[n - 1])
    ensures OrderInv(env, RunGrowth(env, longest), run[n])
  {
    hide *;
    IsGraded(env.cfg);
    GradeHolds(env, src, run, n - 1);
    var item := StepAt(env, src, run, n);
    OrderStep(env, longest, run[n - 1], item, run[n]);
  }

  lemma {:induction false} OrderHolds(env: Env, src: Seed, longest: nat, run: seq<WalkState>, n: nat)
    requires Usual(env.cfg) && BlendingOff(env) && LongestRun(env, longest) && RunGrowth(env, longest) >= 0
    requires IsSource(src) && IsRun(env, src, run) && n < |run|
    ensures OrderInv(env, RunGrowth(env, longest), run[n])
  {
    if n > 0 {
      hide *;
      OrderHolds(env, src, longest, run, n - 1);
      OrderNext(env, src, longest, run, n);
    }
  }

  /** No impact exceeds an earlier one by more than the growth of MaxDepth - 2 dwell runs: a chain of cascades has at
      most that many runs on it, because the first hop and the last one add none. */
  lemma BoundedInversion(env: Env, src: Seed, longest: nat, run: seq<WalkState>, i: nat, j: nat)
    requires Usual(env.cfg) && BlendingOff(env) && LongestRun(env, longest)
    requires IsSource(src) && IsRun(env, src, run) && i < j < |Last(run).impacts|
    ensures var impacts := Last(run).impacts;
            impacts[j].delay <= impacts[i].delay + longest * env.DwellStep() * MaxBudget(env)
  {
    MulNat(env.DwellStep(), 0, longest);
    OrderHolds(env, src, longest, run, |run| - 1);
  }

  /** A bound on the runs that a caller can read off the schedule: two less than the longest trip's stops. */
  lemma LongestTripBounds(env: Env, longest: nat)
    requires forall t :: t in env.g.byTrip ==> |env.g.byTrip[t]| <= longest + 2
    ensures LongestRun(env, longest)
  {
    forall p: Item ensures |RippleItems(env, p)| <= longest + 1 {
      if RippleItems(env, p) != [] {
        var dir := DeriveDirection(env, p.routeId, env.g.Parent(p.stopId)).value;
        var seed := Ripple(env, p, dir);
        SeedItemsMeaning(env, seed);
        var list := env.g.Departures(seed.station);
        DownstreamMeaning(env.g, list, seed.route, env.g.Parent(seed.station), seed.dir);
      }
    }
  }

  /* ---------------- the degenerate case: one delay per key ---------------- */

  /** Every item queued so far is still queued or was beaten to its key by an impact at least as large. */
  ghost predicate Beaten(env: Env, s: WalkState, q: Item) {
    q in s.queue ||
    exists i :: 0 <= i < |s.impacts| && env.KeyOf(s.impacts[i]) == env.KeyOf(q) && s.impacts[i].delay >= q.delay
  }

  lemma BeatenStep(env: Env, s: WalkState, item: Item, s': WalkState, q: Item)
    requires OrderInv(env, 0, s) && KeysInv(env, s) && StepOn(env, s, item, s') && Beaten(env, s, q)
    ensures Beaten(env, s', q)
  {
    hide Pushes, Budget, MaxBudget;
    if q in s.queue {
      if q == item {
        if env.KeyOf(item) in s.visited {
          assert env.KeyOf(item) in ReportedKeys(env, s.impacts);
          var i :| 0 <= i < |s.impacts| && env.KeyOf(s.impacts[i]) == env.KeyOf(item);
          assert Ceiling(env, 0, item) <= s.impacts[i].delay + 0 * MaxBudget(env);
          assert s'.impacts[i] == s.impacts[i];
        } else {
          assert s'.impacts[|s.impacts|] == item;
        }
      } else {
        assert q in s.queue - multiset{item};
      }
    } else {
      var i :| 0 <= i < |s.impacts| && env.KeyOf(s.impacts[i]) == env.KeyOf(q) && s.impacts[i].delay >= q.delay;
      assert s'.impacts[i] == s.impacts[i];
    }
  }

  lemma {:induction false} BeatenHolds(env: Env, src: Seed, longest: nat, run: seq<WalkState>, t: nat, n: nat, q: Item)
    requires Usual(env.cfg) && BlendingOff(env) && LongestRun(env, longest) && RunGrowth(env, longest) == 0
    requires IsSource(src) && IsRun(env, src, run) && t <= n < |run| && q in run[t].queue
    ensures Beaten(env, run[n], q)
    decreases n - t
  {
    if t < n {
      BeatenHolds(env, src, longest, run, t, n - 1, q);
      OrderHolds(env, src, longest, run, n - 1);
      BeatenNext(env, src, run, n, q);
    }
  }

  lemma BeatenNext(env: Env, src: Seed, run: seq<WalkState>, n: nat, q: Item)
    requires IsRun(env, src, run) && 0 < n < |run| && OrderInv(env, 0, run[n - 1]) && Beaten(env, run[n - 1], q)
    ensures Beaten(env, run[n], q)
  {
    hide *;
    KeysHold(env, src, run, n - 1);
    var item := StepAt(env, src, run, n);
    BeatenStep(env, run[n - 1], item, run[n], q);
  }

  /** When runs do not grow, the reported delay of a key is the largest ever queued for it during the run. */
  lemma LargestQueued(env: Env, src: Seed, longest: nat, run: seq<WalkState>, i: nat, t: nat, q: Item)
    requires Usual(env.cfg) && BlendingOff(env) && LongestRun(env, longest) && longest * env.DwellStep() == 0
    requires IsSource(src) && IsRun(env, src, run) && i < |Last(run).impacts|
    requires t < |run| && q in run[t].queue && env.KeyOf(q) == env.KeyOf(Last(run).impacts[i])
    ensures q.delay <= Last(run).impacts[i].delay
  {
    var s := Last(run);
    BeatenHolds(env, src, longest, run, t, |run| - 1, q);
    OrderHolds(env, src, longest, run, |run| - 1);
    KeysHold(env, src, run, |run| - 1);
    if q in s.queue {
      assert Ceiling(env, 0, q) <= s.impacts[i].delay + 0 * MaxBudget(env);
    } else {
      var j :| 0 <= j < |s.impacts| && env.KeyOf(s.impacts[j]) == env.KeyOf(q) && s.impacts[j].delay >= q.delay;
      assert j <= i <= j by { assert DistinctKeys(env, s.impacts); }
    }
  }
}
