/** What the initial-delay estimate and the per-stop blend promise (estimateInitialDelay and blendPerStop in
    internal/propagation/engine.go). */
module Estimates {
  import opened Common
  import opened Cascade
  import opened Transfers
  import opened Events
  import opened Schedule
  import opened Headway

  predicate SelfPropagation(imp: TransferImpact) { imp.fromRoute != "" && imp.fromRoute == imp.toRoute }

  /** The blend lies between its two sources and approaches the average as the count grows. */
  lemma BlendBetween(average: real, count: nat, model: real)
    ensures var b := Blend(average, count, model);
            && (count == 0 ==> b == model)
            && (if model <= average then model <= b <= average else average <= b <= model)
            && (b - average) * (count as real + SHRINKAGE_K) == SHRINKAGE_K * (model - average)
  {
    var n := count as real;
    var w := n / (n + SHRINKAGE_K);
    WeightMeaning(n, w);
    assert Blend(average, count, model) - average == (1.0 - w) * (model - average);
    assert Blend(average, count, model) - model == w * (average - model);
    if model <= average {
      MulMono(1.0 - w, model - average, 0.0);
      MulMono(w, 0.0, average - model);
    } else {
      MulMono(1.0 - w, 0.0, model - average);
      MulMono(w, average - model, 0.0);
    }
    Regroup(1.0 - w, model - average, n + SHRINKAGE_K, SHRINKAGE_K);
  }

  lemma RoundedBlend(average: real, count: nat, model: real, lo: int, hi: int)
    requires lo as real <= average <= hi as real && lo as real <= model <= hi as real
    ensures lo <= Round(Blend(average, count, model)) <= hi
    ensures count == 0 ==> Round(Blend(average, count, model)) == Round(model)
  {
    BlendBetween(average, count, model);
    hide Blend;
    RoundNearest(Blend(average, count, model), lo, hi);
  }

  lemma WeightMeaning(n: real, w: real)
    requires n >= 0.0 && w == n / (n + SHRINKAGE_K)
    ensures 0.0 <= w < 1.0 && (1.0 - w) * (n + SHRINKAGE_K) == SHRINKAGE_K
  {
    assert w * (n + SHRINKAGE_K) == n;
  }

  lemma Regroup(a: real, b: real, c: real, k: real)
    requires a * c == k
    ensures a * b * c == k * b
  {
    assert a * b * c == (a * c) * b;
  }

  /** The schedule estimate of a transfer is at least the announced wait and at least half the scheduled headway, and
      the receiving route's own delay adds at most one headway, or a quarter of an hour when none is known. */
  lemma ScheduleEstimateBounds(env: Env, imp: TransferImpact, dir: int, conn: int)
    requires !SelfPropagation(imp)
    ensures var hw := ScheduledHeadway(env.g, imp.toRoute, dir, imp.station, env.tod);
            var est := ScheduleEstimate(env, imp, dir, conn);
            var calm := ScheduleEstimate(env, imp, dir, 0);
            && (imp.additionalWait > 0 ==> calm >= imp.additionalWait as real)
            && (hw.Some? && hw.value > 0.0 ==> calm >= hw.value / 2.0)
            && (hw.Some? && hw.value > 0.0 ==> calm <= est <= calm + hw.value)
            && (hw.None? ==> calm <= est <= calm + 900.0)
            && (hw.Some? && hw.value > 0.0 && conn as real >= hw.value ==> est == calm + hw.value)
  {
  }

  /** The estimate in closed form: a route's own delay as it is; for a transfer the greater of the announced wait and
      half the headway, or the dwell a delay of this size induces when neither is positive, and on top the receiving
      route's own delay up to one headway, or up to a quarter of an hour when none is known. */
  lemma ScheduleEstimateExactly(env: Env, imp: TransferImpact, dir: int, conn: int)
    ensures var hw := ScheduledHeadway(env.g, imp.toRoute, dir, imp.station, env.tod);
            var announced := imp.additionalWait as real;
            var wait := if hw.Some? then MaxReal(announced, hw.value / 2.0) else announced;
            var induced := imp.sourceDelay as real * env.cfg.loadIncreasePct * env.cfg.dwellElasticity;
            ScheduleEstimate(env, imp, dir, conn) ==
            if SelfPropagation(imp) then imp.sourceDelay as real
            else (if wait > 0.0 then wait else induced) +
                 (if conn > 0 then MinReal(conn as real, if hw.Some? then hw.value else 900.0) else 0.0)
    ensures SelfPropagation(imp) <==> imp.fromRoute == imp.toRoute && imp.toRoute != ""
  {
  }

  /** The dwell step is the product of its three factors, rounded. */
  lemma DwellStepNearest(cfg: Config)
    ensures var x := cfg.baseDwellSecs as real * cfg.dwellElasticity * cfg.loadIncreasePct;
            x - 0.5 <= DwellStepOf(cfg) as real <= x + 0.5
  {
    var x := cfg.baseDwellSecs as real * cfg.loadIncreasePct * cfg.dwellElasticity;
    Reorder(cfg.baseDwellSecs as real, cfg.loadIncreasePct, cfg.dwellElasticity);
    RoundNearest(x, x.Floor, x.Floor + 1);
  }

  lemma Reorder(a: real, b: real, c: real)
    ensures a * b * c == a * c * b
  {
    assert a * b * c == a * (b * c);
    assert a * c * b == a * (c * b);
  }

  /** With enough samples a stop's delay is a shrinkage blend, rounded: ten parts of the model to each sample. */
  lemma BlendPerStopExactly(env: Env, route: string, stop: string, model: int)
    requires var k := (route, env.g.Parent(stop)); k in env.stopHist && env.stopHist[k].1 >= env.cfg.perStopMinCount
    ensures var (average, count) := env.stopHist[(route, env.g.Parent(stop))];
            var n := count as real;
            var delay := BlendPerStop(env, route, stop, model) as real;
            AbsReal(delay * (n + 10.0) - (n * average + 10.0 * model as real)) <= 0.5 * (n + 10.0)
  {
    hide Round, ParentStation;
    var (average, count) := env.stopHist[(route, env.g.Parent(stop))];
    var n, b := count as real, Blend(average, count, model as real);
    BlendBetween(average, count, model as real);
    hide Blend, Round;
    var delay := BlendPerStop(env, route, stop, model) as real;
    assert AbsReal(delay - b) <= 0.5 by { RoundNearest(b, b.Floor, b.Floor + 1); }
    Shrunk(delay, b, average, model as real, n);
  }

  lemma Shrunk(d: real, b: real, average: real, model: real, n: real)
    requires n >= 0.0 && AbsReal(d - b) <= 0.5 && (b - average) * (n + 10.0) == 10.0 * (model - average)
    ensures AbsReal(d * (n + 10.0) - (n * average + 10.0 * model)) <= 0.5 * (n + 10.0)
  {
    var c := n + 10.0;
    Distribute(b, average, c);
    Distribute(d, b, c);
    Scaled(d - b, c);
    assert average * c == n * average + 10.0 * average;
    assert b * c == n * average + 10.0 * model;
    var t := (d - b) * c;
    assert AbsReal(t) <= 0.5 * c;
    assert d * c - (n * average + 10.0 * model) == t;
  }

  lemma Distribute(x: real, y: real, c: real)
    ensures (x - y) * c == x * c - y * c
  {
  }

  lemma Scaled(x: real, c: real)
    requires AbsReal(x) <= 0.5 && c > 0.0
    ensures AbsReal(x * c) <= 0.5 * c
  {
    MulMono(c, x, 0.5);
    MulMono(c, -0.5, x);
  }

  function MaxReal(a: real, b: real): real { if a < b then b else a }

  function MinReal(a: real, b: real): real { if a < b then a else b }

  /** The prediction for the first downstream stop lies between the observed average and the schedule estimate; without
      history it is the estimate rounded. */
  lemma InitialDelayBetween(
    env: Env, imp: TransferImpact, dir: int, conn: int, average: real, count: nat, lo: int, hi: int)
    requires lo as real <= average <= hi as real
    requires lo as real <= ScheduleEstimate(env, imp, dir, conn) <= hi as real
    ensures lo <= InitialDelay(env, imp, dir, conn, average, count) <= hi
    ensures count == 0 ==>
              InitialDelay(env, imp, dir, conn, average, count) == Round(ScheduleEstimate(env, imp, dir, conn))
  {
    hide ScheduleEstimate, Blend;
    RoundedBlend(average, count, ScheduleEstimate(env, imp, dir, conn), lo, hi);
  }

  /** A headway looked up in a built index is positive. */
  lemma HeadwayPositive(g: Graph, route: string, dir: int, stop: string, secs: int)
    requires HeadwaysIndexed(g)
    ensures var hw := ScheduledHeadway(g, route, dir, stop, secs); hw.Some? ==> 0.0 < hw.value <= 10800.0
  {
    LookupRecomputes(g, route, dir, stop, secs);
    var hour := GoDiv(secs, 3600);
    if HeadwayFor(g, g.Parent(stop), (route, dir), hour).Some? { HeadwayRange(g, g.Parent(stop), (route, dir), hour); }
    if HeadwayFor(g, g.Parent(stop), (route, dir), hour + 24).Some? {
      HeadwayRange(g, g.Parent(stop), (route, dir), hour + 24);
    }
  }

  /** Without history the walk starts from at least the wait the detector announced for a broken transfer. */
  lemma AnnouncedWaitIsCovered(
    w: World, ev: DelayEvent, x: Transfer, toRoute: string, env: Env, dir: int, conn: int, average: real)
    requires EvaluateRoute(w, ev, x, toRoute).Some? && EvaluateRoute(w, ev, x, toRoute).value.broken
    requires HeadwaysIndexed(env.g)
    ensures var imp := EvaluateRoute(w, ev, x, toRoute).value;
            imp.additionalWait > 0 ==> InitialDelay(env, imp, dir, conn, average, 0) >= imp.additionalWait
  {
    var imp := EvaluateRoute(w, ev, x, toRoute).value;
    assert !SelfPropagation(imp);
    HeadwayPositive(env.g, imp.toRoute, dir, imp.station, env.tod);
    ScheduleEstimateBounds(env, imp, dir, conn);
    var est := ScheduleEstimate(env, imp, dir, conn);
    BlendBetween(average, 0, est);
    if imp.additionalWait > 0 {
      assert est >= imp.additionalWait as real;
    }
  }

  /** A blended stop lies between the model's delay and the observed average; with too few samples it is the model's. */
  lemma BlendPerStopBetween(env: Env, route: string, stop: string, model: int, lo: int, hi: int)
    requires lo <= model <= hi
    requires var k := (route, env.g.Parent(stop)); k in env.stopHist ==> lo as real <= env.stopHist[k].0 <= hi as real
    ensures var k := (route, env.g.Parent(stop));
            var d := BlendPerStop(env, route, stop, model);
            && lo <= d <= hi
            && (k !in env.stopHist || env.stopHist[k].1 < env.cfg.perStopMinCount ==> d == model)
  {
    var k := (route, env.g.Parent(stop));
    hide Blend;
    if k in env.stopHist && env.stopHist[k].1 >= env.cfg.perStopMinCount {
      var (average, count) := env.stopHist[k];
      RoundedBlend(average, count, model as real, lo, hi);
    }
  }
}
