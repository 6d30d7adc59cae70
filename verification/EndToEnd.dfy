/** From detection to recorded outcome: transfer detector, tracking, the pending protocol and the sweep together, and
    the walk in between. */
module EndToEnd {
  import opened Events
  import opened Schedule
  import opened Cascade
  import opened CascadeDescending
  import opened Tracking
  import opened PendingStore
  import opened PendingProtocol
  import opened PendingTheorems
  import opened Registration
  import opened SeededStops
  import opened Transfers

  /** The next viable departure can be found again by the evaluator. */
  ghost predicate WithinReach(w: World, ev: DelayEvent, x: Transfer, toRoute: string, p: Pending) {
    var viable := Viable(w, ev, x, toRoute);
    && viable != [] && viable[0].departureSecs <= p.earliestCatch + PREDICTION_WINDOW_SECS
    && 0 <= MissedTrains(w, p) < 10
  }

  /** p is the primary of a call, made at some attempt, whatever events have been matched with it since. */
  predicate IsMadePrimary(c: Call, prim: nat, attempt: nat, p: Pending) {
    prim < |c.impacts| && p == c.Make(prim, prim, attempt).(matched := p.matched, observedMax := p.observedMax)
  }

  lemma MadeTracks(w: World, c: Call, prim: nat, attempt: nat, p: Pending)
    requires c.g == w.g && IsPrimary(c.impacts, c.src.toRoute, prim) && IsMadePrimary(c, prim, attempt, p)
    ensures TracksImpact(w, c.src, p) && p.isPrimary
  {
  }

  /** A broken transfer always carries a schedule frame. */
  lemma BrokenHasFrame(w: World, ev: DelayEvent, x: Transfer, toRoute: string)
    requires w.g.Sorted()
    requires EvaluateRoute(w, ev, x, toRoute).Some? && EvaluateRoute(w, ev, x, toRoute).value.broken
    ensures EvaluateRoute(w, ev, x, toRoute).value.schedConnDep > 0
  {
    EvaluatesFields(w, ev, x, toRoute);
    var tod := ArrivalTod(w, ev);
    var list := w.g.Departures(x.toStop);
    OnRouteExact(w.g, list, toRoute, Frame(w, x, toRoute, tod) + MinTransfer(x));
    var c := Connections(w, x, toRoute, tod)[0];
    hide EvaluateRoute;
    assert c in Connections(w, x, toRoute, tod);
    assert c.departureSecs >= Frame(w, x, toRoute, tod) + MinTransfer(x);
  }

  /** Whatever walk, configuration or history produced the tracked result, at whatever attempt its primary was added,
      and whatever events were matched with it since: on a route whose trains then run on time, sweeping the primary of
      a broken transfer records exactly the additional wait the detector announced, provided the evaluator's lookup
      reaches the viable departure; when it does not, the matched observation stands. */
  lemma AnnouncedWaitIsRecorded(
    w: World, later: World, ev: DelayEvent, x: Transfer, toRoute: string, c: Call, prim: nat, attempt: nat,
    p: Pending, q: Pending)
    requires w.g.Sorted() && later.g == w.g && ev.delay > 0
    requires w.g.Parent(w.g.Parent(x.toStop)) == w.g.Parent(x.toStop)
    requires EvaluateRoute(w, ev, x, toRoute).Some? && EvaluateRoute(w, ev, x, toRoute).value.broken
    requires c.src == EvaluateRoute(w, ev, x, toRoute).value && c.g == w.g
    requires IsPrimary(c.impacts, c.src.toRoute, prim) && IsMadePrimary(c, prim, attempt, p)
    requires OnTime(later, p) && Outcome(later, p, q)
    ensures WithinReach(w, ev, x, toRoute, p) ==> q.matched && q.observedMax == c.src.additionalWait
    ensures !WithinReach(w, ev, x, toRoute, p) ==> q == p
  {
    var imp := c.src;
    BrokenHasFrame(w, ev, x, toRoute);
    MadeTracks(w, c, prim, attempt, p);
    EvaluatesFields(w, ev, x, toRoute);
    hide EvaluateRoute, IsPrimary, TracksImpact, IsMadePrimary;
    forall i ensures BoardedAt(later, p, i) <==> WithinReach(w, ev, x, toRoute, p) && MissedTrains(w, p) == i
      ensures BoardedAt(later, p, i) ==> WaitFor(later, p, Trains(later, p)[i]) == imp.additionalWait
    {
      OnTimeExact(w, later, ev, x, toRoute, p, i);
      assert BoardedAt(later, p, i) ==> i >= 0;
    }
    hide WithinReach, OnTime;
    if WithinReach(w, ev, x, toRoute, p) { assert BoardedAt(later, p, MissedTrains(w, p)); }
  }

  /** What is then filed, and where: for the transfer pair, its station and hour, with the delay of the source, the wait
      announced within reach and the observation matched otherwise. */
  lemma AnnouncedWaitIsFiled(
    w: World, later: World, ev: DelayEvent, x: Transfer, toRoute: string, c: Call, prim: nat, attempt: nat,
    p: Pending, q: Pending, env: Env)
    requires w.g.Sorted() && later.g == w.g && ev.delay > 0
    requires w.g.Parent(w.g.Parent(x.toStop)) == w.g.Parent(x.toStop)
    requires EvaluateRoute(w, ev, x, toRoute).Some? && EvaluateRoute(w, ev, x, toRoute).value.broken
    requires c.src == EvaluateRoute(w, ev, x, toRoute).value && c.g == w.g
    requires IsPrimary(c.impacts, c.src.toRoute, prim) && IsMadePrimary(c, prim, attempt, p)
    requires OnTime(later, p) && Outcome(later, p, q)
    requires env.g == w.g && w.g.Parent(x.toStop) != "" && c.hour == HourOf(env.tod)
    ensures var r := RecordOf(q);
            && r.PairRecord? && (r.fromRoute, r.route, r.station, r.hour) == HistoryKey(env, c.src)
            && r.fromRoute == ev.route && r.route == toRoute && r.station == w.g.Parent(x.toStop)
            && r.sourceDelay == ev.delay && (env.tod >= 0 ==> r.hour == env.tod / 3600 % 24)
            && r.wait == if WithinReach(w, ev, x, toRoute, p) then c.src.additionalWait else p.observedMax
  {
    AnnouncedWaitIsRecorded(w, later, ev, x, toRoute, c, prim, attempt, p, q);
    EvaluatesFields(w, ev, x, toRoute);
    hide EvaluateRoute, OnTime, WithinReach, IsPrimary;
  }

  /** The same through the pending protocol: over every interleaving of adders, matchers, sweepers and expiring keys,
      when a sweeper finalizes a primary that a call has created, the wait recorded is the announced one within reach,
      and otherwise the largest additional delay among the events that had landed before the sweeper's read. */
  lemma FinalizedPrimaryRecords(
    run: seq<Sys>, n: nat, k: nat, w: World, later: World, ev: DelayEvent, x: Transfer, toRoute: string, c: Call,
    prim: nat, attempt: nat, q: Pending)
    requires PendingProtocol.IsRun(run) && n < |run| && k < |run[n].finalized|
    requires IsPrimary(c.impacts, c.src.toRoute, prim)
    requires var p := run[n].finalized[k].0;
             && p.id in run[n].created && run[n].created[p.id] == c.Make(prim, prim, attempt)
             && OnTime(later, p) && Outcome(later, p, q)
    requires w.g.Sorted() && later.g == w.g && ev.delay > 0
    requires w.g.Parent(w.g.Parent(x.toStop)) == w.g.Parent(x.toStop)
    requires EvaluateRoute(w, ev, x, toRoute).Some? && EvaluateRoute(w, ev, x, toRoute).value.broken
    requires c.src == EvaluateRoute(w, ev, x, toRoute).value && c.g == w.g
    ensures var r := RecordOf(q);
            && r.PairRecord? && r.fromRoute == ev.route && r.route == toRoute && r.hour == c.hour
            && r.sourceDelay == ev.delay && r.wait == q.observedMax
    ensures var (p, seen) := run[n].finalized[k];
            && (WithinReach(w, ev, x, toRoute, p) ==> q.matched && q.observedMax == c.src.additionalWait)
            && (!WithinReach(w, ev, x, toRoute, p) ==>
                  && q == p && (q.matched <==> seen != [])
                  && (forall e :: e in seen ==> Beyond(e.delay, p.baseline) <= q.observedMax)
                  && (q.matched ==> exists e :: e in seen && Beyond(e.delay, p.baseline) == q.observedMax))
  {
    ObservedMaximum(run, n, k);
    var p := run[n].finalized[k].0;
    assert p.baseline == run[n].created[p.id].baseline && IsMadePrimary(c, prim, attempt, p);
    hide PendingProtocol.IsRun, OnTime, Outcome, WithinReach, EvaluateRoute, IsPrimary, IsMadePrimary;
    AnnouncedWaitIsRecorded(w, later, ev, x, toRoute, c, prim, attempt, p, q);
    RecordFields(w, later, ev, x, toRoute, c, prim, attempt, p, q);
  }

  lemma RecordFields(
    w: World, later: World, ev: DelayEvent, x: Transfer, toRoute: string, c: Call, prim: nat, attempt: nat, p: Pending,
    q: Pending)
    requires EvaluateRoute(w, ev, x, toRoute).Some? && EvaluateRoute(w, ev, x, toRoute).value.broken
    requires c.src == EvaluateRoute(w, ev, x, toRoute).value
    requires IsPrimary(c.impacts, c.src.toRoute, prim) && IsMadePrimary(c, prim, attempt, p) && Outcome(later, p, q)
    ensures var r := RecordOf(q);
            && r.PairRecord? && r.fromRoute == ev.route && r.route == toRoute && r.hour == c.hour
            && r.sourceDelay == ev.delay && r.wait == q.observedMax
  {
    EvaluatesFields(w, ev, x, toRoute);
  }

  /** And there is a primary to sweep: under every configuration with a cap of at least one, with any observed averages,
      a walk from an impact whose receiving route continues past the station has one, and it is handed to Add first. */
  lemma WalkIsTracked(
    env: Env, imp: TransferImpact, histAvg: real, histCount: nat, run: seq<WalkState>, c: Call, prim: int)
    requires var src := SourceSeed(env, imp, histAvg, histCount);
             SeedItems(env, src) != [] && env.cfg.maxImpacts >= 1 && Complete(env, src, run)
    requires c.src == imp && c.impacts == ToImpacts(env, Last(run).impacts)
    requires IsPrimary(c.impacts, imp.toRoute, prim)
    ensures 0 <= prim < |c.impacts|
    ensures var ps := Added(c, prim); ps != [] && IsMadePrimary(c, prim, 0, ps[0]) && ps[0].isPrimary
  {
    PrimaryIsLeastReported(env, SourceSeed(env, imp, histAvg, histCount), run, prim);
    PrimaryTrackedFirst(c, prim);
  }

  /** The loop closes: what the sweep records for a primary is filed under the very key a walk for that transfer reads,
      if and only if the hours agree and the impact's station is named. */
  lemma HistoryKeysAgree(env: Env, c: Call, prim: nat, attempt: nat, p: Pending)
    requires c.g == env.g && IsPrimary(c.impacts, c.src.toRoute, prim) && IsMadePrimary(c, prim, attempt, p)
    ensures RecordOf(p).PairRecord?
    ensures var r := RecordOf(p);
            (r.fromRoute, r.route, r.station, r.hour) == HistoryKey(env, c.src) <==>
            c.hour == HourOf(env.tod) && (env.g.Parent(c.src.station) != "" || c.impacts[prim].stopId == "")
  {
    MadeTracks(World(env.g, map[], Clock(0, 0)), c, prim, attempt, p);
  }
}
