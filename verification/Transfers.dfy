/** Transfer classification (internal/transfer/detector.go) and the wait a passenger really had
    (realizedWait and sweepOnce in internal/evaluation/evaluator.go). */
module Transfers {
  import opened Common
  import opened Events
  import opened Schedule
  import opened Cascade
  import opened Tracking

  const AT_RISK_BUFFER := 60

  /** The schedule, the stored delays by agency, trip and stop, and the clock. */
  datatype World = World(g: Graph, delays: map<(string, string, string), int>, clock: Clock)
  {
    /** tripDelayAt: the observed signed delay of the trip at the station, 0 without an observation. */
    function TripDelay(agency: string, trip: string, station: string): int {
      match ScheduledRow(g, trip, station)
      case None => 0
      case Some(row) => if (agency, trip, row.stopId) in delays then delays[(agency, trip, row.stopId)] else 0
    }

    function TodFromUnix(ts: int): int { if ts == 0 then 0 else SecsSinceMidnight(clock, ts) }
  }

  /** The arrival the margins are measured from: the scheduled one, or the observation when that reads zero. */
  function ArrivalTod(w: World, ev: DelayEvent): int {
    var scheduled := w.TodFromUnix(ev.scheduledArrival);
    if scheduled == 0 then w.TodFromUnix(ev.observedAt) else scheduled
  }

  /* ---------------- one connecting route ---------------- */

  /** The frame the connection is looked up in. */
  function Frame(w: World, x: Transfer, toRoute: string, arrival: int): int {
    NextDeparturesWrapped(w.g, x.toStop, toRoute, arrival, 1).1
  }

  /** The first departures a passenger could make per schedule. */
  function Connections(w: World, x: Transfer, toRoute: string, arrival: int): seq<StopTime> {
    NextDepartures(w.g, x.toStop, toRoute, Frame(w, x, toRoute, arrival) + MinTransfer(x), 3)
  }

  function EarliestCatch(w: World, ev: DelayEvent, x: Transfer, toRoute: string): int {
    Frame(w, x, toRoute, ArrivalTod(w, ev)) + ev.delay + MinTransfer(x)
  }

  function Viable(w: World, ev: DelayEvent, x: Transfer, toRoute: string): seq<StopTime> {
    NextDepartures(w.g, x.toStop, toRoute, EarliestCatch(w, ev, x, toRoute), 1)
  }

  /** The verdict on one transfer and connecting route: no impact, at risk, or broken. */
  function EvaluateRoute(w: World, ev: DelayEvent, x: Transfer, toRoute: string): Option<TransferImpact> {
    var arrival := ArrivalTod(w, ev);
    var deps := Connections(w, x, toRoute, arrival);
    if toRoute == ev.route || deps == [] then None
    else
      var margin := deps[0].departureSecs - Frame(w, x, toRoute, arrival);
      var remaining := margin - ev.delay + w.TripDelay(ev.agency, deps[0].tripId, x.toStop);
      var base := TransferImpact(
        ev.trip, ev.route, toRoute, x.toStop, ev.delay, margin, remaining, false, w.clock.now, "", 0, 0, 0);
      if remaining < MinTransfer(x) then
        var viable := Viable(w, ev, x, toRoute);
        Some(base.(
          broken := true,
          schedConnDep := deps[0].departureSecs,
          earliestCatch := EarliestCatch(w, ev, x, toRoute),
          nextViableTrip := if viable == [] then "" else viable[0].tripId,
          additionalWait := if viable == [] then 0 else Max(0, viable[0].departureSecs - deps[0].departureSecs)))
      else if remaining < MinTransfer(x) + AT_RISK_BUFFER then Some(base)
      else None
  }

  ghost function ImpactsAt(w: World, ev: DelayEvent, x: Transfer, routes: set<string>): set<TransferImpact> {
    set r | r in routes && EvaluateRoute(w, ev, x, r).Some? :: EvaluateRoute(w, ev, x, r).value
  }

  /** All impacts of a delayed arrival; the order over the routes at a station is open. */
  ghost function AllImpacts(w: World, ev: DelayEvent, xs: seq<Transfer>): multiset<TransferImpact> {
    if xs == [] then multiset{}
    else AllImpacts(w, ev, xs[..|xs| - 1]) +
         multiset(ImpactsAt(w, ev, xs[|xs| - 1], w.g.RoutesAt(xs[|xs| - 1].toStop)))
  }

  lemma ImpactsAtMore(w: World, ev: DelayEvent, x: Transfer, routes: set<string>, r: string)
    requires r !in routes
    ensures multiset(ImpactsAt(w, ev, x, routes + {r})) ==
            multiset(ImpactsAt(w, ev, x, routes)) +
            match EvaluateRoute(w, ev, x, r) case None => multiset{} case Some(imp) => multiset{imp}
  {
    EvaluatesToRoute(w, ev, x);
    hide EvaluateRoute;
    var before := ImpactsAt(w, ev, x, routes);
    var after := ImpactsAt(w, ev, x, routes + {r});
    match EvaluateRoute(w, ev, x, r)
    case None => assert after == before;
    case Some(imp) =>
      assert imp !in before;
      assert after == before + {imp};
  }

  lemma EvaluatesToRoute(w: World, ev: DelayEvent, x: Transfer)
    ensures forall r :: EvaluateRoute(w, ev, x, r).Some? ==> EvaluateRoute(w, ev, x, r).value.toRoute == r
  {
  }

  /** One pass of the inner loop, in the source's order of lookups. */
  method EvaluatePair(w: World, ev: DelayEvent, x: Transfer, toRoute: string, scheduledArrSecs: int)
    returns (impact: Option<TransferImpact>)
    requires w.g.Sorted() && scheduledArrSecs == ArrivalTod(w, ev)
    ensures impact == EvaluateRoute(w, ev, x, toRoute)
  {
    if toRoute == ev.route { return None; }
    var minXferTime := MinTransfer(x);
    var _, effTod := NextDeparturesAfter(w.g, x.toStop, toRoute, scheduledArrSecs, 1);
    var deps := GetNextDepartures(w.g, x.toStop, toRoute, effTod + minXferTime, 3);
    if |deps| == 0 { return None; }
    var nextDep := deps[0];
    var originalMargin := nextDep.departureSecs - effTod;
    var connectingDelay := w.TripDelay(ev.agency, nextDep.tripId, x.toStop);
    var remainingMargin := originalMargin - ev.delay + connectingDelay;
    var broken := false;
    if remainingMargin < minXferTime {
      broken := true;
    } else if remainingMargin >= minXferTime + AT_RISK_BUFFER {
      return None;
    }
    var nextViable, additionalWait, schedConnDep, earliestCatchSecs := "", 0, 0, 0;
    if broken {
      var earliestCatch := effTod + ev.delay + minXferTime;
      schedConnDep := nextDep.departureSecs;
      earliestCatchSecs := earliestCatch;
      var viableDeps := GetNextDepartures(w.g, x.toStop, toRoute, earliestCatch, 1);
      if |viableDeps| > 0 {
        nextViable := viableDeps[0].tripId;
        additionalWait := viableDeps[0].departureSecs - nextDep.departureSecs;
        if additionalWait < 0 { additionalWait := 0; }
      }
    }
    impact := Some(TransferImpact(
      ev.trip, ev.route, toRoute, x.toStop, ev.delay, originalMargin, remainingMargin, broken, w.clock.now,
      nextViable, additionalWait, schedConnDep, earliestCatchSecs));
  }

  method EvaluateTransfer(w: World, ev: DelayEvent, x: Transfer, arrival: int) returns (impacts: seq<TransferImpact>)
    requires w.g.Sorted() && arrival == ArrivalTod(w, ev)
    ensures multiset(impacts) == multiset(ImpactsAt(w, ev, x, w.g.RoutesAt(x.toStop)))
  {
    impacts := [];
    var all := w.g.RoutesAt(x.toStop);
    var remaining := all;
    assert ImpactsAt(w, ev, x, all - remaining) == {} by { assert all - remaining == {}; }
    while remaining != {}
      invariant remaining <= all
      invariant multiset(impacts) == multiset(ImpactsAt(w, ev, x, all - remaining))
      decreases remaining
    {
      var toRoute :| toRoute in remaining;
      ghost var handled := all - remaining;
      remaining := remaining - {toRoute};
      assert all - remaining == handled + {toRoute};
      ImpactsAtMore(w, ev, x, handled, toRoute);
      var impact := EvaluatePair(w, ev, x, toRoute, arrival);
      if impact.Some? { impacts := impacts + [impact.value]; }
    }
    assert all - remaining == all;
  }

  method EvaluateDelay(w: World, ev: DelayEvent) returns (impacts: seq<TransferImpact>)
    requires w.g.Sorted()
    ensures ev.delay <= 0 ==> impacts == []
    ensures ev.delay > 0 ==> multiset(impacts) == AllImpacts(w, ev, w.g.TransfersFrom(ev.stop))
  {
    impacts := [];
    if ev.delay <= 0 { return; }
    var transfers := w.g.TransfersFrom(ev.stop);
    var scheduledArrSecs := w.TodFromUnix(ev.scheduledArrival);
    if scheduledArrSecs == 0 { scheduledArrSecs := w.TodFromUnix(ev.observedAt); }
    for i := 0 to |transfers|
      invariant multiset(impacts) == AllImpacts(w, ev, transfers[..i])
    {
      var found := EvaluateTransfer(w, ev, transfers[i], scheduledArrSecs);
      assert transfers[..i + 1][..i] == transfers[..i];
      impacts := impacts + found;
    }
    assert transfers[..|transfers|] == transfers;
  }

  /* ---------------- what the verdict means ---------------- */

  /** The test the evaluator applies to a candidate train. */
  predicate Boardable(departure: int, delay: int, earliestCatch: int) { departure + delay >= earliestCatch }

  /** The delay observed for a trip at a station: the one stored under the very stop of the resolved trip's first call
      there, and none when it makes no such call or nothing is stored. */
  ghost predicate Reported(w: World, agency: string, trip: string, station: string, delay: int) {
    var calls := CallsOf(w.g, trip);
    && (forall k :: FirstCall(w.g, calls, station, k) && (agency, trip, calls[k].stopId) in w.delays ==>
          delay == w.delays[(agency, trip, calls[k].stopId)])
    && ((forall k :: FirstCall(w.g, calls, station, k) ==> (agency, trip, calls[k].stopId) !in w.delays) ==> delay == 0)
  }

  lemma TripDelayExactly(w: World, agency: string, trip: string, station: string, delay: int)
    ensures Reported(w, agency, trip, station, delay) <==> delay == w.TripDelay(agency, trip, station)
  {
    var calls := CallsOf(w.g, trip);
    var row := ScheduledRow(w.g, trip, station);
    forall k | FirstCall(w.g, calls, station, k) ensures row == Some(calls[k]) {
      ScheduledRowMeaning(w.g, trip, station, calls[k]);
    }
    if row.Some? {
      ScheduledRowMeaning(w.g, trip, station, row.value);
      var k :| FirstCall(w.g, calls, station, k) && row.value == calls[k];
      assert calls[k].stopId == row.value.stopId;
    }
  }

  /** The connection the verdict is about: the earliest departure on the route that leaves the transfer time. */
  ghost predicate IsConnection(w: World, ev: DelayEvent, x: Transfer, toRoute: string, c: StopTime) {
    var frame := Frame(w, x, toRoute, ArrivalTod(w, ev));
    && Candidate(w.g, x.toStop, toRoute, frame + MinTransfer(x), c)
    && Connections(w, x, toRoute, ArrivalTod(w, ev)) != []
    && Connections(w, x, toRoute, ArrivalTod(w, ev))[0] == c
    && forall st :: Candidate(w.g, x.toStop, toRoute, frame + MinTransfer(x), st) ==>
                      c.departureSecs <= st.departureSecs
  }

  /** An impact exists exactly when there is a connection on another route that the delay brings within a minute of
      the transfer time; it is broken exactly when the connection, with its observed delay, is not boardable at the
      earliest catch time. */
  lemma BrokenMeansUnboardable(w: World, ev: DelayEvent, x: Transfer, toRoute: string)
    requires w.g.Sorted()
    ensures var impact := EvaluateRoute(w, ev, x, toRoute);
            && (impact.Some? ==> toRoute != ev.route && exists c :: IsConnection(w, ev, x, toRoute, c))
            && forall c, delay ::
                 toRoute != ev.route && IsConnection(w, ev, x, toRoute, c) &&
                 Reported(w, ev.agency, c.tripId, x.toStop, delay) ==>
                   var catch := EarliestCatch(w, ev, x, toRoute);
                   && (impact.Some? <==> !Boardable(c.departureSecs, delay, catch + 60))
                   && (impact.Some? ==> (impact.value.broken <==> !Boardable(c.departureSecs, delay, catch)))
                   && (impact.Some? ==> impact.value.originalMargin >= MinTransfer(x))
  {
    var frame := Frame(w, x, toRoute, ArrivalTod(w, ev));
    var deps := Connections(w, x, toRoute, ArrivalTod(w, ev));
    FirstIsEarliest(w.g, x.toStop, toRoute, frame + MinTransfer(x), 3);
    EarliestDepartures(w.g, x.toStop, toRoute, frame + MinTransfer(x), 3);
    if deps != [] {
      assert deps[0] in deps;
      assert IsConnection(w, ev, x, toRoute, deps[0]);
      hide Reported, Frame, ArrivalTod;
      forall delay | Reported(w, ev.agency, deps[0].tripId, x.toStop, delay)
        ensures delay == w.TripDelay(ev.agency, deps[0].tripId, x.toStop)
      {
        TripDelayExactly(w, ev.agency, deps[0].tripId, x.toStop, delay);
      }
    }
  }

  /** The arrival that margins are measured from: the scheduled second of the day, or that of the observation when none
      is scheduled or it falls on the stroke of midnight. */
  lemma ArrivalTodExactly(w: World, ev: DelayEvent)
    requires ev.scheduledArrival >= 0 && ev.observedAt >= 0
    ensures var scheduled := (ev.scheduledArrival + w.clock.utcOffset) % 86400;
            ArrivalTod(w, ev) ==
            if ev.scheduledArrival > 0 && scheduled != 0 then scheduled
            else if ev.observedAt > 0 then (ev.observedAt + w.clock.utcOffset) % 86400 else 0
  {
  }

  /** The frame is the next day's exactly when it is before four in the morning and some departure past midnight is a
      strictly shorter wait away than every other. */
  lemma FrameExactly(w: World, x: Transfer, toRoute: string, tod: int)
    requires w.g.Sorted()
    ensures Frame(w, x, toRoute, tod) ==
            if tod < 14400 && exists late :: && Candidate(w.g, x.toStop, toRoute, tod + 86400, late)
                                             && forall st :: Candidate(w.g, x.toStop, toRoute, tod, st) ==>
                                                  late.departureSecs - 86400 < st.departureSecs
            then tod + 86400 else tod
  {
    var (deps, frame) := NextDeparturesWrapped(w.g, x.toStop, toRoute, tod, 1);
    LeastWaitFrame(w.g, x.toStop, toRoute, tod, 1);
    EarliestDepartures(w.g, x.toStop, toRoute, frame, 1);
    hide NextDeparturesWrapped, NextDepartures;
    assert deps != [] ==> deps[0] in deps && Candidate(w.g, x.toStop, toRoute, frame, deps[0]);
  }

  /** The impact field by field: its margins are those of the connection with its observed delay, and a broken one names
      the first departure that can still be caught and how much later it is. */
  lemma ImpactWritten(w: World, ev: DelayEvent, x: Transfer, toRoute: string, c: StopTime, delay: int)
    requires w.g.Sorted() && IsConnection(w, ev, x, toRoute, c)
    requires Reported(w, ev.agency, c.tripId, x.toStop, delay) && EvaluateRoute(w, ev, x, toRoute).Some?
    ensures var imp := EvaluateRoute(w, ev, x, toRoute).value;
            var frame := Frame(w, x, toRoute, ArrivalTod(w, ev));
            && imp.fromTrip == ev.trip && imp.fromRoute == ev.route && imp.toRoute == toRoute && imp.station == x.toStop
            && imp.sourceDelay == ev.delay && imp.detectedAt == w.clock.now
            && imp.originalMargin == c.departureSecs - frame
            && imp.remainingMargin == imp.originalMargin - ev.delay + delay
            && (!imp.broken ==>
                  imp.nextViableTrip == "" && imp.additionalWait == imp.schedConnDep == imp.earliestCatch == 0)
            && (imp.broken ==> imp.schedConnDep == c.departureSecs && CatchesNext(w, x, toRoute, imp)
                               && imp.earliestCatch == frame + ev.delay +
                                  if x.minTransferTime > 0 then x.minTransferTime else 120)
  {
    TripDelayExactly(w, ev.agency, c.tripId, x.toStop, delay);
    var imp := EvaluateRoute(w, ev, x, toRoute).value;
    FirstIsEarliest(w.g, x.toStop, toRoute, EarliestCatch(w, ev, x, toRoute), 1);
    EarliestDepartures(w.g, x.toStop, toRoute, EarliestCatch(w, ev, x, toRoute), 1);
    var viable := Viable(w, ev, x, toRoute);
    hide NextDepartures, Reported, Frame, ArrivalTod;
    if imp.broken && viable != [] { assert viable[0] in viable; }
  }

  /** The next viable departure is the first at or after the earliest catch time; without one there is no wait. */
  ghost predicate CatchesNext(w: World, x: Transfer, toRoute: string, imp: TransferImpact) {
    if exists st :: Candidate(w.g, x.toStop, toRoute, imp.earliestCatch, st) then
      exists v :: && Candidate(w.g, x.toStop, toRoute, imp.earliestCatch, v) && imp.nextViableTrip == v.tripId
                  && (forall st :: Candidate(w.g, x.toStop, toRoute, imp.earliestCatch, st) ==>
                        v.departureSecs <= st.departureSecs)
                  && imp.additionalWait == Max(0, v.departureSecs - imp.schedConnDep)
    else imp.nextViableTrip == "" && imp.additionalWait == 0
  }

  /** The impacts of an event are the verdicts on every route at the far end of every transfer, other than none. */
  lemma {:induction false} AllImpactsExactly(w: World, ev: DelayEvent, xs: seq<Transfer>, imp: TransferImpact)
    ensures imp in AllImpacts(w, ev, xs) <==>
            exists x, r :: x in xs && r in w.g.RoutesAt(x.toStop) && EvaluateRoute(w, ev, x, r) == Some(imp)
  {
    if xs != [] {
      var front, last := xs[..|xs| - 1], xs[|xs| - 1];
      AllImpactsExactly(w, ev, front, imp);
      assert forall x :: x in xs <==> x in front || x == last;
      hide EvaluateRoute;
      assert imp in AllImpacts(w, ev, xs) <==>
             imp in AllImpacts(w, ev, front) || imp in ImpactsAt(w, ev, last, w.g.RoutesAt(last.toStop));
    }
  }

  lemma EvaluatesFields(w: World, ev: DelayEvent, x: Transfer, toRoute: string)
    requires EvaluateRoute(w, ev, x, toRoute).Some? && EvaluateRoute(w, ev, x, toRoute).value.broken
    ensures var imp := EvaluateRoute(w, ev, x, toRoute).value;
            var viable := Viable(w, ev, x, toRoute);
            && imp.toRoute == toRoute && imp.station == x.toStop
            && Connections(w, x, toRoute, ArrivalTod(w, ev)) != []
            && imp.schedConnDep == Connections(w, x, toRoute, ArrivalTod(w, ev))[0].departureSecs
            && imp.earliestCatch == EarliestCatch(w, ev, x, toRoute)
            && imp.nextViableTrip == (if viable == [] then "" else viable[0].tripId)
            && imp.additionalWait == (if viable == [] then 0 else Max(0, viable[0].departureSecs - imp.schedConnDep))
  {
  }

  lemma UnboardableConnection(w: World, ev: DelayEvent, x: Transfer, toRoute: string)
    requires EvaluateRoute(w, ev, x, toRoute).Some? && EvaluateRoute(w, ev, x, toRoute).value.broken
    ensures var c := Connections(w, x, toRoute, ArrivalTod(w, ev))[0];
            !Boardable(c.departureSecs, w.TripDelay(ev.agency, c.tripId, x.toStop), EarliestCatch(w, ev, x, toRoute))
  {
  }

  /** The missed connection is where the evaluator's own lookup starts. The viable departure never precedes it, so the
      clamp on the wait never fires, and it comes strictly later unless the connection was running early. */
  lemma ViableFollowsMissed(w: World, ev: DelayEvent, x: Transfer, toRoute: string)
    requires w.g.Sorted() && ev.delay > 0
    requires EvaluateRoute(w, ev, x, toRoute).Some? && EvaluateRoute(w, ev, x, toRoute).value.broken
    ensures var imp := EvaluateRoute(w, ev, x, toRoute).value;
            var c := Connections(w, x, toRoute, ArrivalTod(w, ev))[0];
            var viable := Viable(w, ev, x, toRoute);
            && imp.schedConnDep == c.departureSecs
            && FromMissed(w, x, toRoute, imp.schedConnDep) != [] && FromMissed(w, x, toRoute, imp.schedConnDep)[0] == c
            && (viable != [] ==>
                  && viable[0].departureSecs >= c.departureSecs
                  && imp.additionalWait == viable[0].departureSecs - c.departureSecs
                  && (w.TripDelay(ev.agency, c.tripId, x.toStop) >= 0 ==> imp.additionalWait > 0))
            && EarlierThan(FromMissed(w, x, toRoute, imp.schedConnDep), FromMissed(w, x, toRoute, imp.earliestCatch),
                           imp.earliestCatch)
  {
    var from := Frame(w, x, toRoute, ArrivalTod(w, ev)) + MinTransfer(x);
    EvaluatesFields(w, ev, x, toRoute);
    UnboardableConnection(w, ev, x, toRoute);
    hide EvaluateRoute, Frame;
    ChainFromMissed(w.g, w.g.Departures(x.toStop), toRoute, from, from + ev.delay);
  }

  lemma ChainFromMissed(g: Graph, list: seq<StopTime>, route: string, from: int, catch: int)
    requires SortedByDeparture(list) && from <= catch && OnRoute(g, list, route, from) != []
    ensures var c := OnRoute(g, list, route, from)[0];
            var rest := OnRoute(g, list, route, catch);
            && OnRoute(g, list, route, c.departureSecs) == OnRoute(g, list, route, from)
            && EarlierThan(OnRoute(g, list, route, from), rest, catch)
            && (rest != [] ==> rest[0].departureSecs >= catch && rest[0].departureSecs >= c.departureSecs)
  {
    var all := OnRoute(g, list, route, from);
    var rest := OnRoute(g, list, route, catch);
    OnRouteExact(g, list, route, from);
    OnRouteExact(g, list, route, catch);
    OnRouteSplit(g, list, route, from, catch);
    assert all[0] in all;
    if rest != [] { assert rest[0] in rest && rest[0] == all[|all| - |rest|]; }
    OnRouteSplit(g, list, route, from, all[0].departureSecs);
    var same := OnRoute(g, list, route, all[0].departureSecs);
    OnRouteFront(all, same);
  }

  lemma OnRouteFront(all: seq<StopTime>, same: seq<StopTime>)
    requires all != [] && |same| <= |all| && all[|all| - |same|..] == same
    requires forall i :: 0 <= i < |all| - |same| ==> all[i].departureSecs < all[0].departureSecs
    ensures same == all
  {
    var first := all[0];
    if |same| < |all| { assert false; }
  }

  /** The route's departures at the destination from a time on. */
  function FromMissed(w: World, x: Transfer, toRoute: string, after: int): seq<StopTime> {
    OnRoute(w.g, w.g.Departures(x.toStop), toRoute, after)
  }

  /** rest is the tail of all; what precedes it departs before the time. */
  ghost predicate EarlierThan(all: seq<StopTime>, rest: seq<StopTime>, time: int) {
    && |rest| <= |all| && all[|all| - |rest|..] == rest
    && forall k :: 0 <= k < |all| - |rest| ==> all[k].departureSecs < time
  }

  /* ---------------- the realized wait ---------------- */

  /** The trains the evaluator considers: the first ten departures from the missed connection on. */
  function Trains(w: World, p: Pending): seq<StopTime> {
    NextDepartures(w.g, p.sourceStation, p.route, p.schedConnDep, 10)
  }

  function TrainDelay(w: World, p: Pending, st: StopTime): int { w.TripDelay(p.agency, st.tripId, p.sourceStation) }

  predicate RightWay(w: World, p: Pending, st: StopTime) {
    !(p.direction >= 0 && st.tripId in w.g.tripDirection && w.g.tripDirection[st.tripId] != p.direction)
  }

  predicate Boards(w: World, p: Pending, st: StopTime) {
    RightWay(w, p, st) && Boardable(st.departureSecs, TrainDelay(w, p, st), p.earliestCatch)
  }

  function WaitFor(w: World, p: Pending, st: StopTime): int {
    Max(0, st.departureSecs + TrainDelay(w, p, st) - p.schedConnDep)
  }

  /** The i-th train is the one boarded: the first boardable one, with no train beyond the horizon up to it. */
  ghost predicate BoardedAt(w: World, p: Pending, i: int) {
    var trains := Trains(w, p);
    && 0 <= i < |trains| && Boards(w, p, trains[i])
    && (forall k :: 0 <= k < i ==> !Boards(w, p, trains[k]))
    && (forall k :: 0 <= k <= i ==> trains[k].departureSecs <= p.earliestCatch + PREDICTION_WINDOW_SECS)
  }

  /** Which train is boarded and what is waited for it, written out against the delays observed: the first of the ten
      that does not run the other way and is still there at the earliest catch time with its delay, provided no train
      up to it is scheduled more than half an hour after that time. */
  lemma BoardedExactly(w: World, p: Pending, i: nat, delays: nat -> int)
    requires i < |Trains(w, p)|
    requires forall k: nat :: k <= i ==> Reported(w, p.agency, Trains(w, p)[k].tripId, p.sourceStation, delays(k))
    ensures BoardedAt(w, p, i) <==>
            forall k: nat :: k <= i ==>
              var st := Trains(w, p)[k];
              && st.departureSecs <= p.earliestCatch + 1800
              && (k == i <==>
                    && (p.direction < 0 || st.tripId !in w.g.tripDirection ||
                        w.g.tripDirection[st.tripId] == p.direction)
                    && st.departureSecs + delays(k) >= p.earliestCatch)
    ensures var arrival := Trains(w, p)[i].departureSecs + delays(i);
            WaitFor(w, p, Trains(w, p)[i]) == if arrival > p.schedConnDep then arrival - p.schedConnDep else 0
  {
    forall k: nat | k <= i ensures TrainDelay(w, p, Trains(w, p)[k]) == delays(k) {
      TripDelayExactly(w, p.agency, Trains(w, p)[k].tripId, p.sourceStation, delays(k));
    }
    hide TrainDelay, Trains, Reported;
  }

  method RealizedWait(w: World, p: Pending) returns (wait: Option<int>)
    requires SortedByDeparture(w.g.Departures(p.sourceStation))
    ensures wait.Some? <==> exists i :: BoardedAt(w, p, i)
    ensures forall i :: BoardedAt(w, p, i) ==> wait == Some(WaitFor(w, p, Trains(w, p)[i]))
  {
    var deps := GetNextDepartures(w.g, p.sourceStation, p.route, p.schedConnDep, 10);
    var horizon := p.earliestCatch + PREDICTION_WINDOW_SECS;
    var i := 0;
    while i < |deps|
      invariant 0 <= i <= |deps|
      invariant forall k :: 0 <= k < i ==> !Boards(w, p, deps[k]) && deps[k].departureSecs <= horizon
    {
      var st := deps[i];
      if st.departureSecs > horizon {
        assert deps == Trains(w, p) && deps[i].departureSecs > horizon;
        return None;
      }
      if !RightWay(w, p, st) {
        i := i + 1;
        continue;
      }
      var realized := st.departureSecs + w.TripDelay(p.agency, st.tripId, p.sourceStation);
      if realized >= p.earliestCatch {
        var diff := realized - p.schedConnDep;
        if diff < 0 { diff := 0; }
        assert BoardedAt(w, p, i);
        return Some(diff);
      }
      i := i + 1;
    }
    wait := None;
  }

  /** What a sweep records for a popped pending. */
  ghost predicate Outcome(w: World, p: Pending, q: Pending) {
    if p.isPrimary && p.schedConnDep > 0 && exists i :: BoardedAt(w, p, i)
    then exists i :: BoardedAt(w, p, i) && q == p.(observedMax := WaitFor(w, p, Trains(w, p)[i]), matched := true)
    else q == p
  }

  /** What a sweep adds to the history: the wait of a transfer pair for a primary, a stop's delay for any other. */
  datatype Record =
    | PairRecord(fromRoute: string, route: string, station: string, hour: int, sourceDelay: int, wait: int)
    | StopRecord(route: string, station: string, hour: int, delay: int)

  /** The record of a finalized pending; one without a source station falls back to its own. */
  function RecordOf(q: Pending): Record {
    if q.isPrimary then
      PairRecord(q.fromRoute, q.route, if q.sourceStation == "" then q.station else q.sourceStation, q.hour,
                 q.sourceDelay, q.observedMax)
    else StopRecord(q.route, q.station, q.hour, q.observedMax)
  }

  method Finalize(w: World, p: Pending) returns (q: Pending, verified: bool, record: Record)
    requires SortedByDeparture(w.g.Departures(p.sourceStation))
    ensures Outcome(w, p, q) && record == RecordOf(q)
    ensures !p.isPrimary || p.schedConnDep <= 0 || (forall i :: !BoardedAt(w, p, i)) ==> q == p
    ensures p.isPrimary && p.schedConnDep > 0 ==>
              forall i :: BoardedAt(w, p, i) ==> q == p.(observedMax := WaitFor(w, p, Trains(w, p)[i]), matched := true)
    ensures verified <==> q.observedMax >= 15 && 2 * q.observedMax >= q.predicted
    ensures p.isPrimary ==>
              && record.PairRecord? && record.fromRoute == p.fromRoute && record.route == p.route
              && record.station == (if p.sourceStation == "" then p.station else p.sourceStation)
              && record.hour == p.hour && record.sourceDelay == p.sourceDelay && record.wait == q.observedMax
    ensures !p.isPrimary ==> record == StopRecord(p.route, p.station, p.hour, p.observedMax)
  {
    q := p;
    if p.isPrimary && p.schedConnDep > 0 {
      var wait := RealizedWait(w, p);
      if wait.Some? {
        ghost var i :| BoardedAt(w, p, i);
        q := p.(observedMax := wait.value, matched := true);
      }
    }
    verified := q.observedMax >= 15 && q.observedMax as real >= 0.5 * q.predicted as real;
    if q.isPrimary {
      var station := q.sourceStation;
      if station == "" { station := q.station; }
      record := PairRecord(q.fromRoute, q.route, station, q.hour, q.sourceDelay, q.observedMax);
    } else {
      record := StopRecord(q.route, q.station, q.hour, q.observedMax);
    }
  }

  /* ---------------- the detector and the evaluator agree ---------------- */

  /** p carries the impact's schedule frame, as TrackPrediction fills it in. */
  ghost predicate TracksImpact(w: World, imp: TransferImpact, p: Pending) {
    && p.route == imp.toRoute && p.sourceStation == w.g.Parent(imp.station)
    && p.schedConnDep == imp.schedConnDep && p.earliestCatch == imp.earliestCatch
    && p.direction == (if imp.nextViableTrip != "" && imp.nextViableTrip in w.g.tripDirection
                       then w.g.tripDirection[imp.nextViableTrip] else -1)
  }

  /** How many departures on the route lie from the missed connection up to the earliest catch time. */
  function MissedTrains(w: World, p: Pending): int {
    |OnRoute(w.g, w.g.Departures(p.sourceStation), p.route, p.schedConnDep)| -
    |OnRoute(w.g, w.g.Departures(p.sourceStation), p.route, p.earliestCatch)|
  }

  /** No train of the route has an observed delay at the station. */
  ghost predicate OnTime(w: World, p: Pending) {
    forall st :: st in w.g.Departures(p.sourceStation) && w.g.RouteOf(st.tripId) == p.route ==>
                 TrainDelay(w, p, st) == 0
  }

  /** w is the world the impact was detected in, later the world at finalization: the same schedule, later delays.
      On an on-time route the realized wait is found exactly when the next viable departure exists, is within the
      horizon and among the first ten; it then equals the wait the detector announced, direction filter or not. */
  lemma OnTimeExact(w: World, later: World, ev: DelayEvent, x: Transfer, toRoute: string, p: Pending, i: int)
    requires w.g.Sorted() && later.g == w.g && ev.delay > 0 && w.g.Parent(w.g.Parent(x.toStop)) == w.g.Parent(x.toStop)
    requires EvaluateRoute(w, ev, x, toRoute).Some? && EvaluateRoute(w, ev, x, toRoute).value.broken
    requires TracksImpact(w, EvaluateRoute(w, ev, x, toRoute).value, p) && OnTime(later, p)
    ensures var imp := EvaluateRoute(w, ev, x, toRoute).value;
            var viable := Viable(w, ev, x, toRoute);
            && (BoardedAt(later, p, i) <==>
                  && viable != [] && viable[0].departureSecs <= imp.earliestCatch + PREDICTION_WINDOW_SECS
                  && MissedTrains(later, p) == i < 10)
            && (BoardedAt(later, p, i) ==> WaitFor(later, p, Trains(later, p)[i]) == imp.additionalWait)
  {
    var imp := EvaluateRoute(w, ev, x, toRoute).value;
    ViableFollowsMissed(w, ev, x, toRoute);
    EvaluatesFields(w, ev, x, toRoute);
    hide EvaluateRoute, EarliestCatch, Connections, ArrivalTod;
    assert later.g.Departures(p.sourceStation) == w.g.Departures(x.toStop);
    TrainsOnTime(later, p, i);
  }

  /** Without observed delays the train boarded is the first departure at or after the earliest catch time. */
  lemma TrainsOnTime(w: World, p: Pending, i: int)
    requires SortedByDeparture(w.g.Departures(p.sourceStation)) && OnTime(w, p)
    requires var list := w.g.Departures(p.sourceStation);
             var rest := OnRoute(w.g, list, p.route, p.earliestCatch);
             && EarlierThan(OnRoute(w.g, list, p.route, p.schedConnDep), rest, p.earliestCatch)
             && (rest != [] ==> RightWay(w, p, rest[0]))
    ensures var rest := OnRoute(w.g, w.g.Departures(p.sourceStation), p.route, p.earliestCatch);
            && (BoardedAt(w, p, i) <==>
                  && rest != [] && rest[0].departureSecs <= p.earliestCatch + PREDICTION_WINDOW_SECS
                  && MissedTrains(w, p) == i < 10)
            && (BoardedAt(w, p, i) ==> WaitFor(w, p, Trains(w, p)[i]) == Max(0, rest[0].departureSecs - p.schedConnDep))
  {
    var list := w.g.Departures(p.sourceStation);
    var all := OnRoute(w.g, list, p.route, p.schedConnDep);
    var rest := OnRoute(w.g, list, p.route, p.earliestCatch);
    var trains := Trains(w, p);
    var n := |all| - |rest|;
    OnTimeTrains(w, p);
    OnRouteExact(w.g, list, p.route, p.earliestCatch);
    if rest != [] { assert rest[0] in rest && all[n] == rest[0]; }
    hide TrainDelay, OnRoute, Trains, OnTime, SortedByDeparture, RightWay, BoardedAt, WaitFor;
    FirstCaught(w, p, n, i);
  }

  /** When no train is late, the one boarded is the first that is not before the earliest catch time. */
  lemma FirstCaught(w: World, p: Pending, n: nat, i: int)
    requires var trains := Trains(w, p);
             && (forall k :: 0 <= k < |trains| ==> TrainDelay(w, p, trains[k]) == 0)
             && (forall k :: 0 <= k < n && k < |trains| ==> trains[k].departureSecs < p.earliestCatch)
             && (n < |trains| ==> trains[n].departureSecs >= p.earliestCatch && RightWay(w, p, trains[n]))
    ensures var trains := Trains(w, p);
            && (BoardedAt(w, p, i) <==>
                  n == i < |trains| && trains[n].departureSecs <= p.earliestCatch + PREDICTION_WINDOW_SECS)
            && (BoardedAt(w, p, i) ==> WaitFor(w, p, trains[i]) == Max(0, trains[i].departureSecs - p.schedConnDep))
  {
    hide TrainDelay, Trains, RightWay;
    var trains := Trains(w, p);
    forall k | 0 <= k < |trains| && k < n ensures !Boards(w, p, trains[k]) {}
    if n < |trains| { assert Boards(w, p, trains[n]); }
  }

  /** The trains are the route's first ten departures from the missed one on, none of them late. */
  lemma OnTimeTrains(w: World, p: Pending)
    requires SortedByDeparture(w.g.Departures(p.sourceStation)) && OnTime(w, p)
    ensures var all := OnRoute(w.g, w.g.Departures(p.sourceStation), p.route, p.schedConnDep);
            var trains := Trains(w, p);
            && |trains| == (if |all| < 10 then |all| else 10)
            && forall k :: 0 <= k < |trains| ==> trains[k] == all[k] && TrainDelay(w, p, trains[k]) == 0
  {
    var list := w.g.Departures(p.sourceStation);
    var all := OnRoute(w.g, list, p.route, p.schedConnDep);
    OnRouteExact(w.g, list, p.route, p.schedConnDep);
    hide OnRoute, TrainDelay;
    forall k | 0 <= k < |Trains(w, p)| ensures Trains(w, p)[k] == all[k] && TrainDelay(w, p, Trains(w, p)[k]) == 0 {
      assert all[k] in all;
    }
  }

  /** The missed connection itself is the first train the evaluator looks at, and seen with the delays the detector
      saw it is never the one boarded. */
  lemma MissedNeverBoarded(w: World, ev: DelayEvent, x: Transfer, toRoute: string, p: Pending)
    requires w.g.Sorted() && ev.delay > 0
    requires EvaluateRoute(w, ev, x, toRoute).Some? && EvaluateRoute(w, ev, x, toRoute).value.broken
    requires TracksImpact(w, EvaluateRoute(w, ev, x, toRoute).value, p)
    requires w.g.Parent(x.toStop) == x.toStop && p.agency == ev.agency
    ensures Trains(w, p) != [] && Trains(w, p)[0] == Connections(w, x, toRoute, ArrivalTod(w, ev))[0]
    ensures !BoardedAt(w, p, 0)
  {
    ViableFollowsMissed(w, ev, x, toRoute);
    BrokenMeansUnboardable(w, ev, x, toRoute);
    var c := Connections(w, x, toRoute, ArrivalTod(w, ev))[0];
    UnboardableConnection(w, ev, x, toRoute);
  }

}
