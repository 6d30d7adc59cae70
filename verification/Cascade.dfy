/** The cascade walk of internal/propagation/engine.go: its steps as a transition relation in which heap ties and
    map order are open choices, and the imperative walk that follows it. */
module Cascade {
  import opened Common
  import opened Schedule
  import opened ImpactHeap

  /** routeID:parentStationID */
  type Key = (string, string)

  datatype Config = Config(
    baseDwellSecs: int, dwellElasticity: real, loadIncreasePct: real, confidenceDecay: real, minConfidence: real,
    minDelayThreshold: int, maxDepth: int, maxImpacts: int, perStopMinCount: int)

  const DEFAULT_CONFIG := Config(30, 0.3, 0.15, 0.7, 0.2, 15, 5, 100, 5)

  /** The dwell added per stop: extraDwell, rounded. */
  function DwellStepOf(cfg: Config): int {
    Round(cfg.baseDwellSecs as real * cfg.loadIncreasePct * cfg.dwellElasticity)
  }

  /** What one Propagate call reads: the graph, the configuration, the live-delay snapshot, the per-stop averages
      with their sample counts (absent when unavailable), and the time of day. */
  datatype Env = Env(g: Graph, cfg: Config, live: map<Key, int>, stopHist: map<Key, (real, nat)>, tod: int)
  {
    function LiveDelay(k: Key): int { if k in live then live[k] else 0 }

    function KeyOf(item: Item): Key { (item.routeId, g.Parent(item.stopId)) }

    function DwellStep(): int { DwellStepOf(cfg) }

    /** An impact is expanded only below the depth limit and at or above the delay threshold. */
    predicate Expands(item: Item) { item.hops < cfg.maxDepth && item.delay >= cfg.minDelayThreshold }
  }

  /** The arguments of one seedDownstream call. */
  datatype Seed = Seed(
    route: string, station: string, dir: int, startDelay: int, baseConf: real, hops: int, kind: ImpactType)

  /* ---------------- seedDownstream ---------------- */

  const SHRINKAGE_K := 10.0

  /** The shrinkage blend of an observed average with a model value. */
  function Blend(average: real, count: nat, model: real): real {
    var w := count as real / (count as real + SHRINKAGE_K);
    w * average + (1.0 - w) * model
  }

  function BlendPerStop(env: Env, route: string, stop: string, modelDelay: int): int {
    var k := (route, env.g.Parent(stop));
    if k !in env.stopHist || env.stopHist[k].1 < env.cfg.perStopMinCount then modelDelay
    else Round(Blend(env.stopHist[k].0, env.stopHist[k].1, modelDelay as real))
  }

  /** The model's accumulated delay at the i-th stop, before blending. */
  function Accumulated(env: Env, seed: Seed, i: nat): int {
    if i == 0 then seed.startDelay else Accumulated(env, seed, i - 1) + env.DwellStep()
  }

  function RunConfidence(env: Env, seed: Seed, i: nat): real {
    seed.baseConf * Pow(env.cfg.confidenceDecay, i + 1)
  }

  /** The item pushed for the i-th downstream stop. */
  function RunItem(env: Env, seed: Seed, stop: string, i: nat): Item {
    Item(seed.route, stop,
         if i == 0 then seed.startDelay else BlendPerStop(env, seed.route, stop, Accumulated(env, seed, i)),
         if i == 0 then seed.baseConf else RunConfidence(env, seed, i),
         seed.hops, seed.kind, seed.dir)
  }

  /** The cut-off applied from the second stop on. */
  predicate RunPasses(env: Env, seed: Seed, i: nat) {
    && RunConfidence(env, seed, i) >= env.cfg.minConfidence
    && Accumulated(env, seed, i) >= env.cfg.minDelayThreshold
  }

  function RunFrom(env: Env, seed: Seed, ds: seq<StopTime>, i: nat): seq<Item>
    requires i <= |ds|
    decreases |ds| - i
  {
    if i == |ds| || (i > 0 && !RunPasses(env, seed, i)) then []
    else [RunItem(env, seed, ds[i].stopId, i)] + RunFrom(env, seed, ds, i + 1)
  }

  function SeedDownstreamStops(env: Env, seed: Seed): seq<StopTime> {
    Downstream(env.g, seed.route, seed.station, seed.dir)
  }

  /** The items one seedDownstream call pushes, in order. */
  function SeedItems(env: Env, seed: Seed): seq<Item> { RunFrom(env, seed, SeedDownstreamStops(env, seed), 0) }

  lemma {:induction false} AccumulatedClosed(env: Env, seed: Seed, i: nat)
    ensures Accumulated(env, seed, i) == seed.startDelay + i * env.DwellStep()
  {
    if i > 0 {
      var d := env.DwellStep();
      AccumulatedClosed(env, seed, i - 1);
      assert (i - 1) * d + d == i * d;
    }
  }

  /* ---------------- propagateTransfers ---------------- */

  function MinTransfer(x: Transfer): int { if x.minTransferTime <= 0 then 120 else x.minTransferTime }

  function Destination(env: Env, x: Transfer, toRoute: string): Key { (toRoute, env.g.Parent(x.toStop)) }

  function CascadeDelay(env: Env, p: Item): int { Trunc(p.delay as real * env.cfg.dwellElasticity) }

  function CascadeConfidence(env: Env, p: Item): real { p.confidence * env.cfg.confidenceDecay }

  /** The margin, confidence and delay gates a connecting route must pass. */
  predicate Breaks(env: Env, p: Item, x: Transfer, toRoute: string) {
    && toRoute in env.g.RoutesAt(x.toStop) && toRoute != p.routeId
    && p.delay >= MinTransfer(x) + env.LiveDelay(Destination(env, x, toRoute))
    && CascadeConfidence(env, p) >= env.cfg.minConfidence
    && CascadeDelay(env, p) >= env.cfg.minDelayThreshold
  }

  function TransferItem(env: Env, p: Item, x: Transfer, toRoute: string): Item {
    Item(toRoute, x.toStop, CascadeDelay(env, p), CascadeConfidence(env, p), p.hops + 1, CascadeTransfer, 0)
  }

  /** The items pushed for one transfer and the given routes at its destination. */
  ghost function OneTransferOver(env: Env, visited: set<Key>, p: Item, x: Transfer, routes: set<string>): set<Item> {
    set r | r in routes && Breaks(env, p, x, r) && Destination(env, x, r) !in visited :: TransferItem(env, p, x, r)
  }

  ghost function OneTransfer(env: Env, visited: set<Key>, p: Item, x: Transfer): set<Item> {
    OneTransferOver(env, visited, p, x, env.g.RoutesAt(x.toStop))
  }

  /** The items pushed over a list of outbound transfers; the order over routes at one destination is open. */
  ghost function TransferItems(env: Env, visited: set<Key>, p: Item, xs: seq<Transfer>): multiset<Item> {
    if xs == [] then multiset{}
    else multiset(OneTransfer(env, visited, p, xs[0])) + TransferItems(env, visited, p, xs[1..])
  }

  /* ---------------- the walk ---------------- */

  function DeriveDirection(env: Env, route: string, station: string): Option<int> {
    var (deps, _) := NextDeparturesWrapped(env.g, station, route, env.tod, 1);
    if deps == [] then None else env.g.KnownDirection(deps[0].tripId)
  }

  /** The ripple seeded by a cascade onto a new route. */
  function Ripple(env: Env, p: Item, dir: int): Seed {
    Seed(p.routeId, env.g.Parent(p.stopId), dir, p.delay, p.confidence, p.hops, CascadeDwell)
  }

  function RippleItems(env: Env, p: Item): seq<Item> {
    if p.kind != CascadeTransfer then []
    else
      match DeriveDirection(env, p.routeId, env.g.Parent(p.stopId))
      case None => []
      case Some(dir) => SeedItems(env, Ripple(env, p, dir))
  }

  function OutboundTransfers(env: Env, p: Item): seq<Transfer> { env.g.TransfersFrom(env.g.Parent(p.stopId)) }

  /** Everything pushed while an accepted impact is processed. */
  ghost function Pushes(env: Env, visited: set<Key>, p: Item): multiset<Item> {
    if !env.Expands(p) then multiset{}
    else TransferItems(env, visited, p, OutboundTransfers(env, p)) + multiset(RippleItems(env, p))
  }

  datatype WalkState = WalkState(queue: multiset<Item>, visited: set<Key>, impacts: seq<Item>)

  ghost function Initial(env: Env, src: Seed): WalkState {
    WalkState(multiset(SeedItems(env, src)), {}, [])
  }

  ghost function Next(env: Env, s: WalkState, item: Item): WalkState {
    var rest := s.queue - multiset{item};
    var k := env.KeyOf(item);
    if k in s.visited then s.(queue := rest)
    else
      var visited := s.visited + {k};
      WalkState(rest + Pushes(env, visited, item), visited, s.impacts + [item])
  }

  /** One iteration of the loop, whichever of the greatest items the heap happens to yield. */
  ghost predicate StepOn(env: Env, s: WalkState, item: Item, s': WalkState) {
    Greatest(item, s.queue) && s' == Next(env, s, item)
  }

  ghost predicate Step(env: Env, s: WalkState, s': WalkState) { exists item :: StepOn(env, s, item, s') }

  /** A run of the loop from the seeded queue. The impact cap is not part of a run, so what holds of every run
      holds with any cap and with none. */
  ghost predicate IsRun(env: Env, src: Seed, run: seq<WalkState>) {
    && |run| > 0 && run[0] == Initial(env, src)
    && forall i :: 0 <= i < |run| - 1 ==> Step(env, run[i], run[i + 1])
  }

  ghost function Last(run: seq<WalkState>): WalkState
    requires |run| > 0
  {
    run[|run| - 1]
  }

  /** Every iteration was entered below the cap. */
  ghost predicate Capped(env: Env, run: seq<WalkState>) {
    forall i :: 0 <= i < |run| - 1 ==> |run[i].impacts| < env.cfg.maxImpacts
  }

  /** The loop's exit: the queue is empty or the cap is reached. */
  ghost predicate Finished(env: Env, s: WalkState) {
    s.queue == multiset{} || |s.impacts| >= env.cfg.maxImpacts
  }

  /* ---------------- sources ---------------- */

  datatype TransferImpact = TransferImpact(
    fromTrip: string, fromRoute: string, toRoute: string, station: string, sourceDelay: int, originalMargin: int,
    remainingMargin: int, broken: bool, detectedAt: int, nextViableTrip: string, additionalWait: int,
    schedConnDep: int, earliestCatch: int)

  datatype Impact = Impact(
    routeId: string, stopId: string, delay: int, confidence: real, hops: int, kind: ImpactType)

  function ToImpact(env: Env, item: Item): Impact {
    Impact(item.routeId, env.g.Parent(item.stopId), item.delay, item.confidence, item.hops, item.kind)
  }

  function ToImpacts(env: Env, items: seq<Item>): seq<Impact> {
    seq(|items|, i requires 0 <= i < |items| => ToImpact(env, items[i]))
  }

  const MAX_CONNECTING_DELAY_ADD_SECS := 900.0

  /** GetScheduledHeadway: past-midnight service is bucketed at hours 24-27. */
  function ScheduledHeadway(g: Graph, route: string, dir: int, stop: string, secs: int): Option<real> {
    var hour := GoDiv(secs, 3600);
    var station := g.Parent(stop);
    if hour < 0 || hour > 27 then None
    else if (route, dir, station, hour) in g.headways then Some(g.headways[(route, dir, station, hour)])
    else if hour < 4 && (route, dir, station, hour + 24) in g.headways
      then Some(g.headways[(route, dir, station, hour + 24)])
    else None
  }

  /** The schedule-based estimate, before history is blended in. */
  function ScheduleEstimate(env: Env, imp: TransferImpact, dir: int, connectingDelay: int): real {
    if imp.fromRoute != "" && imp.fromRoute == imp.toRoute then imp.sourceDelay as real
    else
      var wait := imp.additionalWait as real;
      var hw := ScheduledHeadway(env.g, imp.toRoute, dir, imp.station, env.tod);
      var guarded := if hw.Some? && hw.value / 2.0 > wait then hw.value / 2.0 else wait;
      var base := if guarded <= 0.0
                  then imp.sourceDelay as real * env.cfg.loadIncreasePct * env.cfg.dwellElasticity else guarded;
      if connectingDelay <= 0 then base
      else
        var add := connectingDelay as real;
        base + if hw.Some? then (if add > hw.value then hw.value else add)
               else if add > MAX_CONNECTING_DELAY_ADD_SECS then MAX_CONNECTING_DELAY_ADD_SECS else add
  }

  function InitialDelay(
    env: Env, imp: TransferImpact, dir: int, connectingDelay: int, histAvg: real, histCount: nat): int
  {
    Round(Blend(histAvg, histCount, ScheduleEstimate(env, imp, dir, connectingDelay)))
  }

  function SourceDirection(env: Env, imp: TransferImpact): int {
    if imp.nextViableTrip != "" then env.g.DirectionOf(imp.nextViableTrip) else 0
  }

  function HourOf(tod: int): int { GoDiv(tod, 3600) % 24 }

  /** The history entry a walk reads: the transfer pair, the parent station and the hour of the day. */
  function HistoryKey(env: Env, imp: TransferImpact): (string, string, string, int) {
    (imp.fromRoute, imp.toRoute, env.g.Parent(imp.station), HourOf(env.tod))
  }

  /** The seed of the whole walk. */
  function SourceSeed(env: Env, imp: TransferImpact, histAvg: real, histCount: nat): Seed {
    var dir := SourceDirection(env, imp);
    var conn := env.LiveDelay((imp.toRoute, env.g.Parent(imp.station)));
    Seed(imp.toRoute, imp.station, dir, InitialDelay(env, imp, dir, conn, histAvg, histCount), 1.0, 1, DwellIncrease)
  }

  /** A seed as Propagate makes it: full confidence at one hop. */
  predicate IsSource(src: Seed) { src.baseConf == 1.0 && src.hops == 1 && src.kind == DwellIncrease }

  /* ---------------- the universe of keys ---------------- */

  function Routes(env: Env, src: Seed): set<string> {
    {src.route} + set s, r | s in env.g.routesAtStop && r in env.g.routesAtStop[s] :: r
  }

  function Places(env: Env): set<string> {
    (set t, st | t in env.g.byTrip && st in env.g.byTrip[t] :: env.g.Parent(st.stopId)) +
    (set s, x | s in env.g.transfersByStop && x in env.g.transfersByStop[s] :: env.g.Parent(x.toStop))
  }

  /** Every key the walk can visit: a finite set. */
  function Universe(env: Env, src: Seed): set<Key> {
    set r, p | r in Routes(env, src) && p in Places(env) :: (r, p)
  }

  ghost predicate InUniverse(env: Env, src: Seed, s: WalkState) {
    && s.visited <= Universe(env, src)
    && forall q :: q in s.queue ==> env.KeyOf(q) in Universe(env, src)
  }

  lemma {:induction false} RunFromMember(env: Env, seed: Seed, ds: seq<StopTime>, i: nat)
    requires i <= |ds|
    ensures var run := RunFrom(env, seed, ds, i);
            && i + |run| <= |ds|
            && (forall n :: i <= n < i + |run| ==> run[n - i] == RunItem(env, seed, ds[n].stopId, n))
            && (forall n :: i <= n < i + |run| && n > 0 ==> RunPasses(env, seed, n))
            && (i + |run| < |ds| ==> i + |run| > 0 && !RunPasses(env, seed, i + |run|))
    decreases |ds| - i
  {
    if i < |ds| && !(i > 0 && !RunPasses(env, seed, i)) {
      RunFromMember(env, seed, ds, i + 1);
      var rest := RunFrom(env, seed, ds, i + 1);
      var run := RunFrom(env, seed, ds, i);
      assert run == [RunItem(env, seed, ds[i].stopId, i)] + rest;
      forall n | i <= n < i + |run| ensures run[n - i] == RunItem(env, seed, ds[n].stopId, n) {
        if n > i { assert run[n - i] == rest[n - (i + 1)]; }
      }
    }
  }

  /** The items of a seed: the i-th is for the i-th downstream stop, up to the first that fails the cut-off. */
  lemma SeedItemsMeaning(env: Env, seed: Seed)
    ensures var ds := SeedDownstreamStops(env, seed);
            var items := SeedItems(env, seed);
            && |items| <= |ds|
            && (ds != [] ==> items != [])
            && (forall i :: 0 <= i < |items| ==> items[i] == RunItem(env, seed, ds[i].stopId, i))
            && (forall i :: 0 < i < |items| ==> RunPasses(env, seed, i))
            && (|items| < |ds| ==> |items| > 0 && !RunPasses(env, seed, |items|))
  {
    var ds := SeedDownstreamStops(env, seed);
    var items := SeedItems(env, seed);
    RunFromMember(env, seed, ds, 0);
    forall i | 0 <= i < |items| ensures items[i] == RunItem(env, seed, ds[i].stopId, i) {
      assert items[i] == items[i - 0];
    }
  }

  /** Downstream stops are rows of an indexed trip. */
  lemma DownstreamIndexed(env: Env, route: string, stop: string, dir: int)
    ensures forall st :: st in Downstream(env.g, route, stop, dir) ==>
                         exists t :: t in env.g.byTrip && st in env.g.byTrip[t]
  {
    var list := env.g.Departures(stop);
    var station := env.g.Parent(stop);
    DownstreamMeaning(env.g, list, route, station, dir);
    var ds := Downstream(env.g, route, stop, dir);
    if ds != [] {
      var i, k :| 0 <= i < |list| && 0 <= k && Continues(env.g, list[i].tripId, k, route, station, dir) &&
                  ds == env.g.TripStops(list[i].tripId)[k + 1..];
      var t := list[i].tripId;
      assert t in env.g.byTrip && env.g.TripStops(t) == env.g.byTrip[t];
      forall st | st in ds ensures st in env.g.byTrip[t] {}
    }
  }

  lemma SeedInUniverse(env: Env, src: Seed, seed: Seed)
    requires seed.route in Routes(env, src)
    ensures forall q :: q in SeedItems(env, seed) ==> env.KeyOf(q) in Universe(env, src)
  {
    SeedItemsMeaning(env, seed);
    var ds := SeedDownstreamStops(env, seed);
    var items := SeedItems(env, seed);
    DownstreamIndexed(env, seed.route, seed.station, seed.dir);
    forall q | q in items ensures env.KeyOf(q) in Universe(env, src) {
      var i :| 0 <= i < |items| && items[i] == q;
      assert ds[i] in ds;
      var t :| t in env.g.byTrip && ds[i] in env.g.byTrip[t];
      assert env.g.Parent(ds[i].stopId) in Places(env);
    }
  }

  /** A pushed connection breaks some outbound transfer towards an unvisited key. */
  lemma {:induction false} TransferItemsMeaning(env: Env, visited: set<Key>, p: Item, xs: seq<Transfer>)
    ensures forall c :: c in TransferItems(env, visited, p, xs) <==>
                        exists x, r :: x in xs && Breaks(env, p, x, r) && Destination(env, x, r) !in visited &&
                                       c == TransferItem(env, p, x, r)
  {
    if xs != [] {
      TransferItemsMeaning(env, visited, p, xs[1..]);
      assert xs == [xs[0]] + xs[1..];
      forall c
        ensures c in TransferItems(env, visited, p, xs) <==>
                exists x, r :: x in xs && Breaks(env, p, x, r) && Destination(env, x, r) !in visited &&
                               c == TransferItem(env, p, x, r)
      {
        assert c in TransferItems(env, visited, p, xs) <==>
               c in OneTransfer(env, visited, p, xs[0]) || c in TransferItems(env, visited, p, xs[1..]);
      }
    }
  }

  lemma PushesInUniverse(env: Env, src: Seed, visited: set<Key>, p: Item)
    requires p.routeId in Routes(env, src)
    ensures forall q :: q in Pushes(env, visited, p) ==> env.KeyOf(q) in Universe(env, src)
  {
    if env.Expands(p) {
      var xs := OutboundTransfers(env, p);
      TransferItemsMeaning(env, visited, p, xs);
      forall q | q in TransferItems(env, visited, p, xs) ensures env.KeyOf(q) in Universe(env, src) {
        var x, r :| x in xs && Breaks(env, p, x, r) && Destination(env, x, r) !in visited &&
                    q == TransferItem(env, p, x, r);
        assert env.g.Parent(x.toStop) in Places(env);
        assert r in Routes(env, src);
      }
      if p.kind == CascadeTransfer {
        match DeriveDirection(env, p.routeId, env.g.Parent(p.stopId))
        case None =>
        case Some(dir) => SeedInUniverse(env, src, Ripple(env, p, dir));
      }
    }
  }

  /** The termination argument, which never mentions the cap: an iteration visits a new key of a finite universe or
      shortens the queue. */
  lemma StepDecreases(env: Env, src: Seed, s: WalkState, s': WalkState)
    requires InUniverse(env, src, s) && Step(env, s, s')
    ensures InUniverse(env, src, s')
    ensures var u := Universe(env, src);
            || |u - s'.visited| < |u - s.visited|
            || (s'.visited == s.visited && |s'.queue| < |s.queue|)
  {
    var item :| StepOn(env, s, item, s');
    var k := env.KeyOf(item);
    var u := Universe(env, src);
    assert forall q :: q in s.queue - multiset{item} ==> q in s.queue;
    if k !in s.visited {
      assert k in u;
      PushesInUniverse(env, src, s.visited + {k}, item);
      SmallerSet(u - s'.visited, u - s.visited, k);
    }
  }

  lemma ExtendRun(env: Env, src: Seed, run: seq<WalkState>, s: WalkState)
    requires IsRun(env, src, run) && Capped(env, run) && |Last(run).impacts| < env.cfg.maxImpacts
    requires Step(env, Last(run), s)
    ensures IsRun(env, src, run + [s]) && Capped(env, run + [s])
  {
  }

  lemma SmallerSet<T>(a: set<T>, b: set<T>, x: T)
    requires a <= b && x in b && x !in a
    ensures |a| < |b|
  {
    assert |b| == |a + (b - a)| == |a| + |b - a|;
    assert x in b - a;
  }

  /* ---------------- the imperative walk ---------------- */

  class Walk {
    const pq: ImpactQueue
    var visited: set<Key>
    var impacts: seq<Item>

    constructor ()
      ensures pq.Valid() && fresh(pq) && fresh(pq.data)
      ensures pq.Items() == multiset{} && visited == {} && impacts == []
    {
      pq := new ImpactQueue();
      visited := {};
      impacts := [];
    }

    ghost function State(): WalkState
      requires pq.Valid()
      reads this, pq, pq.data
    {
      WalkState(pq.Items(), visited, impacts)
    }

    method SeedDownstream(env: Env, seed: Seed)
      requires pq.Valid()
      modifies pq, pq.data
      ensures pq.Valid() && (pq.data == old(pq.data) || fresh(pq.data))
      ensures pq.Items() == old(pq.Items()) + multiset(SeedItems(env, seed))
    {
      var downstream := GetDownstreamStops(env.g, seed.route, seed.station, seed.dir);
      if |downstream| == 0 { return; }
      pq.Push(Item(seed.route, downstream[0].stopId, seed.startDelay, seed.baseConf, seed.hops, seed.kind, seed.dir));
      SeedRest(env, seed, downstream);
      RunBagIsRun(env, seed, downstream, 1);
      assert SeedItems(env, seed) == [RunItem(env, seed, downstream[0].stopId, 0)] + RunFrom(env, seed, downstream, 1);
    }

    /** The accumulating loop over the stops past the first. */
    method SeedRest(env: Env, seed: Seed, downstream: seq<StopTime>)
      requires pq.Valid() && |downstream| > 0
      modifies pq, pq.data
      ensures pq.Valid() && (pq.data == old(pq.data) || fresh(pq.data))
      ensures pq.Items() == old(pq.Items()) + RunBag(env, seed, downstream, 1)
    {
      var accumulated := seed.startDelay;
      var i := 1;
      while i < |downstream|
        invariant 1 <= i <= |downstream|
        invariant pq.Valid() && (pq.data == old(pq.data) || fresh(pq.data))
        invariant accumulated == Accumulated(env, seed, i - 1)
        invariant pq.Items() + RunBag(env, seed, downstream, i) == old(pq.Items()) + RunBag(env, seed, downstream, 1)
      {
        accumulated := accumulated + env.DwellStep();
        var more := SeedOne(env, seed, downstream, i, accumulated);
        if !more { break; }
        i := i + 1;
      }
    }

    /** The loop body: the cut-off on confidence and accumulated delay, then the push of the blended delay. */
    method SeedOne(env: Env, seed: Seed, downstream: seq<StopTime>, i: nat, accumulated: int) returns (more: bool)
      requires pq.Valid() && 0 < i < |downstream| && accumulated == Accumulated(env, seed, i)
      modifies pq, pq.data
      ensures pq.Valid() && (pq.data == old(pq.data) || fresh(pq.data))
      ensures more ==> pq.Items() + RunBag(env, seed, downstream, i + 1) ==
                       old(pq.Items()) + RunBag(env, seed, downstream, i)
      ensures !more ==> pq.Items() == old(pq.Items()) && RunBag(env, seed, downstream, i) == multiset{}
    {
      var conf := RunConfidence(env, seed, i);
      if conf < env.cfg.minConfidence || accumulated < env.cfg.minDelayThreshold { return false; }
      pq.Push(Item(seed.route, downstream[i].stopId,
                   BlendPerStop(env, seed.route, downstream[i].stopId, accumulated),
                   conf, seed.hops, seed.kind, seed.dir));
      more := true;
    }

    method PropagateTransfers(env: Env, p: Item)
      requires pq.Valid()
      modifies pq, pq.data
      ensures pq.Valid() && (pq.data == old(pq.data) || fresh(pq.data))
      ensures pq.Items() == old(pq.Items()) + TransferItems(env, visited, p, OutboundTransfers(env, p))
    {
      var transfers := OutboundTransfers(env, p);
      assert transfers[0..] == transfers;
      var i := 0;
      while i < |transfers|
        invariant 0 <= i <= |transfers|
        invariant pq.Valid() && (pq.data == old(pq.data) || fresh(pq.data))
        invariant pq.Items() + TransferItems(env, visited, p, transfers[i..]) ==
                  old(pq.Items()) + TransferItems(env, visited, p, transfers)
      {
        PropagateOne(env, p, transfers[i]);
        i := i + 1;
      }
    }

    /** The inner loop over the routes at one destination, in any order. */
    method PropagateOne(env: Env, p: Item, x: Transfer)
      requires pq.Valid()
      modifies pq, pq.data
      ensures pq.Valid() && (pq.data == old(pq.data) || fresh(pq.data))
      ensures pq.Items() == old(pq.Items()) + multiset(OneTransfer(env, visited, p, x))
    {
      var all := env.g.RoutesAt(x.toStop);
      var remaining := all;
      while remaining != {}
        invariant remaining <= all
        invariant pq.Valid() && (pq.data == old(pq.data) || fresh(pq.data))
        invariant pq.Items() == old(pq.Items()) + multiset(OneTransferOver(env, visited, p, x, all - remaining))
        decreases remaining
      {
        var toRoute :| toRoute in remaining;
        ghost var handled := all - remaining;
        OneTransferStep(env, visited, p, x, handled, toRoute);
        remaining := remaining - {toRoute};
        assert all - remaining == handled + {toRoute};
        ConsiderRoute(env, p, x, toRoute);
      }
      assert all - remaining == all;
    }

    /** The gates of the innermost loop body, in the order they are applied. */
    method ConsiderRoute(env: Env, p: Item, x: Transfer, toRoute: string)
      requires pq.Valid() && toRoute in env.g.RoutesAt(x.toStop)
      modifies pq, pq.data
      ensures pq.Valid() && (pq.data == old(pq.data) || fresh(pq.data))
      ensures pq.Items() == old(pq.Items()) +
                            if Breaks(env, p, x, toRoute) && Destination(env, x, toRoute) !in visited
                            then multiset{TransferItem(env, p, x, toRoute)} else multiset{}
    {
      if toRoute == p.routeId { return; }
      if Destination(env, x, toRoute) in visited { return; }
      if p.delay < MinTransfer(x) + env.LiveDelay(Destination(env, x, toRoute)) { return; }
      var newConf := CascadeConfidence(env, p);
      if newConf < env.cfg.minConfidence { return; }
      var newDelay := CascadeDelay(env, p);
      if newDelay < env.cfg.minDelayThreshold { return; }
      pq.Push(Item(toRoute, x.toStop, newDelay, newConf, p.hops + 1, CascadeTransfer, 0));
    }

    /** What the main loop does with an impact it has accepted. */
    method Expand(env: Env, item: Item)
      requires pq.Valid() && env.g.Sorted()
      modifies pq, pq.data
      ensures pq.Valid() && (pq.data == old(pq.data) || fresh(pq.data))
      ensures pq.Items() == old(pq.Items()) + Pushes(env, visited, item)
    {
      if !(item.hops < env.cfg.maxDepth && item.delay >= env.cfg.minDelayThreshold) { return; }
      PropagateTransfers(env, item);
      if item.kind == CascadeTransfer {
        var parent := env.g.Parent(item.stopId);
        var deps, _ := NextDeparturesAfter(env.g, parent, item.routeId, env.tod, 1);
        if |deps| > 0 && deps[0].tripId in env.g.tripDirection {
          SeedDownstream(env, Ripple(env, item, env.g.tripDirection[deps[0].tripId]));
        }
      }
    }

    /** One pass of the main loop. */
    method Iterate(env: Env)
      requires pq.Valid() && pq.len > 0 && env.g.Sorted()
      modifies this, pq, pq.data
      ensures pq.Valid() && (pq.data == old(pq.data) || fresh(pq.data))
      ensures Step(env, old(State()), State())
    {
      ghost var s := State();
      var item := pq.Pop();
      var key := env.KeyOf(item);
      if key !in visited {
        visited := visited + {key};
        impacts := impacts + [item];
        Expand(env, item);
      }
      assert StepOn(env, s, item, State());
    }

    /** The main loop, extending the run that led to the current state. */
    method Drain(env: Env, ghost src: Seed, ghost soFar: seq<WalkState>) returns (ghost run: seq<WalkState>)
      requires pq.Valid() && env.g.Sorted()
      requires IsRun(env, src, soFar) && Capped(env, soFar) && Last(soFar) == State()
      requires InUniverse(env, src, State())
      modifies this, pq, pq.data
      ensures IsRun(env, src, run) && Capped(env, run) && Finished(env, Last(run))
      ensures impacts == Last(run).impacts
    {
      run := soFar;
      while pq.len > 0
        invariant pq.Valid() && (pq.data == old(pq.data) || fresh(pq.data))
        invariant IsRun(env, src, run) && Capped(env, run) && Last(run) == State()
        invariant InUniverse(env, src, State())
        decreases |Universe(env, src) - visited|, |pq.Items()|
      {
        if |impacts| >= env.cfg.maxImpacts { return; }
        ghost var s := State();
        Iterate(env);
        StepDecreases(env, src, s, State());
        ExtendRun(env, src, run, State());
        run := run + [State()];
      }
      ItemsEmpty(pq);
    }
  }

  /** RunFrom as a collection: what the loop from stop i on adds to the queue. */
  ghost function RunBag(env: Env, seed: Seed, ds: seq<StopTime>, i: nat): multiset<Item>
    requires 0 < i <= |ds|
    decreases |ds| - i
  {
    if i == |ds| || !RunPasses(env, seed, i) then multiset{}
    else multiset{RunItem(env, seed, ds[i].stopId, i)} + RunBag(env, seed, ds, i + 1)
  }

  lemma {:induction false} RunBagIsRun(env: Env, seed: Seed, ds: seq<StopTime>, i: nat)
    requires 0 < i <= |ds|
    ensures RunBag(env, seed, ds, i) == multiset(RunFrom(env, seed, ds, i))
    decreases |ds| - i
  {
    if i < |ds| && RunPasses(env, seed, i) { RunBagIsRun(env, seed, ds, i + 1); }
  }

  lemma OneTransferStep(env: Env, visited: set<Key>, p: Item, x: Transfer, routes: set<string>, r: string)
    requires r !in routes
    ensures multiset(OneTransferOver(env, visited, p, x, routes + {r})) ==
            multiset(OneTransferOver(env, visited, p, x, routes)) +
            if Breaks(env, p, x, r) && Destination(env, x, r) !in visited
            then multiset{TransferItem(env, p, x, r)} else multiset{}
  {
    var before := OneTransferOver(env, visited, p, x, routes);
    var after := OneTransferOver(env, visited, p, x, routes + {r});
    if Breaks(env, p, x, r) && Destination(env, x, r) !in visited {
      assert TransferItem(env, p, x, r) !in before && after == before + {TransferItem(env, p, x, r)};
    } else {
      assert after == before;
    }
  }

  lemma ItemsEmpty(pq: ImpactQueue)
    requires pq.Valid()
    ensures pq.Items() == multiset{} <==> pq.len == 0
  {
    if pq.len > 0 { assert pq.data[..pq.len][0] in pq.Items(); }
  }

  /** Propagate, given the history average for the transfer pair: its answer is that of a run entered below the cap
      at every step and stopped at the loop's exit. */
  method Propagate(env: Env, imp: TransferImpact, histAvg: real, histCount: nat) returns (impacts: seq<Impact>)
    requires env.g.Sorted()
    ensures exists run :: IsRun(env, SourceSeed(env, imp, histAvg, histCount), run) && Capped(env, run) &&
                          Finished(env, Last(run)) && impacts == ToImpacts(env, Last(run).impacts)
  {
    var src := SourceSeed(env, imp, histAvg, histCount);
    var w := new Walk();
    w.SeedDownstream(env, src);
    SeedInUniverse(env, src, src);
    ghost var run := w.Drain(env, src, [w.State()]);
    impacts := ToImpacts(env, w.impacts);
  }
}
