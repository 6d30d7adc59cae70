/** TrackPrediction: which impacts of a result become pending predictions (internal/evaluation/evaluator.go). */
module Registration {
  import opened Common
  import opened Schedule
  import opened Cascade
  import opened Tracking
  import opened PendingStore

  const MIN_TRACK_CONFIDENCE := 0.3
  const MAX_TRACKED := 20

  /** One TrackPrediction call: its inputs, the answers of the route scans, and at each attempt to add the shared
      counter's answer, the clock read and what becomes of the Add. */
  datatype Call = Call(
    g: Graph, agency: string, src: TransferImpact, impacts: seq<Impact>, delays: string -> Option<seq<Observed>>,
    hour: int, now: int, seqNo: nat -> nat, nanos: nat -> int, fates: nat -> AddFate)
  {
    function Direction(route: string): int {
      if route == src.toRoute && src.nextViableTrip != "" && src.nextViableTrip in g.tripDirection
      then g.tripDirection[src.nextViableTrip] else -1
    }

    function Make(i: nat, primary: int, attempt: nat): Pending
      requires i < |impacts|
    {
      var imp := impacts[i];
      Pending(
        PendingId(src.fromRoute, imp.routeId, imp.stopId, nanos(attempt), seqNo(attempt)),
        agency, src.fromRoute, imp.routeId, imp.stopId, g.Parent(src.station), Direction(imp.routeId), src.sourceDelay,
        imp.delay, Baseline(g, impacts, delays, (imp.routeId, imp.stopId)), src.schedConnDep, src.earliestCatch,
        imp.confidence, imp.hops, hour, i == primary, now, now + PREDICTION_WINDOW_SECS, 0, false)
    }

    /** The attempt reports an error, whatever the server did. */
    predicate Fails(attempt: nat) { !AddSucceeds(now + PREDICTION_WINDOW_SECS, fates(attempt)) }

    /** The attempt leaves its key on the server, whatever it reports. */
    predicate Reaches(attempt: nat) {
      InTime(now + PREDICTION_WINDOW_SECS, fates(attempt).now) && fates(attempt).executed >= 1
    }

    /** The primary, or confident enough. */
    predicate Eligible(i: nat, primary: int)
      requires i < |impacts|
    {
      i == primary || impacts[i].confidence >= MIN_TRACK_CONFIDENCE
    }
  }

  predicate Below(order: seq<nat>, n: nat) { forall k :: 0 <= k < |order| ==> order[k] < n }

  /** All indices below n other than the primary, ascending. */
  function Others(n: nat, primary: int): (order: seq<nat>)
    ensures Below(order, n)
  {
    if n == 0 then [] else Others(n - 1, primary) + if n - 1 == primary then [] else [n - 1]
  }

  /** The primary first, then the rest in result order. */
  function TrackOrder(n: nat, primary: int): (order: seq<nat>)
    requires primary < n
    ensures Below(order, n)
  {
    (if primary >= 0 then [primary] else []) + Others(n, primary)
  }

  /** The pendings handed to Add when the given indices are tried, from an attempt and a count of successes on. */
  function Attempted(c: Call, primary: int, order: seq<nat>, attempt: nat, count: nat): seq<Pending>
    requires Below(order, |c.impacts|)
  {
    if order == [] || count >= MAX_TRACKED then []
    else
      var i := order[0];
      if !c.Eligible(i, primary) then Attempted(c, primary, order[1..], attempt, count)
      else
        [c.Make(i, primary, attempt)] +
        Attempted(c, primary, order[1..], attempt + 1, if c.Fails(attempt) then count else count + 1)
  }

  /** Everything one call hands to Add, in order; the a-th of these is the a-th attempt. */
  function Added(c: Call, primary: int): seq<Pending>
    requires primary < |c.impacts|
  {
    Attempted(c, primary, TrackOrder(|c.impacts|, primary), 0, 0)
  }

  /** How many of the first n attempts succeed. */
  function Acked(c: Call, n: nat): (k: nat)
    ensures k <= n
  {
    if n == 0 then 0 else Acked(c, n - 1) + if c.Fails(n - 1) then 0 else 1
  }

  /** The server after the pendings were handed to Add one after the other. */
  function Registered(r: Redis, c: Call, ps: seq<Pending>): Redis {
    if ps == [] then r
    else ExecAll(Registered(r, c, ps[..|ps| - 1]), AddExecuted(ps[|ps| - 1], c.fates(|ps| - 1)))
  }

  method TrackPrediction(c: Call, pending: Store) returns (failed: bool, primary: int)
    modifies pending
    ensures IsPrimary(c.impacts, c.src.toRoute, primary) && primary < |c.impacts|
    ensures pending.redis == Registered(old(pending.redis), c, Added(c, primary))
    ensures failed <==> exists a: nat :: a < |Added(c, primary)| && c.Fails(a)
    ensures forall a: nat :: c.Fails(a) <==>
              c.fates(a).now >= c.now + 2400 || c.fates(a).executed < 4 || !c.fates(a).acked
  {
    var primaryIdx := FindPrimary(c.impacts, c.src.toRoute);
    primary := primaryIdx;
    var baselines := BaselineDelays(c.g, c.impacts, c.delays);
    var order := OrderImpacts(|c.impacts|, primaryIdx);
    failed := AddInOrder(c, primaryIdx, baselines, order, pending);
    AckedMeaning(c, |Added(c, primary)|);
  }

  /** The primary's index in front, then all others. */
  method OrderImpacts(n: nat, primaryIdx: int) returns (order: seq<nat>)
    requires primaryIdx < n
    ensures order == TrackOrder(n, primaryIdx)
  {
    order := if primaryIdx >= 0 then [primaryIdx] else [];
    ghost var head := order;
    for i := 0 to n
      invariant order == head + Others(i, primaryIdx)
    {
      if i != primaryIdx { order := order + [i]; }
    }
  }

  lemma {:induction false} AckedMeaning(c: Call, n: nat)
    ensures Acked(c, n) < n <==> exists a: nat :: a < n && c.Fails(a)
  {
    if n > 0 {
      AckedMeaning(c, n - 1);
      if a: nat :| a < n && c.Fails(a) { assert a == n - 1 || a < n - 1; }
    }
  }

  predicate HoldsBaselines(c: Call, baselines: map<Key, int>) {
    forall i :: 0 <= i < |c.impacts| ==>
      var k := (c.impacts[i].routeId, c.impacts[i].stopId);
      Lookup(baselines, k) == Baseline(c.g, c.impacts, c.delays, k)
  }

  /** The pending for one impact. */
  method MakePending(c: Call, i: nat, primaryIdx: int, baselines: map<Key, int>, attempt: nat) returns (p: Pending)
    requires i < |c.impacts| && HoldsBaselines(c, baselines)
    ensures p == c.Make(i, primaryIdx, attempt)
  {
    var imp, src := c.impacts[i], c.src;
    var direction := -1;
    if imp.routeId == src.toRoute && src.nextViableTrip != "" && src.nextViableTrip in c.g.tripDirection {
      direction := c.g.tripDirection[src.nextViableTrip];
    }
    p := Pending(
      PendingId(src.fromRoute, imp.routeId, imp.stopId, c.nanos(attempt), c.seqNo(attempt)),
      c.agency, src.fromRoute, imp.routeId, imp.stopId, c.g.Parent(src.station), direction, src.sourceDelay, imp.delay,
      Lookup(baselines, (imp.routeId, imp.stopId)), src.schedConnDep, src.earliestCatch, imp.confidence, imp.hops,
      c.hour, i == primaryIdx, c.now, c.now + PREDICTION_WINDOW_SECS, 0, false);
  }

  method AddOne(c: Call, i: nat, primaryIdx: int, baselines: map<Key, int>, attempt: nat, pending: Store)
    returns (ok: bool)
    requires i < |c.impacts| && HoldsBaselines(c, baselines)
    modifies pending
    ensures ok <==> !c.Fails(attempt)
    ensures pending.redis == ExecAll(old(pending.redis), AddExecuted(c.Make(i, primaryIdx, attempt), c.fates(attempt)))
  {
    var p := MakePending(c, i, primaryIdx, baselines, attempt);
    ok := pending.Add(p, c.fates(attempt));
  }

  /** Where the loop stands: what it has handed to Add, what the rest of the order will, and the counts. */
  ghost predicate Underway(
    c: Call, primary: int, order: seq<nat>, k: nat, before: Redis, done: seq<Pending>, tracked: nat, now: Redis)
    requires Below(order, |c.impacts|)
  {
    && k <= |order| && tracked == Acked(c, |done|) && now == Registered(before, c, done)
    && Attempted(c, primary, order, 0, 0) == done + Attempted(c, primary, order[k..], |done|, tracked)
  }

  lemma UnderwaySkip(
    c: Call, primary: int, order: seq<nat>, k: nat, before: Redis, done: seq<Pending>, tracked: nat, now: Redis)
    requires Below(order, |c.impacts|) && Underway(c, primary, order, k, before, done, tracked, now)
    requires k < |order| && tracked < MAX_TRACKED && !c.Eligible(order[k], primary)
    ensures Underway(c, primary, order, k + 1, before, done, tracked, now)
  {
    assert order[k..][1..] == order[k + 1..];
    hide Registered, Acked;
  }

  lemma Regroup<T>(a: seq<T>, x: T, b: seq<T>)
    ensures a + ([x] + b) == (a + [x]) + b && |a + [x]| == |a| + 1
  {
  }

  lemma AckedStep(c: Call, n: nat)
    ensures Acked(c, n + 1) == Acked(c, n) + if c.Fails(n) then 0 else 1
  {
  }

  lemma AttemptedAdd(c: Call, primary: int, order: seq<nat>, k: nat, attempt: nat, count: nat)
    requires Below(order, |c.impacts|) && k < |order| && count < MAX_TRACKED && c.Eligible(order[k], primary)
    ensures Attempted(c, primary, order[k..], attempt, count) ==
            [c.Make(order[k], primary, attempt)] +
            Attempted(c, primary, order[k + 1..], attempt + 1, if c.Fails(attempt) then count else count + 1)
  {
    assert order[k..][1..] == order[k + 1..];
    hide Baseline;
  }

  lemma UnderwayAdd(
    c: Call, primary: int, order: seq<nat>, k: nat, before: Redis, done: seq<Pending>, tracked: nat, now: Redis)
    requires Below(order, |c.impacts|) && Underway(c, primary, order, k, before, done, tracked, now)
    requires k < |order| && tracked < MAX_TRACKED && c.Eligible(order[k], primary)
    ensures var p := c.Make(order[k], primary, |done|);
            Underway(c, primary, order, k + 1, before, done + [p],
                     if c.Fails(|done|) then tracked else tracked + 1,
                     ExecAll(now, AddExecuted(p, c.fates(|done|))))
  {
    hide Attempted, Registered, Acked, ExecAll, AddExecuted, Call.Make, Call.Fails, Call.Eligible;
    var p := c.Make(order[k], primary, |done|);
    var count := if c.Fails(|done|) then tracked else tracked + 1;
    AttemptedAdd(c, primary, order, k, |done|, tracked);
    RegisteredStep(before, c, done, p);
    AckedStep(c, |done|);
    Regroup(done, p, Attempted(c, primary, order[k + 1..], |done| + 1, count));
  }

  lemma RegisteredStep(r: Redis, c: Call, ps: seq<Pending>, p: Pending)
    ensures Registered(r, c, ps + [p]) == ExecAll(Registered(r, c, ps), AddExecuted(p, c.fates(|ps|)))
  {
    var more := ps + [p];
    assert more[..|more| - 1] == ps;
  }

  /** The tracking loop: confidence filter, one Add per attempt, stop once enough have succeeded. */
  method AddInOrder(c: Call, primaryIdx: int, baselines: map<Key, int>, order: seq<nat>, pending: Store)
    returns (failed: bool)
    requires Below(order, |c.impacts|) && HoldsBaselines(c, baselines)
    modifies pending
    ensures var ps := Attempted(c, primaryIdx, order, 0, 0);
            && pending.redis == Registered(old(pending.redis), c, ps)
            && (failed <==> Acked(c, |ps|) < |ps|)
  {
    failed := false;
    var tracked, attempt: nat, k := 0, 0, 0;
    ghost var done: seq<Pending> := [];
    UnderwayStart(c, primaryIdx, order, pending.redis);
    while k < |order|
      invariant 0 <= k <= |order| && |done| == attempt && (failed <==> tracked < attempt)
      invariant Underway(c, primaryIdx, order, k, old(pending.redis), done, tracked, pending.redis)
    {
      if tracked >= MAX_TRACKED { break; }
      var i := order[k];
      if !c.Eligible(i, primaryIdx) {
        UnderwaySkip(c, primaryIdx, order, k, old(pending.redis), done, tracked, pending.redis);
        k := k + 1;
        continue;
      }
      UnderwayAdd(c, primaryIdx, order, k, old(pending.redis), done, tracked, pending.redis);
      k := k + 1;
      done := done + [c.Make(i, primaryIdx, attempt)];
      var ok := AddOne(c, i, primaryIdx, baselines, attempt, pending);
      attempt := attempt + 1;
      if !ok {
        failed := true;
        continue;
      }
      tracked := tracked + 1;
    }
    UnderwayEnd(c, primaryIdx, order, k, old(pending.redis), done, tracked, pending.redis);
  }

  lemma UnderwayStart(c: Call, primary: int, order: seq<nat>, r: Redis)
    requires Below(order, |c.impacts|)
    ensures Underway(c, primary, order, 0, r, [], 0, r)
  {
    assert order[0..] == order;
    assert Attempted(c, primary, order, 0, 0) == [] + Attempted(c, primary, order, 0, 0);
  }

  lemma UnderwayEnd(
    c: Call, primary: int, order: seq<nat>, k: nat, before: Redis, done: seq<Pending>, tracked: nat, now: Redis)
    requires Below(order, |c.impacts|) && Underway(c, primary, order, k, before, done, tracked, now)
    requires k == |order| || tracked >= MAX_TRACKED
    ensures done == Attempted(c, primary, order, 0, 0) && now == Registered(before, c, done)
    ensures tracked == Acked(c, |done|)
  {
    assert done + [] == done;
  }

  /* ---------------- what is handed to Add ---------------- */

  /** p was made from the k-th index of the order, on the attempt that comes a after the given one. */
  ghost predicate MadeFrom(c: Call, primary: int, order: seq<nat>, p: Pending, k: nat, attempt: nat, a: nat) {
    && k < |order| && order[k] < |c.impacts|
    && p == c.Make(order[k], primary, attempt + a) && c.Eligible(order[k], primary)
  }

  /** The indices worth tracking, in order. */
  function EligibleOf(c: Call, primary: int, order: seq<nat>): seq<nat>
    requires Below(order, |c.impacts|)
  {
    if order == [] then []
    else (if c.Eligible(order[0], primary) then [order[0]] else []) + EligibleOf(c, primary, order[1..])
  }

  /** Only the primary and confident impacts are handed to Add: where the a-th attempt from here comes from. */
  lemma {:induction false} AttemptedMeaning(c: Call, primary: int, order: seq<nat>, attempt: nat, count: nat, a: nat)
    returns (k: nat)
    requires Below(order, |c.impacts|) && a < |Attempted(c, primary, order, attempt, count)|
    ensures MadeFrom(c, primary, order, Attempted(c, primary, order, attempt, count)[a], k, attempt, a)
  {
    var i, rest := order[0], order[1..];
    if !c.Eligible(i, primary) {
      k := AttemptedMeaning(c, primary, rest, attempt, count, a);
      k := k + 1;
    } else if a == 0 {
      k := 0;
    } else {
      k := AttemptedMeaning(c, primary, rest, attempt + 1, if c.Fails(attempt) then count else count + 1, a - 1);
      k := k + 1;
    }
  }

  /** A pending written out against the impact it was made from and the call. */
  ghost predicate Describes(c: Call, k: nat, p: Pending)
    requires k < |c.impacts|
  {
    var imp := c.impacts[k];
    && p.agency == c.agency && p.fromRoute == c.src.fromRoute && p.route == imp.routeId && p.station == imp.stopId
    && p.sourceStation == c.g.Parent(c.src.station) && p.sourceDelay == c.src.sourceDelay
    && p.schedConnDep == c.src.schedConnDep && p.earliestCatch == c.src.earliestCatch
    && p.predicted == imp.delay && p.confidence == imp.confidence && p.hops == imp.hops
    && p.hour == c.hour && p.createdAt == c.now && p.expiresAt == c.now + 1800 && p.observedMax == 0 && !p.matched
  }

  /** No more than the trip of the next viable departure tells, and for the receiving route only. */
  ghost predicate RunsAsViable(c: Call, p: Pending) {
    if p.route == c.src.toRoute && c.src.nextViableTrip != "" && c.src.nextViableTrip in c.g.tripDirection
    then p.direction == c.g.tripDirection[c.src.nextViableTrip]
    else p.direction < 0
  }

  /** Where every pending handed to Add comes from, field by field. Its baseline is the largest delay scanned at its own
      route and station, never negative, when the route is among the first three of the result and its scan did not
      fail; otherwise zero. */
  lemma AddedFields(c: Call, primary: int, a: nat) returns (k: nat)
    requires primary < |c.impacts| && a < |Added(c, primary)|
    ensures var p := Added(c, primary)[a];
            && k < |c.impacts| && Describes(c, k, p) && RunsAsViable(c, p) && (p.isPrimary <==> k == primary)
            && p.id == PendingId(c.src.fromRoute, c.impacts[k].routeId, c.impacts[k].stopId, c.nanos(a), c.seqNo(a))
            && (p.isPrimary || p.confidence >= 0.3)
            && (FirstThree(c.impacts, p.route) && c.delays(p.route).Some? ==>
                  LargestAt(c.g, c.delays(p.route).value, p.station, p.baseline))
            && (!FirstThree(c.impacts, p.route) || c.delays(p.route).None? ==> p.baseline == 0)
  {
    var order := TrackOrder(|c.impacts|, primary);
    var at := AttemptedMeaning(c, primary, order, 0, 0, a);
    k := order[at];
    var p := Added(c, primary)[a];
    ScannedExactly(c.impacts, p.route);
    if c.delays(p.route).Some? { MaxDelayIsLargest(c.g, c.delays(p.route).value, p.station); }
    hide Added, ScannedRoutes, MaxDelayAt;
  }

  /** Each eligible index is tried at most once, and all of them are unless the cap on successes is reached. */
  lemma {:induction false} AttemptedSizes(c: Call, primary: int, order: seq<nat>, attempt: nat, count: nat)
    requires Below(order, |c.impacts|) && count <= MAX_TRACKED
    ensures var n, all := |Attempted(c, primary, order, attempt, count)|, |EligibleOf(c, primary, order)|;
            var acked := count + Acked(c, attempt + n) - Acked(c, attempt);
            n <= all && acked <= MAX_TRACKED && (acked < MAX_TRACKED ==> n == all)
  {
    if order != [] && count < MAX_TRACKED {
      var i, rest := order[0], order[1..];
      if c.Eligible(i, primary) {
        var count' := if c.Fails(attempt) then count else count + 1;
        AttemptedSizes(c, primary, rest, attempt + 1, count');
        assert Acked(c, attempt + 1) - Acked(c, attempt) == count' - count;
      } else {
        AttemptedSizes(c, primary, rest, attempt, count);
      }
    }
  }

  /** At most the cap of a call's Adds succeed; and all that is worth tracking was tried unless the cap was reached. */
  lemma TrackedWithinCap(c: Call, primary: int)
    requires primary < |c.impacts|
    ensures var ps := Added(c, primary);
            && Acked(c, |ps|) <= 20
            && (Acked(c, |ps|) < 20 ==>
                  |ps| == |EligibleOf(c, primary, TrackOrder(|c.impacts|, primary))|)
  {
    AttemptedSizes(c, primary, TrackOrder(|c.impacts|, primary), 0, 0);
  }

  /** Trying the rest of the order does not bring the count of successes to the cap. */
  ghost predicate StaysOpen(c: Call, primary: int, order: seq<nat>, attempt: nat, count: nat)
    requires Below(order, |c.impacts|)
  {
    count + Acked(c, attempt + |Attempted(c, primary, order, attempt, count)|) - Acked(c, attempt) < MAX_TRACKED
  }

  lemma StaysOpenHead(c: Call, primary: int, order: seq<nat>, attempt: nat, count: nat)
    requires Below(order, |c.impacts|) && order != [] && StaysOpen(c, primary, order, attempt, count)
    ensures count < MAX_TRACKED
    ensures !c.Eligible(order[0], primary) ==> StaysOpen(c, primary, order[1..], attempt, count)
    ensures c.Eligible(order[0], primary) ==>
              StaysOpen(c, primary, order[1..], attempt + 1, if c.Fails(attempt) then count else count + 1)
  {
    AckedMore(c, attempt, |Attempted(c, primary, order, attempt, count)|);
    AckedStep(c, attempt);
    AttemptedHead(c, primary, order, attempt, count);
    hide Attempted, Acked, Call.Make, Call.Fails, Call.Eligible;
  }

  lemma {:induction false} AttemptedAll(
    c: Call, primary: int, order: seq<nat>, attempt: nat, count: nat, k: nat) returns (a: nat)
    requires Below(order, |c.impacts|) && k < |order| && c.Eligible(order[k], primary)
    requires StaysOpen(c, primary, order, attempt, count)
    ensures var ps := Attempted(c, primary, order, attempt, count);
            a < |ps| && ps[a] == c.Make(order[k], primary, attempt + a)
  {
    StaysOpenHead(c, primary, order, attempt, count);
    AttemptedHead(c, primary, order, attempt, count);
    hide Attempted, StaysOpen, Call.Make, Call.Fails, Call.Eligible;
    if !c.Eligible(order[0], primary) {
      a := AttemptedAll(c, primary, order[1..], attempt, count, k - 1);
    } else if k == 0 {
      a := 0;
    } else {
      var next := if c.Fails(attempt) then count else count + 1;
      a := AttemptedAll(c, primary, order[1..], attempt + 1, next, k - 1);
      a := a + 1;
    }
  }

  lemma AttemptedHead(c: Call, primary: int, order: seq<nat>, attempt: nat, count: nat)
    requires Below(order, |c.impacts|) && order != [] && count < MAX_TRACKED
    ensures Attempted(c, primary, order, attempt, count) ==
            if !c.Eligible(order[0], primary) then Attempted(c, primary, order[1..], attempt, count)
            else [c.Make(order[0], primary, attempt)] +
                 Attempted(c, primary, order[1..], attempt + 1, if c.Fails(attempt) then count else count + 1)
  {
  }

  lemma {:induction false} AckedMore(c: Call, m: nat, n: nat)
    ensures Acked(c, m) <= Acked(c, m + n)
  {
    if n > 0 { AckedMore(c, m, n - 1); }
  }

  /** Unless twenty Adds have succeeded, the primary and every impact of confidence 0.3 or more has been tried. */
  lemma AllTried(c: Call, primary: int, k: nat) returns (a: nat)
    requires -1 <= primary < |c.impacts| && k < |c.impacts| && (k == primary || c.impacts[k].confidence >= 0.3)
    requires Acked(c, |Added(c, primary)|) < 20
    ensures a < |Added(c, primary)| && Describes(c, k, Added(c, primary)[a])
  {
    var order := TrackOrder(|c.impacts|, primary);
    OthersMeaning(|c.impacts|, primary);
    assert k in order;
    var at :| 0 <= at < |order| && order[at] == k;
    a := AttemptedAll(c, primary, order, 0, 0, at);
    hide Attempted, Baseline;
  }

  /** The primary is handed to Add first, before the cap or its confidence could keep it out, and nothing else is marked
      primary. */
  lemma PrimaryTrackedFirst(c: Call, primary: nat)
    requires primary < |c.impacts|
    ensures var ps := Added(c, primary);
            && ps != [] && ps[0] == c.Make(primary, primary, 0) && ps[0].isPrimary
            && forall a :: 0 < a < |ps| ==> !ps[a].isPrimary
  {
    var order := TrackOrder(|c.impacts|, primary);
    var rest := order[1..];
    assert rest == Others(|c.impacts|, primary);
    OthersMeaning(|c.impacts|, primary);
    var count := if c.Fails(0) then 0 else 1;
    var ps, tail := Added(c, primary), Attempted(c, primary, rest, 1, count);
    assert ps == [c.Make(primary, primary, 0)] + tail;
    forall a | 0 < a < |ps| ensures !ps[a].isPrimary {
      var b: nat := a - 1;
      var k := AttemptedMeaning(c, primary, rest, 1, count, b);
      assert rest[k] in rest;
    }
  }

  lemma {:induction false} OthersMeaning(n: nat, primary: int)
    ensures forall i: nat :: i in Others(n, primary) <==> i < n && i != primary
  {
    if n > 0 { OthersMeaning(n - 1, primary); }
  }

  /* ---------------- ids ---------------- */

  /** Each attempt uses its own draw from the shared counter. */
  lemma AddedNumbers(c: Call, primary: int, a: nat)
    requires primary < |c.impacts| && a < |Added(c, primary)|
    ensures Added(c, primary)[a].id.seqNo == c.seqNo(a)
  {
    var order := TrackOrder(|c.impacts|, primary);
    var k := AttemptedMeaning(c, primary, order, 0, 0, a);
  }

  /** What the atomic counter gives: no two draws, of one call or of two running side by side, are the same. */
  ghost predicate DistinctDraws(calls: seq<Call>) {
    forall i, j, a: nat, b: nat :: 0 <= i < |calls| && 0 <= j < |calls| && (i != j || a != b) ==>
                                     calls[i].seqNo(a) != calls[j].seqNo(b)
  }

  /** However many calls run concurrently, no two pendings they hand to Add share an id. */
  lemma TrackedIds(calls: seq<Call>, i: nat, j: nat, p: int, q: int, k: nat, l: nat)
    requires DistinctDraws(calls) && i < |calls| && j < |calls|
    requires p < |calls[i].impacts| && q < |calls[j].impacts| && (i == j ==> p == q)
    requires k < |Added(calls[i], p)| && l < |Added(calls[j], q)|
    requires Added(calls[i], p)[k].id == Added(calls[j], q)[l].id
    ensures i == j && k == l
  {
    AddedNumbers(calls[i], p, k);
    AddedNumbers(calls[j], q, l);
  }

  /* ---------------- what the server holds ---------------- */

  /** The ids whose key an Add left on the server. */
  function HeldIds(c: Call, ps: seq<Pending>): set<PendingId> {
    set a | 0 <= a < |ps| && c.Reaches(a) :: ps[a].id
  }

  lemma ExecutedKeys(r: Redis, p: Pending, f: AddFate)
    ensures ExecAll(r, AddExecuted(p, f)).store.Keys ==
            if InTime(p.expiresAt, f.now) && f.executed >= 1 then r.store.Keys + {p.id} else r.store.Keys
  {
    if InTime(p.expiresAt, f.now) {
      var n := if f.executed > 4 then 4 else f.executed;
      assert AddExecuted(p, f) == AddProgram(p)[..n];
      PrefixKeys(r, p, n);
    }
  }

  lemma PrefixKeys(r: Redis, p: Pending, n: nat)
    requires n <= 4
    ensures ExecAll(r, AddProgram(p)[..n]).store.Keys == if n == 0 then r.store.Keys else r.store.Keys + {p.id}
  {
    var cs := AddProgram(p)[..n];
    if n > 0 {
      assert cs[0] == SetPending(p);
      LaterCommands(Exec(r, cs[0]), cs[1..]);
    }
  }

  predicate NoKeyCommand(c: Command) { c.ZAddIndex? || c.ExpireIndex? || c.ZAddExpiry? }

  lemma {:induction false} LaterCommands(r: Redis, cs: seq<Command>)
    requires forall i :: 0 <= i < |cs| ==> NoKeyCommand(cs[i])
    ensures ExecAll(r, cs).store == r.store
    decreases |cs|
  {
    if cs != [] { LaterCommands(Exec(r, cs[0]), cs[1..]); }
  }

  /** The keys a call adds to the server are exactly those of the attempts that reached it. */
  lemma {:induction false} RegisteredKeys(r: Redis, c: Call, ps: seq<Pending>)
    requires forall a :: 0 <= a < |ps| ==> ps[a].expiresAt == c.now + PREDICTION_WINDOW_SECS
    ensures Registered(r, c, ps).store.Keys == r.store.Keys + HeldIds(c, ps)
  {
    if ps != [] {
      var n := |ps| - 1;
      RegisteredKeys(r, c, ps[..n]);
      ExecutedKeys(Registered(r, c, ps[..n]), ps[n], c.fates(n));
      HeldMore(c, ps, n);
      hide HeldIds, Registered;
      assert Registered(r, c, ps) == ExecAll(Registered(r, c, ps[..n]), AddExecuted(ps[n], c.fates(n))) by {
        RegisteredLast(r, c, ps);
      }
    }
  }

  lemma RegisteredLast(r: Redis, c: Call, ps: seq<Pending>)
    requires ps != []
    ensures Registered(r, c, ps) ==
            ExecAll(Registered(r, c, ps[..|ps| - 1]), AddExecuted(ps[|ps| - 1], c.fates(|ps| - 1)))
  {
  }

  lemma HeldMore(c: Call, ps: seq<Pending>, n: nat)
    requires |ps| == n + 1
    ensures HeldIds(c, ps) == HeldIds(c, ps[..n]) + if c.Reaches(n) then {ps[n].id} else {}
  {
    forall x ensures x in HeldIds(c, ps) <==> x in HeldIds(c, ps[..n]) || (c.Reaches(n) && x == ps[n].id) {
      if x in HeldIds(c, ps) {
        var a :| 0 <= a < |ps| && c.Reaches(a) && ps[a].id == x;
        assert a < n ==> ps[..n][a] == ps[a];
      }
      if x in HeldIds(c, ps[..n]) {
        var a :| 0 <= a < n && c.Reaches(a) && ps[..n][a].id == x;
        assert ps[a] == ps[..n][a];
      }
    }
  }

  ghost predicate AllReachApart(c: Call, ps: seq<Pending>) {
    && (forall a :: 0 <= a < |ps| ==> c.Reaches(a))
    && (forall a, b :: 0 <= a < b < |ps| ==> ps[a].id != ps[b].id)
  }

  /** The server holds no more than was handed to it, and exactly as much when everything reaches it and ids differ. */
  lemma {:induction false} HeldCount(c: Call, ps: seq<Pending>)
    ensures |HeldIds(c, ps)| <= |ps|
    ensures AllReachApart(c, ps) ==> |HeldIds(c, ps)| == |ps|
  {
    if ps != [] {
      var n := |ps| - 1;
      HeldCount(c, ps[..n]);
      HeldMore(c, ps, n);
      assert ps[n].id in HeldIds(c, ps[..n]) ==> exists a :: 0 <= a < n && ps[a].id == ps[n].id;
      hide HeldIds;
    }
  }

  /** The impacts worth tracking. */
  function Eligibles(c: Call, primary: int): set<nat> {
    set i: nat | i < |c.impacts| && c.Eligible(i, primary)
  }

  function EligibleBelow(c: Call, primary: int, n: nat): set<nat>
    requires n <= |c.impacts|
  {
    set i: nat | i < n && i != primary && c.Eligible(i, primary)
  }

  lemma EligibleBelowMore(c: Call, primary: int, m: nat)
    requires m < |c.impacts|
    ensures EligibleBelow(c, primary, m + 1) ==
            EligibleBelow(c, primary, m) + if m != primary && c.Eligible(m, primary) then {m} else {}
  {
  }

  lemma {:induction false} EligibleOthers(c: Call, primary: int, n: nat)
    requires n <= |c.impacts|
    ensures |EligibleOf(c, primary, Others(n, primary))| == |EligibleBelow(c, primary, n)|
  {
    if n > 0 {
      var m := n - 1;
      var others := Others(m, primary);
      EligibleOthers(c, primary, m);
      EligibleBelowMore(c, primary, m);
      assert m !in EligibleBelow(c, primary, m);
      hide EligibleBelow;
      if m == primary {
        assert Others(n, primary) == others;
      } else {
        EligibleAppend(c, primary, others, [m]);
        assert EligibleOf(c, primary, [m]) == if c.Eligible(m, primary) then [m] else [];
        hide EligibleOf;
      }
    }
  }

  lemma {:induction false} EligibleAppend(c: Call, primary: int, a: seq<nat>, b: seq<nat>)
    requires Below(a, |c.impacts|) && Below(b, |c.impacts|)
    ensures EligibleOf(c, primary, a + b) == EligibleOf(c, primary, a) + EligibleOf(c, primary, b)
  {
    if a == [] {
      assert a + b == b;
    } else {
      EligibleAppend(c, primary, a[1..], b);
      assert (a + b)[1..] == a[1..] + b;
    }
  }

  lemma EligibleCount(c: Call, primary: int)
    requires -1 <= primary < |c.impacts|
    ensures |EligibleOf(c, primary, TrackOrder(|c.impacts|, primary))| == |Eligibles(c, primary)|
  {
    var n := |c.impacts|;
    var rest := EligibleBelow(c, primary, n);
    EligibleOthers(c, primary, n);
    if primary >= 0 {
      EligibleAppend(c, primary, [primary], Others(n, primary));
      assert Eligibles(c, primary) == rest + {primary};
    } else {
      assert [] + Others(n, primary) == Others(n, primary);
      assert Eligibles(c, primary) == rest;
    }
  }

  /** Every reply lost: the server does everything, the caller sees nothing but errors. */
  function Lost(c: Call): Call { c.(fates := _ => AddFate(c.now, 4, false)) }

  lemma LostHolds(c: Call, primary: int)
    requires -1 <= primary < |c.impacts| && DistinctDraws([c])
    ensures |HeldIds(Lost(c), Added(Lost(c), primary))| == |Eligibles(c, primary)|
  {
    var d := Lost(c);
    var ps := Added(d, primary);
    assert forall a: nat :: d.Fails(a) && d.Reaches(a);
    NoneAcked(d, |ps|);
    TrackedWithinCap(d, primary);
    EligibleCount(d, primary);
    assert Eligibles(d, primary) == Eligibles(c, primary);
    assert DistinctDraws([d]) by {
      forall a: nat, b: nat | a != b ensures d.seqNo(a) != d.seqNo(b) { assert [c][0].seqNo(a) != [c][0].seqNo(b); }
    }
    forall a: nat, b: nat | a < b < |ps| ensures ps[a].id != ps[b].id {
      AddedNumbers(d, primary, a);
      AddedNumbers(d, primary, b);
      assert [d][0].seqNo(a) != [d][0].seqNo(b);
    }
    HeldCount(d, ps);
  }

  lemma {:induction false} NoneAcked(c: Call, n: nat)
    requires forall a: nat :: c.Fails(a)
    ensures Acked(c, n) == 0
  {
    if n > 0 { NoneAcked(c, n - 1); }
  }

  /** The cap is on successes, not on what the server ends up with: under every pattern of failures the server holds at
      most the cap of one call's pendings, if and only if no more than that are worth tracking. */
  lemma HeldWithinCapExactly(c: Call, primary: int)
    requires -1 <= primary < |c.impacts| && DistinctDraws([c])
    ensures |Eligibles(c, primary)| <= 20 <==>
            forall fates :: |HeldIds(c.(fates := fates), Added(c.(fates := fates), primary))| <= 20
  {
    if |Eligibles(c, primary)| <= MAX_TRACKED {
      forall fates ensures |HeldIds(c.(fates := fates), Added(c.(fates := fates), primary))| <= MAX_TRACKED {
        var d := c.(fates := fates);
        HeldCount(d, Added(d, primary));
        AttemptedSizes(d, primary, TrackOrder(|d.impacts|, primary), 0, 0);
        EligibleCount(d, primary);
        assert Eligibles(d, primary) == Eligibles(c, primary);
      }
    } else {
      LostHolds(c, primary);
    }
  }
}
