/** Reconciled delay state per trip and stop (internal/state/manager.go). */
module Reconcile {
  import opened Common
  import opened Events

  const SMOOTHING_THRESHOLD := 120
  const SMOOTHING_ALPHA := 0.7
  const SMOOTHING_MAX_UPDATES := 3
  const CONFIDENCE_INIT := 0.5
  const CONFIDENCE_STEP := 0.1
  const CONFIDENCE_MAX := 1.0
  const CONFIDENCE_CLOSE_DELTA := 30

  /** agency, trip, stop */
  type Key = (string, string, string)

  datatype DelayState = DelayState(
    agency: string, trip: string, route: string, stop: string,
    delay: int, observedAt: int, confidence: real, updateCount: int)

  /** Redis during one call: whether the reading command succeeds, and the fate of the writing one. */
  datatype Faults = Faults(read: bool, write: Reply)

  function KeyOf(ev: DelayEvent): Key { (ev.agency, ev.trip, ev.stop) }

  predicate OfTrip(k: Key, agency: string, trip: string) { k.0 == agency && k.1 == trip }

  predicate Observation(ev: DelayEvent) { ev.kind == ArrivalDelay || ev.kind == DepartureDelay }

  function Lookup(store: map<Key, DelayState>, k: Key): Option<DelayState> {
    if k in store then Some(store[k]) else None
  }

  /* ---------------- one observation ---------------- */

  function RouteFor(tripRoute: map<string, string>, ev: DelayEvent): string {
    if ev.route != "" then ev.route else if ev.trip in tripRoute then tripRoute[ev.trip] else ""
  }

  predicate Dampened(s: DelayState, delay: int) {
    Abs(delay - s.delay) > SMOOTHING_THRESHOLD && s.updateCount < SMOOTHING_MAX_UPDATES
  }

  function FinalDelay(s: DelayState, delay: int): int {
    if Dampened(s, delay) then Round(SMOOTHING_ALPHA * delay as real + (1.0 - SMOOTHING_ALPHA) * s.delay as real)
    else delay
  }

  function NextConfidence(s: DelayState, delay: int): real {
    if Abs(delay - s.delay) > CONFIDENCE_CLOSE_DELTA then CONFIDENCE_INIT
    else if s.confidence + CONFIDENCE_STEP > CONFIDENCE_MAX then CONFIDENCE_MAX
    else s.confidence + CONFIDENCE_STEP
  }

  /** The record that follows an accepted observation. */
  function Absorb(tripRoute: map<string, string>, prior: Option<DelayState>, ev: DelayEvent): DelayState {
    var route := RouteFor(tripRoute, ev);
    match prior
    case None => DelayState(ev.agency, ev.trip, route, ev.stop, ev.delay, ev.observedAt, CONFIDENCE_INIT, 1)
    case Some(s) =>
      DelayState(ev.agency, ev.trip, route, ev.stop, FinalDelay(s, ev.delay), ev.observedAt,
                 NextConfidence(s, ev.delay), s.updateCount + 1)
  }

  /** The store after one call. */
  function After(tripRoute: map<string, string>, store: map<Key, DelayState>, ev: DelayEvent, f: Faults)
    : map<Key, DelayState>
  {
    var k := KeyOf(ev);
    if ev.kind == TripCancelled then
      if f.read && f.write.Lands() then map j | j in store && !OfTrip(j, ev.agency, ev.trip) :: store[j] else store
    else if ev.kind == SkipStop then
      if f.write.Lands() then store - {k} else store
    else if !f.read || (k in store && ev.observedAt < store[k].observedAt) || !f.write.Lands() then store
    else store[k := Absorb(tripRoute, Lookup(store, k), ev)]
  }

  /** Whether the call reports success. */
  predicate Succeeds(store: map<Key, DelayState>, ev: DelayEvent, f: Faults) {
    var k := KeyOf(ev);
    if ev.kind == TripCancelled then
      f.read && (f.write.Applied? || forall j :: j in store ==> !OfTrip(j, ev.agency, ev.trip))
    else if ev.kind == SkipStop then f.write.Applied?
    else f.read && (f.write.Applied? || (k in store && ev.observedAt < store[k].observedAt))
  }

  /** No fault at all. */
  const CALM := Faults(true, Applied)

  /** Success means that the whole effect took place: the store is as after a call that met no fault. A failure is
      always that of a command: of the read, or of the write, unless there is nothing to write. */
  lemma SuccessMeansDone(tripRoute: map<string, string>, store: map<Key, DelayState>, ev: DelayEvent, f: Faults)
    ensures Succeeds(store, ev, f) ==> After(tripRoute, store, ev, f) == After(tripRoute, store, ev, CALM)
    ensures Succeeds(store, ev, f) <==>
            && (f.read || ev.kind == SkipStop)
            && (f.write == Applied || (ev.kind != SkipStop && After(tripRoute, store, ev, CALM) == store))
  {
    var k, calm := KeyOf(ev), After(tripRoute, store, ev, CALM);
    if ev.kind == TripCancelled {
      assert forall j :: j in calm <==> j in store && !OfTrip(j, ev.agency, ev.trip);
    } else if Observation(ev) && k in store && !(ev.observedAt < store[k].observedAt) {
      assert calm[k].updateCount == store[k].updateCount + 1;
    }
  }

  class DelayStateManager {
    const tripRoute: map<string, string>
    var store: map<Key, DelayState>

    constructor (tripRoute: map<string, string>, store: map<Key, DelayState>)
      ensures this.tripRoute == tripRoute && this.store == store
    {
      this.tripRoute := tripRoute;
      this.store := store;
    }

    method Set(k: Key, s: DelayState, reply: Reply) returns (ok: bool)
      modifies this
      ensures store == if reply.Lands() then old(store)[k := s] else old(store)
      ensures ok == reply.Applied?
    {
      if reply.Lands() { store := store[k := s]; }
      ok := reply.Applied?;
    }

    method Del(keys: seq<Key>, reply: Reply) returns (ok: bool)
      modifies this
      ensures store == if reply.Lands() then map j | j in old(store) && j !in keys :: old(store)[j] else old(store)
      ensures ok == reply.Applied?
    {
      if reply.Lands() { store := map j | j in store && j !in keys :: store[j]; }
      ok := reply.Applied?;
    }

    /** A scan in any order, then one deletion of everything it found. */
    method ClearTripDelays(agency: string, trip: string, f: Faults) returns (ok: bool)
      modifies this
      ensures store ==
        if f.read && f.write.Lands() then map j | j in old(store) && !OfTrip(j, agency, trip) :: old(store)[j]
        else old(store)
      ensures ok == (f.read && (f.write.Applied? || forall j :: j in old(store) ==> !OfTrip(j, agency, trip)))
    {
      if !f.read { return false; }
      var keys := [];
      var todo := store.Keys;
      while todo != {}
        invariant todo <= store.Keys && store == old(store)
        invariant forall j :: j in keys <==> j in store.Keys - todo && OfTrip(j, agency, trip)
        decreases todo
      {
        var k :| k in todo;
        todo := todo - {k};
        if OfTrip(k, agency, trip) { keys := keys + [k]; }
      }
      if |keys| == 0 {
        assert forall j :: j in store ==> j !in keys;
        return true;
      }
      assert keys[0] in keys && keys[0] in store;
      ok := Del(keys, f.write);
    }

    method ProcessEvent(ev: DelayEvent, f: Faults) returns (ok: bool)
      modifies this
      ensures store == After(tripRoute, old(store), ev, f)
      ensures ok == Succeeds(old(store), ev, f)
    {
      var k := KeyOf(ev);
      match ev.kind {
        case TripCancelled =>
          ok := ClearTripDelays(ev.agency, ev.trip, f);
          return;
        case SkipStop =>
          ok := Del([k], f.write);
          return;
        case _ =>
      }
      if !f.read { return false; }
      var routeId := ev.route;
      if routeId == "" { routeId := if ev.trip in tripRoute then tripRoute[ev.trip] else ""; }
      if k !in store {
        ok := Set(k, DelayState(ev.agency, ev.trip, routeId, ev.stop, ev.delay, ev.observedAt, CONFIDENCE_INIT, 1),
                  f.write);
        return;
      }
      var existing := store[k];
      if ev.observedAt < existing.observedAt { return true; }
      var incoming, stored := ev.delay, existing.delay;
      var finalDelay := incoming;
      if Abs(incoming - stored) > SMOOTHING_THRESHOLD && existing.updateCount < SMOOTHING_MAX_UPDATES {
        finalDelay := Round(SMOOTHING_ALPHA * incoming as real + (1.0 - SMOOTHING_ALPHA) * stored as real);
      }
      var conf := existing.confidence;
      if Abs(incoming - stored) <= CONFIDENCE_CLOSE_DELTA {
        conf := conf + CONFIDENCE_STEP;
        if conf > CONFIDENCE_MAX { conf := CONFIDENCE_MAX; }
      } else {
        conf := CONFIDENCE_INIT;
      }
      ok := Set(k, DelayState(ev.agency, ev.trip, routeId, ev.stop, finalDelay, ev.observedAt, conf,
                              existing.updateCount + 1), f.write);
    }
  }

  /* ---------------- whole runs ---------------- */

  /** A delivery under some faults, or the expiry of a key. */
  datatype Step = Deliver(ev: DelayEvent, faults: Faults) | Expire(key: Key)

  /** The store after a run that began empty. */
  function Stored(tripRoute: map<string, string>, run: seq<Step>): map<Key, DelayState> {
    if run == [] then map[]
    else
      var store := Stored(tripRoute, run[..|run| - 1]);
      match run[|run| - 1]
      case Deliver(ev, f) => After(tripRoute, store, ev, f)
      case Expire(k) => store - {k}
  }

  predicate Late(received: seq<DelayEvent>, ev: DelayEvent) {
    exists i :: 0 <= i < |received| && ev.observedAt < received[i].observedAt
  }

  /** The observations of a key that Redis took in since its last retraction or expiry, defined on the run alone. */
  function Received(k: Key, run: seq<Step>): seq<DelayEvent> {
    if run == [] then []
    else
      var r := Received(k, run[..|run| - 1]);
      match run[|run| - 1]
      case Expire(j) => if j == k then [] else r
      case Deliver(ev, f) =>
        if ev.kind == TripCancelled then
          if k.0 == ev.agency && k.1 == ev.trip && f.read && f.write.Lands() then [] else r
        else if ev.kind == SkipStop then
          if k == (ev.agency, ev.trip, ev.stop) && f.write.Lands() then [] else r
        else if k == (ev.agency, ev.trip, ev.stop) && f.read && (f.write.Lands() || Late(r, ev)) then r + [ev]
        else r
  }

  /** The received observations that were not older than an earlier one. */
  function Accepted(received: seq<DelayEvent>): seq<DelayEvent> {
    if received == [] then []
    else
      var before := received[..|received| - 1];
      var ev := received[|received| - 1];
      Accepted(before) + if Late(before, ev) then [] else [ev]
  }

  /** The record that results from accepting the observations one after the other. */
  function Reconciled(tripRoute: map<string, string>, accepted: seq<DelayEvent>): Option<DelayState> {
    if accepted == [] then None
    else Some(Absorb(tripRoute, Reconciled(tripRoute, accepted[..|accepted| - 1]), accepted[|accepted| - 1]))
  }

  /** The last accepted observation is the newest one received. */
  lemma {:induction false} NewestAccepted(received: seq<DelayEvent>)
    requires received != []
    ensures Accepted(received) != []
    ensures var newest := Accepted(received)[|Accepted(received)| - 1];
            newest in received && forall i :: 0 <= i < |received| ==> received[i].observedAt <= newest.observedAt
  {
    var before := received[..|received| - 1];
    if before != [] { NewestAccepted(before); }
  }

  /** The record reached by a run is the one obtained from the accepted observations in order, and a key is stored
      exactly when an observation came in since its last retraction: nothing else influences it. */
  lemma {:induction false} StoredIsReconciled(tripRoute: map<string, string>, run: seq<Step>, k: Key)
    ensures Lookup(Stored(tripRoute, run), k) == Reconciled(tripRoute, Accepted(Received(k, run)))
  {
    if run != [] {
      var before, step := run[..|run| - 1], run[|run| - 1];
      StoredIsReconciled(tripRoute, before, k);
      var r := Received(k, before);
      AcceptedMore(tripRoute, r, step);
      if step.Deliver? {
        LateExactly(tripRoute, r, step.ev);
        KeyAfter(tripRoute, Stored(tripRoute, before), step.ev, step.faults, k);
      }
      hide After, Absorb, Accepted, Reconciled, Late, KeyOf;
    }
  }

  /** What one call does to one key depends on that key's record alone. */
  lemma KeyAfter(tripRoute: map<string, string>, store: map<Key, DelayState>, ev: DelayEvent, f: Faults, k: Key)
    ensures Lookup(After(tripRoute, store, ev, f), k) ==
            var s := Lookup(store, k);
            if ev.kind == TripCancelled then
              if OfTrip(k, ev.agency, ev.trip) && f.read && f.write.Lands() then None else s
            else if ev.kind == SkipStop then
              if KeyOf(ev) == k && f.write.Lands() then None else s
            else if KeyOf(ev) != k || !f.read || !f.write.Lands() ||
                    (s.Some? && ev.observedAt < s.value.observedAt) then s
            else Some(Absorb(tripRoute, s, ev))
  {
    hide Absorb;
  }

  /** Being late is being older than the stored record. */
  lemma LateExactly(tripRoute: map<string, string>, r: seq<DelayEvent>, ev: DelayEvent)
    ensures var s := Reconciled(tripRoute, Accepted(r));
            Late(r, ev) <==> s.Some? && ev.observedAt < s.value.observedAt
  {
    if r != [] {
      NewestAccepted(r);
    }
  }

  lemma AcceptedMore(tripRoute: map<string, string>, r: seq<DelayEvent>, step: Step)
    ensures Reconciled(tripRoute, Accepted([])) == None
    ensures step.Deliver? ==>
              Reconciled(tripRoute, Accepted(r + [step.ev])) ==
              if Late(r, step.ev) then Reconciled(tripRoute, Accepted(r))
              else Some(Absorb(tripRoute, Reconciled(tripRoute, Accepted(r)), step.ev))
  {
    if step.Deliver? {
      var all := r + [step.ev];
      assert all[..|all| - 1] == r;
      var a := Accepted(r) + [step.ev];
      assert a[..|a| - 1] == Accepted(r);
      assert Accepted(r) + [] == Accepted(r);
      assert Accepted(all) == if Late(r, step.ev) then Accepted(r) else a;
    }
  }

  predicate DelaysWithin(events: seq<DelayEvent>, lo: int, hi: int) {
    forall i :: 0 <= i < |events| ==> lo <= events[i].delay <= hi
  }

  /** Accepting an observation moves the delay towards it: a dampened jump keeps at most three tenths of the old error
      and a half, anything else is taken over verbatim. */
  lemma AbsorbApproaches(tripRoute: map<string, string>, s: DelayState, ev: DelayEvent)
    ensures var d := Absorb(tripRoute, Some(s), ev).delay;
            && Min(s.delay, ev.delay) <= d <= Max(s.delay, ev.delay)
            && Abs(d - ev.delay) as real <= 0.3 * Abs(s.delay - ev.delay) as real + 0.5
            && (d == ev.delay <==> s.updateCount >= 3 || (ev.delay <= s.delay + 120 && s.delay <= ev.delay + 120))
  {
    if Dampened(s, ev.delay) {
      RoundNearest(SMOOTHING_ALPHA * ev.delay as real + (1.0 - SMOOTHING_ALPHA) * s.delay as real,
                   Min(s.delay, ev.delay), Max(s.delay, ev.delay));
    }
  }

  /** What a record built from accepted observations looks like. */
  lemma {:induction false} ReconciledMeaning(
    tripRoute: map<string, string>, accepted: seq<DelayEvent>, lo: int, hi: int)
    requires accepted != [] && DelaysWithin(accepted, lo, hi)
    ensures var s := Reconciled(tripRoute, accepted).value;
            var last := accepted[|accepted| - 1];
            && s.observedAt == last.observedAt && s.updateCount == |accepted|
            && s.agency == last.agency && s.trip == last.trip && s.stop == last.stop
            && (last.route != "" ==> s.route == last.route)
            && (last.route == "" && last.trip in tripRoute ==> s.route == tripRoute[last.trip])
            && (last.route == "" && last.trip !in tripRoute ==> s.route == "")
            && lo <= s.delay <= hi && 0.5 <= s.confidence <= 1.0
            && (|accepted| > 3 ==> s.delay == last.delay)
  {
    var before := accepted[..|accepted| - 1];
    if before != [] {
      ReconciledMeaning(tripRoute, before, lo, hi);
      AbsorbApproaches(tripRoute, Reconciled(tripRoute, before).value, accepted[|accepted| - 1]);
    }
  }

  /** How many of the latest observations in a row each came within 30 s of the delay stored before it. */
  function CloseStreak(tripRoute: map<string, string>, accepted: seq<DelayEvent>): nat {
    if |accepted| < 2 then 0
    else
      var before := accepted[..|accepted| - 1];
      if Abs(accepted[|accepted| - 1].delay - Reconciled(tripRoute, before).value.delay) > 30 then 0
      else CloseStreak(tripRoute, before) + 1
  }

  /** Confidence is one half and a tenth for every close observation in a row, up to one. */
  lemma {:induction false} ConfidenceCountsStreak(tripRoute: map<string, string>, accepted: seq<DelayEvent>)
    requires accepted != []
    ensures var streak := CloseStreak(tripRoute, accepted);
            Reconciled(tripRoute, accepted).value.confidence == if streak >= 5 then 1.0 else 0.5 + 0.1 * streak as real
  {
    var before := accepted[..|accepted| - 1];
    if before != [] { ConfidenceCountsStreak(tripRoute, before); }
  }

  lemma {:induction false} ReceivedOwnKey(k: Key, run: seq<Step>)
    ensures forall ev :: ev in Received(k, run) ==> KeyOf(ev) == k && Observation(ev)
  {
    if run != [] { ReceivedOwnKey(k, run[..|run| - 1]); }
  }

  /** The state of a key after any run of deliveries, failures, retractions and expiries, in terms of what was received
      since the last retraction. */
  lemma ReconciliationOverRuns(tripRoute: map<string, string>, run: seq<Step>, k: Key, lo: int, hi: int)
    requires DelaysWithin(Accepted(Received(k, run)), lo, hi)
    ensures var store := Stored(tripRoute, run);
            var received := Received(k, run);
            && (k in store <==> received != [])
            && (k in store ==>
              var s := store[k];
              var accepted := Accepted(received);
              && (s.agency, s.trip, s.stop) == k
              && (forall i :: 0 <= i < |received| ==> received[i].observedAt <= s.observedAt)
              && (exists ev :: ev in received && ev.observedAt == s.observedAt)
              && s.updateCount == |accepted|
              && lo <= s.delay <= hi
              && 0.5 <= s.confidence <= 1.0
              && (|accepted| > 3 ==> s.delay == accepted[|accepted| - 1].delay))
  {
    StoredIsReconciled(tripRoute, run, k);
    var received := Received(k, run);
    if received != [] {
      NewestAccepted(received);
      ReceivedOwnKey(k, run);
      ReconciledMeaning(tripRoute, Accepted(received), lo, hi);
    }
  }

  /** A stored record is at least as recent as everything received. */
  lemma {:induction false} StoredIsNewest(tripRoute: map<string, string>, run: seq<Step>, k: Key)
    ensures var store := Stored(tripRoute, run);
            var received := Received(k, run);
            && (k in store <==> received != [])
            && (k in store ==> forall i :: 0 <= i < |received| ==> received[i].observedAt <= store[k].observedAt)
  {
    StoredIsReconciled(tripRoute, run, k);
    var received := Received(k, run);
    if received != [] { NewestAccepted(received); }
  }

  /** A redelivered event is accepted a second time. It leaves the delay alone exactly when the first delivery was not
      dampened; otherwise it moves the delay closer to the event's. */
  lemma RedeliveryKeepsDelay(tripRoute: map<string, string>, s: DelayState, ev: DelayEvent)
    ensures var once := Absorb(tripRoute, Some(s), ev);
            var twice := Absorb(tripRoute, Some(once), ev);
            var verbatim := s.updateCount >= 3 || (ev.delay <= s.delay + 120 && s.delay <= ev.delay + 120);
            && !(ev.observedAt < once.observedAt)
            && twice.updateCount == once.updateCount + 1
            && (twice.delay == once.delay <==> verbatim)
            && (!verbatim ==> Abs(twice.delay - ev.delay) < Abs(once.delay - ev.delay))
  {
    AbsorbApproaches(tripRoute, s, ev);
    var once := Absorb(tripRoute, Some(s), ev);
    AbsorbApproaches(tripRoute, once, ev);
  }

  /** Two consecutive deliveries of one jump from rest leave different delays: redelivery is not idempotent. */
  lemma RedeliveryMovesDelay(tripRoute: map<string, string>, ev: DelayEvent)
    requires ev.delay == 1000
    ensures var s := Absorb(tripRoute, None, ev.(delay := 0));
            Absorb(tripRoute, Some(s), ev).delay == 700 &&
            Absorb(tripRoute, Some(Absorb(tripRoute, Some(s), ev)), ev).delay == 910
  {
    var s := Absorb(tripRoute, None, ev.(delay := 0));
    assert Round(700.0) == 700;
    assert Round(910.0) == 910;
  }
}
