/** Deriving delays from time-only feeds (cmd/processor/enrich.go). */
module Enrich {
  import opened Common
  import opened Events
  import opened Schedule
  import opened Transfers

  /** The scheduled second the prediction is compared with; zero counts as missing. */
  function ScheduledSecs(row: StopTime, kind: EventType): int {
    var preferred := if kind == DepartureDelay then row.departureSecs else row.arrivalSecs;
    if preferred != 0 then preferred else if row.arrivalSecs != 0 then row.arrivalSecs else row.departureSecs
  }

  /** Carries a prediction and nothing else to measure a delay by. */
  predicate TimeOnly(ev: DelayEvent) {
    && ev.delay == 0 && ev.predictedArrival != 0 && ev.scheduledArrival == 0
    && (ev.kind == ArrivalDelay || ev.kind == DepartureDelay)
  }

  /** The timetable second for the event, when it has one. */
  function Scheduled(g: Graph, ev: DelayEvent): Option<int> {
    match ScheduledRow(g, ev.trip, ev.stop)
    case None => None
    case Some(row) => if ScheduledSecs(row, ev.kind) == 0 then None else Some(ScheduledSecs(row, ev.kind))
  }

  /** The timetable second is the one of the trip's first call at the stop: of its departure for a departure event, of
      its arrival for an arrival, and the other of the two where that one is zero, which counts as missing. */
  lemma ScheduledMeaning(g: Graph, ev: DelayEvent, k: int)
    requires FirstCall(g, CallsOf(g, ev.trip), ev.stop, k)
    ensures var row := CallsOf(g, ev.trip)[k];
            && (Scheduled(g, ev) == None <==> row.arrivalSecs == 0 && row.departureSecs == 0)
            && (row.arrivalSecs != 0 && row.departureSecs == 0 ==> Scheduled(g, ev) == Some(row.arrivalSecs))
            && (row.arrivalSecs == 0 && row.departureSecs != 0 ==> Scheduled(g, ev) == Some(row.departureSecs))
            && (row.arrivalSecs != 0 && row.departureSecs != 0 && ev.kind == DepartureDelay ==>
                  Scheduled(g, ev) == Some(row.departureSecs))
            && (row.arrivalSecs != 0 && row.departureSecs != 0 && ev.kind == ArrivalDelay ==>
                  Scheduled(g, ev) == Some(row.arrivalSecs))
  {
    ScheduledRowMeaning(g, ev.trip, ev.stop, CallsOf(g, ev.trip)[k]);
  }

  lemma ScheduledOnlyByCall(g: Graph, ev: DelayEvent)
    requires forall k :: !FirstCall(g, CallsOf(g, ev.trip), ev.stop, k)
    ensures Scheduled(g, ev) == None
  {
    var row := ScheduledRow(g, ev.trip, ev.stop);
    if row.Some? { ScheduledRowMeaning(g, ev.trip, ev.stop, row.value); }
  }

  /** The smallest in magnitude of raw, raw - 86400 and raw + 86400, the earlier of these on a tie. */
  function Nearest(raw: int): int {
    var best := if Abs(raw - DAY_SECS) < Abs(raw) then raw - DAY_SECS else raw;
    if Abs(raw + DAY_SECS) < Abs(best) then raw + DAY_SECS else best
  }

  function DerivedDelay(c: Clock, ev: DelayEvent, scheduled: int): int {
    Nearest(SecsSinceMidnight(c, ev.predictedArrival) - scheduled)
  }

  /** The event after enrichment. */
  function Enriched(g: Graph, c: Clock, ev: DelayEvent): DelayEvent {
    if !TimeOnly(ev) || Scheduled(g, ev).None? then ev
    else
      var d := DerivedDelay(c, ev, Scheduled(g, ev).value);
      ev.(delay := d, scheduledArrival := ev.predictedArrival - d)
  }

  /** A received event message, which enrichment fills in place. */
  class EventMessage {
    const agency: string
    const trip: string
    const route: string
    const stop: string
    const observedAt: int
    const predictedArrival: int
    const kind: EventType
    var delaySeconds: int
    var scheduledArrival: int

    constructor (ev: DelayEvent)
      ensures Value() == ev
    {
      agency, trip, route, stop := ev.agency, ev.trip, ev.route, ev.stop;
      observedAt, predictedArrival, kind := ev.observedAt, ev.predictedArrival, ev.kind;
      delaySeconds, scheduledArrival := ev.delay, ev.scheduledArrival;
    }

    function Value(): DelayEvent
      reads this
    {
      DelayEvent(agency, trip, route, stop, delaySeconds, observedAt, scheduledArrival, predictedArrival, kind)
    }

    method EnrichEvent(g: Graph, c: Clock) returns (hit: bool)
      modifies this
      ensures Value() == Enriched(g, c, old(Value()))
      ensures hit <==> TimeOnly(old(Value())) && Scheduled(g, old(Value())).Some?
    {
      if delaySeconds != 0 || predictedArrival == 0 || scheduledArrival != 0 { return false; }
      if kind != ArrivalDelay && kind != DepartureDelay { return false; }
      var row := GetScheduledStopTime(g, trip, stop);
      if row.None? { return false; }
      var st := row.value;
      var schedSecs := st.arrivalSecs;
      if kind == DepartureDelay { schedSecs := st.departureSecs; }
      if schedSecs == 0 {
        schedSecs := st.arrivalSecs;
        if schedSecs == 0 { schedSecs := st.departureSecs; }
      }
      if schedSecs == 0 { return false; }
      var raw := SecsSinceMidnight(c, predictedArrival) - schedSecs;
      var best := raw;
      var candidates := [raw - DAY_SECS, raw + DAY_SECS];
      for i := 0 to |candidates|
        invariant i == 0 ==> best == raw
        invariant i == 1 ==> best == if Abs(raw - DAY_SECS) < Abs(raw) then raw - DAY_SECS else raw
        invariant i == 2 ==> best == Nearest(raw)
      {
        if Abs(candidates[i]) < Abs(best) { best := candidates[i]; }
      }
      delaySeconds := best;
      scheduledArrival := predictedArrival - best;
      hit := true;
    }
  }

  /* ---------------- delay recovery ---------------- */

  /** The prediction is the instant d seconds after the scheduled second of some service day. */
  ghost predicate Predicts(c: Clock, predicted: int, scheduled: int, d: int) {
    exists day :: predicted + c.utcOffset == DAY_SECS * day + scheduled + d
  }

  /** Midnights between the start of the service day and the instant d seconds after the scheduled second. */
  function Midnights(scheduled: int, d: int): int { (scheduled + d) / DAY_SECS }

  /** The delays that survive, by the number of midnights: the candidates reach one day to either side and no further.
      */
  predicate Recoverable(q: int, d: int) {
    || (q == 0 && -43200 <= d <= 43200)
    || (q == 1 && d < 43200)
    || (q == -1 && d > -43200)
  }

  lemma NearestExactly(d: int, q: int)
    ensures Nearest(d - DAY_SECS * q) == d <==> Recoverable(q, d)
  {
    var raw := d - DAY_SECS * q;
    assert Nearest(raw) == raw || Nearest(raw) == raw - DAY_SECS || Nearest(raw) == raw + DAY_SECS;
    if q >= 2 {
      assert DAY_SECS * q >= 2 * DAY_SECS;
    } else if q <= -2 {
      assert DAY_SECS * q <= -2 * DAY_SECS;
    }
  }

  lemma TodOf(c: Clock, predicted: int, scheduled: int, d: int)
    requires predicted > 0 && Predicts(c, predicted, scheduled, d)
    ensures SecsSinceMidnight(c, predicted) - scheduled == d - DAY_SECS * Midnights(scheduled, d)
  {
    var day :| predicted + c.utcOffset == DAY_SECS * day + scheduled + d;
    SameRemainder(day, scheduled + d);
  }

  lemma SameRemainder(k: int, x: int)
    ensures (DAY_SECS * k + x) % DAY_SECS == x % DAY_SECS
  {
    var q, r := x / DAY_SECS, x % DAY_SECS;
    assert DAY_SECS * k + x == DAY_SECS * (k + q) + r;
    assert (DAY_SECS * k + x) / DAY_SECS == k + q;
  }

  /** Enrichment recovers the true delay exactly when the predicted instant is at most one midnight away from its
      service day's own and the delay stays below half a day on the side where a nearer candidate exists. */
  lemma RecoveryExactly(c: Clock, ev: DelayEvent, scheduled: int, d: int)
    requires ev.predictedArrival > 0 && Predicts(c, ev.predictedArrival, scheduled, d)
    ensures DerivedDelay(c, ev, scheduled) == d <==> Recoverable(Midnights(scheduled, d), d)
  {
    TodOf(c, ev.predictedArrival, scheduled, d);
    NearestExactly(d, Midnights(scheduled, d));
  }

  /** For every scheduled second in (0, 129600) and every delay below half a day, across any midnight, the event gets
      its true delay, and the scheduled arrival it gets is the scheduled instant. */
  lemma DelayRecovered(g: Graph, c: Clock, ev: DelayEvent, d: int)
    requires ev.delay == 0 && ev.scheduledArrival == 0 && (ev.kind == ArrivalDelay || ev.kind == DepartureDelay)
    requires ev.predictedArrival > 0 && Scheduled(g, ev).Some?
    requires 0 < Scheduled(g, ev).value < 129600 && -43200 < d < 43200
    requires Predicts(c, ev.predictedArrival, Scheduled(g, ev).value, d)
    ensures Enriched(g, c, ev).delay == d
    ensures Enriched(g, c, ev).scheduledArrival + d == ev.predictedArrival
    ensures Predicts(c, Enriched(g, c, ev).scheduledArrival, Scheduled(g, ev).value, 0)
  {
    var scheduled := Scheduled(g, ev).value;
    RecoveryExactly(c, ev, scheduled, d);
    var day :| ev.predictedArrival + c.utcOffset == DAY_SECS * day + scheduled + d;
    assert ev.predictedArrival - d + c.utcOffset == DAY_SECS * day + scheduled + 0;
  }

  /** Whatever delay was derived, the detector then measures its margins from the timetable's own time of day; only a
      train scheduled on the stroke of midnight is measured from the observation instead. */
  lemma EnrichedArrivalTod(w: World, ev: DelayEvent)
    requires ev.delay == 0 && ev.scheduledArrival == 0 && (ev.kind == ArrivalDelay || ev.kind == DepartureDelay)
    requires ev.predictedArrival > 0 && Scheduled(w.g, ev).Some?
    requires Enriched(w.g, w.clock, ev).scheduledArrival > 0
    ensures var tod := Scheduled(w.g, ev).value % DAY_SECS;
            ArrivalTod(w, Enriched(w.g, w.clock, ev)) == if tod != 0 then tod else w.TodFromUnix(ev.observedAt)
  {
    var scheduled := Scheduled(w.g, ev).value;
    var raw := SecsSinceMidnight(w.clock, ev.predictedArrival) - scheduled;
    var local := ev.predictedArrival + w.clock.utcOffset;
    var k :| -1 <= k <= 1 && Nearest(raw) == raw + DAY_SECS * k;
    var day := local / DAY_SECS;
    assert local == DAY_SECS * day + raw + scheduled;
    SameRemainder(day - k, scheduled);
    assert local - Nearest(raw) == DAY_SECS * (day - k) + scheduled;
  }

  /** Events that carry a delay, a schedule or no prediction, and retractions, pass untouched; so does every event the
      timetable does not know. */
  lemma OthersUntouched(g: Graph, c: Clock, ev: DelayEvent)
    ensures ev.delay != 0 || ev.predictedArrival == 0 || ev.scheduledArrival != 0 ==> Enriched(g, c, ev) == ev
    ensures ev.kind == TripCancelled || ev.kind == SkipStop ==> Enriched(g, c, ev) == ev
    ensures var e := Enriched(g, c, ev);
            e.(delay := ev.delay, scheduledArrival := ev.scheduledArrival) == ev
    ensures ScheduledRow(g, ev.trip, ev.stop).None? ==> Enriched(g, c, ev) == ev
  {
  }
}
