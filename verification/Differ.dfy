/** Change detection between feed polls (internal/ingest/differ.go and the end of pollOnce in
    internal/ingest/poller.go). */
module Differ {
  import opened Common
  import opened Events

  const THRESHOLD_SECONDS := 15
  const PREDICTED_THRESHOLD := 15
  /** Thirty minutes, in seconds. */
  const STALENESS := 1800.0

  /** trip, stop */
  type DiffKey = (string, string)

  datatype DiffState = DiffState(delay: int, predicted: int, evType: EventType, lastSeen: real)

  type Prev = map<DiffKey, DiffState>

  function KeyOf(ev: DelayEvent): DiffKey { (ev.trip, ev.stop) }

  function Stamp(ev: DelayEvent, now: real): DiffState { DiffState(ev.delay, ev.predictedArrival, ev.kind, now) }

  predicate InSnapshot(events: seq<DelayEvent>, k: DiffKey) { exists i :: 0 <= i < |events| && KeyOf(events[i]) == k }

  /** Two observations of a key that count as the same: one type, both times within 15 s. */
  predicate Near(a: DelayEvent, b: DelayEvent) {
    a.kind == b.kind && Abs(a.delay - b.delay) <= 15 && Abs(a.predictedArrival - b.predictedArrival) <= 15
  }

  predicate Changed(prev: Prev, ev: DelayEvent) {
    var k := KeyOf(ev);
    k !in prev || ev.kind != prev[k].evType || Abs(ev.delay - prev[k].delay) > THRESHOLD_SECONDS
    || Abs(ev.predictedArrival - prev[k].predicted) > PREDICTED_THRESHOLD
  }

  function Selected(prev: Prev, events: seq<DelayEvent>): seq<DelayEvent> {
    if events == [] then []
    else
      var ev := events[|events| - 1];
      Selected(prev, events[..|events| - 1]) + if Changed(prev, ev) then [ev] else []
  }

  /** The keys of the snapshot count as seen now. */
  function Touched(prev: Prev, events: seq<DelayEvent>, now: real): Prev {
    map k | k in prev :: if InSnapshot(events, k) then prev[k].(lastSeen := now) else prev[k]
  }

  function Pruned(prev: Prev, now: real): Prev { map k | k in prev && now - prev[k].lastSeen <= STALENESS :: prev[k] }

  class Differ {
    var prev: Prev

    constructor ()
      ensures prev == map[]
    {
      prev := map[];
    }

    method Diff(events: seq<DelayEvent>, now: real) returns (out: seq<DelayEvent>)
      modifies this
      ensures prev == Touched(old(prev), events, now)
      ensures out == Selected(old(prev), events)
    {
      out := [];
      if |events| == 0 { return; }
      for i := 0 to |events|
        invariant prev == Touched(old(prev), events[..i], now)
        invariant out == Selected(old(prev), events[..i])
      {
        var ev := events[i];
        var k := KeyOf(ev);
        TouchedMore(old(prev), events, i, now);
        assert events[..i + 1][..i] == events[..i];
        if k !in prev {
          out := out + [ev];
          continue;
        }
        var last := prev[k];
        prev := prev[k := last.(lastSeen := now)];
        if ev.kind != last.evType {
          out := out + [ev];
        } else if Abs(ev.delay - last.delay) > THRESHOLD_SECONDS {
          out := out + [ev];
        } else if Abs(ev.predictedArrival - last.predicted) > PREDICTED_THRESHOLD {
          out := out + [ev];
        }
      }
      assert events[..|events|] == events;
    }

    method Commit(ev: DelayEvent, now: real)
      modifies this
      ensures prev == old(prev)[KeyOf(ev) := Stamp(ev, now)]
    {
      prev := prev[KeyOf(ev) := DiffState(ev.delay, ev.predictedArrival, ev.kind, now)];
    }

    method Prune(now: real) returns (n: nat)
      modifies this
      ensures prev == Pruned(old(prev), now)
      ensures n + |prev.Keys| == |old(prev).Keys|
    {
      n := 0;
      var todo := prev.Keys;
      while todo != {}
        invariant todo <= prev.Keys <= old(prev).Keys
        invariant forall k :: k in old(prev) ==> (k in prev <==> k in todo || now - old(prev)[k].lastSeen <= STALENESS)
        invariant forall k :: k in prev ==> prev[k] == old(prev)[k]
        invariant n + |prev.Keys| == |old(prev).Keys|
        decreases todo
      {
        var k :| k in todo;
        todo := todo - {k};
        if now - prev[k].lastSeen > STALENESS {
          ghost var keys := prev.Keys;
          prev := prev - {k};
          assert prev.Keys == keys - {k};
          n := n + 1;
        }
      }
    }
  }

  lemma TouchedMore(prev: Prev, events: seq<DelayEvent>, i: nat, now: real)
    requires i < |events|
    ensures var k := KeyOf(events[i]);
            Touched(prev, events[..i + 1], now) ==
            if k in prev then Touched(prev, events[..i], now)[k := prev[k].(lastSeen := now)]
            else Touched(prev, events[..i], now)
  {
    forall k ensures InSnapshot(events[..i + 1], k) <==> InSnapshot(events[..i], k) || k == KeyOf(events[i]) {
      if InSnapshot(events[..i], k) {
        var j :| 0 <= j < i && KeyOf(events[..i][j]) == k;
        assert KeyOf(events[..i + 1][j]) == k;
      }
      if k == KeyOf(events[i]) { assert KeyOf(events[..i + 1][i]) == k; }
      if InSnapshot(events[..i + 1], k) {
        var j :| 0 <= j < i + 1 && KeyOf(events[..i + 1][j]) == k;
        assert j < i ==> KeyOf(events[..i][j]) == k;
      }
    }
  }

  /* ---------------- one poll ---------------- */

  /** What a poll meets: the snapshot, the time of each clock reading, and the fate of each publication. */
  datatype Poll = Poll(
    snapshot: seq<DelayEvent>, diffAt: real, acked: nat -> bool, commitAt: nat -> real, pruneAt: real)

  /** The differ's memory after the first n selected events were published, or not. */
  function CommitAll(prev: Prev, changed: seq<DelayEvent>, poll: Poll, n: nat): Prev
    requires n <= |changed|
  {
    if n == 0 then prev
    else
      var p := CommitAll(prev, changed, poll, n - 1);
      if poll.acked(n - 1) then p[KeyOf(changed[n - 1]) := Stamp(changed[n - 1], poll.commitAt(n - 1))] else p
  }

  /** The acknowledged ones among the first n selected events. */
  function Acknowledged(changed: seq<DelayEvent>, poll: Poll, n: nat): seq<DelayEvent>
    requires n <= |changed|
  {
    if n == 0 then []
    else Acknowledged(changed, poll, n - 1) + if poll.acked(n - 1) then [changed[n - 1]] else []
  }

  function PrevAfter(prev: Prev, poll: Poll): Prev {
    var changed := Selected(prev, poll.snapshot);
    Pruned(CommitAll(Touched(prev, poll.snapshot, poll.diffAt), changed, poll, |changed|), poll.pruneAt)
  }

  function PublishedBy(prev: Prev, poll: Poll): seq<DelayEvent> {
    var changed := Selected(prev, poll.snapshot);
    Acknowledged(changed, poll, |changed|)
  }

  /** A poller with its differ, its counter, and what it got acknowledged so far. */
  class Poller {
    const differ: Differ
    var published: nat
    var topic: seq<DelayEvent>

    constructor (differ: Differ)
      ensures this.differ == differ && published == 0 && topic == []
    {
      this.differ := differ;
      published, topic := 0, [];
    }

    method PollOnce(poll: Poll)
      modifies this, differ
      ensures differ.prev == PrevAfter(old(differ.prev), poll)
      ensures topic == old(topic) + PublishedBy(old(differ.prev), poll)
      ensures published - old(published) == |topic| - |old(topic)|
    {
      var changed := differ.Diff(poll.snapshot, poll.diffAt);
      ghost var start := differ.prev;
      assert topic == old(topic) + Acknowledged(changed, poll, 0);
      for i := 0 to |changed|
        invariant differ.prev == CommitAll(start, changed, poll, i)
        invariant topic == old(topic) + Acknowledged(changed, poll, i)
        invariant published - old(published) == |topic| - |old(topic)|
      {
        var acked := poll.acked(i);
        assert Acknowledged(changed, poll, i) + [] == Acknowledged(changed, poll, i);
        if !acked { continue; }
        topic := topic + [changed[i]];
        differ.Commit(changed[i], poll.commitAt(i));
        published := published + 1;
      }
      var _ := differ.Prune(poll.pruneAt);
    }
  }

  /* ---------------- whole runs ---------------- */

  /** The differ's memory after a run of polls. */
  function PrevOver(run: seq<Poll>): Prev {
    if run == [] then map[] else PrevAfter(PrevOver(run[..|run| - 1]), run[|run| - 1])
  }

  /** Everything acknowledged during a run of polls. */
  function Topic(run: seq<Poll>): seq<DelayEvent> {
    if run == [] then []
    else Topic(run[..|run| - 1]) + PublishedBy(PrevOver(run[..|run| - 1]), run[|run| - 1])
  }

  /** The last event of a key, as a reader of the topic sees it. */
  function Latest(topic: seq<DelayEvent>, k: DiffKey): Option<DelayEvent> {
    if topic == [] then None
    else if KeyOf(topic[|topic| - 1]) == k then Some(topic[|topic| - 1])
    else Latest(topic[..|topic| - 1], k)
  }

  predicate Remembers(s: DiffState, ev: DelayEvent) { s == Stamp(ev, s.lastSeen) }

  /** Every remembered state is that of the key's last acknowledged event. */
  ghost predicate Mirrors(prev: Prev, topic: seq<DelayEvent>) {
    forall k :: k in prev ==> Latest(topic, k).Some? && Remembers(prev[k], Latest(topic, k).value)
  }

  lemma {:induction false} LatestAppended(topic: seq<DelayEvent>, more: seq<DelayEvent>, k: DiffKey)
    ensures Latest(topic + more, k) == if Latest(more, k).Some? then Latest(more, k) else Latest(topic, k)
  {
    if more == [] {
      assert topic + more == topic;
    } else {
      LatestAppended(topic, more[..|more| - 1], k);
      assert (topic + more)[..|topic + more| - 1] == topic + more[..|more| - 1];
    }
  }

  /** Committing after each acknowledgement keeps the memory in step with the topic, key by key. */
  lemma {:induction false} CommitsFollow(prev: Prev, changed: seq<DelayEvent>, poll: Poll, n: nat, k: DiffKey)
    requires n <= |changed|
    ensures var p := CommitAll(prev, changed, poll, n);
            var last := Latest(Acknowledged(changed, poll, n), k);
            && (last.None? ==> (k in p <==> k in prev) && (k in p ==> p[k] == prev[k]))
            && (last.Some? ==> k in p && Remembers(p[k], last.value))
  {
    if n > 0 {
      CommitsFollow(prev, changed, poll, n - 1, k);
      var before := Acknowledged(changed, poll, n - 1);
      if poll.acked(n - 1) {
        assert (before + [changed[n - 1]])[..|before|] == before;
      } else {
        assert before + [] == before;
      }
    }
  }

  lemma {:induction false} MemoryMirrorsTopic(run: seq<Poll>)
    ensures Mirrors(PrevOver(run), Topic(run))
  {
    if run != [] {
      var before, poll := run[..|run| - 1], run[|run| - 1];
      MemoryMirrorsTopic(before);
      var prev := PrevOver(before);
      var changed := Selected(prev, poll.snapshot);
      forall k | k in PrevOver(run)
        ensures Latest(Topic(run), k).Some? && Remembers(PrevOver(run)[k], Latest(Topic(run), k).value)
      {
        CommitsFollow(Touched(prev, poll.snapshot, poll.diffAt), changed, poll, |changed|, k);
        LatestAppended(Topic(before), PublishedBy(prev, poll), k);
      }
    }
  }

  predicate DistinctKeys(events: seq<DelayEvent>) {
    forall i, j :: 0 <= i < j < |events| ==> KeyOf(events[i]) != KeyOf(events[j])
  }

  lemma {:induction false} SelectedMeaning(prev: Prev, events: seq<DelayEvent>)
    ensures forall ev :: ev in Selected(prev, events) <==> ev in events && Changed(prev, ev)
    ensures DistinctKeys(events) ==> DistinctKeys(Selected(prev, events))
  {
    if events != [] {
      var before, ev := events[..|events| - 1], events[|events| - 1];
      SelectedMeaning(prev, before);
      assert forall e :: e in events <==> e in before || e == ev;
      assert DistinctKeys(events) ==> DistinctKeys(before) && forall e :: e in before ==> KeyOf(e) != KeyOf(ev);
    }
  }

  /** The poll's clock readings are in order and it takes less than the staleness window; the snapshot has one event
      per key. */
  ghost predicate Proper(poll: Poll) {
    && DistinctKeys(poll.snapshot)
    && poll.pruneAt - poll.diffAt <= STALENESS
    && forall n :: poll.diffAt <= poll.commitAt(n) <= poll.pruneAt
  }

  /** The poll selected an event of the key and its publication failed. */
  predicate Failed(prev: Prev, poll: Poll, k: DiffKey) {
    var changed := Selected(prev, poll.snapshot);
    exists n :: 0 <= n < |changed| && KeyOf(changed[n]) == k && !poll.acked(n)
  }

  lemma {:induction false} NotSelected(changed: seq<DelayEvent>, poll: Poll, n: nat, k: DiffKey)
    requires n <= |changed| && forall i :: 0 <= i < n ==> KeyOf(changed[i]) != k
    ensures Latest(Acknowledged(changed, poll, n), k).None?
  {
    if n > 0 {
      NotSelected(changed, poll, n - 1, k);
      LatestAppended(Acknowledged(changed, poll, n - 1), if poll.acked(n - 1) then [changed[n - 1]] else [], k);
    }
  }

  lemma {:induction false} SelectedAt(changed: seq<DelayEvent>, poll: Poll, n: nat, i: nat)
    requires i < n <= |changed| && DistinctKeys(changed)
    ensures Latest(Acknowledged(changed, poll, n), KeyOf(changed[i])) ==
            if poll.acked(i) then Some(changed[i]) else None
  {
    if i < n - 1 {
      SelectedAt(changed, poll, n - 1, i);
    } else {
      NotSelected(changed, poll, n - 1, KeyOf(changed[i]));
    }
    var more := if poll.acked(n - 1) then [changed[n - 1]] else [];
    LatestAppended(Acknowledged(changed, poll, n - 1), more, KeyOf(changed[i]));
  }

  /** What one poll acknowledges for a key of its snapshot. */
  lemma PublishedForKey(prev: Prev, poll: Poll, ev: DelayEvent)
    requires ev in poll.snapshot && Proper(poll)
    ensures var last := Latest(PublishedBy(prev, poll), KeyOf(ev));
            && (Failed(prev, poll, KeyOf(ev)) ==> Changed(prev, ev))
            && last == if Changed(prev, ev) && !Failed(prev, poll, KeyOf(ev)) then Some(ev) else None
  {
    var changed := Selected(prev, poll.snapshot);
    SelectedMeaning(prev, poll.snapshot);
    if Changed(prev, ev) {
      var i :| 0 <= i < |changed| && changed[i] == ev;
      SelectedAt(changed, poll, |changed|, i);
      assert poll.acked(i) <==> !Failed(prev, poll, KeyOf(ev));
    } else {
      forall i | 0 <= i < |changed| ensures KeyOf(changed[i]) != KeyOf(ev) {
        assert changed[i] in changed;
        OneEventPerKey(poll.snapshot, changed[i], ev);
      }
      NotSelected(changed, poll, |changed|, KeyOf(ev));
    }
  }

  lemma OneEventPerKey(events: seq<DelayEvent>, a: DelayEvent, b: DelayEvent)
    requires DistinctKeys(events) && a in events && b in events
    ensures KeyOf(a) == KeyOf(b) ==> a == b
  {
    var i :| 0 <= i < |events| && events[i] == a;
    var j :| 0 <= j < |events| && events[j] == b;
  }

  lemma {:induction false} CommitTimes(prev: Prev, changed: seq<DelayEvent>, poll: Poll, n: nat, k: DiffKey)
    requires n <= |changed| && (forall i :: poll.diffAt <= poll.commitAt(i))
    requires k in prev ==> poll.diffAt <= prev[k].lastSeen
    ensures var p := CommitAll(prev, changed, poll, n); k in p ==> poll.diffAt <= p[k].lastSeen
  {
    if n > 0 { CommitTimes(prev, changed, poll, n - 1, k); }
  }

  /** A poll forgets no key of its own snapshot. */
  lemma SnapshotKept(prev: Prev, poll: Poll, ev: DelayEvent)
    requires ev in poll.snapshot && Proper(poll)
    ensures var k := KeyOf(ev);
            k in PrevAfter(prev, poll) <==> k in prev || Latest(PublishedBy(prev, poll), k).Some?
  {
    var k := KeyOf(ev);
    var changed := Selected(prev, poll.snapshot);
    var touched := Touched(prev, poll.snapshot, poll.diffAt);
    assert InSnapshot(poll.snapshot, k);
    CommitsFollow(touched, changed, poll, |changed|, k);
    CommitTimes(touched, changed, poll, |changed|, k);
  }

  /** After every poll, each key of the snapshot whose publication did not fail has a last published event of the same
      type within 15 s in both delay and predicted time, however many polls skipped it; a failed publication leaves the
      key as it was, and no key of the snapshot is forgotten. */
  lemma BoundedDrift(run: seq<Poll>, poll: Poll, ev: DelayEvent)
    requires ev in poll.snapshot && Proper(poll)
    ensures var k := (ev.trip, ev.stop);
            var latest := Latest(Topic(run + [poll]), k);
            && (k in PrevOver(run) ==> k in PrevOver(run + [poll]))
            && (!Failed(PrevOver(run), poll, k) ==>
                  k in PrevOver(run + [poll]) && latest.Some? && Near(ev, latest.value))
            && (Failed(PrevOver(run), poll, k) ==>
                  latest == Latest(Topic(run), k) && (k in PrevOver(run + [poll]) <==> k in PrevOver(run)))
  {
    var all := run + [poll];
    var k := KeyOf(ev);
    assert all[..|all| - 1] == run;
    var prev := PrevOver(run);
    MemoryMirrorsTopic(run);
    PublishedForKey(prev, poll, ev);
    SnapshotKept(prev, poll, ev);
    LatestAppended(Topic(run), PublishedBy(prev, poll), k);
    hide PublishedBy, PrevAfter, Failed, Latest;
  }

  /** The snapshot has no event of the trip at the stop. */
  predicate Absent(events: seq<DelayEvent>, k: DiffKey) {
    forall i :: 0 <= i < |events| ==> (events[i].trip, events[i].stop) != k
  }

  /** What a poll makes of a key it has no event for: forgotten exactly when it was last seen more than half an hour
      ago, and untouched otherwise. */
  lemma AbsentKept(prev: Prev, poll: Poll, k: DiffKey)
    requires Absent(poll.snapshot, k)
    ensures var after := PrevAfter(prev, poll);
            && (k in after <==> k in prev && poll.pruneAt - prev[k].lastSeen <= 1800.0)
            && (k in after ==> after[k] == prev[k])
  {
    var changed := Selected(prev, poll.snapshot);
    SelectedMeaning(prev, poll.snapshot);
    forall i | 0 <= i < |changed| ensures KeyOf(changed[i]) != k {
      assert changed[i] in changed && changed[i] in poll.snapshot;
    }
    assert !InSnapshot(poll.snapshot, k);
    CommitsElsewhere(Touched(prev, poll.snapshot, poll.diffAt), changed, poll, |changed|, k);
  }

  lemma {:induction false} CommitsElsewhere(prev: Prev, changed: seq<DelayEvent>, poll: Poll, n: nat, k: DiffKey)
    requires n <= |changed| && forall i :: 0 <= i < n ==> KeyOf(changed[i]) != k
    ensures var p := CommitAll(prev, changed, poll, n); k in p <==> k in prev
    ensures k in prev ==> CommitAll(prev, changed, poll, n)[k] == prev[k]
  {
    if n > 0 { CommitsElsewhere(prev, changed, poll, n - 1, k); }
  }

  /** Each poll ends at most half an hour after the given time. */
  predicate AllWithin(polls: seq<Poll>, time: real) {
    forall i :: 0 <= i < |polls| ==> polls[i].pruneAt - time <= 1800.0
  }

  lemma WithinMore(polls: seq<Poll>, time: real)
    requires polls != []
    ensures var n := |polls| - 1;
            AllWithin(polls, time) <==> AllWithin(polls[..n], time) && polls[n].pruneAt - time <= 1800.0
  {
    assert forall i :: 0 <= i < |polls| - 1 ==> polls[..|polls| - 1][i] == polls[i];
  }

  /** Over any number of polls without the key: it is remembered as it was exactly as long as none of them ended more
      than half an hour after it was last seen. */
  lemma {:induction false} AbsentForgotten(run: seq<Poll>, gap: seq<Poll>, k: DiffKey)
    requires k in PrevOver(run) && forall i :: 0 <= i < |gap| ==> Absent(gap[i].snapshot, k)
    ensures k in PrevOver(run + gap) <==> AllWithin(gap, PrevOver(run)[k].lastSeen)
    ensures k in PrevOver(run + gap) ==> PrevOver(run + gap)[k] == PrevOver(run)[k]
  {
    if gap == [] {
      assert run + gap == run;
    } else {
      var n := |gap| - 1;
      AbsentForgotten(run, gap[..n], k);
      PollAdded(run, gap);
      WithinMore(gap, PrevOver(run)[k].lastSeen);
      AbsentKept(PrevOver(run + gap[..n]), gap[n], k);
      hide PrevAfter, PrevOver, Absent, AllWithin;
    }
  }

  lemma PollAdded(run: seq<Poll>, gap: seq<Poll>)
    requires gap != []
    ensures PrevOver(run + gap) == PrevAfter(PrevOver(run + gap[..|gap| - 1]), gap[|gap| - 1])
  {
    var all := run + gap;
    assert all[..|all| - 1] == run + gap[..|gap| - 1] && all[|all| - 1] == gap[|gap| - 1];
  }

  /** What a poll notes for a key of its snapshot: the time of the commit when its event was acknowledged, the time of
      the comparison otherwise. */
  lemma LastSeenExactly(prev: Prev, poll: Poll, ev: DelayEvent, n: nat)
    requires ev in poll.snapshot && Proper(poll) && (ev.trip, ev.stop) in PrevAfter(prev, poll)
    requires n < |Selected(prev, poll.snapshot)| && Selected(prev, poll.snapshot)[n] == ev
    ensures PrevAfter(prev, poll)[(ev.trip, ev.stop)].lastSeen == if poll.acked(n) then poll.commitAt(n)
        else poll.diffAt
  {
    var changed := Selected(prev, poll.snapshot);
    SelectedMeaning(prev, poll.snapshot);
    CommitTime(Touched(prev, poll.snapshot, poll.diffAt), changed, poll, |changed|, n);
    assert InSnapshot(poll.snapshot, KeyOf(ev));
  }

  lemma UnselectedSeen(prev: Prev, poll: Poll, ev: DelayEvent)
    requires ev in poll.snapshot && Proper(poll) && ev !in Selected(prev, poll.snapshot)
    ensures var k, after := (ev.trip, ev.stop), PrevAfter(prev, poll);
            k in prev && k in after && after[k] == prev[k].(lastSeen := poll.diffAt)
  {
    var changed := Selected(prev, poll.snapshot);
    SelectedMeaning(prev, poll.snapshot);
    forall i | 0 <= i < |changed| ensures KeyOf(changed[i]) != KeyOf(ev) {
      assert changed[i] in changed;
      OneEventPerKey(poll.snapshot, changed[i], ev);
    }
    assert InSnapshot(poll.snapshot, KeyOf(ev));
    CommitsElsewhere(Touched(prev, poll.snapshot, poll.diffAt), changed, poll, |changed|, KeyOf(ev));
  }

  lemma {:induction false} CommitTime(prev: Prev, changed: seq<DelayEvent>, poll: Poll, m: nat, n: nat)
    requires n < m <= |changed| && DistinctKeys(changed)
    ensures var k, p := KeyOf(changed[n]), CommitAll(prev, changed, poll, m);
            && (k in p <==> k in prev || poll.acked(n))
            && (k in p ==> p[k].lastSeen == if poll.acked(n) then poll.commitAt(n) else prev[k].lastSeen)
  {
    if n < m - 1 {
      CommitTime(prev, changed, poll, m - 1, n);
    } else {
      CommitsElsewhere(prev, changed, poll, n, KeyOf(changed[n]));
    }
  }

  /** An event is selected exactly when its key is forgotten or new, or the event differs from the last one
      acknowledged: small movements cannot add up unseen. */
  lemma SelectionExact(run: seq<Poll>, snapshot: seq<DelayEvent>, ev: DelayEvent)
    requires ev in snapshot
    ensures var k := (ev.trip, ev.stop);
            var latest := Latest(Topic(run), k);
            ev in Selected(PrevOver(run), snapshot) <==>
            !(k in PrevOver(run) && latest.Some? && Near(ev, latest.value))
  {
    MemoryMirrorsTopic(run);
    SelectedMeaning(PrevOver(run), snapshot);
  }

  /** After a failed publication the next snapshot's event of that key is judged as if the failed poll had not happened;
      the same event again is always selected. */
  lemma FailedSelectedAgain(run: seq<Poll>, poll: Poll, ev: DelayEvent, snapshot: seq<DelayEvent>, next: DelayEvent)
    requires ev in poll.snapshot && Proper(poll) && Failed(PrevOver(run), poll, (ev.trip, ev.stop))
    requires next in snapshot && next.trip == ev.trip && next.stop == ev.stop
    ensures next in Selected(PrevOver(run + [poll]), snapshot) <==> Changed(PrevOver(run), next)
    ensures next == ev ==> next in Selected(PrevOver(run + [poll]), snapshot)
  {
    hide PrevOver, Topic, Latest, Selected, Failed, PrevAfter, PublishedBy;
    BoundedDrift(run, poll, ev);
    MemoryMirrorsTopic(run);
    MemoryMirrorsTopic(run + [poll]);
    SelectedMeaning(PrevOver(run + [poll]), snapshot);
    PublishedForKey(PrevOver(run), poll, ev);
  }
}
