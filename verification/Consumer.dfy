/** The consume loop (cmd/processor/main.go): claims, retries, marks, commits and redelivery over one partition. */
module Consumer {
  import opened Events
  import opened Schedule
  import opened Enrich
  import opened Reconcile

  const CATCH_UP_ENTER_LAG := 1000
  const CATCH_UP_EXIT_LAG := 100
  const ATTEMPTS := 3

  datatype Message = Observed(ev: DelayEvent) | Garbage

  datatype Setup = Setup(g: Graph, clock: Clock)
  {
    function Fill(ev: DelayEvent): DelayEvent { Enriched(g, clock, ev) }

    function Store(history: seq<Step>): map<Key, DelayState> { Stored(g.tripRoute, history) }
  }

  /** Where a claim stands with the message at its next offset. */
  datatype Stage = Trying(failures: nat) | Processed | Matched

  /** One session's claim on the partition: where it began, the message it is at, what it has marked, and the offsets it
      has applied, in order. */
  datatype Claim = Claim(start: nat, next: nat, marked: nat, stage: Stage, applied: seq<nat>)

  /** The partition, its committed offset, the live claims (sessions that lost the partition may linger), everything
      that reached the delay state with the offset each call was made for, and the offsets matched against predictions
      and searched for broken transfers. */
  datatype Sys = Sys(
    log: seq<Message>, committed: nat, claims: map<nat, Claim>, history: seq<Step>, offsets: map<nat, nat>,
    matched: set<nat>, detected: set<nat>, catchUp: bool)
  {
    predicate At(id: nat) { id in claims && claims[id].next < |log| }

    function Message(id: nat): Message requires At(id) { log[claims[id].next] }
  }

  datatype Action =
    | Append(msg: Message)
    | Start(id: nat)
    | Skip(id: nat)
    | Attempt(id: nat, faults: Faults)
    | Match(id: nat)
    | Mark(id: nat)
    | Commit(id: nat)
    | End(id: nat)
    | ExpireKey(key: Key)
    | Toggle(lag: int)

  predicate Enabled(s: Sys, a: Action) {
    match a
    case Start(id) => id !in s.claims
    case Skip(id) => s.At(id) && s.claims[id].stage == Trying(0) && s.Message(id).Garbage?
    case Attempt(id, _) => s.At(id) && s.claims[id].stage.Trying? && s.Message(id).Observed?
    case Match(id) => s.At(id) && s.claims[id].stage.Processed?
    case Mark(id) => s.At(id) && s.claims[id].stage.Matched?
    case Commit(id) => id in s.claims
    case End(id) => id in s.claims
    case _ => true
  }

  /** One call of ProcessEvent for the message at hand; the third failure ends the claim without a mark. */
  function DoAttempt(w: Setup, s: Sys, id: nat, f: Faults): Sys
    requires Enabled(s, Attempt(id, f))
  {
    var c := s.claims[id];
    var ev := w.Fill(s.Message(id).ev);
    var t := s.(history := s.history + [Deliver(ev, f)], offsets := s.offsets[|s.history| := c.next]);
    if Succeeds(w.Store(s.history), ev, f) then
      t.(claims := s.claims[id := c.(stage := Processed, applied := c.applied + [c.next])])
    else if c.stage.failures + 1 >= ATTEMPTS then t.(claims := s.claims - {id})
    else t.(claims := s.claims[id := c.(stage := Trying(c.stage.failures + 1))])
  }

  /** Marks the message and moves on. */
  function Marked(c: Claim): Claim { c.(marked := c.next + 1, next := c.next + 1, stage := Trying(0)) }

  function Do(w: Setup, s: Sys, a: Action): Sys
    requires Enabled(s, a)
  {
    match a
    case Append(msg) => s.(log := s.log + [msg])
    case Start(id) => s.(claims := s.claims[id := Claim(s.committed, s.committed, s.committed, Trying(0), [])])
    case Skip(id) => s.(claims := s.claims[id := Marked(s.claims[id])])
    case Attempt(id, f) => DoAttempt(w, s, id, f)
    case Match(id) =>
      s.(matched := s.matched + {s.claims[id].next}, claims := s.claims[id := s.claims[id].(stage := Matched)])
    case Mark(id) =>
      s.(detected := if s.catchUp then s.detected else s.detected + {s.claims[id].next},
         claims := s.claims[id := Marked(s.claims[id])])
    case Commit(id) => s.(committed := s.claims[id].marked)
    case End(id) => s.(claims := s.claims - {id})
    case ExpireKey(k) => s.(history := s.history + [Expire(k)])
    case Toggle(lag) =>
      s.(catchUp := if lag > CATCH_UP_ENTER_LAG && !s.catchUp then true
                    else if lag < CATCH_UP_EXIT_LAG && s.catchUp then false else s.catchUp)
  }

  ghost predicate Next(w: Setup, s: Sys, s': Sys) { exists a :: Enabled(s, a) && s' == Do(w, s, a) }

  ghost predicate IsRun(w: Setup, run: seq<Sys>) {
    run != [] && forall i :: 0 <= i < |run| - 1 ==> Next(w, run[i], run[i + 1])
  }

  /** A partition that already has a committed offset, before any session. */
  predicate Fresh(s: Sys) {
    && s.committed <= |s.log| && s.claims == map[] && s.history == [] && s.offsets == map[]
    && s.matched == {} && s.detected == {} && !s.catchUp
  }

  /** Catching up begins above a thousand messages of lag and ends below a hundred; in between the flag stays. */
  lemma CatchUpExactly(w: Setup, s: Sys, lag: int)
    ensures var s' := Do(w, s, Toggle(lag));
            && s' == s.(catchUp := s'.catchUp)
            && (s'.catchUp <==> lag > 1000 || (s.catchUp && lag >= 100))
  {
  }

  /** A message is searched for broken transfers when it is marked, unless the consumer is catching up. */
  lemma DetectedUnlessBehind(w: Setup, s: Sys, id: nat, o: nat)
    requires Enabled(s, Mark(id))
    ensures o in Do(w, s, Mark(id)).detected <==> o in s.detected || (o == s.claims[id].next && !s.catchUp)
  {
  }

  /** A session may start on any committed log, at the committed offset; there and behind every mark it has all attempts
      left, and it gives up on a message with the third failure and no earlier. */
  lemma SessionBudget(w: Setup, s: Sys, id: nat, f: Faults)
    ensures id !in s.claims ==>
              && Enabled(s, Start(id))
              && Do(w, s, Start(id)).claims[id] == Claim(s.committed, s.committed, s.committed, Trying(0), [])
    ensures Enabled(s, Mark(id)) ==> Do(w, s, Mark(id)).claims[id].stage == Trying(0)
    ensures Enabled(s, Skip(id)) ==> Do(w, s, Skip(id)).claims[id].stage == Trying(0)
    ensures Enabled(s, Attempt(id, f)) && !Succeeds(w.Store(s.history), w.Fill(s.Message(id).ev), f) ==>
              var s' := Do(w, s, Attempt(id, f));
              && (id !in s'.claims <==> s.claims[id].stage.failures >= 2)
              && (id in s'.claims ==>
                    s'.claims[id] == s.claims[id].(stage := Trying(s.claims[id].stage.failures + 1)))
  {
    hide Succeeds, Stored, Enriched;
  }

  /* ---------------- the loop itself ---------------- */

  /** The store after the first n attempts at one event. */
  function Retried(
    tripRoute: map<string, string>, store: map<Key, DelayState>, ev: DelayEvent, faults: nat -> Faults, n: nat)
    : map<Key, DelayState>
  {
    if n == 0 then store
    else After(tripRoute, Retried(tripRoute, store, ev, faults, n - 1), ev, faults(n - 1))
  }

  predicate AttemptSucceeds(
    tripRoute: map<string, string>, store: map<Key, DelayState>, ev: DelayEvent, faults: nat -> Faults, n: nat)
  {
    Succeeds(Retried(tripRoute, store, ev, faults, n), ev, faults(n))
  }

  /** The first n attempts all fail. */
  ghost predicate AllFail(
    tripRoute: map<string, string>, store: map<Key, DelayState>, ev: DelayEvent, faults: nat -> Faults, n: int)
  {
    forall i: nat :: i < n ==> !AttemptSucceeds(tripRoute, store, ev, faults, i)
  }

  /** Calls ProcessEvent until it succeeds, at most the given number of times, giving up early when cancelled between
      two attempts. */
  method WithRetry(
    mgr: DelayStateManager, ev: DelayEvent, attempts: nat, faults: nat -> Faults, cancelled: nat -> bool)
    returns (ok: bool, calls: nat)
    modifies mgr
    ensures calls <= attempts && (calls == 0 <==> attempts == 0)
    ensures mgr.store == Retried(mgr.tripRoute, old(mgr.store), ev, faults, calls)
    ensures AllFail(mgr.tripRoute, old(mgr.store), ev, faults, calls - 1)
    ensures forall i: nat :: i < calls - 1 ==> !cancelled(i)
    ensures ok <==> attempts == 0 || AttemptSucceeds(mgr.tripRoute, old(mgr.store), ev, faults, calls - 1)
    ensures !ok ==> calls == attempts || cancelled(calls - 1)
  {
    calls := 0;
    while calls < attempts
      invariant calls < attempts || calls == attempts == 0
      invariant mgr.store == Retried(mgr.tripRoute, old(mgr.store), ev, faults, calls)
      invariant AllFail(mgr.tripRoute, old(mgr.store), ev, faults, calls)
      invariant forall i: nat :: i < calls ==> !cancelled(i)
    {
      ok := mgr.ProcessEvent(ev, faults(calls));
      calls := calls + 1;
      if ok { return; }
      if calls == attempts { return; }
      if cancelled(calls - 1) { return; }
    }
    ok := true;
  }

  /* ---------------- what every step keeps ---------------- */

  /** The i-th thing that reached the delay state was a successful call for the message at this offset. */
  predicate AppliedAs(w: Setup, s: Sys, i: nat, o: nat) {
    && i < |s.history| && i in s.offsets && s.offsets[i] == o
    && o < |s.log| && s.log[o].Observed? && s.history[i].Deliver? && s.history[i].ev == w.Fill(s.log[o].ev)
    && Succeeds(w.Store(s.history[..i]), s.history[i].ev, s.history[i].faults)
  }

  ghost predicate Applied(w: Setup, s: Sys, o: nat) { exists i :: AppliedAs(w, s, i, o) }

  /** Nothing more is owed for the offset: it cannot be parsed, or it was applied and matched. */
  ghost predicate Done(w: Setup, s: Sys, o: nat) {
    o < |s.log| && (s.log[o].Observed? ==> Applied(w, s, o) && o in s.matched)
  }

  ghost predicate DoneUpTo(w: Setup, s: Sys, from: nat, to: nat) { forall o: nat :: from <= o < to ==> Done(w, s, o) }

  /** The offsets of parseable messages, in order. */
  function EventOffsets(log: seq<Message>, from: nat, to: nat): seq<nat>
    requires from <= to <= |log|
  {
    if from == to then []
    else EventOffsets(log, from, to - 1) + if log[to - 1].Observed? then [to - 1] else []
  }

  ghost predicate ClaimInv(w: Setup, s: Sys, initial: nat, c: Claim) {
    && initial <= c.start <= c.next <= |s.log| && c.marked == c.next
    && DoneUpTo(w, s, initial, c.next)
    && (c.stage.Trying? ==> c.stage.failures < ATTEMPTS && c.applied == EventOffsets(s.log, c.start, c.next))
    && (!c.stage.Trying? ==>
          && c.next < |s.log| && s.log[c.next].Observed? && Applied(w, s, c.next)
          && c.applied == EventOffsets(s.log, c.start, c.next + 1))
    && (c.stage.Matched? ==> c.next in s.matched)
  }

  ghost predicate Inv(w: Setup, s: Sys, initial: nat) {
    && initial <= s.committed <= |s.log| && DoneUpTo(w, s, initial, s.committed)
    && (forall id :: id in s.claims ==> ClaimInv(w, s, initial, s.claims[id]))
    && s.detected <= s.matched && OffsetsBelow(s)
  }

  ghost predicate OffsetsBelow(s: Sys) { forall i :: i in s.offsets ==> i < |s.history| }

  /** The log, the history with its offsets, and the matches only grow. */
  ghost predicate Extends(s: Sys, s': Sys) {
    && s.log <= s'.log && s.history <= s'.history && s.matched <= s'.matched
    && forall i :: i in s.offsets ==> i in s'.offsets && s'.offsets[i] == s.offsets[i]
  }

  lemma AppliedLater(w: Setup, s: Sys, s': Sys, o: nat)
    requires Extends(s, s') && Applied(w, s, o)
    ensures Applied(w, s', o)
  {
    var i: nat :| AppliedAs(w, s, i, o);
    assert s'.history[..i] == s.history[..i];
    assert AppliedAs(w, s', i, o);
  }

  lemma DoneLater(w: Setup, s: Sys, s': Sys, from: nat, to: nat)
    requires Extends(s, s') && DoneUpTo(w, s, from, to)
    ensures DoneUpTo(w, s', from, to)
  {
    forall o: nat | from <= o < to ensures Done(w, s', o) {
      assert Done(w, s, o);
      if s.log[o].Observed? { AppliedLater(w, s, s', o); }
    }
  }

  lemma {:induction false} OffsetsLater(log: seq<Message>, log': seq<Message>, from: nat, to: nat)
    requires from <= to <= |log| && log <= log'
    ensures EventOffsets(log, from, to) == EventOffsets(log', from, to)
  {
    if from < to { OffsetsLater(log, log', from, to - 1); }
  }

  lemma ClaimLater(w: Setup, s: Sys, s': Sys, initial: nat, c: Claim)
    requires Extends(s, s') && ClaimInv(w, s, initial, c)
    ensures ClaimInv(w, s', initial, c)
  {
    DoneLater(w, s, s', initial, c.next);
    OffsetsLater(s.log, s'.log, c.start, c.next);
    if !c.stage.Trying? {
      OffsetsLater(s.log, s'.log, c.start, c.next + 1);
      AppliedLater(w, s, s', c.next);
    }
    hide DoneUpTo, Applied, EventOffsets;
  }

  lemma OthersLater(w: Setup, s: Sys, s': Sys, initial: nat, id: nat)
    requires Inv(w, s, initial) && Extends(s, s')
    requires forall j :: j in s'.claims && j != id ==> j in s.claims && s'.claims[j] == s.claims[j]
    requires id in s'.claims ==> ClaimInv(w, s', initial, s'.claims[id])
    requires s'.committed == s.committed && s'.detected <= s'.matched && OffsetsBelow(s')
    ensures Inv(w, s', initial)
  {
    DoneLater(w, s, s', initial, s.committed);
    forall j | j in s'.claims ensures ClaimInv(w, s', initial, s'.claims[j]) {
      if j != id { ClaimLater(w, s, s', initial, s.claims[j]); }
    }
    hide DoneUpTo, ClaimInv;
  }

  lemma AttemptExtends(w: Setup, s: Sys, id: nat, f: Faults)
    requires OffsetsBelow(s) && Enabled(s, Attempt(id, f))
    ensures var s' := DoAttempt(w, s, id, f);
            && Extends(s, s') && OffsetsBelow(s')
            && (id in s'.claims && s'.claims[id].stage.Processed? ==> Applied(w, s', s.claims[id].next))
  {
    var c, s' := s.claims[id], DoAttempt(w, s, id, f);
    if id in s'.claims && s'.claims[id].stage.Processed? {
      assert s'.history[..|s.history|] == s.history;
      assert AppliedAs(w, s', |s.history|, c.next);
    }
  }

  lemma AttemptKeeps(w: Setup, s: Sys, initial: nat, id: nat, f: Faults)
    requires Inv(w, s, initial) && Enabled(s, Attempt(id, f))
    ensures Inv(w, DoAttempt(w, s, id, f), initial)
  {
    var c, s' := s.claims[id], DoAttempt(w, s, id, f);
    AttemptExtends(w, s, id, f);
    ClaimLater(w, s, s', initial, c);
    hide Applied, DoneUpTo, Extends, OffsetsBelow, Succeeds, Stored;
    OthersLater(w, s, s', initial, id);
  }

  /** Moving on past a message that is done. */
  lemma MarkKeeps(w: Setup, s: Sys, s': Sys, initial: nat, id: nat)
    requires Inv(w, s, initial) && s.At(id)
    requires s' == s.(detected := s'.detected, claims := s.claims[id := Marked(s.claims[id])])
    requires s'.detected <= s.matched
    requires (s.claims[id].stage == Trying(0) && s.Message(id).Garbage?) || s.claims[id].stage.Matched?
    ensures Inv(w, s', initial)
  {
    var c := s.claims[id];
    assert ClaimInv(w, s, initial, c);
    DoneNext(w, s, s', initial, c);
    assert EventOffsets(s.log, c.start, c.next + 1) ==
           EventOffsets(s.log, c.start, c.next) + if s.log[c.next].Observed? then [c.next] else [];
    hide DoneUpTo, Applied, EventOffsets;
    OthersLater(w, s, s', initial, id);
  }

  /** The message at hand is done as well. */
  lemma DoneNext(w: Setup, s: Sys, s': Sys, initial: nat, c: Claim)
    requires ClaimInv(w, s, initial, c) && Extends(s, s') && c.next < |s.log|
    requires (c.stage.Trying? && s.log[c.next].Garbage?) || c.stage.Matched?
    ensures DoneUpTo(w, s', initial, c.next + 1)
  {
    DoneLater(w, s, s', initial, c.next);
    if s.log[c.next].Observed? { AppliedLater(w, s, s', c.next); }
    hide Applied, EventOffsets;
    assert Done(w, s', c.next);
  }

  lemma StepKeeps(w: Setup, s: Sys, initial: nat, a: Action)
    requires Inv(w, s, initial) && Enabled(s, a)
    ensures Inv(w, Do(w, s, a), initial)
  {
    var s' := Do(w, s, a);
    match a
    case Attempt(id, f) =>
      AttemptKeeps(w, s, initial, id, f);
    case Skip(id) =>
      MarkKeeps(w, s, s', initial, id);
    case Mark(id) =>
      MarkKeeps(w, s, s', initial, id);
    case Start(id) =>
      assert EventOffsets(s.log, s.committed, s.committed) == [];
      DoneLater(w, s, s', initial, s.committed);
      OthersLater(w, s, s', initial, id);
    case Match(id) =>
      ClaimLater(w, s, s', initial, s.claims[id]);
      OthersLater(w, s, s', initial, id);
    case Commit(id) =>
      CommitKeeps(w, s, s', initial, id);
    case End(id) =>
      OthersLater(w, s, s', initial, id);
    case _ =>
      assert Extends(s, s');
      SameClaims(w, s, s', initial);
  }

  lemma SameClaims(w: Setup, s: Sys, s': Sys, initial: nat)
    requires Inv(w, s, initial) && Extends(s, s')
    requires s'.claims == s.claims && s'.committed == s.committed && s'.detected == s.detected && OffsetsBelow(s')
    ensures Inv(w, s', initial)
  {
    DoneLater(w, s, s', initial, s.committed);
    forall j | j in s.claims ensures ClaimInv(w, s', initial, s.claims[j]) {
      ClaimLater(w, s, s', initial, s.claims[j]);
    }
    hide DoneUpTo, ClaimInv;
  }

  lemma CommitKeeps(w: Setup, s: Sys, s': Sys, initial: nat, id: nat)
    requires Inv(w, s, initial) && id in s.claims && s' == s.(committed := s.claims[id].marked)
    ensures Inv(w, s', initial)
  {
    assert ClaimInv(w, s, initial, s.claims[id]);
    DoneLater(w, s, s', initial, s.claims[id].next);
    forall j | j in s.claims ensures ClaimInv(w, s', initial, s.claims[j]) {
      ClaimLater(w, s, s', initial, s.claims[j]);
    }
    hide DoneUpTo;
  }

  lemma {:induction false} InvHolds(w: Setup, run: seq<Sys>)
    requires IsRun(w, run) && Fresh(run[0])
    ensures Inv(w, run[|run| - 1], run[0].committed)
  {
    if |run| > 1 {
      var before := run[..|run| - 1];
      assert forall i :: 0 <= i < |before| ==> before[i] == run[i];
      InvHolds(w, before);
      assert Next(w, run[|run| - 2], run[|run| - 1]);
      var a :| Enabled(run[|run| - 2], a) && run[|run| - 1] == Do(w, run[|run| - 2], a);
      StepKeeps(w, run[|run| - 2], run[0].committed, a);
    }
  }

  /* ---------------- main results ---------------- */

  /** Over any run of retries, failures, lost replies, claim restarts, lingering sessions, late commits and catch-up
      switches, every offset from the first commit up to the committed one is unparseable or was applied by a successful
      ProcessEvent and matched against the pending predictions. */
  lemma CommittedAreApplied(w: Setup, run: seq<Sys>, o: nat)
    requires IsRun(w, run) && Fresh(run[0])
    ensures var s := run[|run| - 1];
            run[0].committed <= o < s.committed ==>
            && o < |s.log|
            && (s.log[o].Garbage? || (Applied(w, s, o) && o in s.matched))
  {
    InvHolds(w, run);
    var s := run[|run| - 1];
    assert run[0].committed <= o < s.committed ==> Done(w, s, o);
  }

  predicate Increasing(s: seq<nat>) { forall i, j :: 0 <= i < j < |s| ==> s[i] < s[j] }

  lemma {:induction false} EventOffsetsMeaning(log: seq<Message>, from: nat, to: nat)
    requires from <= to <= |log|
    ensures Increasing(EventOffsets(log, from, to))
    ensures forall o :: o in EventOffsets(log, from, to) <==> from <= o < to && log[o].Observed?
  {
    if from < to {
      EventOffsetsMeaning(log, from, to - 1);
      var before, all := EventOffsets(log, from, to - 1), EventOffsets(log, from, to);
      assert all == before + if log[to - 1].Observed? then [to - 1] else [];
      hide EventOffsets;
      if log[to - 1].Observed? {
        forall i, j | 0 <= i < j < |all| ensures all[i] < all[j] {
          assert all[i] == before[i] && before[i] in before;
        }
      }
    }
  }

  /** Each claim applies exactly the parseable offsets from where it began, each once, in offset order; and it marks an
      offset only after applying it. */
  lemma ClaimsApplyInOrder(w: Setup, run: seq<Sys>, id: nat)
    requires IsRun(w, run) && Fresh(run[0])
    ensures var s := run[|run| - 1];
            id in s.claims ==>
            var c := s.claims[id];
            var to := if c.stage.Trying? then c.marked else c.marked + 1;
            && Increasing(c.applied)
            && c.start <= c.marked <= to <= |s.log|
            && (forall o :: o in c.applied <==> c.start <= o < to && s.log[o].Observed?)
  {
    InvHolds(w, run);
    var s := run[|run| - 1];
    if id in s.claims {
      var c := s.claims[id];
      assert ClaimInv(w, s, run[0].committed, c);
      EventOffsetsMeaning(s.log, c.start, if c.stage.Trying? then c.next else c.next + 1);
    }
  }

  predicate Retracts(step: Step, k: Key) {
    match step
    case Expire(j) => j == k
    case Deliver(ev, _) => (ev.kind == TripCancelled && OfTrip(k, ev.agency, ev.trip))
                           || (ev.kind == SkipStop && Reconcile.KeyOf(ev) == k)
  }

  /** Nothing after position i retracted the key or let it expire. */
  predicate KeptSince(history: seq<Step>, i: nat, k: Key) {
    forall j :: i < j < |history| ==> !Retracts(history[j], k)
  }

  /** A successful call for an observation is never forgotten while its key is not retracted. */
  lemma {:induction false} AppliedIsReceived(w: Setup, history: seq<Step>, i: nat, ev: DelayEvent)
    requires i < |history| && history[i].Deliver? && history[i].ev == ev && Observation(ev)
    requires Succeeds(w.Store(history[..i]), ev, history[i].faults) && KeptSince(history, i, Reconcile.KeyOf(ev))
    ensures ev in Received(Reconcile.KeyOf(ev), history)
  {
    var k := Reconcile.KeyOf(ev);
    var before := history[..|history| - 1];
    if i < |history| - 1 {
      assert before[..i] == history[..i];
      AppliedIsReceived(w, before, i, ev);
    } else {
      StoredIsReconciled(w.g.tripRoute, before, k);
      LateExactly(w.g.tripRoute, Received(k, before), ev);
    }
  }

  /** A successful call for an observation is reflected in the delay state: as long as its key is neither retracted nor
      expired since, the key is stored and at least as recent as the event. */
  lemma AppliedIsReflected(w: Setup, s: Sys, i: nat, o: nat)
    requires AppliedAs(w, s, i, o) && Observation(s.log[o].ev)
    requires KeptSince(s.history, i, Reconcile.KeyOf(w.Fill(s.log[o].ev)))
    ensures var ev := w.Fill(s.log[o].ev);
            var k := Reconcile.KeyOf(ev);
            k in w.Store(s.history) && ev.observedAt <= w.Store(s.history)[k].observedAt
  {
    var ev := w.Fill(s.log[o].ev);
    OthersUntouched(w.g, w.clock, s.log[o].ev);
    AppliedIsReceived(w, s.history, i, ev);
    StoredIsNewest(w.g.tripRoute, s.history, Reconcile.KeyOf(ev));
  }

  /** Every committed observation has a successful call of its own, and after each such call that nothing has retracted
      or let expire since, the delay state is at least as recent as the event. */
  lemma CommittedAreReflected(w: Setup, run: seq<Sys>, o: nat)
    requires IsRun(w, run) && Fresh(run[0])
    requires var s := run[|run| - 1];
             run[0].committed <= o < s.committed && o < |s.log| && s.log[o].Observed? && Observation(s.log[o].ev)
    ensures var s := run[|run| - 1];
            var ev := w.Fill(s.log[o].ev);
            var k := Reconcile.KeyOf(ev);
            && (exists i :: AppliedAs(w, s, i, o))
            && (forall i :: AppliedAs(w, s, i, o) && KeptSince(s.history, i, k) ==>
                              k in w.Store(s.history) && ev.observedAt <= w.Store(s.history)[k].observedAt)
  {
    var s := run[|run| - 1];
    var k := Reconcile.KeyOf(w.Fill(s.log[o].ev));
    CommittedAreApplied(w, run, o);
    forall i | AppliedAs(w, s, i, o) && KeptSince(s.history, i, k)
      ensures k in w.Store(s.history) && w.Fill(s.log[o].ev).observedAt <= w.Store(s.history)[k].observedAt
    {
      AppliedIsReflected(w, s, i, o);
    }
  }
}
