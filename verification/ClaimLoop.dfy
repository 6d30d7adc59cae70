/** ConsumeClaim (cmd/processor/main.go) as a loop over the delivered messages, and the run of the consume protocol it
    performs. */
module ClaimLoop {
  import opened Events
  import opened Enrich
  import opened Reconcile
  import opened Consumer

  /** By offset: how each attempt fares, whether the session ends after it, and the catch-up flag as read. */
  datatype Env = Env(faults: nat -> nat -> Faults, cancelled: nat -> nat -> bool, catchUp: nat -> bool)

  lemma ExtendRun(w: Setup, run: seq<Sys>, a: Action)
    requires IsRun(w, run) && run != [] && Enabled(run[|run| - 1], a)
    ensures IsRun(w, run + [Do(w, run[|run| - 1], a)])
  {
    hide Do;
    var s' := Do(w, run[|run| - 1], a);
    var longer := run + [s'];
    assert Next(w, run[|run| - 1], s');
    forall i | 0 <= i < |longer| - 1 ensures Next(w, longer[i], longer[i + 1]) {
      if i < |run| - 1 { assert Next(w, run[i], run[i + 1]); }
    }
  }

  function Deliveries(ev: DelayEvent, faults: nat -> Faults, n: nat): seq<Step> {
    if n == 0 then [] else Deliveries(ev, faults, n - 1) + [Deliver(ev, faults(n - 1))]
  }

  lemma {:induction false} DeliveriesStored(w: Setup, history: seq<Step>, ev: DelayEvent, faults: nat -> Faults, n: nat)
    ensures w.Store(history + Deliveries(ev, faults, n)) == Retried(w.g.tripRoute, w.Store(history), ev, faults, n)
  {
    if n == 0 {
      assert history + [] == history;
    } else {
      DeliveriesStored(w, history, ev, faults, n - 1);
      var h := history + Deliveries(ev, faults, n);
      assert h[..|h| - 1] == history + Deliveries(ev, faults, n - 1);
    }
  }

  /** The offsets recorded for n calls from a position of the history on. */
  function Recorded(offsets: map<nat, nat>, at: nat, o: nat, n: nat): map<nat, nat> {
    if n == 0 then offsets else Recorded(offsets, at, o, n - 1)[at + n - 1 := o]
  }

  /** The protocol state once n calls were made for the message at hand. */
  function Called(s: Sys, id: nat, ev: DelayEvent, faults: nat -> Faults, n: nat): Sys
    requires id in s.claims
  {
    s.(history := s.history + Deliveries(ev, faults, n),
       offsets := Recorded(s.offsets, |s.history|, s.claims[id].next, n))
  }

  /** The protocol state after n failed attempts at the message at hand. */
  function Tried(s: Sys, id: nat, ev: DelayEvent, faults: nat -> Faults, n: nat): Sys
    requires id in s.claims
  {
    Called(s, id, ev, faults, n).(claims := s.claims[id := s.claims[id].(stage := Trying(n))])
  }

  lemma {:induction false} DeliveriesLength(ev: DelayEvent, faults: nat -> Faults, n: nat)
    ensures |Deliveries(ev, faults, n)| == n
  {
    if n > 0 { DeliveriesLength(ev, faults, n - 1); }
  }

  ghost predicate AtMessage(w: Setup, s: Sys, id: nat, ev: DelayEvent) {
    s.At(id) && s.claims[id].stage == Trying(0) && s.Message(id).Observed? && w.Fill(s.Message(id).ev) == ev
  }

  /** The outcome of the n-th attempt, read off the protocol state after the earlier ones. */
  lemma NthAttempt(w: Setup, s: Sys, id: nat, ev: DelayEvent, faults: nat -> Faults, n: nat)
    requires AtMessage(w, s, id, ev)
    ensures var t := Tried(s, id, ev, faults, n);
            && AtEvent(w, t, id, ev)
            && (Succeeds(w.Store(t.history), ev, faults(n)) <==>
                AttemptSucceeds(w.g.tripRoute, w.Store(s.history), ev, faults, n))
            && t.history + [Deliver(ev, faults(n))] == s.history + Deliveries(ev, faults, n + 1)
            && t.offsets[|t.history| := s.claims[id].next] == Recorded(s.offsets, |s.history|, s.claims[id].next, n + 1)
  {
    DeliveriesLength(ev, faults, n);
    DeliveriesStored(w, s.history, ev, faults, n);
    hide Succeeds, Retried, Stored, Enriched;
    assert s.history + Deliveries(ev, faults, n) + [Deliver(ev, faults(n))] ==
           s.history + Deliveries(ev, faults, n + 1);
  }

  ghost predicate AtEvent(w: Setup, s: Sys, id: nat, ev: DelayEvent) {
    s.At(id) && s.claims[id].stage.Trying? && s.Message(id).Observed? && w.Fill(s.Message(id).ev) == ev
  }

  /** An attempt that fails, but not for the last time. */
  lemma FailedAttempt(w: Setup, s: Sys, id: nat, ev: DelayEvent, faults: nat -> Faults, n: nat)
    requires AtMessage(w, s, id, ev)
    requires !AttemptSucceeds(w.g.tripRoute, w.Store(s.history), ev, faults, n)
    ensures var t := Tried(s, id, ev, faults, n);
            && Enabled(t, Attempt(id, faults(n)))
            && Do(w, t, Attempt(id, faults(n))) ==
               if n + 1 < ATTEMPTS then Tried(s, id, ev, faults, n + 1)
               else Called(s, id, ev, faults, n + 1).(claims := s.claims - {id})
  {
    NthAttempt(w, s, id, ev, faults, n);
    hide Succeeds, Stored, AttemptSucceeds, Enriched, Deliveries;
    var t := Tried(s, id, ev, faults, n);
    assert t.claims - {id} == s.claims - {id};
  }

  lemma {:induction false} AllFailHere(
    tripRoute: map<string, string>, store: map<Key, DelayState>, ev: DelayEvent, faults: nat -> Faults, n: nat, i: nat)
    requires AllFail(tripRoute, store, ev, faults, n) && i < n
    ensures !AttemptSucceeds(tripRoute, store, ev, faults, i)
    ensures AllFail(tripRoute, store, ev, faults, n - 1)
  {
    hide AttemptSucceeds;
  }

  /** Failed attempts are steps of the protocol. */
  lemma {:induction false} FailuresRun(w: Setup, run: seq<Sys>, id: nat, ev: DelayEvent, faults: nat -> Faults, n: nat)
    returns (longer: seq<Sys>)
    requires IsRun(w, run) && run != [] && AtMessage(w, run[|run| - 1], id, ev) && n < ATTEMPTS
    requires AllFail(w.g.tripRoute, w.Store(run[|run| - 1].history), ev, faults, n)
    ensures IsRun(w, longer) && longer != [] && longer[0] == run[0]
    ensures longer[|longer| - 1] == Tried(run[|run| - 1], id, ev, faults, n)
  {
    hide AttemptSucceeds, Stored, Retried, Do, Succeeds, Enriched, AllFail;
    var s := run[|run| - 1];
    if n == 0 {
      longer := run;
      assert s.history + [] == s.history;
      assert s.claims[id := s.claims[id]] == s.claims;
    } else {
      AllFailHere(w.g.tripRoute, w.Store(s.history), ev, faults, n, n - 1);
      longer := FailuresRun(w, run, id, ev, faults, n - 1);
      FailedAttempt(w, s, id, ev, faults, n - 1);
      var t := Tried(s, id, ev, faults, n - 1);
      var a := Attempt(id, faults(n - 1));
      ExtendRun(w, longer, a);
      longer := longer + [Do(w, t, a)];
    }
  }

  /** A retried call that succeeded, as steps of the protocol. */
  lemma SuccessRun(w: Setup, run: seq<Sys>, id: nat, ev: DelayEvent, faults: nat -> Faults, calls: nat)
    returns (longer: seq<Sys>)
    requires IsRun(w, run) && run != [] && AtMessage(w, run[|run| - 1], id, ev) && 0 < calls <= ATTEMPTS
    requires var store := w.Store(run[|run| - 1].history);
             && AllFail(w.g.tripRoute, store, ev, faults, calls - 1)
             && AttemptSucceeds(w.g.tripRoute, store, ev, faults, calls - 1)
    ensures IsRun(w, longer) && longer != [] && longer[0] == run[0]
    ensures var s := run[|run| - 1];
            var c := s.claims[id];
            longer[|longer| - 1] ==
            Called(s, id, ev, faults, calls).(
              claims := s.claims[id := c.(stage := Processed, applied := c.applied + [c.next])])
  {
    hide AttemptSucceeds, Stored, Retried, Succeeds, Enriched, AllFail, Deliveries, IsRun;
    var s := run[|run| - 1];
    longer := FailuresRun(w, run, id, ev, faults, calls - 1);
    NthAttempt(w, s, id, ev, faults, calls - 1);
    var t := Tried(s, id, ev, faults, calls - 1);
    var a := Attempt(id, faults(calls - 1));
    ExtendRun(w, longer, a);
    longer := longer + [Do(w, t, a)];
  }

  /** A retried call that gave up, as steps of the protocol: the claim is gone and nothing was marked. */
  lemma FailureRun(w: Setup, run: seq<Sys>, id: nat, ev: DelayEvent, faults: nat -> Faults, calls: nat)
    returns (longer: seq<Sys>)
    requires IsRun(w, run) && run != [] && AtMessage(w, run[|run| - 1], id, ev) && 0 < calls <= ATTEMPTS
    requires AllFail(w.g.tripRoute, w.Store(run[|run| - 1].history), ev, faults, calls)
    ensures IsRun(w, longer) && longer != [] && longer[0] == run[0]
    ensures var s := run[|run| - 1];
            longer[|longer| - 1] == Called(s, id, ev, faults, calls).(claims := s.claims - {id})
  {
    hide AttemptSucceeds, Stored, Retried, Do, Succeeds, Enriched, AllFail;
    var s := run[|run| - 1];
    AllFailHere(w.g.tripRoute, w.Store(s.history), ev, faults, calls, calls - 1);
    longer := FailuresRun(w, run, id, ev, faults, calls - 1);
    FailedAttempt(w, s, id, ev, faults, calls - 1);
    var t := Tried(s, id, ev, faults, calls - 1);
    var a := Attempt(id, faults(calls - 1));
    ExtendRun(w, longer, a);
    longer := longer + [Do(w, t, a)];
    if calls < ATTEMPTS {
      ExtendRun(w, longer, End(id));
      EndState(w, s, id, ev, faults, calls);
      longer := longer + [Do(w, Do(w, t, a), End(id))];
    }
  }

  lemma EndState(w: Setup, s: Sys, id: nat, ev: DelayEvent, faults: nat -> Faults, n: nat)
    requires id in s.claims
    ensures var t := Tried(s, id, ev, faults, n);
            Do(w, t, End(id)) == Called(s, id, ev, faults, n).(claims := s.claims - {id})
  {
    hide Deliveries;
    assert s.claims[id := s.claims[id].(stage := Trying(n))] - {id} == s.claims - {id};
  }

  /** Matching, detection under the flag as read, and the mark. */
  lemma FinishRun(w: Setup, run: seq<Sys>, id: nat, catchUp: bool) returns (longer: seq<Sys>)
    requires IsRun(w, run) && run != [] && run[|run| - 1].At(id) && run[|run| - 1].claims[id].stage.Processed?
    ensures IsRun(w, longer) && longer != [] && longer[0] == run[0]
    ensures var s := run[|run| - 1];
            var o := s.claims[id].next;
            longer[|longer| - 1] ==
            s.(matched := s.matched + {o}, detected := if catchUp then s.detected else s.detected + {o},
               claims := s.claims[id := Marked(s.claims[id])], catchUp := catchUp)
  {
    var s := run[|run| - 1];
    var lag := if catchUp then CATCH_UP_ENTER_LAG + 1 else 0;
    ExtendRun(w, run, Toggle(lag));
    var s1 := Do(w, s, Toggle(lag));
    longer := run + [s1];
    ExtendRun(w, longer, Match(id));
    var s2 := Do(w, s1, Match(id));
    longer := longer + [s2];
    ExtendRun(w, longer, Mark(id));
    longer := longer + [Do(w, s2, Mark(id))];
  }

  /** Every attempt made for the event failed, and they were all there are or the session ended after the last. */
  ghost predicate GaveUp(w: Setup, before: seq<Step>, after: seq<Step>, ev: DelayEvent, env: Env, o: nat) {
    exists calls: nat ::
      && 0 < calls <= ATTEMPTS && after == before + Deliveries(ev, env.faults(o), calls)
      && AllFail(w.g.tripRoute, w.Store(before), ev, env.faults(o), calls)
      && (calls == ATTEMPTS || env.cancelled(o)(calls - 1))
  }

  class Handler {
    const w: Setup
    const mgr: DelayStateManager
    /** The offset the session would commit next. */
    var marked: nat
    /** Offsets handed to the evaluator, and those searched for broken transfers. */
    var matched: set<nat>
    var detected: set<nat>

    constructor (w: Setup, mgr: DelayStateManager)
      ensures this.w == w && this.mgr == mgr
    {
      this.w := w;
      this.mgr := mgr;
      marked, matched, detected := 0, {}, {};
    }

    /** The handler's fields are those of the protocol state in which the claim waits for the given offset. */
    ghost predicate Mirrors(s: Sys, id: nat, next: nat)
      reads this, mgr
    {
      && mgr.tripRoute == w.g.tripRoute && mgr.store == w.Store(s.history)
      && matched == s.matched && detected == s.detected
      && id in s.claims && s.claims[id].next == next == marked && s.claims[id].stage == Trying(0)
    }

    /** One parseable message: enrich, apply with retries, match, detect unless catching up, mark. */
    method Process(raw: DelayEvent, o: nat, env: Env, ghost before: seq<Sys>, id: nat)
      returns (ok: bool, ghost run: seq<Sys>)
      requires IsRun(w, before) && before != [] && Mirrors(before[|before| - 1], id, o)
      requires var s := before[|before| - 1]; s.At(id) && s.Message(id) == Observed(raw)
      modifies this, mgr
      ensures IsRun(w, run) && run != [] && run[0] == before[0] && SameLog(before[|before| - 1], run[|run| - 1])
      ensures ok ==> Mirrors(run[|run| - 1], id, o + 1)
      ensures !ok ==> marked == o && id !in run[|run| - 1].claims && mgr.store == w.Store(run[|run| - 1].history)
      ensures !ok ==> GaveUp(w, before[|before| - 1].history, run[|run| - 1].history, w.Fill(raw), env, o)
    {
      hide AttemptSucceeds, Retried, Do, IsRun, Stored, Enriched, Succeeds, AllFail;
      ghost var cur := before[|before| - 1];
      var msg := new EventMessage(raw);
      var _ := msg.EnrichEvent(w.g, w.clock);
      var ev := msg.Value();
      assert AtMessage(w, cur, id, ev);
      var done, calls := WithRetry(mgr, ev, ATTEMPTS, env.faults(o), env.cancelled(o));
      DeliveriesStored(w, cur.history, ev, env.faults(o), calls);
      if !done {
        OneMoreFails(w.g.tripRoute, w.Store(cur.history), ev, env.faults(o), calls);
        run := FailureRun(w, before, id, ev, env.faults(o), calls);
        return false, run;
      }
      run := SuccessRun(w, before, id, ev, env.faults(o), calls);
      matched := matched + {o};
      var catchUp := env.catchUp(o);
      if !catchUp { detected := detected + {o}; }
      run := FinishRun(w, run, id, catchUp);
      marked := o + 1;
      ok := true;
    }

    /** Processes the delivered messages until they end or one keeps failing. The whole call is a run of the protocol:
        everything before the returned position is marked; the failing message is not, and all its attempts failed. */
    method ConsumeClaim(messages: seq<Message>, start: nat, env: Env, ghost s: Sys, id: nat)
      returns (ok: bool, end: nat, ghost run: seq<Sys>, ghost reached: seq<Step>)
      requires Mirrors(s, id, start)
      requires start + |messages| <= |s.log| && messages == s.log[start..start + |messages|]
      modifies this, mgr
      ensures IsRun(w, run) && run != [] && run[0] == s && SameLog(s, run[|run| - 1])
      ensures ok ==> end == |messages| && Mirrors(run[|run| - 1], id, start + end)
      ensures !ok ==> end < |messages| && messages[end].Observed? && id !in run[|run| - 1].claims
      ensures !ok ==> GaveUp(w, reached, run[|run| - 1].history, w.Fill(messages[end].ev), env, start + end)
      ensures marked == start + end && mgr.store == w.Store(run[|run| - 1].history)
    {
      run, reached := [s], s.history;
      end := 0;
      while end < |messages|
        invariant 0 <= end <= |messages|
        invariant IsRun(w, run) && run != [] && run[0] == s && SameLog(s, run[|run| - 1])
        invariant Mirrors(run[|run| - 1], id, start + end)
      {
        hide IsRun, Do, Stored, GaveUp;
        ghost var cur := run[|run| - 1];
        assert messages[end] == s.log[start + end] && cur.Message(id) == messages[end];
        match messages[end] {
          case Garbage =>
            ExtendRun(w, run, Skip(id));
            run := run + [Do(w, cur, Skip(id))];
            marked := start + end + 1;
          case Observed(ev) =>
            reached := cur.history;
            ok, run := Process(ev, start + end, env, run, id);
            if !ok { return; }
        }
        end := end + 1;
      }
      ok := true;
    }
  }

  predicate SameLog(s: Sys, t: Sys) { t.log == s.log && t.committed == s.committed }

  lemma OneMoreFails(
    tripRoute: map<string, string>, store: map<Key, DelayState>, ev: DelayEvent, faults: nat -> Faults, n: nat)
    requires n > 0 && AllFail(tripRoute, store, ev, faults, n - 1)
    requires !AttemptSucceeds(tripRoute, store, ev, faults, n - 1)
    ensures AllFail(tripRoute, store, ev, faults, n)
  {
    hide AttemptSucceeds;
  }

}
