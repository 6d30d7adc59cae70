/** What every interleaving of adders, matchers, sweepers and expiring keys guarantees. */
module PendingTheorems {
  import opened Common
  import opened Tracking
  import opened PendingStore
  import opened PendingProtocol
  import opened PendingPhases
  import opened PendingKeys
  import opened PendingCopies

  lemma InvStep(s: Sys, a: Action)
    requires Inv(s) && Enabled(s, a)
    ensures Inv(Do(s, a))
  {
    hide PhaseInv, CreatedInv, StoreInv, IndexInv, SweeperInv, MatcherInv, Enabled, Do;
    PhaseStep(s, a);
    CreatedStep(s, a);
    StoreStep(s, a);
    IndexStep(s, a);
    SweeperStep(s, a);
    MatcherStep(s, a);
  }

  lemma StepAt(run: seq<Sys>, n: nat) returns (a: Action)
    requires IsRun(run) && 0 < n < |run|
    ensures Enabled(run[n - 1], a) && run[n] == Do(run[n - 1], a)
  {
    var m := n - 1;
    assert Step(run[m], run[m + 1]);
    a :| Enabled(run[n - 1], a) && run[n] == Do(run[n - 1], a);
  }

  lemma {:induction false} InvHolds(run: seq<Sys>, n: nat)
    requires IsRun(run) && n < |run|
    ensures Inv(run[n])
  {
    if n == 0 {
    } else {
      hide *;
      InvHolds(run, n - 1);
      var a := StepAt(run, n);
      InvStep(run[n - 1], a);
    }
  }

  /* ---------------- single finalization ---------------- */

  ghost predicate HeldBySome(s: Sys, id: PendingId) { exists w :: Holds(s.Sweeping(w), id) }

  function Count(b: bool): nat { if b then 1 else 0 }

  /** A created id is in exactly one place: being added, waiting in the expiry set, in the hands of one sweeper,
      finalized, or evicted; an id not created is in none. No id is finalized twice. */
  lemma SingleFinalization(run: seq<Sys>, n: nat, id: PendingId)
    requires IsRun(run) && n < |run|
    ensures var s := run[n];
            && Count(id in s.adders) + Count(id in s.redis.expiry) + Count(HeldBySome(s, id)) +
               Count(InFinalized(s, id)) + Count(At(s, id, Evicted)) == Count(id in s.created)
            && (forall v, w :: Holds(s.Sweeping(v), id) && Holds(s.Sweeping(w), id) ==> v == w)
            && (forall j, k :: 0 <= j < k < |s.finalized| ==> s.finalized[j].0.id != s.finalized[k].0.id)
  {
    InvHolds(run, n);
    var s := run[n];
    hide CreatedInv, StoreInv, IndexInv, SweeperInv, MatcherInv, IsRun;
    forall w ensures Holds(s.Sweeping(w), id) <==> At(s, id, Claimed(w)) {}
    if id in s.phase && s.phase[id].Claimed? { assert Holds(s.Sweeping(s.phase[id].sweeper), id); }
  }

  /** Nothing of the id is left on the server or in an add. */
  ghost predicate Gone(s: Sys, id: PendingId) {
    && id !in s.redis.store && id !in s.redis.expiry && id !in s.adders
    && forall k :: id !in s.redis.IndexAt(k)
  }

  lemma FinalizedGone(s: Sys, id: PendingId)
    requires Inv(s) && InFinalized(s, id)
    ensures Gone(s, id)
  {
    assert At(s, id, Finalized);
    hide SweeperInv, MatcherInv, CreatedInv;
    assert id in s.redis.store ==> StoredOk(s, id);
    forall k ensures id !in s.redis.IndexAt(k) { assert id in s.redis.IndexAt(k) ==> IndexedOk(s, k, id); }
  }

  lemma FinalizedStays(s: Sys, a: Action, id: PendingId)
    requires Enabled(s, a) && InFinalized(s, id)
    ensures InFinalized(Do(s, a), id)
  {
    var k :| 0 <= k < |s.finalized| && s.finalized[k].0.id == id;
    if a.Delete? {
      assert Do(s, a).finalized == s.finalized + [(s.Sweeping(a.w).p, s.Sweeping(a.w).seen)];
    } else {
      DoFramed(s, a);
    }
    hide Do, Enabled;
    assert s.finalized <= Do(s, a).finalized;
    assert Do(s, a).finalized[k].0.id == id;
  }

  /** Once an id is finalized, its key, its index entries and its expiry entry never come back, whatever late updates
      or adds follow. */
  lemma {:induction false} NeverReappears(run: seq<Sys>, i: nat, j: nat, id: PendingId)
    requires IsRun(run) && i <= j < |run| && InFinalized(run[i], id)
    ensures InFinalized(run[j], id) && Gone(run[j], id)
    decreases j - i
  {
    hide *;
    if i < j {
      NeverReappears(run, i, j - 1, id);
      var a := StepAt(run, j);
      FinalizedStays(run[j - 1], a, id);
    }
    InvHolds(run, j);
    FinalizedGone(run[j], id);
  }

  /** The only index entries without an owner are those of evicted ids. */
  lemma LeakedEntriesAreEvicted(run: seq<Sys>, n: nat, k: IndexKey, id: PendingId)
    requires IsRun(run) && n < |run| && id in run[n].redis.IndexAt(k)
    ensures id in run[n].adders || id in run[n].redis.expiry || HeldBySome(run[n], id) || At(run[n], id, Evicted)
  {
    hide Inv, IsRun, InFinalized, HeldBySome;
    InvHolds(run, n);
    SingleFinalization(run, n, id);
    IndexedAlive(run[n], k, id);
  }

  lemma IndexedAlive(s: Sys, k: IndexKey, id: PendingId)
    requires Inv(s) && id in s.redis.IndexAt(k)
    ensures id in s.created && !InFinalized(s, id)
  {
    assert IndexedOk(s, k, id);
    assert InFinalized(s, id) <==> At(s, id, Finalized);
  }

  /* ---------------- the observed maximum ---------------- */

  lemma {:induction false} MaxAdditionalMeaning(p: Pending, evs: seq<Event>)
    ensures forall e :: e in evs ==> Additional(p, e) <= MaxAdditional(p, evs)
    ensures evs != [] ==> exists e :: e in evs && Additional(p, e) == MaxAdditional(p, evs)
  {
    if evs != [] {
      var n := |evs| - 1;
      var front := evs[..n];
      MaxAdditionalMeaning(p, front);
      hide Additional;
      assert evs == front + [evs[n]] && evs[n] in evs;
      assert forall e :: e in evs <==> e in front || e == evs[n];
      assert MaxAdditional(p, evs) == Max(MaxAdditional(p, front), Additional(p, evs[n]));
      if MaxAdditional(p, evs) != Additional(p, evs[n]) {
        assert front != [];
        var e :| e in front && Additional(p, e) == MaxAdditional(p, front);
      }
    }
  }

  /** What a sweeper finalizes: the pending as created, matched exactly if some accepted event had landed before its
      read, with the largest additional delay among those events. */
  lemma ObservedMaximum(run: seq<Sys>, n: nat, k: nat)
    requires IsRun(run) && n < |run| && k < |run[n].finalized|
    ensures var (p, seen) := run[n].finalized[k];
            && p.id in run[n].created
            && var c := run[n].created[p.id];
            && p == c.(matched := p.matched, observedMax := p.observedMax)
            && (p.matched <==> seen != []) && (!p.matched ==> p.observedMax == 0)
            && (forall e :: e in seen ==>
                  && c.createdAt <= e.observedAt && e.observedAt <= c.expiresAt
                  && (c.direction < 0 || e.direction == None || e.direction == Some(c.direction))
                  && Beyond(e.delay, c.baseline) <= p.observedMax)
            && (p.matched ==> exists e :: e in seen && Beyond(e.delay, c.baseline) == p.observedMax)
  {
    InvHolds(run, n);
    var s := run[n];
    var (p, seen) := s.finalized[k];
    assert CopyInv(s, s.finalized[k].0, s.finalized[k].1);
    MaxAdditionalMeaning(s.created[p.id], seen);
    if seen != [] {
      var e :| e in seen && Additional(s.created[p.id], e) == MaxAdditional(s.created[p.id], seen);
      assert Beyond(e.delay, s.created[p.id].baseline) == p.observedMax;
    }
  }

  /** Conversely, an event in the window and not known to run the other way counts from the moment its matcher reaches
      the pending, in every later state: the pending is matched and at least that late. */
  lemma HeardIsCounted(run: seq<Sys>, n: nat, m: (string, string), j: nat)
    requires IsRun(run) && n < j < |run|
    requires Enabled(run[n], Match(m)) && run[n + 1] == Do(run[n], Match(m)) && run[n].MatcherOf(m).todo != []
    requires var (id, e) := (run[n].MatcherOf(m).todo[0].id, run[n].MatcherOf(m).ev);
             && id in run[n].redis.store && id in run[j].redis.store && id in run[n].created
             && var c := run[n].created[id];
             && c.createdAt <= e.observedAt && e.observedAt <= c.expiresAt
             && (c.direction < 0 || e.direction == None || e.direction == Some(c.direction))
    ensures var (id, e) := (run[n].MatcherOf(m).todo[0].id, run[n].MatcherOf(m).ev);
            var q := run[j].redis.store[id];
            q.matched && Beyond(e.delay, run[n].created[id].baseline) <= q.observedMax
  {
    var id, e := run[n].MatcherOf(m).todo[0].id, run[n].MatcherOf(m).ev;
    InvHolds(run, n);
    LandsNow(run[n], m);
    InvHolds(run, j);
    hide IsRun, Enabled, Do;
    LandedPrefix(run, n + 1, j, id);
    CreatedStays(run, n, j, id);
    assert StoredOk(run[j], id);
    hide *;
    LandedCounts(run[j], id, e);
  }

  lemma LandedCounts(s: Sys, id: PendingId, e: Event)
    requires id in s.redis.store && StoredOk(s, id) && e in s.landed[id]
    ensures s.redis.store[id].matched && Beyond(e.delay, s.created[id].baseline) <= s.redis.store[id].observedMax
  {
    MaxAdditionalMeaning(s.created[id], s.landed[id]);
  }

  lemma LandsNow(s: Sys, m: (string, string))
    requires Inv(s) && Enabled(s, Match(m)) && s.MatcherOf(m).todo != []
    requires var (id, e) := (s.MatcherOf(m).todo[0].id, s.MatcherOf(m).ev);
             && id in s.redis.store && id in s.created
             && var c := s.created[id];
             && c.createdAt <= e.observedAt && e.observedAt <= c.expiresAt
             && (c.direction < 0 || e.direction == None || e.direction == Some(c.direction))
    ensures var (id, e) := (s.MatcherOf(m).todo[0].id, s.MatcherOf(m).ev);
            id in Do(s, Match(m)).landed && e in Do(s, Match(m)).landed[id]
  {
    hide Inv, DoMatch, IsRange;
    CurrentCopy(s, m);
    AcceptedLands(s, m);
  }

  lemma AcceptedLands(s: Sys, m: (string, string))
    requires s.MatcherOf(m).Matching? && (forall p :: p in s.MatcherOf(m).todo ==> p.id in s.landed)
    requires s.MatcherOf(m).todo != [] && Accepts(s.MatcherOf(m).todo[0], s.MatcherOf(m).ev)
    requires s.MatcherOf(m).todo[0].id in s.redis.store
    ensures var (id, log) := (s.MatcherOf(m).todo[0].id, DoMatch(s, m).landed);
            id in log && s.MatcherOf(m).ev in log[id]
  {
    hide Exec, Accepts, NeedsWrite, Observe;
  }

  /** The copy at hand is what is stored: the created pending but for what it has observed. */
  lemma CurrentCopy(s: Sys, m: (string, string))
    requires Inv(s) && s.MatcherOf(m).Matching? && s.MatcherOf(m).todo != []
    requires s.MatcherOf(m).todo[0].id in s.redis.store
    ensures var p := s.MatcherOf(m).todo[0];
            && p.id in s.created && p == s.created[p.id].(matched := p.matched, observedMax := p.observedMax)
  {
    var p := s.MatcherOf(m).todo[0];
    hide PhaseInv, CreatedInv, IndexInv, SweeperInv, MaxAdditional, Accepts, Mine;
    assert MatcherOk(s, m, s.MatcherOf(m)) && Current(s, m, p);
    assert StoredOk(s, p.id);
  }

  /** Redelivering an event that has landed on a stored pending needs no write, whatever landed in between. */
  lemma RedeliveryChangesNothing(run: seq<Sys>, n: nat, id: PendingId, e: Event)
    requires IsRun(run) && n < |run| && id in run[n].redis.store
    requires id in run[n].landed && e in run[n].landed[id]
    ensures !NeedsWrite(run[n].redis.store[id], e) && Observe(run[n].redis.store[id], e) == run[n].redis.store[id]
  {
    InvHolds(run, n);
    assert StoredOk(run[n], id);
    MaxAdditionalMeaning(run[n].created[id], run[n].landed[id]);
  }

  /** The log behind a stored pending only grows. */
  lemma LandedGrows(s: Sys, a: Action, id: PendingId)
    requires Inv(s) && Enabled(s, a) && id in s.landed
    ensures id in Do(s, a).landed && s.landed[id] <= Do(s, a).landed[id]
  {
    assert s.landed.Keys == s.created.Keys;
    if a.Match? {
      hide *;
      MatchLands(s, a, id);
    } else if !a.StartAdd? {
      DoFramed(s, a);
      hide Inv, Do, Enabled;
    } else {
      hide Inv;
    }
  }

  lemma MatchLands(s: Sys, a: Action, id: PendingId)
    requires Enabled(s, a) && a.Match? && id in s.landed
    ensures id in Do(s, a).landed && s.landed[id] <= Do(s, a).landed[id]
  {
    hide IsRange, DoMatch;
    MatchLandsOne(s, a.m, id);
  }

  lemma MatchLandsOne(s: Sys, m: (string, string), id: PendingId)
    requires s.MatcherOf(m).Matching? && (forall p :: p in s.MatcherOf(m).todo ==> p.id in s.landed) && id in s.landed
    ensures id in DoMatch(s, m).landed && s.landed[id] <= DoMatch(s, m).landed[id]
  {
    hide Exec, Accepts, NeedsWrite, Observe;
  }

  lemma {:induction false} LandedPrefix(run: seq<Sys>, i: nat, j: nat, id: PendingId)
    requires IsRun(run) && i <= j < |run| && id in run[i].landed
    ensures id in run[j].landed && run[i].landed[id] <= run[j].landed[id]
    decreases j - i
  {
    hide *;
    if i < j {
      LandedPrefix(run, i, j - 1, id);
      InvHolds(run, j - 1);
      var a := StepAt(run, j);
      LandedGrows(run[j - 1], a, id);
    }
  }

  lemma {:induction false} MaxPrefix(p: Pending, a: seq<Event>, b: seq<Event>)
    requires a <= b
    ensures MaxAdditional(p, a) <= MaxAdditional(p, b)
  {
    if |a| < |b| {
      MaxPrefix(p, a, b[..|b| - 1]);
    } else {
      assert a == b;
    }
  }

  lemma CreatedKeeps(s: Sys, a: Action, id: PendingId)
    requires Enabled(s, a) && id in s.created
    ensures id in Do(s, a).created && Do(s, a).created[id] == s.created[id]
  {
    if !a.StartAdd? {
      DoFramed(s, a);
      hide *;
    }
  }

  /** The pending as created never changes. */
  lemma {:induction false} CreatedStays(run: seq<Sys>, i: nat, j: nat, id: PendingId)
    requires IsRun(run) && i <= j < |run| && id in run[i].created
    ensures id in run[j].created && run[j].created[id] == run[i].created[id]
    decreases j - i
  {
    hide *;
    if i < j {
      CreatedStays(run, i, j - 1, id);
      var a := StepAt(run, j);
      CreatedKeeps(run[j - 1], a, id);
    }
  }

  /** Stored observations never decrease and matched never reverts. */
  lemma StoredNeverDecreases(run: seq<Sys>, i: nat, j: nat, id: PendingId)
    requires IsRun(run) && i <= j < |run| && id in run[i].redis.store && id in run[j].redis.store
    ensures run[i].redis.store[id].observedMax <= run[j].redis.store[id].observedMax
    ensures run[i].redis.store[id].matched ==> run[j].redis.store[id].matched
  {
    InvHolds(run, i);
    InvHolds(run, j);
    assert StoredOk(run[i], id) && StoredOk(run[j], id);
    hide Inv, IsRun;
    LandedPrefix(run, i, j, id);
    CreatedStays(run, i, j, id);
    MaxPrefix(run[i].created[id], run[i].landed[id], run[j].landed[id]);
  }
}
