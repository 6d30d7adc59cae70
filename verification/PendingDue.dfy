/** No pending is finalized before its time: it was in the batch of a sweep that began when it had expired
    (internal/evaluation/pending.go). */
module PendingDue {
  import opened Tracking
  import opened PendingStore
  import opened PendingProtocol
  import opened PendingPhases
  import opened PendingTheorems
  import opened PendingLeaks

  /** The expiry set scores every id by its pending's end. */
  ghost predicate ExpiryOk(s: Sys) {
    forall id :: id in s.redis.expiry ==> id in s.created && s.redis.expiry[id] == s.created[id].expiresAt
  }

  /** Expiry entries are only removed, except by the last command of an add, which gives the id its pending's end. */
  lemma ExpiryStep(s: Sys, a: Action)
    requires ExpiryOk(s) && Inv(s) && Enabled(s, a)
    ensures ExpiryOk(Do(s, a))
  {
    match a
    case StartAdd(p) =>
      hide Inv;
    case AddCommand(id) =>
      assert s.created[id].id == id;
      hide *;
      AddOk(s, id);
    case _ =>
      hide *;
      FewerEntries(s, a);
      FewerOk(s, Do(s, a));
  }

  lemma AddOk(s: Sys, id: PendingId)
    requires ExpiryOk(s) && Enabled(s, AddCommand(id)) && s.created[id].id == id
    ensures ExpiryOk(Do(s, AddCommand(id)))
  {
    AddWrites(s.redis, s.created[id], s.adders[id]);
    hide Exec, AddProgram;
  }

  lemma FewerOk(s: Sys, s': Sys)
    requires ExpiryOk(s) && Fewer(s, s')
    ensures ExpiryOk(s')
  {
  }

  ghost predicate Fewer(s: Sys, s': Sys) {
    && s'.created == s.created
    && forall id :: id in s'.redis.expiry ==> id in s.redis.expiry && s'.redis.expiry[id] == s.redis.expiry[id]
  }

  lemma SweepFewer(s: Sys, a: Action)
    requires Enabled(s, a) && SweepAction(a)
    ensures Fewer(s, Do(s, a))
  {
    hide IsRange, DoMatch, DoFetch;
  }

  lemma MatchFewer(s: Sys, a: Action)
    requires Enabled(s, a) && (a.Match? || a.Fetch? || a.StartEvent?)
    ensures Fewer(s, Do(s, a))
  {
    hide IsRange, DoClaim, DoRead, DoUnindex, DoDelete, NeedsWrite, Observe, Accepts;
  }

  lemma FewerEntries(s: Sys, a: Action)
    requires Enabled(s, a) && !a.StartAdd? && !a.AddCommand?
    ensures Fewer(s, Do(s, a))
  {
    if SweepAction(a) {
      hide *;
      SweepFewer(s, a);
    } else if a.Match? || a.Fetch? || a.StartEvent? {
      hide *;
      MatchFewer(s, a);
    } else {
      hide Enabled, DoClaim, DoRead, DoUnindex, DoDelete, DoMatch, DoFetch;
    }
  }

  /** The sweeper has the id in hand or still to claim. */
  predicate InBatch(sw: Sweeper, id: PendingId) { Holds(sw, id) || id in sw.ids }

  /** A sweep that took the id up began once its pending had expired, with a batch of at most a hundred. */
  ghost predicate WasDue(s: Sys, acts: seq<Action>, n: nat, id: PendingId) {
    id in s.created && exists j: nat :: Began(acts, j, n, id, s.created[id].expiresAt)
  }

  ghost predicate Began(acts: seq<Action>, j: nat, n: nat, id: PendingId, expiresAt: int) {
    j < n <= |acts| && acts[j].StartSweep? && id in acts[j].ids && |acts[j].ids| <= 100 && expiresAt <= acts[j].now
  }

  ghost predicate DueInv(s: Sys, acts: seq<Action>, n: nat) {
    && (forall w, id :: InBatch(s.Sweeping(w), id) ==> WasDue(s, acts, n, id))
    && (forall k :: 0 <= k < |s.finalized| ==> WasDue(s, acts, n, s.finalized[k].0.id))
  }

  lemma DueStays(s: Sys, acts: seq<Action>, n: nat, s': Sys, id: PendingId)
    requires WasDue(s, acts, n, id) && n < |acts| && Enabled(s, acts[n]) && s' == Do(s, acts[n])
    ensures WasDue(s', acts, n + 1, id)
  {
    CreatedKeeps(s, acts[n], id);
    hide Enabled, Do;
    var j: nat :| Began(acts, j, n, id, s.created[id].expiresAt);
    assert Began(acts, j, n + 1, id, s'.created[id].expiresAt);
  }

  /** Batches only shrink, except when one begins, and only what was in one is finalized. */
  lemma BatchStep(s: Sys, a: Action, w: nat, id: PendingId)
    requires Inv(s) && Enabled(s, a) && InBatch(Do(s, a).Sweeping(w), id)
    ensures InBatch(s.Sweeping(w), id) || (a.StartSweep? && id in a.ids)
  {
    hide Inv;
    match a
    case StartSweep(v, now, ids) =>
      hide IsRange;
    case Claim(v) =>
      hide *;
      ClaimBatch(s, v, w, id);
    case Read(v) =>
      StoredUnder(s, s.Sweeping(v).id);
      hide Exec, KeyedById;
    case Unindex(v) =>
      hide Exec;
    case Delete(v) =>
      hide Exec;
    case _ =>
      DoFramed(s, a);
      hide Do, Enabled;
  }

  lemma StoredUnder(s: Sys, id: PendingId)
    requires Inv(s)
    ensures id in s.redis.store ==> s.redis.store[id].id == id
  {
    if id in s.redis.store {
      assert StoredOk(s, id);
      hide PhaseInv, IndexInv, SweeperInv, MatcherInv, MaxAdditional;
    }
  }

  lemma ClaimBatch(s: Sys, v: nat, w: nat, id: PendingId)
    requires Enabled(s, Claim(v)) && InBatch(Do(s, Claim(v)).Sweeping(w), id)
    ensures InBatch(s.Sweeping(w), id)
  {
    hide Exec;
    var ids := s.Sweeping(v).ids;
    assert ids == [ids[0]] + ids[1..];
  }

  lemma FinalStep(s: Sys, a: Action, k: nat)
    requires Enabled(s, a) && k < |Do(s, a).finalized|
    ensures var id := Do(s, a).finalized[k].0.id;
            (k < |s.finalized| && s.finalized[k].0.id == id) || exists w :: InBatch(s.Sweeping(w), id)
  {
    if a.Delete? {
      assert InBatch(s.Sweeping(a.w), s.Sweeping(a.w).p.id);
      hide Exec;
    } else {
      DoFramed(s, a);
      hide Do, Enabled;
    }
  }

  lemma StartedDue(s: Sys, acts: seq<Action>, n: nat, id: PendingId)
    requires ExpiryOk(s) && n < |acts| && Enabled(s, acts[n]) && acts[n].StartSweep? && id in acts[n].ids
    ensures WasDue(Do(s, acts[n]), acts, n + 1, id)
  {
    LimitedRange(s.redis.expiry, acts[n].now, SWEEP_BATCH_SIZE, acts[n].ids, id);
    assert Began(acts, n, n + 1, id, s.created[id].expiresAt);
  }

  lemma DueStep(s: Sys, acts: seq<Action>, n: nat)
    requires Inv(s) && ExpiryOk(s) && DueInv(s, acts, n) && n < |acts| && Enabled(s, acts[n])
    ensures DueInv(Do(s, acts[n]), acts, n + 1)
  {
    var s' := Do(s, acts[n]);
    hide Do, Enabled, WasDue, InBatch, Inv, ExpiryOk;
    forall w, id | InBatch(s'.Sweeping(w), id) ensures WasDue(s', acts, n + 1, id) {
      BatchStep(s, acts[n], w, id);
      if InBatch(s.Sweeping(w), id) { DueStays(s, acts, n, s', id); } else { StartedDue(s, acts, n, id); }
    }
    forall k | 0 <= k < |s'.finalized| ensures WasDue(s', acts, n + 1, s'.finalized[k].0.id) {
      FinalStep(s, acts[n], k);
      DueStays(s, acts, n, s', s'.finalized[k].0.id);
    }
  }

  lemma {:induction false} DueHolds(run: seq<Sys>, acts: seq<Action>, n: nat)
    requires IsTrace(run, acts) && n <= |acts|
    ensures ExpiryOk(run[n]) && DueInv(run[n], acts, n)
  {
    if n == 0 {
    } else {
      hide *;
      DueHolds(run, acts, n - 1);
      TraceIsRun(run, acts);
      TraceStep(run, acts, n - 1);
      InvHolds(run, n - 1);
      ExpiryStep(run[n - 1], acts[n - 1]);
      DueStep(run[n - 1], acts, n - 1);
    }
  }

  /** Over every interleaving: what is finalized was in the batch of a sweep that began no earlier than its end. */
  lemma FinalizedWasDue(run: seq<Sys>, acts: seq<Action>, n: nat, k: nat) returns (j: nat)
    requires IsTrace(run, acts) && n <= |acts| && k < |run[n].finalized|
    ensures var p := run[n].finalized[k].0;
            && j < n && acts[j].StartSweep? && p.id in acts[j].ids && |acts[j].ids| <= 100
            && p.expiresAt <= acts[j].now
  {
    DueHolds(run, acts, n);
    TraceIsRun(run, acts);
    ObservedMaximum(run, n, k);
    hide IsTrace, IsRun, InBatch, ExpiryOk;
    var p := run[n].finalized[k].0;
    assert WasDue(run[n], acts, n, p.id);
    j :| Began(acts, j, n, p.id, run[n].created[p.id].expiresAt);
  }
}
