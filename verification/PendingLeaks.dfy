/** What becomes of a pending's match-index entry, in particular when its key expires before a sweep reaches it
    (internal/evaluation/pending.go). */
module PendingLeaks {
  import opened Common
  import opened Events
  import opened Schedule
  import opened Tracking
  import opened PendingStore
  import opened PendingProtocol
  import opened PendingPhases
  import opened PendingTheorems

  /** A run together with the command issued at each step. */
  ghost predicate IsTrace(run: seq<Sys>, acts: seq<Action>) {
    && |run| == |acts| + 1 && run[0] == START
    && forall i :: 0 <= i < |acts| ==> Enabled(run[i], acts[i]) && run[i + 1] == Do(run[i], acts[i])
  }

  lemma TraceIsRun(run: seq<Sys>, acts: seq<Action>)
    requires IsTrace(run, acts)
    ensures IsRun(run)
  {
    hide Enabled, Do;
    forall i | 0 <= i < |run| - 1 ensures Step(run[i], run[i + 1]) {
      assert Enabled(run[i], acts[i]) && run[i + 1] == Do(run[i], acts[i]);
    }
  }

  lemma TraceStep(run: seq<Sys>, acts: seq<Action>, n: nat)
    requires IsTrace(run, acts) && n < |acts|
    ensures |run| == |acts| + 1 && Enabled(run[n], acts[n]) && run[n + 1] == Do(run[n], acts[n])
  {
    hide Enabled, Do;
  }

  /** The step issues the ZADD of the id's index entry. */
  predicate Lists(s: Sys, a: Action, id: PendingId) { a == AddCommand(id) && id in s.adders && s.adders[id] == 1 }

  /** The step removes the id from the index: the ZREM of the sweeper that holds it. */
  predicate Unlists(s: Sys, a: Action, id: PendingId) {
    a.Unindex? && s.Sweeping(a.w).Unindexing? && s.Sweeping(a.w).p.id == id
  }

  /* ---------------- one step ---------------- */

  lemma AddEntry(s: Sys, x: PendingId, id: PendingId)
    requires CreatedInv(s) && id in s.created && x in s.adders && s.adders[x] < 4 && x in s.created
    ensures var k := KeyOf(s.created[id]);
            id in DoAdd(s, x).redis.IndexAt(k) <==> (x == id && s.adders[x] == 1) || id in s.redis.IndexAt(k)
  {
    AddWrites(s.redis, s.created[x], s.adders[x]);
    assert s.created[x].id == x;
    hide Exec, AddProgram, CreatedInv;
  }

  lemma UnindexEntry(s: Sys, w: nat, id: PendingId)
    requires SweeperInv(s) && id in s.created && s.Sweeping(w).Unindexing?
    ensures var k := KeyOf(s.created[id]);
            id in DoUnindex(s, w).redis.IndexAt(k) <==> id in s.redis.IndexAt(k) && s.Sweeping(w).p.id != id
  {
    var p := s.Sweeping(w).p;
    assert CopyInv(s, p, s.Sweeping(w).seen);
    assert KeyOf(p) == KeyOf(s.created[p.id]);
    hide SweeperInv, CopyInv;
  }

  /** The step leaves an entry for the id exactly when it writes one, or there was one it does not remove. */
  ghost predicate EntryFollows(s: Sys, a: Action, id: PendingId, s': Sys)
    requires id in s.created
  {
    var k := KeyOf(s.created[id]);
    id in s'.redis.IndexAt(k) <==>
    Lists(s, a, id) || (id in s.redis.IndexAt(k) && a != DropIndex(k) && !Unlists(s, a, id))
  }

  lemma AddFollows(s: Sys, x: PendingId, id: PendingId)
    requires CreatedInv(s) && id in s.created && Enabled(s, AddCommand(x))
    ensures EntryFollows(s, AddCommand(x), id, DoAdd(s, x))
  {
    AddEntry(s, x, id);
    hide DoAdd, KeyOf, CreatedInv;
  }

  lemma UnindexFollows(s: Sys, w: nat, id: PendingId)
    requires SweeperInv(s) && id in s.created && Enabled(s, Unindex(w))
    ensures EntryFollows(s, Unindex(w), id, DoUnindex(s, w))
  {
    UnindexEntry(s, w, id);
    hide DoUnindex, KeyOf, SweeperInv;
  }

  lemma DropFollows(s: Sys, k: IndexKey, id: PendingId)
    requires id in s.created
    ensures EntryFollows(s, DropIndex(k), id, s.(redis := s.redis.(index := s.redis.index - {k})))
  {
    hide KeyOf;
  }

  /** How a step changes the presence of an id's entry. */
  lemma EntryStep(s: Sys, a: Action, id: PendingId)
    requires Inv(s) && Enabled(s, a) && id in s.created
    ensures EntryFollows(s, a, id, Do(s, a))
  {
    assert CreatedInv(s) && SweeperInv(s);
    hide Inv, CreatedInv, SweeperInv, EntryFollows, IsRange;
    hide DoStartAdd, DoAdd, DoClaim, DoRead, DoUnindex, DoDelete, DoFetch, DoMatch;
    match a
    case AddCommand(x) =>
      AddFollows(s, x, id);
    case Unindex(w) =>
      UnindexFollows(s, w, id);
    case DropIndex(d) =>
      DropFollows(s, d, id);
    case _ =>
      OtherFollows(s, a, id);
  }

  lemma OtherFollows(s: Sys, a: Action, id: PendingId)
    requires Enabled(s, a) && id in s.created && !a.AddCommand? && !a.Unindex? && !a.DropIndex?
    ensures EntryFollows(s, a, id, Do(s, a))
  {
    hide *;
    OtherEntry(s, a, KeyOf(s.created[id]), id);
    FollowsUnchanged(s, a, id, Do(s, a));
  }

  lemma FollowsUnchanged(s: Sys, a: Action, id: PendingId, s': Sys)
    requires id in s.created && !Lists(s, a, id) && !Unlists(s, a, id) && a != DropIndex(KeyOf(s.created[id]))
    requires id in s'.redis.IndexAt(KeyOf(s.created[id])) <==> id in s.redis.IndexAt(KeyOf(s.created[id]))
    ensures EntryFollows(s, a, id, s')
  {
    hide Lists, Unlists, KeyOf;
  }

  lemma OtherEntry(s: Sys, a: Action, k: IndexKey, id: PendingId)
    requires Enabled(s, a) && !a.AddCommand? && !a.Unindex? && !a.DropIndex?
    ensures id in Do(s, a).redis.IndexAt(k) <==> id in s.redis.IndexAt(k)
    ensures !Lists(s, a, id) && !Unlists(s, a, id) && a != DropIndex(k)
  {
    DoFramed(s, a);
    hide Do, Enabled;
  }

  /* ---------------- whole runs ---------------- */

  /** The entry was written at the i-th step, and until the n-th neither a sweeper removed it nor its index expired. */
  ghost predicate ListedSince(run: seq<Sys>, acts: seq<Action>, i: nat, n: nat, k: IndexKey, id: PendingId)
    requires n <= |acts| < |run|
  {
    && i < n && Lists(run[i], acts[i], id)
    && forall j :: i < j < n ==> acts[j] != DropIndex(k) && !Unlists(run[j], acts[j], id)
  }

  lemma ListedMore(run: seq<Sys>, acts: seq<Action>, n: nat, next: nat, k: IndexKey, id: PendingId)
    requires n < |acts| < |run| && next == n + 1
    ensures (exists i: nat :: ListedSince(run, acts, i, next, k, id)) <==>
            Lists(run[n], acts[n], id) ||
            ((exists i: nat :: ListedSince(run, acts, i, n, k, id)) &&
             acts[n] != DropIndex(k) && !Unlists(run[n], acts[n], id))
  {
    hide Lists, Unlists;
    if i: nat :| ListedSince(run, acts, i, n, k, id) {
      assert acts[n] != DropIndex(k) && !Unlists(run[n], acts[n], id) ==> ListedSince(run, acts, i, next, k, id);
    }
    if Lists(run[n], acts[n], id) { assert ListedSince(run, acts, n, next, k, id); }
    if i: nat :| ListedSince(run, acts, i, next, k, id) { assert i < n ==> ListedSince(run, acts, i, n, k, id); }
  }

  lemma UncreatedUnlisted(run: seq<Sys>, acts: seq<Action>, n: nat, k: IndexKey, id: PendingId)
    requires IsTrace(run, acts) && n <= |acts| && id !in run[n].created
    ensures forall i: nat :: !ListedSince(run, acts, i, n, k, id)
    ensures id !in run[n].redis.IndexAt(k)
  {
    TraceIsRun(run, acts);
    InvHolds(run, n);
    assert id in run[n].redis.IndexAt(k) ==> IndexedOk(run[n], k, id);
    hide IsRun, IsTrace, Inv;
    if i: nat :| ListedSince(run, acts, i, n, k, id) {
      InvHolds(run, i);
      assert id in run[i].created;
      CreatedStays(run, i, n, id);
      assert false;
    }
  }

  /** The match index holds the entry of a created pending exactly when its ZADD was issued and since then no sweeper
      has removed it and the index has not expired. */
  lemma {:induction false} EntryExactly(run: seq<Sys>, acts: seq<Action>, n: nat, id: PendingId)
    requires IsTrace(run, acts) && n <= |acts| && id in run[n].created
    ensures var k := KeyOf(run[n].created[id]);
            id in run[n].redis.IndexAt(k) <==> exists i: nat :: ListedSince(run, acts, i, n, k, id)
  {
    hide *;
    TraceIsRun(run, acts);
    if n == 0 {
      StartsEmpty(run, acts);
    } else {
      TraceStep(run, acts, n - 1);
      InvHolds(run, n - 1);
      if id in run[n - 1].created {
        CreatedStays(run, n - 1, n, id);
        EntryExactly(run, acts, n - 1, id);
        EntryStep(run[n - 1], acts[n - 1], id);
        EntryMeaning(run[n - 1], acts[n - 1], id, run[n]);
        ListedMore(run, acts, n - 1, n, KeyOf(run[n].created[id]), id);
      } else {
        var k := KeyOf(run[n].created[id]);
        UncreatedUnlisted(run, acts, n - 1, k, id);
        ListedMore(run, acts, n - 1, n, k, id);
        NewUnlisted(run[n - 1], acts[n - 1], k, id);
      }
    }
  }

  /** So an arrival or departure on the pending's route, at a stop of its station, looks it up from the ZADD of its
      entry on until the entry is removed or its index expires. */
  lemma EventFindsPending(
    run: seq<Sys>, acts: seq<Action>, n: nat, id: PendingId, g: Graph, agency: string, ev: DelayEvent)
    requires IsTrace(run, acts) && n <= |acts| && id in run[n].created
    requires ev.kind == ArrivalDelay || ev.kind == DepartureDelay
    requires var p := run[n].created[id];
             && p.agency == agency && p.station == g.Parent(ev.stop) && p.route != ""
             && (ev.route == p.route || (ev.route == "" && g.RouteOf(ev.trip) == p.route))
    ensures var e := ToEvent(g, agency, ev);
            && e.Some?
            && (id in run[n].redis.IndexAt(e.value.key) <==>
                exists i: nat :: ListedSince(run, acts, i, n, e.value.key, id))
  {
    hide IsTrace, ListedSince;
    EntryExactly(run, acts, n, id);
  }

  lemma EntryMeaning(s: Sys, a: Action, id: PendingId, s': Sys)
    requires id in s.created && EntryFollows(s, a, id, s')
    ensures var k := KeyOf(s.created[id]);
            id in s'.redis.IndexAt(k) <==>
            Lists(s, a, id) || (id in s.redis.IndexAt(k) && a != DropIndex(k) && !Unlists(s, a, id))
  {
  }

  lemma StartsEmpty(run: seq<Sys>, acts: seq<Action>)
    requires IsTrace(run, acts)
    ensures run[0].created == map[]
  {
  }

  /** The step that creates a pending writes no entry for it. */
  lemma NewUnlisted(s: Sys, a: Action, k: IndexKey, id: PendingId)
    requires Inv(s) && Enabled(s, a) && id !in s.created && id in Do(s, a).created && id !in s.redis.IndexAt(k)
    ensures !Lists(s, a, id) && id !in Do(s, a).redis.IndexAt(k)
  {
    hide Inv;
    if !a.StartAdd? {
      DoFramed(s, a);
      hide Do, Enabled;
    }
  }

  /* ---------------- evicted pendings ---------------- */

  ghost predicate BeingDeleted(s: Sys, id: PendingId) { exists w :: Unlisted(s.Sweeping(w), id) }

  /** A sweeper's ZREM is followed by the finalization of its id. */
  lemma UnlistsStep(s: Sys, a: Action, id: PendingId)
    requires Inv(s) && Enabled(s, a)
    requires Unlists(s, a, id) || BeingDeleted(s, id) || InFinalized(s, id)
    ensures BeingDeleted(Do(s, a), id) || InFinalized(Do(s, a), id)
  {
    hide Inv;
    if InFinalized(s, id) {
      hide Do, Enabled;
      FinalizedStays(s, a, id);
    } else if Unlists(s, a, id) {
      assert Unlisted(DoUnindex(s, a.w).Sweeping(a.w), id);
    } else {
      var w :| Unlisted(s.Sweeping(w), id);
      DeletingStays(s, a, w, id);
    }
  }

  lemma DeletingStays(s: Sys, a: Action, w: nat, id: PendingId)
    requires Enabled(s, a) && Unlisted(s.Sweeping(w), id)
    ensures Unlisted(Do(s, a).Sweeping(w), id) || InFinalized(Do(s, a), id)
  {
    if a == Delete(w) {
      var s' := DoDelete(s, w);
      assert s'.finalized[|s.finalized|].0.id == id;
    } else if SweepAction(a) {
      hide IsRange, Exec;
    } else {
      DoFramed(s, a);
      hide Do, Enabled;
    }
  }

  /** An id a sweeper has taken off the index is being deleted or finalized. */
  lemma {:induction false} UnlistedEnds(run: seq<Sys>, acts: seq<Action>, j: nat, n: nat, id: PendingId)
    requires IsTrace(run, acts) && j < n <= |acts| && Unlists(run[j], acts[j], id)
    ensures BeingDeleted(run[n], id) || InFinalized(run[n], id)
    decreases n - j
  {
    hide *;
    TraceIsRun(run, acts);
    TraceStep(run, acts, n - 1);
    InvHolds(run, n - 1);
    if j < n - 1 { UnlistedEnds(run, acts, j, n - 1, id); }
    UnlistsStep(run[n - 1], acts[n - 1], id);
  }

  /** An id past the second command of its add had its entry written. */
  lemma {:induction false} IndexedOnce(run: seq<Sys>, acts: seq<Action>, n: nat, id: PendingId) returns (i: nat)
    requires IsTrace(run, acts) && n <= |acts| && id in run[n].created && IndexedYet(run[n], id)
    ensures i < n && Lists(run[i], acts[i], id)
  {
    hide *;
    TraceIsRun(run, acts);
    StartsEmpty(run, acts);
    assert n > 0;
    TraceStep(run, acts, n - 1);
    InvHolds(run, n - 1);
    i := n - 1;
    if !Lists(run[n - 1], acts[n - 1], id) {
      IndexedBefore(run[n - 1], acts[n - 1], id);
      i := IndexedOnce(run, acts, n - 1, id);
    }
  }

  lemma IndexedBefore(s: Sys, a: Action, id: PendingId)
    requires Inv(s) && Enabled(s, a) && !Lists(s, a, id)
    requires id in Do(s, a).created && IndexedYet(Do(s, a), id)
    ensures id in s.created && IndexedYet(s, id)
  {
    hide Inv;
    if a.AddCommand? {
      hide Exec, AddProgram;
    } else if !a.StartAdd? {
      DoFramed(s, a);
      hide Do, Enabled;
    }
  }

  lemma EvictedFacts(s: Sys, id: PendingId)
    requires Inv(s) && At(s, id, Evicted)
    ensures id in s.created && IndexedYet(s, id) && !BeingDeleted(s, id) && !InFinalized(s, id)
  {
    hide CreatedInv, StoreInv, IndexInv, SweeperInv, MatcherInv;
    assert id in s.phase.Keys;
    assert id in s.adders ==> At(s, id, Adding);
    assert InFinalized(s, id) <==> At(s, id, Finalized);
    forall w ensures !Unlisted(s.Sweeping(w), id) { assert Holds(s.Sweeping(w), id) <==> At(s, id, Claimed(w)); }
  }

  /** A pending whose key had expired before its sweep keeps its entry in the match index exactly until that index
      expires: no process ever removes it. */
  lemma EvictedEntryExactly(run: seq<Sys>, acts: seq<Action>, n: nat, id: PendingId) returns (i: nat)
    requires IsTrace(run, acts) && n <= |acts| && At(run[n], id, Evicted)
    ensures i < n && Lists(run[i], acts[i], id) && id in run[n].created
    ensures var k := KeyOf(run[n].created[id]);
            id in run[n].redis.IndexAt(k) <==>
            exists l: nat :: l < n && Lists(run[l], acts[l], id) && NotDropped(acts, l, n, k)
    ensures forall j: nat :: j < n ==> !Unlists(run[j], acts[j], id)
  {
    TraceIsRun(run, acts);
    hide *;
    InvHolds(run, n);
    EvictedFacts(run[n], id);
    i := IndexedOnce(run, acts, n, id);
    EntryExactly(run, acts, n, id);
    forall j: nat | j < n ensures !Unlists(run[j], acts[j], id) {
      if Unlists(run[j], acts[j], id) {
        UnlistedEnds(run, acts, j, n, id);
        assert false;
      }
    }
    OnlyDrops(run, acts, n, KeyOf(run[n].created[id]), id);
  }

  /** The index did not expire after the l-th step. */
  predicate NotDropped(acts: seq<Action>, l: nat, n: nat, k: IndexKey)
    requires n <= |acts|
  {
    forall j :: l < j < n ==> acts[j] != DropIndex(k)
  }

  lemma OnlyDrops(run: seq<Sys>, acts: seq<Action>, n: nat, k: IndexKey, id: PendingId)
    requires n <= |acts| < |run| && forall j: nat :: j < n ==> !Unlists(run[j], acts[j], id)
    ensures (exists l: nat :: ListedSince(run, acts, l, n, k, id)) <==>
            exists l: nat :: l < n && Lists(run[l], acts[l], id) && NotDropped(acts, l, n, k)
  {
    hide Lists, Unlists;
    if l: nat :| ListedSince(run, acts, l, n, k, id) { assert NotDropped(acts, l, n, k); }
    if l: nat :| l < n && Lists(run[l], acts[l], id) && NotDropped(acts, l, n, k) {
      assert ListedSince(run, acts, l, n, k, id);
    }
  }

  /* ---------------- a leaking run ---------------- */

  /** Adding p, the expiry of its key, and the sweep that comes too late. */
  function LeakActions(p: Pending): seq<Action> {
    [StartAdd(p), AddCommand(p.id), AddCommand(p.id), AddCommand(p.id), AddCommand(p.id), ExpireKey(p.id),
     StartSweep(0, p.expiresAt, [p.id]), Claim(0), Read(0)]
  }

  /** The states it leads through: the server, the add's progress, the sweeper, and the phase. */
  function LeakState(
    p: Pending, store: bool, indexed: bool, expiry: bool, adding: Option<nat>, sw: Option<Sweeper>, ph: Phase)
    : Sys
  {
    Sys(Redis(if store then map[p.id := p] else map[],
              if indexed then map[KeyOf(p) := map[p.id := p.expiresAt]] else map[],
              if expiry then map[p.id := p.expiresAt] else map[]),
        if adding.Some? then map[p.id := adding.value] else map[],
        if sw.Some? then map[0 := sw.value] else map[],
        map[], map[p.id := p], map[p.id := ph], map[p.id := []], [])
  }

  const NO_ADD: Option<nat> := None
  const NO_SWEEPER: Option<Sweeper> := None

  /** The server after the add: key, index entry and expiry entry. */
  function Added(p: Pending, pc: Option<nat>, ph: Phase): Sys {
    LeakState(p, pc != Some(0), pc != Some(0) && pc != Some(1), pc.None?, pc, NO_SWEEPER, ph)
  }

  /** The server once the key has expired. */
  function Expired(p: Pending, expiry: bool, sw: Option<Sweeper>, ph: Phase): Sys {
    LeakState(p, false, true, expiry, NO_ADD, sw, ph)
  }

  function LeakRun(p: Pending): seq<Sys> {
    [START,
     Added(p, Some(0), Adding), Added(p, Some(1), Adding), Added(p, Some(2), Adding), Added(p, Some(3), Adding),
     Added(p, NO_ADD, Waits),
     Expired(p, true, NO_SWEEPER, Waits),
     Expired(p, true, Some(Claiming([p.id])), Waits),
     Expired(p, false, Some(Reading(p.id, [])), Claimed(0)),
     Expired(p, false, Some(Claiming([])), Evicted)]
  }

  lemma LeakStart(p: Pending)
    requires !p.matched && p.observedMax == 0
    ensures Enabled(START, StartAdd(p)) && Do(START, StartAdd(p)) == Added(p, Some(0), Adding)
  {
  }

  /** The first three commands of the add. */
  lemma LeakAdd(p: Pending, pc: nat, next: nat)
    requires pc < 3 && next == pc + 1
    ensures var s := Added(p, Some(pc), Adding);
            Enabled(s, AddCommand(p.id)) && Do(s, AddCommand(p.id)) == Added(p, Some(next), Adding)
  {
    var s := Added(p, Some(pc), Adding);
    AddWrites(s.redis, p, pc);
    hide Exec, AddProgram;
    var s' := DoAdd(s, p.id);
    assert s'.redis == Added(p, Some(next), Adding).redis;
  }

  lemma LeakAddLast(p: Pending)
    ensures var s := Added(p, Some(3), Adding);
            Enabled(s, AddCommand(p.id)) && Do(s, AddCommand(p.id)) == Added(p, NO_ADD, Waits)
  {
    var s := Added(p, Some(3), Adding);
    AddWrites(s.redis, p, 3);
    hide Exec, AddProgram;
    var s' := DoAdd(s, p.id);
    assert s'.redis == Added(p, NO_ADD, Waits).redis;
    assert s.adders - {p.id} == map[];
  }

  lemma LeakExpire(p: Pending)
    ensures Do(Added(p, NO_ADD, Waits), ExpireKey(p.id)) == Expired(p, true, NO_SWEEPER, Waits)
  {
  }

  lemma LeakStartSweep(p: Pending)
    ensures var s, a := Expired(p, true, NO_SWEEPER, Waits), StartSweep(0, p.expiresAt, [p.id]);
            Enabled(s, a) && Do(s, a) == Expired(p, true, Some(Claiming([p.id])), Waits)
  {
  }

  lemma LeakClaim(p: Pending)
    ensures var s := Expired(p, true, Some(Claiming([p.id])), Waits);
            Enabled(s, Claim(0)) && Do(s, Claim(0)) == Expired(p, false, Some(Reading(p.id, [])), Claimed(0))
  {
    var s := Expired(p, true, Some(Claiming([p.id])), Waits);
    assert [p.id][1..] == [];
    assert s.redis.expiry - {p.id} == map[];
    assert s.sweepers[0 := Reading(p.id, [])] == map[0 := Reading(p.id, [])];
    assert s.phase[p.id := Claimed(0)] == map[p.id := Claimed(0)];
    assert DoClaim(s, 0) == Expired(p, false, Some(Reading(p.id, [])), Claimed(0));
  }

  lemma LeakRead(p: Pending)
    ensures var s := Expired(p, false, Some(Reading(p.id, [])), Claimed(0));
            Enabled(s, Read(0)) && Do(s, Read(0)) == Expired(p, false, Some(Claiming([])), Evicted)
  {
    var s := Expired(p, false, Some(Reading(p.id, [])), Claimed(0));
    assert s.sweepers[0 := Claiming([])] == map[0 := Claiming([])];
    assert s.phase[p.id := Evicted] == map[p.id := Evicted];
  }

  lemma LeakEnds(p: Pending)
    ensures var s := Expired(p, false, Some(Claiming([])), Evicted);
            && At(s, p.id, Evicted) && p.id in s.redis.IndexAt(KeyOf(p))
            && p.id !in s.redis.store && p.id !in s.redis.expiry && p.id !in s.adders && !HeldBySome(s, p.id)
    ensures Enabled(Added(p, NO_ADD, Waits), ExpireKey(p.id))
  {
  }

  lemma LeakStep(p: Pending, i: nat)
    requires !p.matched && p.observedMax == 0 && i < 9
    ensures Enabled(LeakRun(p)[i], LeakActions(p)[i]) && LeakRun(p)[i + 1] == Do(LeakRun(p)[i], LeakActions(p)[i])
  {
    LeakEnds(p);
    hide Do, Enabled, Added, Expired, At, HeldBySome, KeyOf;
    match i
    case 0 => LeakStart(p);
    case 1 => LeakAdd(p, 0, 1);
    case 2 => LeakAdd(p, 1, 2);
    case 3 => LeakAdd(p, 2, 3);
    case 4 => LeakAddLast(p);
    case 5 => LeakExpire(p);
    case 6 => LeakStartSweep(p);
    case 7 => LeakClaim(p);
    case _ => LeakRead(p);
  }

  lemma LeakTrace(p: Pending)
    requires !p.matched && p.observedMax == 0
    ensures IsTrace(LeakRun(p), LeakActions(p))
  {
    var run, acts := LeakRun(p), LeakActions(p);
    assert |run| == 10 && |acts| == 9 && run[0] == START;
    hide Do, Enabled, LeakRun, LeakActions;
    forall i | 0 <= i < |acts| ensures Enabled(run[i], acts[i]) && run[i + 1] == Do(run[i], acts[i]) {
      LeakStep(p, i);
    }
  }

  /** Every pending can leak: added in full, expired before its sweep, it ends evicted with its entry in the index. */
  lemma LeakingRun(p: Pending)
    requires !p.matched && p.observedMax == 0
    ensures IsTrace(LeakRun(p), LeakActions(p)) && IsRun(LeakRun(p))
    ensures var s := LeakRun(p)[9];
            && At(s, p.id, Evicted) && p.id in s.redis.IndexAt(KeyOf(p))
            && p.id !in s.redis.store && p.id !in s.redis.expiry && p.id !in s.adders && !HeldBySome(s, p.id)
  {
    LeakTrace(p);
    LeakEnds(p);
    assert LeakRun(p)[9] == Expired(p, false, Some(Claiming([])), Evicted);
    hide *;
    TraceIsRun(LeakRun(p), LeakActions(p));
  }
}
