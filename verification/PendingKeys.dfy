/** Every command of the pending protocol keeps the stored keys and the index entries in order. */
module PendingKeys {
  import opened Tracking
  import opened PendingStore
  import opened PendingProtocol
  import opened PendingPhases

  /* ---------------- every step keeps the data ---------------- */

  lemma CreatedKept(s: Sys, s': Sys)
    requires CreatedInv(s) && s'.created == s.created
    requires forall id :: id in s'.adders ==> id in s.adders && s.adders[id] <= s'.adders[id] < 4
    requires forall id :: id in s'.adders && s'.adders[id] == 0 && id in s.landed ==>
                          id in s'.landed && s'.landed[id] == s.landed[id]
    ensures CreatedInv(s')
  {
  }

  lemma MatchCreated(s: Sys, m: (string, string))
    requires CreatedInv(s) && StoreInv(s)
    requires s.MatcherOf(m).Matching? && forall p :: p in s.MatcherOf(m).todo ==> p.id in s.landed
    ensures CreatedInv(DoMatch(s, m))
  {
    CreatedBounds(s);
    DoFramed(s, Match(m));
    hide CreatedInv, Exec, Accepts, NeedsWrite, Observe;
    var s' := DoMatch(s, m);
    forall id | id in s'.adders && s'.adders[id] == 0 && id in s.landed
      ensures id in s'.landed && s'.landed[id] == s.landed[id]
    {
      assert id in s.redis.store ==> StoredOk(s, id);
    }
    hide DoMatch;
    CreatedKept(s, s');
  }

  lemma CreatedBounds(s: Sys)
    requires CreatedInv(s)
    ensures forall id :: id in s.adders ==> id in s.created && s.adders[id] < 4
  {
  }

  lemma StartAddCreated(s: Sys, p: Pending)
    requires PhaseInv(s) && CreatedInv(s) && p.id !in s.created && !p.matched && p.observedMax == 0
    ensures CreatedInv(DoStartAdd(s, p))
  {
    hide PhaseInv;
  }

  lemma AddCreated(s: Sys, id: PendingId)
    requires CreatedInv(s) && id in s.adders && s.adders[id] < 4 && id in s.created
    ensures CreatedInv(DoAdd(s, id))
  {
    CreatedBounds(s);
    hide CreatedInv, Exec, AddProgram;
    CreatedKept(s, DoAdd(s, id));
  }

  lemma QuietCreatedStep(s: Sys, a: Action)
    requires CreatedInv(s) && Enabled(s, a) && !a.StartAdd? && !a.AddCommand? && !a.Match?
    ensures CreatedInv(Do(s, a))
  {
    CreatedBounds(s);
    DoFramed(s, a);
    hide CreatedInv, Do, Enabled;
    CreatedKept(s, Do(s, a));
  }

  lemma CreatedStep(s: Sys, a: Action)
    requires PhaseInv(s) && CreatedInv(s) && StoreInv(s) && Enabled(s, a)
    ensures CreatedInv(Do(s, a))
  {
    CreatedBounds(s);
    hide IsRange, Exec, AddProgram, CreatedInv, PhaseInv, StoreInv, DoMatch, DoStartAdd, DoAdd;
    match a
    case StartAdd(p) => StartAddCreated(s, p);
    case Match(m) => MatchCreated(s, m);
    case AddCommand(id) => AddCreated(s, id);
    case _ => QuietCreatedStep(s, a);
  }

  /** One more landed event. */
  lemma ReflectsMore(c: Pending, evs: seq<Event>, p: Pending, ev: Event)
    requires Reflects(c, evs, p) && Accepts(p, ev) && !c.matched && c.observedMax == 0
    ensures Reflects(c, evs + [ev], Observe(p, ev))
  {
    var more := evs + [ev];
    assert more[..|more| - 1] == evs;
    assert Additional(p, ev) == Additional(c, ev);
  }

  /** Steps that neither write keys nor move phases out of the way of stored ones. */
  lemma StoreKept(s: Sys, s': Sys)
    requires StoreInv(s)
    requires forall id :: id in s'.redis.store ==> id in s.redis.store && s'.redis.store[id] == s.redis.store[id]
    requires forall id :: id in s'.redis.store && id in s.created ==>
                          id in s'.created && s'.created[id] == s.created[id]
    requires forall id :: id in s'.redis.store && id in s.landed ==> id in s'.landed && s'.landed[id] == s.landed[id]
    requires forall id :: id in s'.redis.store && StoredYet(s, id) ==> StoredYet(s', id)
    requires forall id, ph :: id in s'.redis.store && At(s', id, ph) && (ph.Finalized? || ph.Evicted?) ==> At(s, id, ph)
    ensures StoreInv(s')
  {
    forall id | id in s'.redis.store ensures StoredOk(s', id) { assert StoredOk(s, id); }
  }

  lemma StartAddStore(s: Sys, p: Pending)
    requires StoreInv(s) && p.id !in s.created
    ensures StoreInv(DoStartAdd(s, p))
  {
    var s' := DoStartAdd(s, p);
    assert p.id in s.redis.store ==> StoredOk(s, p.id);
    StoreKept(s, s');
  }

  lemma AddStore(s: Sys, id: PendingId)
    requires PhaseInv(s) && CreatedInv(s) && StoreInv(s) && id in s.adders && s.adders[id] < 4 && id in s.created
    ensures StoreInv(DoAdd(s, id))
  {
    AddWrites(s.redis, s.created[id], s.adders[id]);
    AddShape(s, id);
    assert At(s, id, Adding) && s.created[id].id == id;
    hide DoAdd;
    if s.adders[id] == 0 {
      assert Reflects(s.created[id], s.landed[id], s.created[id]);
      hide Exec, AddProgram, PhaseInv, CreatedInv, StoreInv, Reflects;
      KeyStored(s, DoAdd(s, id), id);
    } else {
      hide Exec, AddProgram, PhaseInv, CreatedInv, StoreInv;
      StoreKept(s, DoAdd(s, id));
    }
  }

  /** The first command of an add stores the key. */
  lemma KeyStored(s: Sys, s': Sys, id: PendingId)
    requires StoreInv(s) && id in s.created && id in s.landed && At(s, id, Adding)
    requires Reflects(s.created[id], s.landed[id], s.created[id])
    requires s' == s.(redis := s'.redis, adders := s.adders[id := 1])
    requires s'.redis.store == s.redis.store[id := s.created[id]]
    ensures StoreInv(s')
  {
    hide Reflects;
    forall x | x in s'.redis.store ensures StoredOk(s', x) {
      if x != id { assert StoredOk(s, x); }
    }
  }

  lemma SweepStore(s: Sys, s': Sys)
    requires StoreInv(s) && s'.adders == s.adders && s'.created == s.created && s'.landed == s.landed
    requires forall id :: id in s'.redis.store ==> id in s.redis.store && s'.redis.store[id] == s.redis.store[id]
    requires forall id, ph :: id in s'.redis.store && At(s', id, ph) && (ph.Finalized? || ph.Evicted?) ==> At(s, id, ph)
    ensures StoreInv(s')
  {
    StoreKept(s, s');
  }

  lemma MatchStore(s: Sys, m: (string, string))
    requires CreatedInv(s) && StoreInv(s) && MatcherInv(s)
    requires s.MatcherOf(m).Matching? && forall p :: p in s.MatcherOf(m).todo ==> p.id in s.landed
    ensures StoreInv(DoMatch(s, m))
  {
    var Matching(ev, todo) := s.MatcherOf(m);
    assert MatcherOk(s, m, Matching(ev, todo));
    if todo != [] && Accepts(todo[0], ev) && todo[0].id in s.redis.store {
      assert Current(s, m, todo[0]);
      hide MatcherInv, CreatedInv, StoreInv, MatcherOk;
      MatchLandsOn(s, m, ev, todo);
    } else {
      hide Reflects, StoreInv;
      assert DoMatch(s, m).redis.store == s.redis.store;
      StoreKept(s, DoMatch(s, m));
    }
  }

  lemma MatchLandsOn(s: Sys, m: (string, string), ev: Event, todo: seq<Pending>)
    requires CreatedInv(s) && StoreInv(s) && s.MatcherOf(m) == Matching(ev, todo)
    requires todo != [] && forall p :: p in todo ==> p.id in s.landed
    requires Accepts(todo[0], ev) && todo[0].id in s.redis.store && s.redis.store[todo[0].id] == todo[0]
    ensures StoreInv(DoMatch(s, m))
  {
    var s' := DoMatch(s, m);
    var p := todo[0];
    assert s'.redis.store == s.redis.store[p.id := Observe(p, ev)];
    assert s'.landed == s.landed[p.id := s.landed[p.id] + [ev]];
    assert s'.created == s.created && s'.adders == s.adders && s'.phase == s.phase;
    assert StoredOk(s, p.id);
    assert !s.created[p.id].matched && s.created[p.id].observedMax == 0;
    ReflectsMore(s.created[p.id], s.landed[p.id], p, ev);
    hide Reflects, Observe, Accepts, NeedsWrite, DoMatch, CreatedInv;
    forall x | x in s'.redis.store ensures StoredOk(s', x) {
      assert StoredOk(s, x);
    }
  }

  lemma ReadStore(s: Sys, w: nat)
    requires StoreInv(s) && s.Sweeping(w).Reading? && s.Sweeping(w).id in s.landed
    ensures StoreInv(DoRead(s, w))
  {
    hide StoreInv;
    SweepStore(s, DoRead(s, w));
  }

  lemma DeleteStore(s: Sys, w: nat)
    requires StoreInv(s) && s.Sweeping(w).Deleting?
    ensures StoreInv(DoDelete(s, w))
  {
    hide StoreInv;
    SweepStore(s, DoDelete(s, w));
  }

  lemma ClaimStore(s: Sys, w: nat)
    requires StoreInv(s) && s.Sweeping(w).Claiming? && s.Sweeping(w).ids != []
    ensures StoreInv(DoClaim(s, w))
  {
    hide StoreInv;
    SweepStore(s, DoClaim(s, w));
  }

  lemma StoreStep(s: Sys, a: Action)
    requires PhaseInv(s) && CreatedInv(s) && StoreInv(s) && MatcherInv(s) && Enabled(s, a)
    ensures StoreInv(Do(s, a))
  {
    hide IsRange, PhaseInv, CreatedInv, StoreInv, MatcherInv, DoStartAdd, DoAdd, DoMatch, DoRead, DoClaim, DoDelete;
    match a
    case StartAdd(p) => StartAddStore(s, p);
    case AddCommand(id) => AddStore(s, id);
    case Match(m) => MatchStore(s, m);
    case Claim(w) => ClaimStore(s, w);
    case Read(w) => ReadStore(s, w);
    case Delete(w) => DeleteStore(s, w);
    case _ => QuietStoreStep(s, a);
  }

  lemma QuietStoreStep(s: Sys, a: Action)
    requires StoreInv(s) && Enabled(s, a)
    requires a.StartSweep? || a.Unindex? || a.StartEvent? || a.Fetch? || a.ExpireKey? || a.DropIndex?
    ensures StoreInv(Do(s, a))
  {
    DoFramed(s, a);
    QuietStores(s, a);
    hide IsRange, StoreInv, Do, Enabled;
    SweepStore(s, Do(s, a));
  }

  /** Steps that write no key and let no id be finalized or evicted. */
  lemma QuietStores(s: Sys, a: Action)
    requires Enabled(s, a)
    requires a.StartSweep? || a.Unindex? || a.StartEvent? || a.Fetch? || a.ExpireKey? || a.DropIndex?
    ensures var s' := Do(s, a);
            s'.phase == s.phase &&
            forall id :: id in s'.redis.store ==> id in s.redis.store && s'.redis.store[id] == s.redis.store[id]
  {
    hide IsRange, DoUnindex, DoFetch;
    match a
    case Unindex(w) =>
      QuietUnindex(s, w);
    case Fetch(m) =>
      QuietFetch(s, m);
    case _ =>
  }

  lemma QuietUnindex(s: Sys, w: nat)
    requires s.Sweeping(w).Unindexing?
    ensures DoUnindex(s, w).phase == s.phase && DoUnindex(s, w).redis.store == s.redis.store
  {
  }

  lemma QuietFetch(s: Sys, m: (string, string))
    requires s.MatcherOf(m).Fetching?
    ensures DoFetch(s, m).phase == s.phase && DoFetch(s, m).redis == s.redis
  {
  }

  /* ---------------- index entries ---------------- */

  lemma IndexKept(s: Sys, s': Sys)
    requires IndexInv(s)
    requires forall k, id :: id in s'.redis.IndexAt(k) ==> id in s.redis.IndexAt(k)
    requires forall id :: id in s.created ==> id in s'.created && s'.created[id] == s.created[id]
    requires forall id :: id in s.created && IndexedYet(s, id) ==> IndexedYet(s', id)
    requires forall k, id :: id in s'.redis.IndexAt(k) ==> !At(s', id, Finalized) || At(s, id, Finalized)
    requires forall k, id, w :: id in s'.redis.IndexAt(k) && Unlisted(s'.Sweeping(w), id) ==>
                                  Unlisted(s.Sweeping(w), id)
    ensures IndexInv(s')
  {
    forall k, id | id in s'.redis.IndexAt(k) ensures IndexedOk(s', k, id) { assert IndexedOk(s, k, id); }
  }

  lemma StartAddIndex(s: Sys, p: Pending)
    requires IndexInv(s) && p.id !in s.created
    ensures IndexInv(DoStartAdd(s, p))
  {
    hide IndexInv;
    IndexKept(s, DoStartAdd(s, p));
  }

  /** While an id is being added no sweeper has taken it off the index. */
  lemma AddingListed(s: Sys, id: PendingId)
    requires PhaseInv(s) && id in s.adders
    ensures At(s, id, Adding) && forall w :: !Unlisted(s.Sweeping(w), id)
  {
    assert At(s, id, Adding);
    forall w ensures !Unlisted(s.Sweeping(w), id) { assert !At(s, id, Claimed(w)); assert !Holds(s.Sweeping(w), id); }
  }

  lemma AddIndex(s: Sys, id: PendingId)
    requires PhaseInv(s) && CreatedInv(s) && IndexInv(s) && id in s.adders && s.adders[id] < 4 && id in s.created
    ensures IndexInv(DoAdd(s, id))
  {
    AddWrites(s.redis, s.created[id], s.adders[id]);
    AddShape(s, id);
    AddingListed(s, id);
    assert s.created[id].id == id;
    hide Exec, AddProgram, PhaseInv, CreatedInv, DoAdd;
    if s.adders[id] == 1 {
      IndexEntry(s, DoAdd(s, id), id);
    } else {
      hide IndexInv;
      IndexKept(s, DoAdd(s, id));
    }
  }

  /** The second command of an add writes the entry. */
  lemma IndexEntry(s: Sys, s': Sys, id: PendingId)
    requires IndexInv(s) && id in s.adders && s.adders[id] == 1 && id in s.created && s.created[id].id == id
    requires At(s, id, Adding) && forall w :: !Unlisted(s.Sweeping(w), id)
    requires s'.sweepers == s.sweepers && s'.created == s.created && s'.phase == s.phase
    requires s'.adders == s.adders[id := 2]
    requires var p := s.created[id];
             s'.redis.index == s.redis.index[KeyOf(p) := s.redis.IndexAt(KeyOf(p))[id := p.expiresAt]]
    ensures IndexInv(s')
  {
    assert forall w :: s'.Sweeping(w) == s.Sweeping(w);
    hide Unlisted;
    forall k, x | x in s'.redis.IndexAt(k) ensures IndexedOk(s', k, x) {
      if x != id || k != KeyOf(s.created[id]) { assert x in s.redis.IndexAt(k) && IndexedOk(s, k, x); }
    }
  }

  /** Once the entry of a claimed pending is removed, none of its entries is left. */
  lemma UnindexIndex(s: Sys, w: nat)
    requires IndexInv(s) && SweeperInv(s) && s.Sweeping(w).Unindexing?
    ensures IndexInv(DoUnindex(s, w))
  {
    var s' := DoUnindex(s, w);
    var p := s.Sweeping(w).p;
    assert CopyInv(s, p, s.Sweeping(w).seen);
    forall k, id | id in s'.redis.IndexAt(k) ensures id in s.redis.IndexAt(k) && id != p.id {
      assert id in s.redis.IndexAt(k) ==> IndexedOk(s, k, id);
    }
    hide IndexInv, SweeperInv;
    IndexKept(s, s');
  }

  lemma DeleteIndex(s: Sys, w: nat)
    requires IndexInv(s) && s.Sweeping(w).Deleting?
    ensures IndexInv(DoDelete(s, w))
  {
    var s' := DoDelete(s, w);
    var p := s.Sweeping(w).p;
    assert Unlisted(s.Sweeping(w), p.id);
    forall k, id | id in s'.redis.IndexAt(k) ensures id != p.id { assert IndexedOk(s, k, id); }
    hide IndexInv;
    IndexKept(s, s');
  }

  /** Claiming an id finalizes nothing and takes nothing off the index. */
  lemma ClaimUnlists(s: Sys, w: nat)
    requires s.Sweeping(w).Claiming? && s.Sweeping(w).ids != []
    ensures forall id :: At(DoClaim(s, w), id, Finalized) ==> At(s, id, Finalized)
    ensures forall v, id :: Unlisted(DoClaim(s, w).Sweeping(v), id) ==> Unlisted(s.Sweeping(v), id)
  {
  }

  lemma ClaimIndex(s: Sys, w: nat)
    requires IndexInv(s) && s.Sweeping(w).Claiming? && s.Sweeping(w).ids != []
    ensures IndexInv(DoClaim(s, w))
  {
    hide IndexInv;
    ClaimFramed(s, w);
    ClaimUnlists(s, w);
    hide DoClaim;
    IndexKept(s, DoClaim(s, w));
  }

  lemma ReadIndex(s: Sys, w: nat)
    requires IndexInv(s) && s.Sweeping(w).Reading? && s.Sweeping(w).id in s.landed
    ensures IndexInv(DoRead(s, w))
  {
    hide IndexInv;
    IndexKept(s, DoRead(s, w));
  }

  lemma MatchIndex(s: Sys, m: (string, string))
    requires IndexInv(s)
    requires s.MatcherOf(m).Matching? && forall p :: p in s.MatcherOf(m).todo ==> p.id in s.landed
    ensures IndexInv(DoMatch(s, m))
  {
    var s' := DoMatch(s, m);
    DoFramed(s, Match(m));
    hide IndexInv, DoMatch;
    IndexKept(s, s');
  }

  lemma DropIndexIndex(s: Sys, key: IndexKey)
    requires IndexInv(s)
    ensures IndexInv(s.(redis := s.redis.(index := s.redis.index - {key})))
  {
    hide IndexInv;
    IndexKept(s, s.(redis := s.redis.(index := s.redis.index - {key})));
  }

  lemma QuietIndexStep(s: Sys, a: Action)
    requires IndexInv(s) && Enabled(s, a) && (a.StartSweep? || a.StartEvent? || a.Fetch? || a.ExpireKey?)
    ensures IndexInv(Do(s, a))
  {
    DoFramed(s, a);
    hide IndexInv, IsRange, DoFetch;
    var s' := Do(s, a);
    assert s'.phase == s.phase;
    assert forall w, id :: Unlisted(s'.Sweeping(w), id) ==> Unlisted(s.Sweeping(w), id);
    hide Do, Enabled;
    IndexKept(s, s');
  }

  lemma IndexStep(s: Sys, a: Action)
    requires PhaseInv(s) && CreatedInv(s) && IndexInv(s) && SweeperInv(s) && Enabled(s, a)
    ensures IndexInv(Do(s, a))
  {
    hide IsRange, PhaseInv, CreatedInv, IndexInv, SweeperInv, DoStartAdd, DoAdd, DoMatch, DoRead, DoClaim, DoUnindex;
    hide DoDelete;
    match a
    case StartAdd(p) => StartAddIndex(s, p);
    case AddCommand(id) => AddIndex(s, id);
    case Claim(w) => ClaimIndex(s, w);
    case Read(w) => ReadIndex(s, w);
    case Unindex(w) => UnindexIndex(s, w);
    case Delete(w) => DeleteIndex(s, w);
    case Match(m) => MatchIndex(s, m);
    case DropIndex(k) => DropIndexIndex(s, k);
    case _ => QuietIndexStep(s, a);
  }
}
