/** Every command of the pending protocol keeps each id in one phase. */
module PendingPhases {
  import opened Tracking
  import opened PendingStore
  import opened PendingProtocol

  /* ---------------- every step keeps the phases ---------------- */

  /** What the next command of an add leaves alone, and how far it gets. */
  lemma AddShape(s: Sys, id: PendingId)
    requires id in s.adders && s.adders[id] < 4 && id in s.created
    ensures var s' := DoAdd(s, id);
            && s' == s.(redis := s'.redis, adders := s'.adders, phase := s'.phase)
            && s'.redis == Exec(s.redis, AddProgram(s.created[id])[s.adders[id]])
            && (s.adders[id] < 3 ==> s'.adders == s.adders[id := s.adders[id] + 1] && s'.phase == s.phase)
            && (s.adders[id] == 3 ==> s'.adders == s.adders - {id} && s'.phase == s.phase[id := Waits])
  {
    hide Exec, AddProgram;
  }

  /** The expiry entry is the last thing an add writes. */
  lemma AddWrites(r: Redis, p: Pending, pc: nat)
    requires pc < 4
    ensures var r' := Exec(r, AddProgram(p)[pc]);
            && r'.store == (if pc == 0 then r.store[p.id := p] else r.store)
            && r'.index == (if pc == 1 then r.index[KeyOf(p) := r.IndexAt(KeyOf(p))[p.id := p.expiresAt]] else r.index)
            && r'.expiry == (if pc == 3 then r.expiry[p.id := p.expiresAt] else r.expiry)
  {
    if pc == 0 { assert AddProgram(p)[pc] == SetPending(p); }
    else if pc == 1 { assert AddProgram(p)[pc] == ZAddIndex(p); }
    else if pc == 2 { assert AddProgram(p)[pc] == ExpireIndex(KeyOf(p)); }
    else { assert AddProgram(p)[pc] == ZAddExpiry(p); }
  }

  /** Only the focus changes phase. */
  ghost predicate SameBut(s: Sys, s': Sys, focus: PendingId) {
    forall id :: id != focus ==> (id in s'.phase <==> id in s.phase) && (id in s.phase ==> s'.phase[id] == s.phase[id])
  }

  lemma ClaimsMove(s: Sys, s': Sys, w: nat, focus: PendingId)
    requires ClaimsShown(s) && SameBut(s, s', focus) && focus in s'.phase
    requires forall w2 :: w2 != w ==> s'.Sweeping(w2) == s.Sweeping(w2)
    requires forall id :: id != focus ==> (Holds(s'.Sweeping(w), id) <==> Holds(s.Sweeping(w), id))
    requires Holds(s'.Sweeping(w), focus) <==> s'.phase[focus] == Claimed(w)
    requires forall w2 :: w2 != w ==> !At(s, focus, Claimed(w2)) && s'.phase[focus] != Claimed(w2)
    ensures ClaimsShown(s')
  {
    forall id, w2 ensures Holds(s'.Sweeping(w2), id) <==> At(s', id, Claimed(w2)) {
      assert Holds(s.Sweeping(w2), id) <==> At(s, id, Claimed(w2));
    }
  }

  lemma ClaimsSame(s: Sys, s': Sys, focus: PendingId)
    requires ClaimsShown(s) && SameBut(s, s', focus)
    requires forall w, id :: Holds(s'.Sweeping(w), id) <==> Holds(s.Sweeping(w), id)
    requires forall w :: !At(s, focus, Claimed(w)) && !At(s', focus, Claimed(w))
    ensures ClaimsShown(s')
  {
    forall id, w ensures Holds(s'.Sweeping(w), id) <==> At(s', id, Claimed(w)) {
      assert Holds(s.Sweeping(w), id) <==> At(s, id, Claimed(w));
    }
  }

  lemma FinalsSame(s: Sys, s': Sys, focus: PendingId)
    requires FinalsShown(s) && SameBut(s, s', focus) && s'.finalized == s.finalized
    requires !At(s, focus, Finalized) && !At(s', focus, Finalized)
    ensures FinalsShown(s')
  {
    forall id ensures InFinalized(s', id) <==> At(s', id, Finalized) {
      assert InFinalized(s, id) <==> At(s, id, Finalized);
    }
  }

  /** Steps that change no phase, no claim and no expiry entry. */
  lemma QuietPhase(s: Sys, s': Sys)
    requires PhaseInv(s) && s'.phase == s.phase && s'.created == s.created && s'.finalized == s.finalized
    requires s'.adders.Keys == s.adders.Keys && s'.redis.expiry == s.redis.expiry && s'.landed.Keys == s.landed.Keys
    requires forall w, id :: Holds(s'.Sweeping(w), id) <==> Holds(s.Sweeping(w), id)
    ensures PhaseInv(s')
  {
    forall id ensures InFinalized(s', id) <==> At(s', id, Finalized) {
      assert InFinalized(s, id) <==> At(s, id, Finalized);
    }
    forall id, w ensures Holds(s'.Sweeping(w), id) <==> At(s', id, Claimed(w)) {
      assert Holds(s.Sweeping(w), id) <==> At(s, id, Claimed(w));
    }
  }

  lemma StartAddPhase(s: Sys, p: Pending)
    requires PhaseInv(s) && p.id !in s.created
    ensures PhaseInv(DoStartAdd(s, p))
  {
    var s' := DoStartAdd(s, p);
    assert SameBut(s, s', p.id) && p.id !in s.phase;
    FinalsSame(s, s', p.id);
    ClaimsSame(s, s', p.id);
    hide ClaimsShown, FinalsShown;
    assert !At(s, p.id, Waits);
  }

  lemma AddCommandPhase(s: Sys, id: PendingId)
    requires PhaseInv(s) && id in s.adders && s.adders[id] < 4 && id in s.created && s.created[id].id == id
    ensures PhaseInv(DoAdd(s, id))
  {
    AddWrites(s.redis, s.created[id], s.adders[id]);
    hide Exec, AddProgram;
    if s.adders[id] < 3 {
      hide PhaseInv;
      QuietPhase(s, DoAdd(s, id));
    } else {
      assert DoAdd(s, id).redis.expiry.Keys == s.redis.expiry.Keys + {id};
      hide PhaseInv;
      LastCommandPhase(s, DoAdd(s, id), id);
    }
  }

  lemma LastCommandPhase(s: Sys, s': Sys, id: PendingId)
    requires PhaseInv(s) && id in s.adders && id in s.created
    requires s' == s.(redis := s'.redis, adders := s.adders - {id}, phase := s.phase[id := Waits])
    requires s'.redis.expiry.Keys == s.redis.expiry.Keys + {id}
    ensures PhaseInv(s')
  {
    assert At(s, id, Adding) && SameBut(s, s', id);
    AddingEnds(s, s', id);
    hide AddingShown, WaitingShown, ClaimsShown, FinalsShown;
    FinalsSame(s, s', id);
    ClaimsSame(s, s', id);
  }

  lemma AddingEnds(s: Sys, s': Sys, id: PendingId)
    requires AddingShown(s) && WaitingShown(s) && SameBut(s, s', id) && At(s', id, Waits)
    requires s'.adders.Keys == s.adders.Keys - {id} && s'.redis.expiry.Keys == s.redis.expiry.Keys + {id}
    ensures AddingShown(s') && WaitingShown(s')
  {
    forall x ensures x in s'.adders <==> At(s', x, Adding) {
      assert x in s'.adders <==> x in s'.adders.Keys;
      assert x in s.adders <==> At(s, x, Adding);
    }
    forall x ensures x in s'.redis.expiry <==> At(s', x, Waits) {
      assert x in s'.redis.expiry <==> x in s'.redis.expiry.Keys;
      assert x in s.redis.expiry <==> At(s, x, Waits);
    }
  }

  lemma ClaimPhase(s: Sys, w: nat)
    requires PhaseInv(s) && s.Sweeping(w).Claiming? && s.Sweeping(w).ids != []
    ensures PhaseInv(DoClaim(s, w))
  {
    hide PhaseInv;
    if s.Sweeping(w).ids[0] in s.redis.expiry {
      ClaimWon(s, w);
    } else {
      SweepPhase(s, w, Claiming(s.Sweeping(w).ids[1..]), Exec(s.redis, ZRemExpiry(s.Sweeping(w).ids[0])));
    }
  }

  lemma ClaimWon(s: Sys, w: nat)
    requires PhaseInv(s) && s.Sweeping(w).Claiming? && s.Sweeping(w).ids != []
    requires s.Sweeping(w).ids[0] in s.redis.expiry
    ensures PhaseInv(DoClaim(s, w))
  {
    var s' := DoClaim(s, w);
    var id := s.Sweeping(w).ids[0];
    assert At(s, id, Waits) && SameBut(s, s', id) && At(s', id, Claimed(w));
    FinalsSame(s, s', id);
    ClaimsMove(s, s', w, id);
    hide ClaimsShown, FinalsShown;
  }

  lemma ReadPhase(s: Sys, w: nat)
    requires PhaseInv(s) && s.Sweeping(w).Reading? && s.Sweeping(w).id in s.landed
    requires forall id :: id in s.redis.store ==> s.redis.store[id].id == id
    ensures PhaseInv(DoRead(s, w))
  {
    var id := s.Sweeping(w).id;
    if id in s.redis.store {
      hide PhaseInv;
      QuietPhase(s, DoRead(s, w));
    } else {
      EvictPhase(s, w);
    }
  }

  lemma EvictPhase(s: Sys, w: nat)
    requires PhaseInv(s) && s.Sweeping(w).Reading? && s.Sweeping(w).id in s.landed
    requires s.Sweeping(w).id !in s.redis.store
    ensures PhaseInv(DoRead(s, w))
  {
    var s' := DoRead(s, w);
    var id := s.Sweeping(w).id;
    assert Holds(s.Sweeping(w), id) && At(s, id, Claimed(w)) && SameBut(s, s', id) && At(s', id, Evicted);
    FinalsSame(s, s', id);
    ClaimsMove(s, s', w, id);
    hide ClaimsShown, FinalsShown;
  }

  lemma DeletePhase(s: Sys, w: nat)
    requires PhaseInv(s) && s.Sweeping(w).Deleting?
    ensures PhaseInv(DoDelete(s, w))
  {
    var s' := DoDelete(s, w);
    var id := s.Sweeping(w).p.id;
    assert Holds(s.Sweeping(w), id) && At(s, id, Claimed(w)) && SameBut(s, s', id) && At(s', id, Finalized);
    ClaimsMove(s, s', w, id);
    OneMoreFinal(s, s', id);
    hide ClaimsShown, FinalsShown;
  }

  lemma OneMoreFinal(s: Sys, s': Sys, focus: PendingId)
    requires FinalsShown(s) && SameBut(s, s', focus) && !At(s, focus, Finalized) && At(s', focus, Finalized)
    requires |s'.finalized| == |s.finalized| + 1 && s'.finalized[..|s.finalized|] == s.finalized
    requires s'.finalized[|s.finalized|].0.id == focus
    ensures FinalsShown(s')
  {
    forall k | 0 <= k < |s.finalized| ensures s.finalized[k].0.id != focus && s'.finalized[k] == s.finalized[k] {
      assert InFinalized(s, s.finalized[k].0.id);
      assert s'.finalized[..|s.finalized|][k] == s.finalized[k];
    }
    forall id ensures InFinalized(s', id) <==> At(s', id, Finalized) {
      assert InFinalized(s, id) <==> At(s, id, Finalized);
      if InFinalized(s, id) {
        var k :| 0 <= k < |s.finalized| && s.finalized[k].0.id == id;
        assert s'.finalized[k].0.id == id;
      }
    }
  }

  /** Steps that touch neither phases nor claims nor expiry entries. */
  lemma DataPhase(s: Sys, s': Sys)
    requires PhaseInv(s) && s'.redis.expiry == s.redis.expiry && s'.landed.Keys == s.landed.Keys
    requires s' == s.(redis := s'.redis, landed := s'.landed, matchers := s'.matchers)
    ensures PhaseInv(s')
  {
    QuietPhase(s, s');
  }

  lemma MatchPhase(s: Sys, m: (string, string))
    requires PhaseInv(s) && s.MatcherOf(m).Matching? && forall p :: p in s.MatcherOf(m).todo ==> p.id in s.landed
    ensures PhaseInv(DoMatch(s, m))
  {
    hide PhaseInv, Accepts, NeedsWrite, Observe;
    var s' := DoMatch(s, m);
    assert s'.landed.Keys == s.landed.Keys;
    DataPhase(s, s');
  }

  lemma SweepPhase(s: Sys, w: nat, sw: Sweeper, r: Redis)
    requires PhaseInv(s) && r.expiry == s.redis.expiry
    requires forall id :: Holds(sw, id) <==> Holds(s.Sweeping(w), id)
    ensures PhaseInv(s.(sweepers := s.sweepers[w := sw], redis := r))
  {
    QuietPhase(s, s.(sweepers := s.sweepers[w := sw], redis := r));
  }

  lemma UnindexPhase(s: Sys, w: nat)
    requires PhaseInv(s) && s.Sweeping(w).Unindexing?
    ensures PhaseInv(DoUnindex(s, w))
  {
    hide PhaseInv;
    var Unindexing(p, seen, rest) := s.Sweeping(w);
    SweepPhase(s, w, Deleting(p, seen, rest), Exec(s.redis, ZRemIndex(KeyOf(p), p.id)));
  }

  lemma DataPhaseStep(s: Sys, a: Action)
    requires PhaseInv(s) && Enabled(s, a) && (a.StartEvent? || a.Fetch? || a.ExpireKey? || a.DropIndex?)
    ensures PhaseInv(Do(s, a))
  {
    var s' := Do(s, a);
    assert s' == s.(redis := s'.redis, matchers := s'.matchers) && s'.redis.expiry == s.redis.expiry;
    hide *;
    DataPhase(s, s');
  }

  lemma PhaseStep(s: Sys, a: Action)
    requires PhaseInv(s) && CreatedInv(s) && StoreInv(s) && Enabled(s, a)
    ensures PhaseInv(Do(s, a))
  {
    StoredIds(s);
    hide IsRange, Exec, PhaseInv, StoreInv, DoStartAdd, DoAdd, DoClaim, DoRead, DoUnindex, DoDelete, DoMatch;
    match a
    case StartAdd(p) => StartAddPhase(s, p);
    case AddCommand(id) => AddCommandPhase(s, id);
    case StartSweep(w, now, ids) => SweepPhase(s, w, Claiming(ids), s.redis);
    case Claim(w) => ClaimPhase(s, w);
    case Read(w) => ReadPhase(s, w);
    case Unindex(w) => UnindexPhase(s, w);
    case Delete(w) => DeletePhase(s, w);
    case Match(m) => MatchPhase(s, m);
    case _ => DataPhaseStep(s, a);
  }

  lemma StoredIds(s: Sys)
    requires StoreInv(s) && CreatedInv(s)
    ensures forall id :: id in s.redis.store ==> s.redis.store[id].id == id
  {
    forall id | id in s.redis.store ensures s.redis.store[id].id == id { assert StoredOk(s, id); }
  }
}
