/** Every command of the pending protocol keeps the copies held by sweepers and matchers in order. */
module PendingCopies {
  import opened Common
  import opened Tracking
  import opened PendingStore
  import opened PendingProtocol
  import opened PendingPhases

  /* ---------------- the sweepers' copies ---------------- */

  lemma SweeperKept(s: Sys, s': Sys, w: nat)
    requires SweeperInv(s) && s'.finalized == s.finalized
    requires forall id :: id in s.created ==> id in s'.created && s'.created[id] == s.created[id]
    requires forall v :: v != w ==> s'.Sweeping(v) == s.Sweeping(v)
    requires s'.Sweeping(w).Unindexing? ==> CopyInv(s, s'.Sweeping(w).p, s'.Sweeping(w).seen)
    requires s'.Sweeping(w).Deleting? ==> CopyInv(s, s'.Sweeping(w).p, s'.Sweeping(w).seen)
    ensures SweeperInv(s')
  {
    hide Reflects;
    forall v | s'.Sweeping(v).Unindexing? ensures CopyInv(s', s'.Sweeping(v).p, s'.Sweeping(v).seen) {
      assert CopyInv(s, s'.Sweeping(v).p, s'.Sweeping(v).seen);
    }
    forall v | s'.Sweeping(v).Deleting? ensures CopyInv(s', s'.Sweeping(v).p, s'.Sweeping(v).seen) {
      assert CopyInv(s, s'.Sweeping(v).p, s'.Sweeping(v).seen);
    }
    forall k | 0 <= k < |s'.finalized| ensures CopyInv(s', s'.finalized[k].0, s'.finalized[k].1) {
      assert CopyInv(s, s.finalized[k].0, s.finalized[k].1);
    }
  }

  lemma ReadSweeper(s: Sys, w: nat)
    requires StoreInv(s) && SweeperInv(s) && s.Sweeping(w).Reading? && s.Sweeping(w).id in s.landed
    requires forall id :: id in s.redis.store ==> s.redis.store[id].id == id
    ensures SweeperInv(DoRead(s, w))
  {
    var id := s.Sweeping(w).id;
    if id in s.redis.store { assert StoredOk(s, id) && s.redis.store[id].id == id; }
    hide SweeperInv, StoreInv, Reflects;
    SweeperKept(s, DoRead(s, w), w);
  }

  lemma UnindexSweeper(s: Sys, w: nat)
    requires SweeperInv(s) && s.Sweeping(w).Unindexing?
    ensures SweeperInv(DoUnindex(s, w))
  {
    assert CopyInv(s, s.Sweeping(w).p, s.Sweeping(w).seen);
    hide SweeperInv, CopyInv;
    SweeperKept(s, DoUnindex(s, w), w);
  }

  lemma DeleteSweeper(s: Sys, w: nat)
    requires SweeperInv(s) && s.Sweeping(w).Deleting?
    ensures SweeperInv(DoDelete(s, w))
  {
    var s' := DoDelete(s, w);
    var sw := s.Sweeping(w);
    assert CopyInv(s, sw.p, sw.seen);
    SweeperKept(s, s'.(finalized := s.finalized), w);
    hide Reflects;
    forall k | 0 <= k < |s'.finalized| ensures CopyInv(s', s'.finalized[k].0, s'.finalized[k].1) {
      if k < |s.finalized| { assert CopyInv(s, s.finalized[k].0, s.finalized[k].1); }
    }
    assert forall v :: s'.Sweeping(v) == s'.(finalized := s.finalized).Sweeping(v);
  }

  lemma ClaimSweeper(s: Sys, w: nat)
    requires SweeperInv(s) && s.Sweeping(w).Claiming? && s.Sweeping(w).ids != []
    ensures SweeperInv(DoClaim(s, w))
  {
    hide SweeperInv, CopyInv;
    SweeperKept(s, DoClaim(s, w), w);
  }

  lemma MatchSweeper(s: Sys, m: (string, string))
    requires SweeperInv(s)
    requires s.MatcherOf(m).Matching? && forall p :: p in s.MatcherOf(m).todo ==> p.id in s.landed
    ensures SweeperInv(DoMatch(s, m))
  {
    DoFramed(s, Match(m));
    hide DoMatch, SweeperInv;
    QuietSweeper(s, DoMatch(s, m));
  }

  lemma QuietSweeper(s: Sys, s': Sys)
    requires SweeperInv(s) && s'.finalized == s.finalized && s'.sweepers == s.sweepers
    requires forall id :: id in s.created ==> id in s'.created && s'.created[id] == s.created[id]
    ensures SweeperInv(s')
  {
    assert s'.Sweeping(0) == s.Sweeping(0);
    hide CopyInv;
    SweeperKept(s, s', 0);
  }

  lemma QuietSweeperStep(s: Sys, a: Action)
    requires SweeperInv(s) && CreatedInv(s) && Enabled(s, a) && !SweepAction(a)
    ensures SweeperInv(Do(s, a))
  {
    DoFramed(s, a);
    hide SweeperInv, IsRange, DoAdd, DoMatch, DoFetch, CreatedInv;
    var s' := Do(s, a);
    assert a.StartAdd? ==> s'.created == s.created[a.p.id := a.p] && a.p.id !in s.created;
    QuietSweeper(s, s');
  }

  lemma SweeperStep(s: Sys, a: Action)
    requires CreatedInv(s) && StoreInv(s) && SweeperInv(s) && Enabled(s, a)
    ensures SweeperInv(Do(s, a))
  {
    StoredIds(s);
    hide IsRange, CreatedInv, StoreInv, SweeperInv, DoMatch, DoRead, DoClaim, DoUnindex, DoDelete, CopyInv;
    match a
    case StartSweep(w, now, ids) => SweeperKept(s, Do(s, a), w);
    case Claim(w) => ClaimSweeper(s, w);
    case Read(w) => ReadSweeper(s, w);
    case Unindex(w) => UnindexSweeper(s, w);
    case Delete(w) => DeleteSweeper(s, w);
    case Match(m) => MatchSweeper(s, m);
    case _ => QuietSweeperStep(s, a);
  }

  /* ---------------- the matchers' copies ---------------- */

  lemma MatcherKept(s: Sys, s': Sys, m: (string, string), mt: Matcher)
    requires MatcherOk(s, m, mt)
    requires forall id :: Mine(s, m, id) ==> Mine(s', m, id)
    requires forall id :: Mine(s, m, id) && id in s'.redis.store ==>
                          id in s.redis.store && s'.redis.store[id] == s.redis.store[id]
    ensures MatcherOk(s', m, mt)
  {
    match mt
    case Waiting =>
    case Fetching(ev, ids, got) =>
      forall i | 0 <= i < |got| ensures Current(s', m, got[i]) { assert Current(s, m, got[i]); }
    case Matching(ev, todo) =>
      forall i | 0 <= i < |todo| ensures Current(s', m, todo[i]) { assert Current(s, m, todo[i]); }
  }

  /** Steps that leave every matcher where it was and write no key a matcher can hold. */
  lemma MatchersKept(s: Sys, s': Sys)
    requires MatcherInv(s) && s'.matchers == s.matchers
    requires forall m, id :: Mine(s, m, id) ==> Mine(s', m, id)
    requires forall m, id :: Mine(s, m, id) && id in s'.redis.store ==>
                             id in s.redis.store && s'.redis.store[id] == s.redis.store[id]
    ensures MatcherInv(s')
  {
    forall m ensures MatcherOk(s', m, s'.MatcherOf(m)) {
      assert MatcherOk(s, m, s.MatcherOf(m));
      hide MatcherInv, MatcherOk, Mine;
      MatcherKept(s, s', m, s.MatcherOf(m));
    }
  }

  lemma QuietMatchers(s: Sys, s': Sys)
    requires MatcherInv(s) && s'.matchers == s.matchers && s'.created == s.created && s'.adders == s.adders
    requires forall id :: id in s'.redis.store ==> id in s.redis.store && s'.redis.store[id] == s.redis.store[id]
    ensures MatcherInv(s')
  {
    hide MatcherInv;
    MatchersKept(s, s');
  }

  lemma AddMatchers(s: Sys, id: PendingId)
    requires MatcherInv(s) && CreatedInv(s) && id in s.adders && s.adders[id] < 4 && id in s.created
    ensures MatcherInv(DoAdd(s, id))
  {
    AddWrites(s.redis, s.created[id], s.adders[id]);
    assert s.created[id].id == id;
    hide Exec, AddProgram, MatcherInv, CreatedInv;
    MatchersKept(s, DoAdd(s, id));
  }

  lemma StartAddMatchers(s: Sys, p: Pending)
    requires MatcherInv(s) && p.id !in s.created
    ensures MatcherInv(DoStartAdd(s, p))
  {
    hide MatcherInv;
    MatchersKept(s, DoStartAdd(s, p));
  }

  /** A matcher moves on while the others stay. */
  lemma MatcherMoves(s: Sys, m: (string, string), mt: Matcher)
    requires MatcherInv(s) && MatcherOk(s, m, mt)
    ensures MatcherInv(s.(matchers := s.matchers[m := mt]))
  {
    var s' := s.(matchers := s.matchers[m := mt]);
    forall n ensures MatcherOk(s', n, s'.MatcherOf(n)) {
      var nt := s'.MatcherOf(n);
      if n != m {
        assert nt == s.MatcherOf(n);
        assert MatcherOk(s, n, s.MatcherOf(n));
      }
      hide MatcherInv, MatcherOk;
      MatcherKept(s, s', n, nt);
    }
  }

  lemma StartEventMatchers(s: Sys, m: (string, string), ev: Event, now: int, ids: seq<PendingId>)
    requires IndexInv(s) && MatcherInv(s) && m == (ev.key.0, ev.key.1)
    requires IsRange(s.redis.IndexAt(ev.key), Some(now), None, None, ids)
    ensures MatcherInv(s.(matchers := s.matchers[m := Fetching(ev, ids, [])]))
  {
    assert MatcherOk(s, m, Fetching(ev, ids, [])) by {
      forall i | 0 <= i < |ids| ensures Mine(s, m, ids[i]) { assert IndexedOk(s, ev.key, ids[i]); }
    }
    MatcherMoves(s, m, Fetching(ev, ids, []));
  }

  lemma FetchMatchers(s: Sys, m: (string, string))
    requires MatcherInv(s) && s.MatcherOf(m).Fetching?
    requires forall id :: id in s.redis.store ==> s.redis.store[id].id == id
    ensures MatcherInv(DoFetch(s, m))
  {
    var Fetching(ev, ids, got) := s.MatcherOf(m);
    assert MatcherOk(s, m, Fetching(ev, ids, got));
    if ids == [] {
      MatcherMoves(s, m, Matching(ev, got));
    } else {
      var more := if ids[0] in s.redis.store then got + [s.redis.store[ids[0]]] else got;
      FetchOne(s, m, ev, ids, got);
      MatcherMoves(s, m, Fetching(ev, ids[1..], more));
    }
  }

  lemma FetchOne(s: Sys, m: (string, string), ev: Event, ids: seq<PendingId>, got: seq<Pending>)
    requires MatcherOk(s, m, Fetching(ev, ids, got)) && ids != []
    requires forall id :: id in s.redis.store ==> s.redis.store[id].id == id
    ensures var more := if ids[0] in s.redis.store then got + [s.redis.store[ids[0]]] else got;
            MatcherOk(s, m, Fetching(ev, ids[1..], more))
  {
    assert Mine(s, m, ids[0]);
  }

  lemma MatchMatchers(s: Sys, m: (string, string))
    requires MatcherInv(s)
    requires s.MatcherOf(m).Matching? && forall p :: p in s.MatcherOf(m).todo ==> p.id in s.landed
    ensures MatcherInv(DoMatch(s, m))
  {
    var s' := DoMatch(s, m);
    var Matching(ev, todo) := s.MatcherOf(m);
    assert MatcherOk(s, m, Matching(ev, todo));
    if todo == [] {
      MatcherMoves(s, m, Waiting);
    } else {
      var p := todo[0];
      assert Current(s, m, todo[0]);
      MatchTail(s, m, ev, todo);
      forall n ensures MatcherOk(s', n, s'.MatcherOf(n)) {
        var nt := s'.MatcherOf(n);
        if n != m {
          assert MatcherOk(s, n, s.MatcherOf(n));
          MatchOthers(s, m, n, nt);
        }
      }
    }
  }

  /** Writing one pending leaves the copies of other routes' matchers alone. */
  lemma MatchOthers(s: Sys, m: (string, string), n: (string, string), nt: Matcher)
    requires s.MatcherOf(m).Matching? && forall p :: p in s.MatcherOf(m).todo ==> p.id in s.landed
    requires s.MatcherOf(m).todo != [] && Mine(s, m, s.MatcherOf(m).todo[0].id) && n != m && MatcherOk(s, n, nt)
    ensures MatcherOk(DoMatch(s, m), n, nt)
  {
    var Matching(ev, todo) := s.MatcherOf(m);
    assert Observe(todo[0], ev).id == todo[0].id;
    hide MatcherOk, Accepts, NeedsWrite, Observe;
    MatcherKept(s, DoMatch(s, m), n, nt);
  }

  /** Writing the first pending leaves the rest of the matcher's own copies alone: their ids differ. */
  lemma MatchTail(s: Sys, m: (string, string), ev: Event, todo: seq<Pending>)
    requires s.MatcherOf(m) == Matching(ev, todo) && forall p :: p in todo ==> p.id in s.landed
    requires todo != [] && MatcherOk(s, m, Matching(ev, todo))
    ensures MatcherOk(DoMatch(s, m), m, Matching(ev, todo[1..]))
  {
    var s' := DoMatch(s, m);
    hide Accepts, NeedsWrite;
    assert s'.created == s.created && s'.adders == s.adders;
    forall i | 0 <= i < |todo[1..]| ensures Current(s', m, todo[1..][i]) {
      assert Current(s, m, todo[i + 1]) && todo[0].id != todo[i + 1].id;
    }
  }

  lemma ClaimMatchers(s: Sys, w: nat)
    requires MatcherInv(s) && s.Sweeping(w).Claiming? && s.Sweeping(w).ids != []
    ensures MatcherInv(DoClaim(s, w))
  {
    hide MatcherInv;
    QuietMatchers(s, DoClaim(s, w));
  }

  lemma ReadMatchers(s: Sys, w: nat)
    requires MatcherInv(s) && s.Sweeping(w).Reading? && s.Sweeping(w).id in s.landed
    ensures MatcherInv(DoRead(s, w))
  {
    hide MatcherInv;
    QuietMatchers(s, DoRead(s, w));
  }

  lemma UnindexMatchers(s: Sys, w: nat)
    requires MatcherInv(s) && s.Sweeping(w).Unindexing?
    ensures MatcherInv(DoUnindex(s, w))
  {
    hide MatcherInv;
    QuietMatchers(s, DoUnindex(s, w));
  }

  lemma DeleteMatchers(s: Sys, w: nat)
    requires MatcherInv(s) && s.Sweeping(w).Deleting?
    ensures MatcherInv(DoDelete(s, w))
  {
    hide MatcherInv;
    QuietMatchers(s, DoDelete(s, w));
  }

  lemma MatcherStep(s: Sys, a: Action)
    requires CreatedInv(s) && StoreInv(s) && IndexInv(s) && MatcherInv(s) && Enabled(s, a)
    ensures MatcherInv(Do(s, a))
  {
    StoredIds(s);
    hide IsRange, CreatedInv, StoreInv, IndexInv, MatcherInv, DoStartAdd, DoAdd, DoFetch, DoMatch;
    hide DoClaim, DoRead, DoUnindex, DoDelete;
    match a
    case StartAdd(p) => StartAddMatchers(s, p);
    case AddCommand(id) => AddMatchers(s, id);
    case StartEvent(m, ev, now, ids) => StartEventMatchers(s, m, ev, now, ids);
    case Fetch(m) => FetchMatchers(s, m);
    case Match(m) => MatchMatchers(s, m);
    case Claim(w) => ClaimMatchers(s, w);
    case Read(w) => ReadMatchers(s, w);
    case Unindex(w) => UnindexMatchers(s, w);
    case Delete(w) => DeleteMatchers(s, w);
    case _ => QuietMatchers(s, Do(s, a));
  }
}
