/** Processes that run uninterrupted do what the store's methods do (internal/evaluation/pending.go,
    OnDelayEvent in internal/evaluation/evaluator.go). */
module PendingComposition {
  import opened Common
  import opened Tracking
  import opened PendingStore
  import opened PendingProtocol
  import opened PendingPhases
  import opened PendingTheorems

  /** Every command works. */
  const WORKING := PopFaults(Applied, true, Applied, Applied)

  function Works(id: PendingId): PopFaults { WORKING }

  function Readable(id: PendingId): bool { true }

  function Written(id: PendingId): Reply { Applied }

  /** States that follow one another, from anywhere. */
  ghost predicate IsPath(path: seq<Sys>) {
    path != [] && forall i :: 0 <= i < |path| - 1 ==> Step(path[i], path[i + 1])
  }

  ghost function End(path: seq<Sys>): Sys
    requires path != []
  {
    path[|path| - 1]
  }

  ghost predicate SameStart(path: seq<Sys>, longer: seq<Sys>) { path != [] && longer != [] && longer[0] == path[0] }

  /** One more step of a path on which the invariant holds. */
  lemma ExtendPath(path: seq<Sys>, a: Action) returns (longer: seq<Sys>)
    requires IsPath(path) && path != [] && Inv(End(path)) && Enabled(End(path), a)
    ensures IsPath(longer) && SameStart(path, longer) && End(longer) == Do(End(path), a) && Inv(End(longer))
  {
    InvStep(End(path), a);
    longer := path + [Do(End(path), a)];
    hide Inv, Do, Enabled;
    assert Step(End(path), Do(End(path), a));
  }

  lemma ClaimPath(path: seq<Sys>, w: nat) returns (longer: seq<Sys>)
    requires IsPath(path) && path != [] && Inv(End(path))
    requires End(path).Sweeping(w).Claiming? && End(path).Sweeping(w).ids != []
    ensures IsPath(longer) && SameStart(path, longer) && Inv(End(longer)) && End(longer) == DoClaim(End(path), w)
  {
    hide Inv, IsPath, IsRange, DoClaim;
    longer := ExtendPath(path, Claim(w));
  }

  lemma ReadPath(path: seq<Sys>, w: nat) returns (longer: seq<Sys>)
    requires IsPath(path) && path != [] && Inv(End(path))
    requires End(path).Sweeping(w).Reading? && End(path).Sweeping(w).id in End(path).landed
    ensures IsPath(longer) && SameStart(path, longer) && Inv(End(longer)) && End(longer) == DoRead(End(path), w)
  {
    hide Inv, IsPath, IsRange, DoRead;
    longer := ExtendPath(path, Read(w));
  }

  lemma UnindexPath(path: seq<Sys>, w: nat) returns (longer: seq<Sys>)
    requires IsPath(path) && path != [] && Inv(End(path)) && End(path).Sweeping(w).Unindexing?
    ensures IsPath(longer) && SameStart(path, longer) && Inv(End(longer)) && End(longer) == DoUnindex(End(path), w)
  {
    hide Inv, IsPath, IsRange, DoUnindex;
    longer := ExtendPath(path, Unindex(w));
  }

  lemma DeletePath(path: seq<Sys>, w: nat) returns (longer: seq<Sys>)
    requires IsPath(path) && path != [] && Inv(End(path)) && End(path).Sweeping(w).Deleting?
    ensures IsPath(longer) && SameStart(path, longer) && Inv(End(longer)) && End(longer) == DoDelete(End(path), w)
  {
    hide Inv, IsPath, IsRange, DoDelete;
    longer := ExtendPath(path, Delete(w));
  }

  lemma FetchPath(path: seq<Sys>, m: (string, string)) returns (longer: seq<Sys>)
    requires IsPath(path) && path != [] && Inv(End(path)) && End(path).MatcherOf(m).Fetching?
    ensures IsPath(longer) && SameStart(path, longer) && Inv(End(longer)) && End(longer) == DoFetch(End(path), m)
  {
    hide Inv, IsPath, IsRange, DoFetch;
    longer := ExtendPath(path, Fetch(m));
  }

  lemma MatchPath(path: seq<Sys>, m: (string, string)) returns (longer: seq<Sys>)
    requires IsPath(path) && path != [] && Inv(End(path)) && End(path).MatcherOf(m).Matching?
    requires forall p :: p in End(path).MatcherOf(m).todo ==> p.id in End(path).landed
    ensures IsPath(longer) && SameStart(path, longer) && Inv(End(longer)) && End(longer) == DoMatch(End(path), m)
  {
    hide Inv, IsPath, IsRange, DoMatch;
    longer := ExtendPath(path, Match(m));
  }

  /* ---------------- sweeping ---------------- */

  /** The pendings handed out for finalization. */
  function Pops(finalized: seq<(Pending, seq<Event>)>): seq<Pending> {
    seq(|finalized|, i requires 0 <= i < |finalized| => finalized[i].0)
  }

  lemma PopsMore(finalized: seq<(Pending, seq<Event>)>, p: Pending, seen: seq<Event>)
    ensures Pops(finalized + [(p, seen)]) == Pops(finalized) + [p]
  {
  }

  /** What a sweeper at work on its first id leads to. */
  ghost predicate Popped(s: Sys, w: nat, s': Sys) {
    s.Sweeping(w).Claiming? && s.Sweeping(w).ids != [] &&
    var id := s.Sweeping(w).ids[0];
    && s'.Sweeping(w) == Claiming(s.Sweeping(w).ids[1..])
    && s'.redis == PopOne(s.redis, id, WORKING).0
    && Pops(s'.finalized) == Pops(s.finalized) + PopOne(s.redis, id, WORKING).1
  }

  lemma RemAbsent(z: map<PendingId, int>, id: PendingId)
    requires id !in z
    ensures z - {id} == z
  {
  }

  /** Another sweeper was faster. */
  lemma ClaimLost(s: Sys, w: nat)
    requires s.Sweeping(w).Claiming? && s.Sweeping(w).ids != [] && s.Sweeping(w).ids[0] !in s.redis.expiry
    ensures Popped(s, w, DoClaim(s, w))
  {
    var id := s.Sweeping(w).ids[0];
    RemAbsent(s.redis.expiry, id);
    assert DoClaim(s, w).finalized == s.finalized && Pops(s.finalized) + [] == Pops(s.finalized);
  }

  lemma ClaimMoves(s: Sys, w: nat)
    requires s.Sweeping(w).Claiming? && s.Sweeping(w).ids != [] && s.Sweeping(w).ids[0] in s.redis.expiry
    ensures var s' := DoClaim(s, w);
            && s'.Sweeping(w) == Reading(s.Sweeping(w).ids[0], s.Sweeping(w).ids[1..])
            && s'.redis == Exec(s.redis, ZRemExpiry(s.Sweeping(w).ids[0]))
            && s'.finalized == s.finalized && s'.landed == s.landed
  {
  }

  /** The key was gone. */
  lemma ReadMissed(s: Sys, w: nat, s1: Sys)
    requires s.Sweeping(w).Claiming? && s.Sweeping(w).ids != [] && s.Sweeping(w).ids[0] in s.redis.expiry
    requires s.Sweeping(w).ids[0] !in s.redis.store && s.Sweeping(w).ids[0] in s.landed && s1 == DoClaim(s, w)
    ensures s1.Sweeping(w).Reading? && s1.Sweeping(w).id in s1.landed && Popped(s, w, DoRead(s1, w))
  {
    ClaimMoves(s, w);
    hide DoClaim;
    var s2 := DoRead(s1, w);
    assert s2.finalized == s.finalized && s2.redis == s1.redis && Pops(s.finalized) + [] == Pops(s.finalized);
  }

  lemma ReadMoves(s: Sys, w: nat)
    requires s.Sweeping(w).Reading? && s.Sweeping(w).id in s.landed && s.Sweeping(w).id in s.redis.store
    ensures var s' := DoRead(s, w);
            && s'.Sweeping(w).Unindexing? && s'.Sweeping(w).p == s.redis.store[s.Sweeping(w).id]
            && s'.Sweeping(w).ids == s.Sweeping(w).ids && s'.redis == s.redis && s'.finalized == s.finalized
  {
  }

  lemma UnindexMoves(s: Sys, w: nat)
    requires s.Sweeping(w).Unindexing?
    ensures var s' := DoUnindex(s, w);
            && s'.Sweeping(w).Deleting? && s'.Sweeping(w).p == s.Sweeping(w).p
            && s'.Sweeping(w).ids == s.Sweeping(w).ids && s'.finalized == s.finalized
            && s'.redis == Exec(s.redis, ZRemIndex(KeyOf(s.Sweeping(w).p), s.Sweeping(w).p.id))
  {
  }

  lemma DeleteMoves(s: Sys, w: nat)
    requires s.Sweeping(w).Deleting?
    ensures var s' := DoDelete(s, w);
            && s'.Sweeping(w) == Claiming(s.Sweeping(w).ids) && s'.redis == Exec(s.redis, Del(s.Sweeping(w).p.id))
            && Pops(s'.finalized) == Pops(s.finalized) + [s.Sweeping(w).p]
  {
    PopsMore(s.finalized, s.Sweeping(w).p, s.Sweeping(w).seen);
  }

  /** One id, whether another sweeper was faster, its key is gone, or it is there. */
  lemma SweepOne(path: seq<Sys>, w: nat) returns (longer: seq<Sys>)
    requires IsPath(path) && path != [] && Inv(End(path))
    requires End(path).Sweeping(w).Claiming? && End(path).Sweeping(w).ids != []
    requires forall id :: id in End(path).redis.expiry ==> id in End(path).landed
    requires forall id :: id in End(path).redis.store ==> End(path).redis.store[id].id == id
    ensures IsPath(longer) && SameStart(path, longer) && Inv(End(longer)) && Popped(End(path), w, End(longer))
  {
    var s := End(path);
    var id := s.Sweeping(w).ids[0];
    hide Inv, IsPath, DoClaim, DoRead, DoUnindex, DoDelete, Popped;
    longer := ClaimPath(path, w);
    if id !in s.redis.expiry {
      ClaimLost(s, w);
    } else if id !in s.redis.store {
      ReadMissed(s, w, End(longer));
      longer := ReadPath(longer, w);
    } else {
      longer := SweepFull(path, w, longer);
    }
  }

  /** The id is claimed and its key is there. */
  lemma SweepFull(path: seq<Sys>, w: nat, claimed: seq<Sys>) returns (longer: seq<Sys>)
    requires path != [] && IsPath(claimed) && SameStart(path, claimed) && Inv(End(claimed))
    requires End(path).Sweeping(w).Claiming? && End(path).Sweeping(w).ids != []
    requires var id := End(path).Sweeping(w).ids[0];
             && id in End(path).redis.expiry && id in End(path).landed
             && id in End(path).redis.store && End(path).redis.store[id].id == id
    requires End(claimed) == DoClaim(End(path), w)
    ensures IsPath(longer) && SameStart(path, longer) && Inv(End(longer)) && Popped(End(path), w, End(longer))
  {
    var s, s1 := End(path), End(claimed);
    ClaimMoves(s, w);
    hide Inv, IsPath, DoClaim, DoRead, DoUnindex, DoDelete, Popped;
    longer := ReadPath(claimed, w);
    ReadMoves(s1, w);
    var s2 := End(longer);
    longer := UnindexPath(longer, w);
    UnindexMoves(s2, w);
    var s3 := End(longer);
    longer := DeletePath(longer, w);
    DeleteMoves(s3, w);
    FullSweep(s, w, s1, s2, s3, End(longer));
  }

  lemma FullSweep(s: Sys, w: nat, s1: Sys, s2: Sys, s3: Sys, s4: Sys)
    requires s.Sweeping(w).Claiming? && s.Sweeping(w).ids != []
    requires var id := s.Sweeping(w).ids[0];
             && id in s.redis.expiry && id in s.redis.store && s.redis.store[id].id == id
             && s1.redis == Exec(s.redis, ZRemExpiry(id)) && s1.finalized == s.finalized
             && s2.redis == s1.redis && s2.finalized == s1.finalized
             && s3.redis == Exec(s2.redis, ZRemIndex(KeyOf(s1.redis.store[id]), id)) && s3.finalized == s2.finalized
             && s4.redis == Exec(s3.redis, Del(id)) && Pops(s4.finalized) == Pops(s3.finalized) + [s1.redis.store[id]]
    requires s4.Sweeping(w) == Claiming(s.Sweeping(w).ids[1..])
    ensures Popped(s, w, s4)
  {
  }

  lemma SweepReady(s: Sys)
    requires Inv(s)
    ensures forall id :: id in s.redis.expiry ==> id in s.landed
    ensures forall id :: id in s.redis.store ==> s.redis.store[id].id == id
  {
    StoredIds(s);
    hide CreatedInv, StoreInv, IndexInv, SweeperInv, MatcherInv;
    forall id | id in s.redis.expiry ensures id in s.landed {
      assert At(s, id, Waits);
      assert id in s.phase.Keys;
    }
  }

  lemma {:induction false} PopAllFront(r: Redis, id: PendingId, rest: seq<PendingId>)
    ensures PopAll(r, [id] + rest, Works) == var (r1, out) := PopOne(r, id, WORKING);
                                      var (r2, more) := PopAll(r1, rest, Works);
                                      (r2, out + more)
  {
    hide PopOne;
    var all := [id] + rest;
    if rest == [] {
      assert all[..0] == [] && all[0] == id && PopAll(r, [], Works) == (r, []);
      var (r1, out) := PopOne(r, id, WORKING);
      assert PopAll(r1, [], Works) == (r1, []) && [] + out == out + [];
    } else {
      var front, last := rest[..|rest| - 1], rest[|rest| - 1];
      PopAllFront(r, id, front);
      assert all[..|all| - 1] == [id] + front && all[|all| - 1] == last;
      var (r1, out) := PopOne(r, id, WORKING);
      var (r2, more) := PopAll(r1, front, Works);
      var (r3, final) := PopOne(r2, last, WORKING);
      assert (out + more) + final == out + (more + final);
    }
  }

  /** A sweeper that is not interrupted does what PopExpired does with its whole batch: it leaves the same server behind
      and finalizes the same pendings, in order. */
  lemma {:induction false} SweepComposes(path: seq<Sys>, w: nat) returns (longer: seq<Sys>)
    requires IsPath(path) && path != [] && Inv(End(path)) && End(path).Sweeping(w).Claiming?
    ensures IsPath(longer) && SameStart(path, longer) && Inv(End(longer)) && End(longer).Sweeping(w) == Claiming([])
    ensures End(longer).redis == PopAll(End(path).redis, End(path).Sweeping(w).ids, Works).0
    ensures Pops(End(longer).finalized) ==
            Pops(End(path).finalized) + PopAll(End(path).redis, End(path).Sweeping(w).ids, Works).1
    decreases |End(path).Sweeping(w).ids|
  {
    var s := End(path);
    var ids := s.Sweeping(w).ids;
    hide Inv, IsPath, PopOne, PopAll, Pops, Popped;
    if ids == [] {
      SweptNothing(s);
      longer := path;
    } else {
      SweepReady(s);
      var one := SweepOne(path, w);
      PoppedIds(s, w, End(one));
      longer := SweepComposes(one, w);
      SweptMore(s, w, End(one), End(longer));
    }
  }

  lemma SweptNothing(s: Sys)
    ensures PopAll(s.redis, [], Works) == (s.redis, []) && Pops(s.finalized) + [] == Pops(s.finalized)
  {
  }

  lemma PoppedIds(s: Sys, w: nat, s': Sys)
    requires Popped(s, w, s')
    ensures s'.Sweeping(w).Claiming? && |s'.Sweeping(w).ids| < |s.Sweeping(w).ids|
  {
  }

  lemma SweptMore(s: Sys, w: nat, s1: Sys, s2: Sys)
    requires Popped(s, w, s1)
    requires s2.redis == PopAll(s1.redis, s1.Sweeping(w).ids, Works).0
    requires Pops(s2.finalized) == Pops(s1.finalized) + PopAll(s1.redis, s1.Sweeping(w).ids, Works).1
    ensures s2.redis == PopAll(s.redis, s.Sweeping(w).ids, Works).0
    ensures Pops(s2.finalized) == Pops(s.finalized) + PopAll(s.redis, s.Sweeping(w).ids, Works).1
  {
    var ids := s.Sweeping(w).ids;
    PopAllSplit(s.redis, ids);
    Regrouped(Pops(s.finalized), PopOne(s.redis, ids[0], WORKING).1, PopAll(s1.redis, ids[1..], Works).1);
    hide PopOne, PopAll, Pops;
  }

  lemma Regrouped(a: seq<Pending>, b: seq<Pending>, c: seq<Pending>)
    ensures (a + b) + c == a + (b + c)
  {
  }

  lemma PopAllSplit(r: Redis, ids: seq<PendingId>)
    requires ids != []
    ensures PopAll(r, ids, Works).0 == PopAll(PopOne(r, ids[0], WORKING).0, ids[1..], Works).0
    ensures PopAll(r, ids, Works).1 ==
            PopOne(r, ids[0], WORKING).1 + PopAll(PopOne(r, ids[0], WORKING).0, ids[1..], Works).1
  {
    PopAllFront(r, ids[0], ids[1..]);
    assert [ids[0]] + ids[1..] == ids;
    hide PopOne, PopAll;
  }

  /* ---------------- adding ---------------- */

  /** An add that is not interrupted does what Add does. */
  lemma AddComposes(s: Sys, id: PendingId)
    requires Inv(s) && id in s.adders && s.adders[id] == 0
    ensures var s1 := DoAdd(s, id);
            var s2 := DoAdd(s1, id);
            var s3 := DoAdd(s2, id);
            var s4 := DoAdd(s3, id);
            s4.redis == ExecAll(s.redis, AddProgram(s.created[id]))
  {
    assert id in s.created;
    hide Inv, Exec, DoAdd;
    var p := AddProgram(s.created[id]);
    AddShape(s, id);
    var s1 := DoAdd(s, id);
    AddShape(s1, id);
    var s2 := DoAdd(s1, id);
    AddShape(s2, id);
    var s3 := DoAdd(s2, id);
    AddShape(s3, id);
    hide AddProgram;
    ExecFour(s.redis, p);
  }

  lemma ExecFour(r: Redis, cs: seq<Command>)
    requires |cs| == 4
    ensures ExecAll(r, cs) == Exec(Exec(Exec(Exec(r, cs[0]), cs[1]), cs[2]), cs[3])
  {
    hide Exec;
    var r1 := Exec(r, cs[0]);
    var r2 := Exec(r1, cs[1]);
    var r3 := Exec(r2, cs[2]);
    assert cs[1..][1..] == cs[2..] && cs[2..][1..] == cs[3..] && cs[3..][1..] == [];
    assert ExecAll(r3, cs[3..]) == Exec(r3, cs[3]);
    assert ExecAll(r2, cs[2..]) == ExecAll(r3, cs[3..]);
    assert ExecAll(r1, cs[1..]) == ExecAll(r2, cs[2..]);
  }

  /* ---------------- matching ---------------- */

  lemma {:induction false} GetAllFront(store: map<PendingId, Pending>, id: PendingId, rest: seq<PendingId>)
    ensures GetAll(store, [id] + rest, Readable) ==
            (if id in store then [store[id]] else []) + GetAll(store, rest, Readable)
  {
    var all := [id] + rest;
    if rest == [] {
      assert all[..0] == [] && GetAll(store, [], Readable) == [];
    } else {
      GetAllFront(store, id, rest[..|rest| - 1]);
      assert all[..|all| - 1] == [id] + rest[..|rest| - 1];
    }
  }

  lemma {:induction false} MatchAllFront(r: Redis, p: Pending, rest: seq<Pending>, ev: Event)
    ensures MatchAll(r, [p] + rest, ev, Written) ==
            MatchAll(if NeedsWrite(p, ev) then Exec(r, SetXX(Observe(p, ev))) else r, rest, ev, Written)
  {
    hide NeedsWrite, Exec, Observe;
    var all := [p] + rest;
    if rest == [] {
      assert all[..0] == [] && MatchAll(r, [], ev, Written) == r;
    } else {
      MatchAllFront(r, p, rest[..|rest| - 1], ev);
      assert all[..|all| - 1] == [p] + rest[..|rest| - 1];
    }
  }

  /** A matcher's reads, one after the other. */
  lemma {:induction false} FetchComposes(path: seq<Sys>, m: (string, string)) returns (longer: seq<Sys>)
    requires IsPath(path) && path != [] && Inv(End(path)) && End(path).MatcherOf(m).Fetching?
    ensures IsPath(longer) && SameStart(path, longer) && Inv(End(longer)) && End(longer).redis == End(path).redis
    ensures var Fetching(ev, ids, got) := End(path).MatcherOf(m);
            End(longer).MatcherOf(m) == Matching(ev, got + GetAll(End(path).redis.store, ids, Readable))
    decreases |End(path).MatcherOf(m).ids|
  {
    var s := End(path);
    var Fetching(ev, ids, got) := s.MatcherOf(m);
    FetchMoves(s, m);
    hide Inv, IsPath, DoFetch, GetAll;
    longer := FetchPath(path, m);
    if ids == [] {
      assert GetAll(s.redis.store, [], Readable) == [] && got + [] == got by { GetNothing(s.redis.store); }
    } else {
      longer := FetchComposes(longer, m);
      FetchedMore(s.redis.store, ids, got);
    }
  }

  lemma GetNothing(store: map<PendingId, Pending>)
    ensures GetAll(store, [], Readable) == []
  {
  }

  lemma FetchedMore(store: map<PendingId, Pending>, ids: seq<PendingId>, got: seq<Pending>)
    requires ids != []
    ensures (got + if ids[0] in store then [store[ids[0]]] else []) + GetAll(store, ids[1..], Readable) ==
            got + GetAll(store, ids, Readable)
  {
    GetAllFront(store, ids[0], ids[1..]);
    assert [ids[0]] + ids[1..] == ids;
    hide GetAll;
    var first := if ids[0] in store then [store[ids[0]]] else [];
    Regrouped(got, first, GetAll(store, ids[1..], Readable));
  }

  lemma FetchMoves(s: Sys, m: (string, string))
    requires s.MatcherOf(m).Fetching?
    ensures var Fetching(ev, ids, got) := s.MatcherOf(m);
            var s' := DoFetch(s, m);
            && s'.redis == s.redis
            && (ids == [] ==> s'.MatcherOf(m) == Matching(ev, got))
            && (ids != [] ==>
                  s'.MatcherOf(m) ==
                  Fetching(ev, ids[1..], got + if ids[0] in s.redis.store then [s.redis.store[ids[0]]] else []))
  {
    assert s.MatcherOf(m).got + [] == s.MatcherOf(m).got;
  }

  lemma MatchMoves(s: Sys, m: (string, string))
    requires s.MatcherOf(m).Matching? && forall p :: p in s.MatcherOf(m).todo ==> p.id in s.landed
    ensures var Matching(ev, todo) := s.MatcherOf(m);
            var s' := DoMatch(s, m);
            && (todo == [] ==> s'.MatcherOf(m) == Waiting && s'.redis == s.redis)
            && (todo != [] ==>
                  && s'.MatcherOf(m) == Matching(ev, todo[1..])
                  && s'.redis ==
                     if NeedsWrite(todo[0], ev) then Exec(s.redis, SetXX(Observe(todo[0], ev))) else s.redis)
  {
    hide NeedsWrite, Exec, Observe, Accepts;
  }

  lemma MatchReady(s: Sys, m: (string, string))
    requires Inv(s) && s.MatcherOf(m).Matching?
    ensures forall p :: p in s.MatcherOf(m).todo ==> p.id in s.landed
  {
    hide CreatedInv, StoreInv, IndexInv, SweeperInv;
    assert MatcherOk(s, m, s.MatcherOf(m));
    var todo := s.MatcherOf(m).todo;
    forall p | p in todo ensures p.id in s.landed {
      var i :| 0 <= i < |todo| && todo[i] == p;
      assert Current(s, m, todo[i]);
      assert p.id in s.created.Keys;
    }
  }

  /** A matcher's writes, one after the other. */
  lemma {:induction false} WritesCompose(path: seq<Sys>, m: (string, string)) returns (longer: seq<Sys>)
    requires IsPath(path) && path != [] && Inv(End(path)) && End(path).MatcherOf(m).Matching?
    ensures IsPath(longer) && SameStart(path, longer) && Inv(End(longer)) && End(longer).MatcherOf(m) == Waiting
    ensures var Matching(ev, todo) := End(path).MatcherOf(m);
            End(longer).redis == MatchAll(End(path).redis, todo, ev, Written)
    decreases |End(path).MatcherOf(m).todo|
  {
    var s := End(path);
    var Matching(ev, todo) := s.MatcherOf(m);
    hide Inv, IsPath, DoMatch, NeedsWrite, Exec, Observe, Accepts, MatchAll;
    MatchReady(s, m);
    MatchMoves(s, m);
    longer := MatchPath(path, m);
    if todo == [] {
      NothingMatched(s.redis, ev);
    } else {
      MatchAllFirst(s.redis, todo, ev);
      longer := WritesCompose(longer, m);
    }
  }

  lemma NothingMatched(r: Redis, ev: Event)
    ensures MatchAll(r, [], ev, Written) == r
  {
  }

  lemma MatchAllFirst(r: Redis, todo: seq<Pending>, ev: Event)
    requires todo != []
    ensures var next := if NeedsWrite(todo[0], ev) then Exec(r, SetXX(Observe(todo[0], ev))) else r;
            MatchAll(r, todo, ev, Written) == MatchAll(next, todo[1..], ev, Written)
  {
    MatchAllFront(r, todo[0], todo[1..], ev);
    assert [todo[0]] + todo[1..] == todo;
  }

  lemma StartPath(s: Sys, m: (string, string), ev: Event, now: int, ids: seq<PendingId>) returns (path: seq<Sys>)
    requires Inv(s) && Enabled(s, StartEvent(m, ev, now, ids))
    ensures IsPath(path) && path != [] && path[0] == s && Inv(End(path)) && End(path).redis == s.redis
    ensures End(path).MatcherOf(m) == Fetching(ev, ids, [])
  {
    hide Inv, IsRange;
    path := ExtendPath([s], StartEvent(m, ev, now, ids));
  }

  /** A matcher that is not interrupted does what MatchEvent does. */
  lemma MatchComposes(s: Sys, m: (string, string), ev: Event, now: int, ids: seq<PendingId>) returns (path: seq<Sys>)
    requires Inv(s) && Enabled(s, StartEvent(m, ev, now, ids))
    ensures IsPath(path) && path[0] == s && End(path).MatcherOf(m) == Waiting
    ensures End(path).redis == MatchAll(s.redis, GetAll(s.redis.store, ids, Readable), ev, Written)
  {
    path := StartPath(s, m, ev, now, ids);
    hide Inv, IsPath, Enabled, GetAll, MatchAll;
    path := FetchComposes(path, m);
    var ps := GetAll(s.redis.store, ids, Readable);
    assert [] + ps == ps;
    path := WritesCompose(path, m);
  }
}
