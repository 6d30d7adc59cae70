/** Adders, event matchers and sweepers interleaving one Redis command at a time (internal/evaluation/pending.go,
    internal/evaluation/evaluator.go). Keys and whole indexes may also expire at any moment. */
module PendingProtocol {
  import opened Common
  import opened Tracking
  import opened PendingStore

  /* ---------------- processes ---------------- */

  /** A sweeper between two commands of PopExpired; at rest it has no id left to claim. A pending it has read carries
      the events that had landed on it by then. */
  datatype Sweeper =
    | Claiming(ids: seq<PendingId>)
    | Reading(id: PendingId, ids: seq<PendingId>)
    | Unindexing(p: Pending, seen: seq<Event>, ids: seq<PendingId>)
    | Deleting(p: Pending, seen: seq<Event>, ids: seq<PendingId>)

  /** The one writer of a route between two commands of OnDelayEvent. */
  datatype Matcher =
    | Fetching(ev: Event, ids: seq<PendingId>, got: seq<Pending>)
    | Matching(ev: Event, todo: seq<Pending>)
    | Waiting

  /** Where an id is in its life; kept as a history of the run. */
  datatype Phase = Adding | Waits | Claimed(sweeper: nat) | Finalized | Evicted

  /** The server, the processes, and the run's history: pendings created, their phases, the events landed on each,
      and what was finalized, in order, with the events it had seen. */
  datatype Sys = Sys(
    redis: Redis, adders: map<PendingId, nat>, sweepers: map<nat, Sweeper>, matchers: map<(string, string), Matcher>,
    created: map<PendingId, Pending>, phase: map<PendingId, Phase>, landed: map<PendingId, seq<Event>>,
    finalized: seq<(Pending, seq<Event>)>)
  {
    function Sweeping(w: nat): Sweeper { if w in sweepers then sweepers[w] else Claiming([]) }

    function MatcherOf(m: (string, string)): Matcher { if m in matchers then matchers[m] else Waiting }
  }

  const START := Sys(Redis(map[], map[], map[]), map[], map[], map[], map[], map[], map[], [])

  datatype Action =
    | StartAdd(p: Pending)
    | AddCommand(id: PendingId)
    | StartSweep(w: nat, now: int, ids: seq<PendingId>)
    | Claim(w: nat)
    | Read(w: nat)
    | Unindex(w: nat)
    | Delete(w: nat)
    | StartEvent(m: (string, string), ev: Event, now: int, found: seq<PendingId>)
    | Fetch(m: (string, string))
    | Match(m: (string, string))
    | ExpireKey(id: PendingId)
    | DropIndex(key: IndexKey)

  const SWEEP_BATCH_SIZE := 100

  ghost predicate Enabled(s: Sys, a: Action) {
    match a
    case StartAdd(p) => p.id !in s.created && !p.matched && p.observedMax == 0
    case AddCommand(id) => id in s.adders && s.adders[id] < 4 && id in s.created
    case StartSweep(w, now, ids) =>
      s.Sweeping(w) == Claiming([]) && IsRange(s.redis.expiry, None, Some(now), Some(SWEEP_BATCH_SIZE), ids)
    case Claim(w) => s.Sweeping(w).Claiming? && s.Sweeping(w).ids != []
    case Read(w) => s.Sweeping(w).Reading? && s.Sweeping(w).id in s.landed
    case Unindex(w) => s.Sweeping(w).Unindexing?
    case Delete(w) => s.Sweeping(w).Deleting?
    case StartEvent(m, ev, now, ids) =>
      s.MatcherOf(m).Waiting? && m == (ev.key.0, ev.key.1) &&
      IsRange(s.redis.IndexAt(ev.key), Some(now), None, None, ids)
    case Fetch(m) => s.MatcherOf(m).Fetching?
    case Match(m) => s.MatcherOf(m).Matching? && forall p :: p in s.MatcherOf(m).todo ==> p.id in s.landed
    case ExpireKey(_) => true
    case DropIndex(_) => true
  }

  function DoStartAdd(s: Sys, p: Pending): Sys {
    s.(adders := s.adders[p.id := 0], created := s.created[p.id := p], phase := s.phase[p.id := Adding],
       landed := s.landed[p.id := []])
  }

  /** Issues the next command of an add; the last one hands the id to the sweepers. */
  function DoAdd(s: Sys, id: PendingId): Sys
    requires id in s.adders && s.adders[id] < 4 && id in s.created
  {
    var pc := s.adders[id];
    var r := Exec(s.redis, AddProgram(s.created[id])[pc]);
    if pc < 3 then s.(redis := r, adders := s.adders[id := pc + 1])
    else s.(redis := r, adders := s.adders - {id}, phase := s.phase[id := Waits])
  }

  /** ZREM on the expiry set: only the sweeper that removes the id goes on with it. */
  function DoClaim(s: Sys, w: nat): Sys
    requires s.Sweeping(w).Claiming? && s.Sweeping(w).ids != []
  {
    var id := s.Sweeping(w).ids[0];
    var rest := s.Sweeping(w).ids[1..];
    var r := Exec(s.redis, ZRemExpiry(id));
    if id in s.redis.expiry
    then s.(redis := r, sweepers := s.sweepers[w := Reading(id, rest)], phase := s.phase[id := Claimed(w)])
    else s.(redis := r, sweepers := s.sweepers[w := Claiming(rest)])
  }

  /** GET: a key that is gone leaves nothing to finalize. */
  function DoRead(s: Sys, w: nat): Sys
    requires s.Sweeping(w).Reading? && s.Sweeping(w).id in s.landed
  {
    var Reading(id, rest) := s.Sweeping(w);
    if id in s.redis.store
    then s.(sweepers := s.sweepers[w := Unindexing(s.redis.store[id], s.landed[id], rest)])
    else s.(sweepers := s.sweepers[w := Claiming(rest)], phase := s.phase[id := Evicted])
  }

  function DoUnindex(s: Sys, w: nat): Sys
    requires s.Sweeping(w).Unindexing?
  {
    var Unindexing(p, seen, rest) := s.Sweeping(w);
    s.(redis := Exec(s.redis, ZRemIndex(KeyOf(p), p.id)), sweepers := s.sweepers[w := Deleting(p, seen, rest)])
  }

  function DoDelete(s: Sys, w: nat): Sys
    requires s.Sweeping(w).Deleting?
  {
    var Deleting(p, seen, rest) := s.Sweeping(w);
    s.(redis := Exec(s.redis, Del(p.id)), sweepers := s.sweepers[w := Claiming(rest)],
       phase := s.phase[p.id := Finalized], finalized := s.finalized + [(p, seen)])
  }

  /** GET of one indexed id; once all are read, matching begins. */
  function DoFetch(s: Sys, m: (string, string)): Sys
    requires s.MatcherOf(m).Fetching?
  {
    var Fetching(ev, ids, got) := s.MatcherOf(m);
    if ids == [] then s.(matchers := s.matchers[m := Matching(ev, got)])
    else
      var more := if ids[0] in s.redis.store then got + [s.redis.store[ids[0]]] else got;
      s.(matchers := s.matchers[m := Fetching(ev, ids[1..], more)])
  }

  /** The event is applied to one copy; SET XX is issued when the copy changes. An event has landed when the key was
      still there. */
  function DoMatch(s: Sys, m: (string, string)): Sys
    requires s.MatcherOf(m).Matching? && forall p :: p in s.MatcherOf(m).todo ==> p.id in s.landed
  {
    var Matching(ev, todo) := s.MatcherOf(m);
    if todo == [] then s.(matchers := s.matchers[m := Waiting])
    else
      var p := todo[0];
      var r := if NeedsWrite(p, ev) then Exec(s.redis, SetXX(Observe(p, ev))) else s.redis;
      var log := if Accepts(p, ev) && p.id in s.redis.store then s.landed[p.id := s.landed[p.id] + [ev]] else s.landed;
      s.(matchers := s.matchers[m := Matching(ev, todo[1..])], redis := r, landed := log)
  }

  ghost function Do(s: Sys, a: Action): Sys
    requires Enabled(s, a)
  {
    match a
    case StartAdd(p) => DoStartAdd(s, p)
    case AddCommand(id) => DoAdd(s, id)
    case StartSweep(w, now, ids) => s.(sweepers := s.sweepers[w := Claiming(ids)])
    case Claim(w) => DoClaim(s, w)
    case Read(w) => DoRead(s, w)
    case Unindex(w) => DoUnindex(s, w)
    case Delete(w) => DoDelete(s, w)
    case StartEvent(m, ev, now, ids) => s.(matchers := s.matchers[m := Fetching(ev, ids, [])])
    case Fetch(m) => DoFetch(s, m)
    case Match(m) => DoMatch(s, m)
    case ExpireKey(id) => s.(redis := s.redis.(store := s.redis.store - {id}))
    case DropIndex(k) => s.(redis := s.redis.(index := s.redis.index - {k}))
  }

  ghost predicate Step(s: Sys, s': Sys) { exists a :: Enabled(s, a) && s' == Do(s, a) }

  ghost predicate IsRun(run: seq<Sys>) {
    |run| > 0 && run[0] == START && forall i :: 0 <= i < |run| - 1 ==> Step(run[i], run[i + 1])
  }

  /* ---------------- the five phases ---------------- */

  /** The sweeper has claimed the id and not yet let go of it. */
  predicate Holds(sw: Sweeper, id: PendingId) {
    match sw
    case Claiming(_) => false
    case Reading(i, _) => i == id
    case Unindexing(p, _, _) => p.id == id
    case Deleting(p, _, _) => p.id == id
  }

  ghost predicate InFinalized(s: Sys, id: PendingId) { exists k :: 0 <= k < |s.finalized| && s.finalized[k].0.id == id }

  ghost predicate FinalizedOnce(s: Sys) {
    forall j, k :: 0 <= j < k < |s.finalized| ==> s.finalized[j].0.id != s.finalized[k].0.id
  }

  ghost predicate At(s: Sys, id: PendingId, ph: Phase) { id in s.phase && s.phase[id] == ph }

  ghost predicate AddingShown(s: Sys) { forall id :: id in s.adders <==> At(s, id, Adding) }

  ghost predicate WaitingShown(s: Sys) { forall id :: id in s.redis.expiry <==> At(s, id, Waits) }

  ghost predicate ClaimsShown(s: Sys) { forall id, w :: Holds(s.Sweeping(w), id) <==> At(s, id, Claimed(w)) }

  ghost predicate FinalsShown(s: Sys) {
    FinalizedOnce(s) && forall id :: InFinalized(s, id) <==> At(s, id, Finalized)
  }

  /** The phase recorded is the phase the data shows. */
  ghost predicate PhaseInv(s: Sys) {
    && s.phase.Keys == s.created.Keys == s.landed.Keys
    && AddingShown(s) && WaitingShown(s) && ClaimsShown(s) && FinalsShown(s)
  }

  /* ---------------- data ---------------- */

  /** The largest additional delay over a list of events. */
  function MaxAdditional(p: Pending, evs: seq<Event>): nat {
    if evs == [] then 0 else Max(MaxAdditional(p, evs[..|evs| - 1]), Additional(p, evs[|evs| - 1]))
  }

  /** q is the pending created as p after exactly these events. */
  ghost predicate Reflects(p: Pending, evs: seq<Event>, q: Pending) {
    && q == p.(matched := evs != [], observedMax := MaxAdditional(p, evs))
    && forall e :: e in evs ==> Accepts(p, e)
  }

  /** The add pipeline has issued the command that stores the key, respectively the index entry. */
  ghost predicate StoredYet(s: Sys, id: PendingId) { id in s.adders ==> s.adders[id] >= 1 }

  ghost predicate IndexedYet(s: Sys, id: PendingId) { id in s.adders ==> s.adders[id] >= 2 }

  /** What an add starts from, until its first command. */
  ghost predicate CreatedInv(s: Sys) {
    && (forall id :: id in s.adders ==> id in s.created && s.adders[id] < 4)
    && (forall id :: id in s.created ==>
          s.created[id].id == id && !s.created[id].matched && s.created[id].observedMax == 0)
    && (forall id :: id in s.adders && s.adders[id] == 0 ==> id in s.landed && s.landed[id] == [])
  }

  ghost predicate StoredOk(s: Sys, id: PendingId)
    requires id in s.redis.store
  {
    && id in s.created && id in s.landed && StoredYet(s, id) && !At(s, id, Finalized) && !At(s, id, Evicted)
    && Reflects(s.created[id], s.landed[id], s.redis.store[id])
  }

  ghost predicate StoreInv(s: Sys) { forall id :: id in s.redis.store ==> StoredOk(s, id) }

  ghost predicate Unlisted(sw: Sweeper, id: PendingId) { sw.Deleting? && sw.p.id == id }

  ghost predicate IndexedOk(s: Sys, k: IndexKey, id: PendingId) {
    && id in s.created && k == KeyOf(s.created[id]) && IndexedYet(s, id)
    && !At(s, id, Finalized) && forall w :: !Unlisted(s.Sweeping(w), id)
  }

  ghost predicate IndexInv(s: Sys) { forall k, id :: id in s.redis.IndexAt(k) ==> IndexedOk(s, k, id) }

  /* ---------------- copies held by processes ---------------- */

  ghost predicate CopyInv(s: Sys, p: Pending, seen: seq<Event>) {
    p.id in s.created && Reflects(s.created[p.id], seen, p)
  }

  ghost predicate SweeperInv(s: Sys) {
    && (forall w :: s.Sweeping(w).Unindexing? ==> CopyInv(s, s.Sweeping(w).p, s.Sweeping(w).seen))
    && (forall w :: s.Sweeping(w).Deleting? ==> CopyInv(s, s.Sweeping(w).p, s.Sweeping(w).seen))
    && (forall k :: 0 <= k < |s.finalized| ==> CopyInv(s, s.finalized[k].0, s.finalized[k].1))
  }

  /** id was found in the index of the matcher's event: it belongs to the matcher's route and has been stored. */
  ghost predicate Mine(s: Sys, m: (string, string), id: PendingId) {
    id in s.created && (s.created[id].agency, s.created[id].route) == m && IndexedYet(s, id)
  }

  /** A copy is current for as long as its key is there. */
  ghost predicate Current(s: Sys, m: (string, string), p: Pending) {
    Mine(s, m, p.id) && (p.id in s.redis.store ==> s.redis.store[p.id] == p)
  }

  ghost predicate MatcherOk(s: Sys, m: (string, string), mt: Matcher) {
    match mt
    case Waiting => true
    case Fetching(ev, ids, got) =>
      && (forall i :: 0 <= i < |ids| ==> Mine(s, m, ids[i]))
      && (forall i :: 0 <= i < |got| ==> Current(s, m, got[i]))
      && (forall i, j :: 0 <= i < j < |ids| ==> ids[i] != ids[j])
      && (forall i, j :: 0 <= i < j < |got| ==> got[i].id != got[j].id)
      && (forall i, j :: 0 <= i < |got| && 0 <= j < |ids| ==> got[i].id != ids[j])
    case Matching(ev, todo) =>
      && (forall i :: 0 <= i < |todo| ==> Current(s, m, todo[i]))
      && (forall i, j :: 0 <= i < j < |todo| ==> todo[i].id != todo[j].id)
  }

  ghost predicate MatcherInv(s: Sys) { forall m :: MatcherOk(s, m, s.MatcherOf(m)) }

  ghost predicate Inv(s: Sys) {
    PhaseInv(s) && CreatedInv(s) && StoreInv(s) && IndexInv(s) && SweeperInv(s) && MatcherInv(s)
  }

  /* ---------------- what each kind of step leaves alone ---------------- */

  predicate SweepAction(a: Action) { a.StartSweep? || a.Claim? || a.Read? || a.Unindex? || a.Delete? }

  ghost predicate Framed(s: Sys, a: Action, s': Sys) {
    && (!a.StartAdd? ==> s'.created == s.created)
    && (!a.StartAdd? && !a.AddCommand? ==> s'.adders == s.adders)
    && (!a.StartAdd? && !a.Match? ==> s'.landed == s.landed)
    && (!a.Delete? ==> s'.finalized == s.finalized)
    && (!SweepAction(a) ==> s'.sweepers == s.sweepers)
    && (!a.AddCommand? && !a.Unindex? && !a.DropIndex? ==> s'.redis.index == s.redis.index)
    && (!a.StartAdd? && !a.AddCommand? && !SweepAction(a) ==> s'.phase == s.phase)
  }

  lemma ClaimFramed(s: Sys, w: nat)
    requires s.Sweeping(w).Claiming? && s.Sweeping(w).ids != []
    ensures Framed(s, Claim(w), DoClaim(s, w))
  {
  }

  lemma ReadFramed(s: Sys, w: nat)
    requires s.Sweeping(w).Reading? && s.Sweeping(w).id in s.landed
    ensures Framed(s, Read(w), DoRead(s, w))
  {
  }

  lemma UnindexFramed(s: Sys, w: nat)
    requires s.Sweeping(w).Unindexing?
    ensures Framed(s, Unindex(w), DoUnindex(s, w))
  {
  }

  lemma DeleteFramed(s: Sys, w: nat)
    requires s.Sweeping(w).Deleting?
    ensures Framed(s, Delete(w), DoDelete(s, w))
  {
  }

  lemma SweepFramed(s: Sys, a: Action)
    requires Enabled(s, a) && SweepAction(a)
    ensures Framed(s, a, Do(s, a))
  {
    hide IsRange, DoClaim, DoRead, DoUnindex, DoDelete, Framed;
    match a
    case Claim(w) => ClaimFramed(s, w);
    case Read(w) => ReadFramed(s, w);
    case Unindex(w) => UnindexFramed(s, w);
    case Delete(w) => DeleteFramed(s, w);
    case StartSweep(w, now, ids) => StartSweepFramed(s, w, now, ids);
  }

  lemma StartSweepFramed(s: Sys, w: nat, now: int, ids: seq<PendingId>)
    ensures Framed(s, StartSweep(w, now, ids), s.(sweepers := s.sweepers[w := Claiming(ids)]))
  {
  }

  lemma FetchFramed(s: Sys, m: (string, string))
    requires s.MatcherOf(m).Fetching?
    ensures Framed(s, Fetch(m), DoFetch(s, m))
  {
    var s' := DoFetch(s, m);
    assert s' == s.(matchers := s'.matchers);
    hide DoFetch;
  }

  lemma MatchFramed(s: Sys, m: (string, string))
    requires Enabled(s, Match(m))
    ensures Framed(s, Match(m), DoMatch(s, m))
  {
    hide Accepts, Observe;
    var s' := DoMatch(s, m);
    assert s' == s.(matchers := s'.matchers, redis := s'.redis, landed := s'.landed);
    assert s'.redis.index == s.redis.index;
    hide DoMatch;
  }

  lemma StartEventFramed(s: Sys, m: (string, string), ev: Event, now: int, ids: seq<PendingId>)
    ensures Framed(s, StartEvent(m, ev, now, ids), s.(matchers := s.matchers[m := Fetching(ev, ids, [])]))
  {
  }

  lemma MatcherFramed(s: Sys, a: Action)
    requires Enabled(s, a) && (a.StartEvent? || a.Fetch? || a.Match?)
    ensures Framed(s, a, Do(s, a))
  {
    hide IsRange, DoFetch, DoMatch, Framed;
    match a
    case StartEvent(m, ev, now, ids) => StartEventFramed(s, m, ev, now, ids);
    case Fetch(m) => FetchFramed(s, m);
    case Match(m) => MatchFramed(s, m);
  }

  lemma DoFramed(s: Sys, a: Action)
    requires Enabled(s, a)
    ensures Framed(s, a, Do(s, a))
  {
    hide IsRange, Exec, AddProgram;
    if SweepAction(a) {
      hide *;
      SweepFramed(s, a);
    } else if a.StartEvent? || a.Fetch? || a.Match? {
      hide *;
      MatcherFramed(s, a);
    } else {
      hide DoClaim, DoRead, DoUnindex, DoDelete, DoFetch, DoMatch;
    }
  }
}
