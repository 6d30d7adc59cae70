/** The Redis layout of pending predictions and the commands issued on it (internal/evaluation/pending.go). */
module PendingStore {
  import opened Common
  import opened Events
  import opened Schedule
  import opened Tracking

  /** agency, route, station */
  type IndexKey = (string, string, string)

  function KeyOf(p: Pending): IndexKey { (p.agency, p.route, p.station) }

  /** One string key per pending, a match index per (agency, route, station) and the expiry set, both scored by
      expiry time. */
  datatype Redis = Redis(
    store: map<PendingId, Pending>, index: map<IndexKey, map<PendingId, int>>, expiry: map<PendingId, int>)
  {
    function IndexAt(k: IndexKey): map<PendingId, int> { if k in index then index[k] else map[] }
  }

  datatype Command =
    | SetPending(p: Pending)
    | SetXX(p: Pending)
    | ZAddIndex(p: Pending)
    | ExpireIndex(key: IndexKey)
    | ZAddExpiry(p: Pending)
    | ZRemExpiry(id: PendingId)
    | ZRemIndex(key: IndexKey, id: PendingId)
    | Del(id: PendingId)

  /** The effect of one command. A TTL has none of its own: expiry is a separate event of the server. */
  function Exec(r: Redis, c: Command): Redis {
    match c
    case SetPending(p) => r.(store := r.store[p.id := p])
    case SetXX(p) => if p.id in r.store then r.(store := r.store[p.id := p]) else r
    case ZAddIndex(p) => r.(index := r.index[KeyOf(p) := r.IndexAt(KeyOf(p))[p.id := p.expiresAt]])
    case ExpireIndex(_) => r
    case ZAddExpiry(p) => r.(expiry := r.expiry[p.id := p.expiresAt])
    case ZRemExpiry(id) => r.(expiry := r.expiry - {id})
    case ZRemIndex(k, id) => r.(index := r.index[k := r.IndexAt(k) - {id}])
    case Del(id) => r.(store := r.store - {id})
  }

  /** The pipeline of Add: four commands, in this order, with anything allowed in between. */
  function AddProgram(p: Pending): seq<Command> {
    [SetPending(p), ZAddIndex(p), ExpireIndex(KeyOf(p)), ZAddExpiry(p)]
  }

  function ExecAll(r: Redis, cs: seq<Command>): Redis
    decreases |cs|
  {
    if cs == [] then r else ExecAll(Exec(r, cs[0]), cs[1..])
  }

  /** All four commands together. */
  lemma WholeProgram(r: Redis, p: Pending)
    ensures var k := (p.agency, p.route, p.station);
            ExecAll(r, AddProgram(p)) ==
            Redis(r.store[p.id := p],
                  r.index[k := r.IndexAt(k)[p.id := p.expiresAt]],
                  r.expiry[p.id := p.expiresAt])
  {
    var cs := AddProgram(p);
    assert cs[1..] == [cs[1], cs[2], cs[3]] && cs[1..][1..] == [cs[2], cs[3]] && cs[1..][1..][1..] == [cs[3]];
    var r1 := Exec(r, cs[0]);
    var r2 := Exec(r1, cs[1]);
    assert ExecAll(r, cs) == ExecAll(r1, cs[1..]) == ExecAll(r2, [cs[2], cs[3]]);
    assert ExecAll(r2, [cs[2], cs[3]]) == ExecAll(Exec(r2, cs[2]), [cs[3]]) == Exec(Exec(r2, cs[2]), cs[3]);
  }

  /** What one call of Add meets: the present, how many of its commands the server executes, and whether the reply comes
      back. */
  datatype AddFate = AddFate(now: int, executed: nat, acked: bool)

  /** The time to live, ten minutes past the window, is not over. */
  predicate InTime(expiresAt: int, now: int) { expiresAt - now + 600 > 0 }

  predicate AddSucceeds(expiresAt: int, f: AddFate) { InTime(expiresAt, f.now) && f.executed >= 4 && f.acked }

  function AddExecuted(p: Pending, f: AddFate): seq<Command> {
    if InTime(p.expiresAt, f.now) then Take(AddProgram(p), f.executed) else []
  }

  /** A possible answer of ZRANGEBYSCORE: in score order, the lowest scores first when a limit cuts it. */
  ghost predicate IsRange(
    z: map<PendingId, int>, lo: Option<int>, hi: Option<int>, limit: Option<nat>, ids: seq<PendingId>)
  {
    && (forall i, j :: 0 <= i < j < |ids| ==> ids[i] != ids[j])
    && (forall i :: 0 <= i < |ids| ==> ids[i] in z && InRange(z[ids[i]], lo, hi))
    && (forall i, j :: 0 <= i < j < |ids| ==> z[ids[i]] <= z[ids[j]])
    && (limit.Some? ==> |ids| <= limit.value)
    && (forall id :: id in z && InRange(z[id], lo, hi) && id !in ids ==>
                     limit.Some? && |ids| == limit.value && forall i :: 0 <= i < |ids| ==> z[ids[i]] <= z[id])
  }

  predicate InRange(score: int, lo: Option<int>, hi: Option<int>) {
    (lo.Some? ==> lo.value <= score) && (hi.Some? ==> score <= hi.value)
  }

  /** An unlimited range query answers with exactly the ids whose score lies in the range. */
  lemma RangeExactly(z: map<PendingId, int>, lo: Option<int>, hi: Option<int>, ids: seq<PendingId>, id: PendingId)
    requires IsRange(z, lo, hi, None, ids)
    ensures id in ids <==>
            id in z && (lo == None || lo.value <= z[id]) && (hi == None || z[id] <= hi.value)
  {
    if id in ids { var i :| 0 <= i < |ids| && ids[i] == id; }
  }

  /** A limited one never exceeds its limit, and what it leaves out in the range scores no lower. */
  lemma LimitedRange(z: map<PendingId, int>, hi: int, limit: nat, ids: seq<PendingId>, id: PendingId)
    requires IsRange(z, None, Some(hi), Some(limit), ids)
    ensures |ids| <= limit
    ensures id in ids ==> id in z && z[id] <= hi
    ensures id in z && z[id] <= hi && id !in ids ==>
              |ids| == limit && forall x :: x in ids ==> x in z && z[x] <= z[id]
  {
    if id in ids { var i :| 0 <= i < |ids| && ids[i] == id; }
  }

  /** Whatever the scores, the query has an answer. */
  lemma {:induction false} SomeRange(z: map<PendingId, int>, lo: Option<int>, hi: Option<int>, limit: Option<nat>)
    returns (ids: seq<PendingId>)
    ensures IsRange(z, lo, hi, limit, ids)
    decreases |z|
  {
    ids := [];
    if limit != Some(0) && exists id :: id in z && InRange(z[id], lo, hi) {
      var least := LeastInRange(z, lo, hi, z.Keys);
      var rest := SomeRange(z - {least}, lo, hi, if limit.Some? then Some(limit.value - 1) else None);
      ids := [least] + rest;
    }
  }

  lemma {:induction false} LeastInRange(
    z: map<PendingId, int>, lo: Option<int>, hi: Option<int>, among: set<PendingId>) returns (least: PendingId)
    requires among <= z.Keys && exists id :: id in among && InRange(z[id], lo, hi)
    ensures least in among && InRange(z[least], lo, hi)
    ensures forall id :: id in among && InRange(z[id], lo, hi) ==> z[least] <= z[id]
    decreases |among|
  {
    least :| least in among && InRange(z[least], lo, hi);
    var others := among - {least};
    if exists id :: id in others && InRange(z[id], lo, hi) {
      var other := LeastInRange(z, lo, hi, others);
      if z[other] < z[least] { least := other; }
    }
  }

  /* ---------------- matching events ---------------- */

  /** An arrival or departure observation: its index key, time, delay, and its trip's direction when known. */
  datatype Event = Event(key: IndexKey, observedAt: int, delay: int, direction: Option<int>)

  /** What OnDelayEvent makes of a delay event: nothing of a retraction, whose delay of 0 must not falsify a prediction,
      and nothing of an event whose route neither it nor the schedule names. */
  function ToEvent(g: Graph, agency: string, ev: DelayEvent): Option<Event> {
    var route := if ev.route != "" then ev.route else g.RouteOf(ev.trip);
    if (ev.kind != ArrivalDelay && ev.kind != DepartureDelay) || route == "" then None
    else Some(Event((agency, route, g.Parent(ev.stop)), ev.observedAt, ev.delay, g.KnownDirection(ev.trip)))
  }

  /** In the prediction's window and not known to run the other way. */
  predicate Accepts(p: Pending, ev: Event) {
    && p.createdAt <= ev.observedAt <= p.expiresAt
    && !(p.direction >= 0 && ev.direction.Some? && ev.direction.value != p.direction)
  }

  /** The delay beyond what was already there when the prediction was made. */
  function Additional(p: Pending, ev: Event): nat { Max(0, ev.delay - p.baseline) }

  predicate NeedsWrite(p: Pending, ev: Event) {
    Accepts(p, ev) && (!p.matched || Additional(p, ev) > p.observedMax)
  }

  function Observe(p: Pending, ev: Event): Pending {
    if NeedsWrite(p, ev) then p.(matched := true, observedMax := Additional(p, ev)) else p
  }

  /* ---------------- the store as a sequential object ---------------- */

  /** Reads of the listed ids; ids whose key is gone, or whose read fails, are skipped. */
  function GetAll(store: map<PendingId, Pending>, ids: seq<PendingId>, readable: PendingId -> bool): seq<Pending> {
    if ids == [] then []
    else
      var before := GetAll(store, ids[..|ids| - 1], readable);
      var id := ids[|ids| - 1];
      if id in store && readable(id) then before + [store[id]] else before
  }

  /** How the commands about one id fare during a sweep. */
  datatype PopFaults = PopFaults(claim: Reply, read: bool, unindex: Reply, del: Reply)

  function Issue(r: Redis, c: Command, reply: Reply): Redis { if reply.Lands() then Exec(r, c) else r }

  /** Claim, read, unindex and delete one id. An error up to the read gives the id up; later ones go unnoticed. */
  function PopOne(r: Redis, id: PendingId, f: PopFaults): (Redis, seq<Pending>) {
    var claimed := Issue(r, ZRemExpiry(id), f.claim);
    if id !in r.expiry || !f.claim.Applied? || !f.read || id !in claimed.store then (claimed, [])
    else
      var p := claimed.store[id];
      (Issue(Issue(claimed, ZRemIndex(KeyOf(p), id), f.unindex), Del(id), f.del), [p])
  }

  function PopAll(r: Redis, ids: seq<PendingId>, faults: PendingId -> PopFaults): (Redis, seq<Pending>) {
    if ids == [] then (r, [])
    else
      var (r1, out) := PopAll(r, ids[..|ids| - 1], faults);
      var (r2, last) := PopOne(r1, ids[|ids| - 1], faults(ids[|ids| - 1]));
      (r2, out + last)
  }

  /** The effect of one event on the pendings read for it. */
  function MatchAll(r: Redis, ps: seq<Pending>, ev: Event, writes: PendingId -> Reply): Redis {
    if ps == [] then r
    else
      var before := MatchAll(r, ps[..|ps| - 1], ev, writes);
      var p := ps[|ps| - 1];
      if NeedsWrite(p, ev) then Issue(before, SetXX(Observe(p, ev)), writes(p.id)) else before
  }

  /** Every write the event calls for is acknowledged. */
  predicate AllWritten(ps: seq<Pending>, ev: Event, writes: PendingId -> Reply) {
    forall i :: 0 <= i < |ps| && NeedsWrite(ps[i], ev) ==> writes(ps[i].id).Applied?
  }

  class Store {
    var redis: Redis

    constructor ()
      ensures redis == Redis(map[], map[], map[])
    {
      redis := Redis(map[], map[], map[]);
    }

    /** Refuses a pending whose time to live is over, otherwise runs the pipeline, of which the server executes the
        first few commands, or all, and may lose the reply. */
    method Add(p: Pending, f: AddFate) returns (ok: bool)
      modifies this
      ensures ok <==> AddSucceeds(p.expiresAt, f)
      ensures ok <==> f.now < p.expiresAt + 600 && f.executed >= 4 && f.acked
      ensures redis == ExecAll(old(redis), AddExecuted(p, f))
      ensures f.now >= p.expiresAt + 600 ==> redis == old(redis)
      ensures ok ==>
                var k := (p.agency, p.route, p.station);
                redis == Redis(
                  old(redis).store[p.id := p],
                  old(redis).index[k := old(redis).IndexAt(k)[p.id := p.expiresAt]],
                  old(redis).expiry[p.id := p.expiresAt])
    {
      if p.expiresAt - f.now + 600 <= 0 { return false; }
      var program := Take(AddProgram(p), f.executed);
      WholeProgram(old(redis), p);
      var i := 0;
      while i < |program|
        invariant 0 <= i <= |program|
        invariant ExecAll(redis, program[i..]) == ExecAll(old(redis), program)
      {
        assert program[i..][1..] == program[i + 1..];
        redis := Exec(redis, program[i]);
        i := i + 1;
      }
      ok := f.executed >= 4 && f.acked;
    }

    /** ids is the server's answer to the range query, when it gives one. */
    method FindActive(key: IndexKey, now: int, ids: seq<PendingId>, up: bool, readable: PendingId -> bool)
      returns (ok: bool, out: seq<Pending>)
      requires IsRange(redis.IndexAt(key), Some(now), None, None, ids)
      ensures ok == up && out == if up then GetAll(redis.store, ids, readable) else []
    {
      out := [];
      if !up { return false, out; }
      for i := 0 to |ids|
        invariant out == GetAll(redis.store, ids[..i], readable)
      {
        assert ids[..i + 1][..i] == ids[..i];
        if ids[i] in redis.store && readable(ids[i]) { out := out + [redis.store[ids[i]]]; }
      }
      assert ids[..|ids|] == ids;
      ok := true;
    }

    /** SET XX: a pending that is gone is not recreated, and that is no error. */
    method Update(p: Pending, reply: Reply) returns (ok: bool)
      modifies this
      ensures redis == Issue(old(redis), SetXX(p), reply) && redis.store.Keys == old(redis.store.Keys)
      ensures ok == reply.Applied?
    {
      redis := Issue(redis, SetXX(p), reply);
      ok := reply.Applied?;
    }

    method PopExpired(now: int, limit: nat, ids: seq<PendingId>, up: bool, faults: PendingId -> PopFaults)
      returns (ok: bool, out: seq<Pending>)
      requires IsRange(redis.expiry, None, Some(now), Some(limit), ids)
      modifies this
      ensures ok == up
      ensures |out| <= limit && (!up ==> out == [])
      ensures (redis, out) == if up then PopAll(old(redis), ids, faults) else (old(redis), [])
    {
      out := [];
      if !up { return false, out; }
      for i := 0 to |ids|
        invariant (redis, out) == PopAll(old(redis), ids[..i], faults) && |out| <= i
      {
        assert ids[..i + 1][..i] == ids[..i] && out + [] == out;
        var id := ids[i];
        var f := faults(id);
        var removed := id in redis.expiry;
        redis := Issue(redis, ZRemExpiry(id), f.claim);
        if !f.claim.Applied? || !removed { continue; }
        if !f.read || id !in redis.store { continue; }
        var p := redis.store[id];
        redis := Issue(redis, ZRemIndex(KeyOf(p), id), f.unindex);
        redis := Issue(redis, Del(id), f.del);
        out := out + [p];
      }
      assert ids[..|ids|] == ids;
      ok := true;
    }

    /** The event against one pending read before. */
    method MatchOne(p: Pending, ev: Event, reply: Reply) returns (ok: bool)
      modifies this
      ensures redis == if NeedsWrite(p, ev) then Issue(old(redis), SetXX(Observe(p, ev)), reply) else old(redis)
      ensures ok <==> NeedsWrite(p, ev) ==> reply.Applied?
    {
      if ev.observedAt < p.createdAt || ev.observedAt > p.expiresAt { return true; }
      if p.direction >= 0 && ev.direction.Some? && ev.direction.value != p.direction { return true; }
      var additional := ev.delay - p.baseline;
      if additional < 0 { additional := 0; }
      ok := true;
      if !p.matched || additional > p.observedMax {
        ok := Update(p.(matched := true, observedMax := additional), reply);
      }
    }

    /** Matches one event: every pending is read before the first is written, and a failing write does not stop the
        rest. */
    method MatchEvent(
      ev: Event, now: int, ids: seq<PendingId>, up: bool, readable: PendingId -> bool, writes: PendingId -> Reply)
      returns (ok: bool)
      requires IsRange(redis.IndexAt(ev.key), Some(now), None, None, ids)
      modifies this
      ensures redis ==
              if up then MatchAll(old(redis), GetAll(old(redis.store), ids, readable), ev, writes) else old(redis)
      ensures ok <==> up && AllWritten(GetAll(old(redis.store), ids, readable), ev, writes)
    {
      var pendings;
      ok, pendings := FindActive(ev.key, now, ids, up, readable);
      if !ok { return; }
      for i := 0 to |pendings|
        invariant redis == MatchAll(old(redis), pendings[..i], ev, writes)
        invariant ok <==> AllWritten(pendings[..i], ev, writes)
      {
        assert pendings[..i + 1][..i] == pendings[..i];
        hide AllWritten, GetAll, NeedsWrite, Observe, Issue;
        var written := MatchOne(pendings[i], ev, writes(pendings[i].id));
        if !written { ok := false; }
      }
      assert pendings[..|pendings|] == pendings;
    }

    /** Filters the event and matches what is left of it: of an arrival or departure on a named route, every pending
        indexed for the route at the event's station whose window holds the observation, not known to run the other
        way, and unmatched or less delayed so far, takes the delay beyond its baseline; nothing else changes. */
    method OnDelayEvent(
      g: Graph, agency: string, ev: DelayEvent, now: int, ids: seq<PendingId>, up: bool, readable: PendingId -> bool,
      writes: PendingId -> Reply)
      returns (ok: bool)
      requires var route := if ev.route == "" then g.RouteOf(ev.trip) else ev.route;
               IsRange(redis.IndexAt((agency, route, g.Parent(ev.stop))), Some(now), None, None, ids)
      modifies this
      ensures redis.index == old(redis).index && redis.expiry == old(redis).expiry
      ensures redis.store.Keys == old(redis).store.Keys
      ensures KeyedById(old(redis).store) ==>
                forall id :: id in old(redis).store ==>
                  var p := old(redis).store[id];
                  redis.store[id] ==
                  if up && id in ids && readable(id) && writes(id).Lands() && Raises(g, ev, p)
                  then p.(matched := true, observedMax := Beyond(ev.delay, p.baseline)) else p
      ensures KeyedById(old(redis).store) ==>
                var before := old(redis).store;
                ok <==>
                || !Matchable(g, ev)
                || (up && forall id :: id in ids && id in before && readable(id) && Raises(g, ev, before[id]) ==>
                            writes(id) == Applied)
      ensures var e := ToEvent(g, agency, ev);
              && (e.None? ==> ok && redis == old(redis))
              && (e.Some? ==>
                    var ps := GetAll(old(redis.store), ids, readable);
                    && redis == (if up then MatchAll(old(redis), ps, e.value, writes) else old(redis))
                    && (ok <==> up && AllWritten(ps, e.value, writes)))
    {
      if ev.kind != ArrivalDelay && ev.kind != DepartureDelay { return true; }
      var route := ev.route;
      if route == "" { route := g.RouteOf(ev.trip); }
      if route == "" { return true; }
      var station := g.Parent(ev.stop);
      var e := Event((agency, route, station), ev.observedAt, ev.delay, g.KnownDirection(ev.trip));
      ok := MatchEvent(e, now, ids, up, readable, writes);
      EventEffects(old(redis), ids, readable, e, writes);
      ghost var before := old(redis).store;
      forall id | id in before
        ensures Observe(before[id], e) ==
                if Raises(g, ev, before[id])
                then before[id].(matched := true, observedMax := Beyond(ev.delay, before[id].baseline)) else before[id]
      {
        RaisesExactly(g, agency, ev, before[id]);
      }
      if KeyedById(before) { WritesExactly(before, ids, readable, g, agency, ev, e, writes); }
      hide MatchAll, GetAll, AllWritten, Observe, IsRange, Raises;
    }
  }

  /* ---------------- what an event does to each stored pending ---------------- */

  ghost predicate KeyedById(store: map<PendingId, Pending>) { forall x :: x in store ==> store[x].id == x }

  ghost predicate Apart(ps: seq<Pending>) { forall i, j :: 0 <= i < j < |ps| ==> ps[i].id != ps[j].id }

  /** What is read of distinct ids is what is stored under them, each once. */
  lemma {:induction false} GetAllMeaning(
    store: map<PendingId, Pending>, ids: seq<PendingId>, readable: PendingId -> bool)
    requires KeyedById(store) && forall i, j :: 0 <= i < j < |ids| ==> ids[i] != ids[j]
    ensures var ps := GetAll(store, ids, readable);
            && Apart(ps)
            && forall p :: p in ps <==> p.id in ids && p.id in store && readable(p.id) && p == store[p.id]
  {
    if ids != [] {
      var front, id := ids[..|ids| - 1], ids[|ids| - 1];
      GetAllMeaning(store, front, readable);
      assert ids == front + [id] && id !in front;
      hide GetAll;
      assert GetAll(store, ids, readable) ==
             GetAll(store, front, readable) + if id in store && readable(id) then [store[id]] else [] by {
        GetAllLast(store, ids, readable);
      }
    }
  }

  lemma GetAllLast(store: map<PendingId, Pending>, ids: seq<PendingId>, readable: PendingId -> bool)
    requires ids != []
    ensures var front, id := ids[..|ids| - 1], ids[|ids| - 1];
            GetAll(store, ids, readable) ==
            GetAll(store, front, readable) + if id in store && readable(id) then [store[id]] else []
  {
  }

  lemma {:induction false} MatchAllFrame(r: Redis, ps: seq<Pending>, ev: Event, writes: PendingId -> Reply)
    ensures var r' := MatchAll(r, ps, ev, writes); r' == r.(store := r'.store) && r'.store.Keys == r.store.Keys
  {
    if ps != [] { MatchAllFrame(r, ps[..|ps| - 1], ev, writes); }
  }

  /** One write leaves every other id alone. */
  lemma WriteEffect(r: Redis, p: Pending, ev: Event, reply: Reply, id: PendingId)
    requires id in r.store
    ensures var r' := if NeedsWrite(p, ev) then Issue(r, SetXX(Observe(p, ev)), reply) else r;
            && id in r'.store
            && r'.store[id] == if NeedsWrite(p, ev) && reply.Lands() && p.id == id then Observe(p, ev) else r.store[id]
  {
    assert Observe(p, ev).id == p.id;
    hide NeedsWrite, Observe;
  }

  lemma {:induction false} MatchAllOther(
    r: Redis, ps: seq<Pending>, ev: Event, writes: PendingId -> Reply, id: PendingId)
    requires id in r.store && forall i :: 0 <= i < |ps| ==> ps[i].id != id
    ensures var r' := MatchAll(r, ps, ev, writes); id in r'.store && r'.store[id] == r.store[id]
  {
    if ps != [] {
      var front, p := ps[..|ps| - 1], ps[|ps| - 1];
      MatchAllOther(r, front, ev, writes, id);
      WriteEffect(MatchAll(r, front, ev, writes), p, ev, writes(p.id), id);
      hide NeedsWrite, Observe, Issue;
    }
  }

  /** Each copy is written back under its own id, when the event calls for it and the write lands. */
  lemma {:induction false} MatchAllMeaning(r: Redis, ps: seq<Pending>, ev: Event, writes: PendingId -> Reply, i: nat)
    requires Apart(ps) && i < |ps| && ps[i].id in r.store
    ensures var r' := MatchAll(r, ps, ev, writes);
            var id := ps[i].id;
            && id in r'.store
            && r'.store[id] == if NeedsWrite(ps[i], ev) && writes(id).Lands() then Observe(ps[i], ev) else r.store[id]
  {
    var n := |ps| - 1;
    var front, p := ps[..n], ps[n];
    if i < n { MatchAllMeaning(r, front, ev, writes, i); } else { MatchAllOther(r, front, ev, writes, p.id); }
    WriteEffect(MatchAll(r, front, ev, writes), p, ev, writes(p.id), ps[i].id);
    hide NeedsWrite, Observe, Issue;
  }

  /** An arrival or departure on a route that the event or the schedule names. */
  ghost predicate Matchable(g: Graph, ev: DelayEvent) {
    (ev.kind == ArrivalDelay || ev.kind == DepartureDelay) && (ev.route != "" || g.RouteOf(ev.trip) != "")
  }

  /** The event as received is matchable, in the pending's window, not known to run the other way, and the first
      observation or a greater one. */
  ghost predicate Raises(g: Graph, ev: DelayEvent, p: Pending) {
    && Matchable(g, ev)
    && p.createdAt <= ev.observedAt && ev.observedAt <= p.expiresAt
    && (p.direction < 0 || ev.trip !in g.tripDirection || g.tripDirection[ev.trip] == p.direction)
    && (!p.matched || Beyond(ev.delay, p.baseline) > p.observedMax)
  }

  /** How much later than the baseline. */
  function Beyond(delay: int, baseline: int): int { if delay > baseline then delay - baseline else 0 }

  /** A pending is written exactly when the event is in its window, not known to run the other way, and the first
      observation or a greater one; it then holds the delay beyond its baseline and is otherwise as it was. */
  lemma WrittenExactly(p: Pending, ev: Event)
    ensures NeedsWrite(p, ev) <==>
            && p.createdAt <= ev.observedAt && ev.observedAt <= p.expiresAt
            && (p.direction < 0 || ev.direction == None || ev.direction == Some(p.direction))
            && (!p.matched || Beyond(ev.delay, p.baseline) > p.observedMax)
    ensures var q := Observe(p, ev);
            && (NeedsWrite(p, ev) ==> q == p.(matched := true, observedMax := Beyond(ev.delay, p.baseline)))
            && (!NeedsWrite(p, ev) ==> q == p)
  {
  }

  lemma RaisesExactly(g: Graph, agency: string, ev: DelayEvent, p: Pending)
    ensures var e := ToEvent(g, agency, ev);
            && (Raises(g, ev, p) <==> e.Some? && NeedsWrite(p, e.value))
            && (Raises(g, ev, p) ==>
                  Observe(p, e.value) == p.(matched := true, observedMax := Beyond(ev.delay, p.baseline)))
  {
  }

  lemma WritesExactly(
    store: map<PendingId, Pending>, ids: seq<PendingId>, readable: PendingId -> bool, g: Graph, agency: string,
    ev: DelayEvent, e: Event, writes: PendingId -> Reply)
    requires KeyedById(store) && (forall i, j :: 0 <= i < j < |ids| ==> ids[i] != ids[j])
    requires ToEvent(g, agency, ev) == Some(e)
    ensures AllWritten(GetAll(store, ids, readable), e, writes) <==>
            forall id :: id in ids && id in store && readable(id) && Raises(g, ev, store[id]) ==> writes(id) == Applied
  {
    GetAllMeaning(store, ids, readable);
    var ps := GetAll(store, ids, readable);
    forall p ensures Raises(g, ev, p) <==> NeedsWrite(p, e) { RaisesExactly(g, agency, ev, p); }
    hide GetAll, Raises, NeedsWrite, ToEvent;
    assert AllWritten(ps, e, writes) <==> forall p :: p in ps && NeedsWrite(p, e) ==> writes(p.id).Applied?;
    forall id | id in ids && id in store && readable(id) ensures store[id] in ps && store[id].id == id {}
  }

  lemma EventEffects(
    r: Redis, ids: seq<PendingId>, readable: PendingId -> bool, ev: Event, writes: PendingId -> Reply)
    requires forall i, j :: 0 <= i < j < |ids| ==> ids[i] != ids[j]
    ensures var r' := MatchAll(r, GetAll(r.store, ids, readable), ev, writes);
            && r' == r.(store := r'.store) && r'.store.Keys == r.store.Keys
            && (KeyedById(r.store) ==>
                  forall id :: id in r.store ==>
                    var p := r.store[id];
                    r'.store[id] == if id in ids && readable(id) && writes(id).Lands() then Observe(p, ev) else p)
  {
    MatchAllFrame(r, GetAll(r.store, ids, readable), ev, writes);
    if KeyedById(r.store) {
      var ps := GetAll(r.store, ids, readable);
      GetAllMeaning(r.store, ids, readable);
      hide GetAll, MatchAll, NeedsWrite;
      var r' := MatchAll(r, ps, ev, writes);
      forall id | id in r.store
        ensures r'.store[id] ==
                if id in ids && readable(id) && writes(id).Lands() then Observe(r.store[id], ev) else r.store[id]
      {
        if r.store[id] in ps {
          var i :| 0 <= i < |ps| && ps[i] == r.store[id];
          MatchAllMeaning(r, ps, ev, writes, i);
        } else {
          assert forall i :: 0 <= i < |ps| ==> ps[i] in ps;
          MatchAllOther(r, ps, ev, writes, id);
        }
      }
    }
  }

  /* ---------------- whatever fails, nothing is handed out twice ---------------- */

  lemma PopOneClaims(r: Redis, id: PendingId, f: PopFaults)
    requires forall x :: x in r.store ==> r.store[x].id == x
    ensures var (r', out) := PopOne(r, id, f);
            && (forall x :: x in r'.expiry <==> x in r.expiry && (x == id ==> !f.claim.Lands()))
            && (forall x :: x in r'.store ==> x in r.store && r'.store[x] == r.store[x])
            && |out| <= 1 && (out != [] ==> out[0].id == id && id in r.expiry && id !in r'.expiry)
  {
  }

  /** What becomes of one id of a sweep. It is handed out, as it was stored, exactly when it was there to be claimed,
      the claim was acknowledged and the read found its key; then its key and its index entry go as far as their
      commands land. Nothing else is removed but claimed expiry entries. */
  lemma {:induction false} PopAllExactly(r: Redis, ids: seq<PendingId>, faults: PendingId -> PopFaults, id: PendingId)
    requires KeyedById(r.store) && forall i, j :: 0 <= i < j < |ids| ==> ids[i] != ids[j]
    ensures var (r', out) := PopAll(r, ids, faults);
            var f := faults(id);
            var handed := id in ids && id in r.expiry && f.claim == Applied && f.read && id in r.store;
            && (handed ==> r.store[id] in out)
            && (forall p :: p in out && p.id == id ==> handed && p == r.store[id])
            && (id in r'.store <==> id in r.store && !(handed && f.del.Lands()))
            && (id in r'.store ==> r'.store[id] == r.store[id])
            && (forall k :: id in r'.IndexAt(k) <==>
                  id in r.IndexAt(k) &&
                  !(handed && f.unindex.Lands() && k == (r.store[id].agency, r.store[id].route, r.store[id].station)))
            && (id in r'.expiry <==> id in r.expiry && !(id in ids && f.claim.Lands()))
            && KeyedById(r'.store)
  {
    if ids != [] {
      var front, last := ids[..|ids| - 1], ids[|ids| - 1];
      PopAllExactly(r, front, faults, id);
      PopAllExactly(r, front, faults, last);
      var (r1, out) := PopAll(r, front, faults);
      assert ids == front + [last] && last !in front;
      PopOneExactly(r1, last, faults(last), id);
      hide PopOne, KeyedById;
    }
  }

  lemma PopOneExactly(r: Redis, last: PendingId, f: PopFaults, id: PendingId)
    requires KeyedById(r.store)
    ensures var (r', out) := PopOne(r, last, f);
            var handed := last in r.expiry && f.claim == Applied && f.read && last in r.store;
            && out == (if handed then [r.store[last]] else []) && (last in r.store ==> r.store[last].id == last)
            && (id in r'.store <==> id in r.store && !(id == last && handed && f.del.Lands()))
            && (id in r'.store ==> r'.store[id] == r.store[id])
            && (forall k :: id in r'.IndexAt(k) <==>
                  id in r.IndexAt(k) &&
                  !(id == last && handed && f.unindex.Lands() &&
                    k == (r.store[id].agency, r.store[id].route, r.store[id].station)))
            && (id in r'.expiry <==> id in r.expiry && !(id == last && f.claim.Lands()))
            && KeyedById(r'.store)
  {
  }

  /** With any failing commands: a sweep hands out pendings it has claimed, each once, and none of them can be claimed
      again; it gives up nothing it has not tried to claim. */
  lemma {:induction false} PopAllClaims(r: Redis, ids: seq<PendingId>, faults: PendingId -> PopFaults)
    requires forall x :: x in r.store ==> r.store[x].id == x
    ensures var (r', out) := PopAll(r, ids, faults);
            && (forall x :: x in r'.store ==> x in r.store && r'.store[x] == r.store[x])
            && (forall x :: x in r'.expiry <==> x in r.expiry && !(x in ids && faults(x).claim.Lands()))
            && (forall i :: 0 <= i < |out| ==> out[i].id in r.expiry && out[i].id in ids && out[i].id !in r'.expiry)
            && (forall i, j :: 0 <= i < j < |out| ==> out[i].id != out[j].id)
  {
    if ids != [] {
      var front, id := ids[..|ids| - 1], ids[|ids| - 1];
      PopAllClaims(r, front, faults);
      var (r1, out) := PopAll(r, front, faults);
      PopOneClaims(r1, id, faults(id));
      assert ids == front + [id];
      hide PopOne;
    }
  }
}
