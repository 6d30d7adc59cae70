/** Several sessions matching events with one stored pending at once, as when a session that lost its partition lingers
    beside the one that took it over (internal/evaluation/evaluator.go). */
module PendingSessions {
  import opened Common
  import opened Tracking
  import opened PendingStore

  /** What a session does to the pending: the GET that takes a copy for an event, and the SET XX that writes it back. */
  datatype Op = Get(session: nat) | Put(session: nat)

  /** The pending on the server, and the copy each session holds with the event it is for. */
  datatype State = State(stored: Pending, copies: map<nat, (Pending, Event)>)

  function Do(s: State, op: Op, ev: Event): State {
    match op
    case Get(m) => s.(copies := s.copies[m := (s.stored, ev)])
    case Put(m) =>
      if m !in s.copies then s
      else
        var (q, e) := s.copies[m];
        State(if NeedsWrite(q, e) then Observe(q, e) else s.stored, s.copies - {m})
  }

  /** The state after a schedule; the i-th step, when it is a GET, is for the i-th event. */
  function After(p: Pending, ops: seq<Op>, evs: nat -> Event): State {
    if ops == [] then State(p, map[]) else Do(After(p, ops[..|ops| - 1], evs), ops[|ops| - 1], evs(|ops| - 1))
  }

  /** No step lowers the stored maximum. */
  ghost predicate NeverFalls(p: Pending, ops: seq<Op>, evs: nat -> Event) {
    forall i :: 0 <= i < |ops| ==> RisesAt(p, ops, evs, i)
  }

  predicate RisesAt(p: Pending, ops: seq<Op>, evs: nat -> Event, i: nat)
    requires i < |ops|
  {
    After(p, ops[..i], evs).stored.observedMax <= After(p, ops[..i + 1], evs).stored.observedMax
  }

  /** The sessions that hold a copy. */
  function Holding(ops: seq<Op>): set<nat> {
    if ops == [] then {}
    else
      var before := Holding(ops[..|ops| - 1]);
      match ops[|ops| - 1]
      case Get(m) => before + {m}
      case Put(m) => before - {m}
  }

  /** The sessions whose copy another one has written past. */
  function Stale(ops: seq<Op>): set<nat> {
    if ops == [] then {}
    else
      var front := ops[..|ops| - 1];
      match ops[|ops| - 1]
      case Get(m) => Stale(front) - {m}
      case Put(m) => if m in Holding(front) then Holding(front) - {m} else Stale(front)
  }

  /** No session writes back a copy that another one has written past since. */
  predicate Serial(ops: seq<Op>) {
    ops == [] ||
    (Serial(ops[..|ops| - 1]) &&
     (ops[|ops| - 1].Put? ==> ops[|ops| - 1].session !in Stale(ops[..|ops| - 1])))
  }

  /* ---------------- serial schedules ---------------- */

  /** Copies are held by the sessions that hold one, and those not written past are current. */
  ghost predicate Current(ops: seq<Op>, s: State) {
    && s.copies.Keys == Holding(ops)
    && (forall m :: m in s.copies && m !in Stale(ops) ==> s.copies[m].0 == s.stored)
    && (!s.stored.matched ==> s.stored.observedMax == 0)
    && (forall m :: m in s.copies && !s.copies[m].0.matched ==> s.copies[m].0.observedMax == 0)
  }

  lemma CurrentStep(ops: seq<Op>, s: State, op: Op, ev: Event)
    requires Current(ops, s)
    ensures Current(ops + [op], Do(s, op, ev))
    ensures !(op.Put? && op.session in Stale(ops)) ==> s.stored.observedMax <= Do(s, op, ev).stored.observedMax
  {
    var more := ops + [op];
    assert more[..|more| - 1] == ops;
    StaleHolds(ops);
    hide Accepts, Additional;
  }

  lemma {:induction false} StaleHolds(ops: seq<Op>)
    ensures Stale(ops) <= Holding(ops)
  {
    if ops != [] { StaleHolds(ops[..|ops| - 1]); }
  }

  lemma {:induction false} CurrentHolds(p: Pending, ops: seq<Op>, evs: nat -> Event)
    requires !p.matched && p.observedMax == 0
    ensures Current(ops, After(p, ops, evs))
  {
    if ops != [] {
      var front, op := ops[..|ops| - 1], ops[|ops| - 1];
      CurrentHolds(p, front, evs);
      CurrentStep(front, After(p, front, evs), op, evs(|front|));
      assert front + [op] == ops;
    }
  }

  lemma {:induction false} SerialPrefix(ops: seq<Op>, n: nat)
    requires n <= |ops| && Serial(ops)
    ensures Serial(ops[..n])
  {
    if n == |ops| {
      assert ops[..n] == ops;
    } else {
      SerialPrefix(ops[..|ops| - 1], n);
      assert ops[..|ops| - 1][..n] == ops[..n];
    }
  }

  lemma SerialNeverFalls(p: Pending, ops: seq<Op>, evs: nat -> Event)
    requires !p.matched && p.observedMax == 0 && Serial(ops)
    ensures NeverFalls(p, ops, evs)
  {
    forall i | 0 <= i < |ops| ensures RisesAt(p, ops, evs, i) {
      var front, next := ops[..i], ops[..i + 1];
      SerialPrefix(ops, i + 1);
      CurrentHolds(p, front, evs);
      assert next[..i] == front && next[i] == ops[i];
      CurrentStep(front, After(p, front, evs), ops[i], evs(i));
    }
  }

  /** A session alone, as a partition has it while no other lingers, is always serial. */
  lemma {:induction false} OneSessionIsSerial(ops: seq<Op>, m: nat)
    requires forall i :: 0 <= i < |ops| ==> ops[i].session == m
    ensures Serial(ops) && Stale(ops) == {} && Holding(ops) <= {m}
  {
    if ops != [] { OneSessionIsSerial(ops[..|ops| - 1], m); }
  }

  /* ---------------- schedules that are not serial ---------------- */

  /** The copy a session holds goes back to its last GET. */
  lemma {:induction false} LastGet(ops: seq<Op>, m: nat) returns (g: nat)
    requires m in Holding(ops)
    ensures g < |ops| && ops[g] == Get(m) && Untouched(ops, g, |ops|, m)
  {
    var n := |ops| - 1;
    if ops[n] == Get(m) {
      g := n;
    } else {
      g := LastGet(ops[..n], m);
      forall x | g < x < |ops| ensures ops[x].session != m {
        if x < n { assert ops[..n][x].session != m; }
      }
    }
  }

  /** The session does nothing strictly between the two steps. */
  predicate Untouched(ops: seq<Op>, from: nat, to: nat, m: nat)
    requires to <= |ops|
  {
    forall x :: from < x < to ==> ops[x].session != m
  }

  /** A copy was written past by another session's PUT, at which both held one. */
  lemma {:induction false} WrittenPast(ops: seq<Op>, m: nat) returns (i: nat, other: nat)
    requires m in Stale(ops)
    ensures i < |ops| && ops[i] == Put(other) && other != m
    ensures other in Holding(ops[..i]) && m in Holding(ops[..i]) && Untouched(ops, i, |ops|, m)
  {
    var n := |ops| - 1;
    var front := ops[..n];
    StaleHolds(front);
    if ops[n].Put? && ops[n].session in Holding(front) {
      i, other := n, ops[n].session;
    } else {
      i, other := WrittenPast(front, m);
      assert front[..i] == ops[..i];
      forall x | i < x < |ops| ensures ops[x].session != m {
        if x < n { assert front[x].session != m; }
      }
    }
  }

  /** An event in the prediction's window with the given additional delay, and one outside it. */
  function Inside(p: Pending, additional: nat): Event {
    Event(KeyOf(p), p.createdAt, p.baseline + additional, None)
  }

  function Outside(p: Pending): Event { Event(KeyOf(p), p.expiresAt + 1, 0, None) }

  /** Two sessions hold copies of the same pending at the i-th step, where one writes; the other writes at the j-th. */
  datatype Clash = Clash(first: nat, second: nat, g1: nat, g2: nat, i: nat, j: nat)

  ghost predicate IsClash(ops: seq<Op>, c: Clash) {
    && c.first != c.second && c.g1 < c.i < c.j < |ops| && c.g2 < c.i
    && ops[c.g1] == Get(c.first) && ops[c.i] == Put(c.first) && Untouched(ops, c.g1, c.i, c.first)
    && ops[c.g2] == Get(c.second) && ops[c.j] == Put(c.second) && Untouched(ops, c.g2, c.j, c.second)
  }

  /** The first writer's event is the greater one; all others come too late to count. */
  function ClashEvents(p: Pending, c: Clash): nat -> Event {
    x => if x == c.g1 then Inside(p, 2) else if x == c.g2 then Inside(p, 1) else Outside(p)
  }

  /** Up to the second write: what is stored, and which copies could change it. */
  ghost predicate ClashInv(p: Pending, c: Clash, x: nat, s: State) {
    && s.stored == (if x <= c.i then p else Observe(p, Inside(p, 2)))
    && (c.g1 < x <= c.i ==> c.first in s.copies && s.copies[c.first] == (p, Inside(p, 2)))
    && (c.g2 < x <= c.j ==> c.second in s.copies && s.copies[c.second] == (p, Inside(p, 1)))
    && forall m :: m in s.copies ==>
         || (m == c.first && c.g1 < x <= c.i) || (m == c.second && c.g2 < x <= c.j)
         || !NeedsWrite(s.copies[m].0, s.copies[m].1)
  }

  lemma ClashStep(p: Pending, ops: seq<Op>, c: Clash, x: nat, s: State)
    requires IsClash(ops, c) && x < c.j && ClashInv(p, c, x, s)
    requires !p.matched && p.observedMax == 0 && p.createdAt <= p.expiresAt
    ensures ClashInv(p, c, x + 1, Do(s, ops[x], ClashEvents(p, c)(x)))
  {
    var op := ops[x];
    assert !NeedsWrite(s.stored, Outside(p));
    assert NeedsWrite(p, Inside(p, 2));
    assert x > c.g1 && x < c.i ==> op.session != c.first;
    assert x > c.g2 ==> op.session != c.second;
    hide NeedsWrite, Observe, Inside, Outside;
  }

  lemma {:induction false} ClashHolds(p: Pending, ops: seq<Op>, c: Clash, x: nat)
    requires IsClash(ops, c) && x <= c.j && !p.matched && p.observedMax == 0 && p.createdAt <= p.expiresAt
    ensures ClashInv(p, c, x, After(p, ops[..x], ClashEvents(p, c)))
  {
    if x > 0 {
      ClashHolds(p, ops, c, x - 1);
      ClashStep(p, ops, c, x - 1, After(p, ops[..x - 1], ClashEvents(p, c)));
      assert ops[..x][..x - 1] == ops[..x - 1];
    }
  }

  /** Written first 2 and then 1, the maximum falls. */
  lemma ClashFalls(p: Pending, ops: seq<Op>, c: Clash)
    requires IsClash(ops, c) && !p.matched && p.observedMax == 0 && p.createdAt <= p.expiresAt
    ensures !NeverFalls(p, ops, ClashEvents(p, c))
  {
    ClashHolds(p, ops, c, c.j);
    assert ops[..c.j + 1][..c.j] == ops[..c.j];
    assert !RisesAt(p, ops, ClashEvents(p, c), c.j);
  }

  lemma {:induction false} SomeClash(ops: seq<Op>) returns (c: Clash)
    requires !Serial(ops)
    ensures IsClash(ops, c)
  {
    var j := |ops| - 1;
    var front := ops[..j];
    if !Serial(front) {
      c := SomeClash(front);
      assert front[c.g1] == ops[c.g1] && front[c.g2] == ops[c.g2];
      assert forall x :: 0 <= x < j ==> front[x] == ops[x];
    } else {
      var second := ops[j].session;
      var i, first := WrittenPast(front, second);
      var g1 := LastGet(front[..i], first);
      var g2 := LastGet(front[..i], second);
      c := Clash(first, second, g1, g2, i, j);
      assert forall x :: 0 <= x < i ==> front[..i][x] == ops[x];
      assert forall x :: 0 <= x < j ==> front[x] == ops[x];
    }
  }

  /** Whatever the events, a schedule of any number of sessions never lowers the stored maximum of a fresh pending, if
      and only if no session writes back a copy that another one has written past since it was read. A session
      alone keeps every schedule serial; one beside a session that lingers need not. */
  lemma NeverFallsExactly(p: Pending, ops: seq<Op>)
    requires !p.matched && p.observedMax == 0 && p.createdAt <= p.expiresAt
    ensures Serial(ops) <==> forall evs: nat -> Event :: NeverFalls(p, ops, evs)
  {
    if Serial(ops) {
      forall evs: nat -> Event ensures NeverFalls(p, ops, evs) { SerialNeverFalls(p, ops, evs); }
    } else {
      var c := SomeClash(ops);
      ClashFalls(p, ops, c);
    }
  }

  /** Two sessions, each reading before either writes, and a delay of ten minutes is lost to one of five. */
  lemma LostMaximum(p: Pending)
    requires !p.matched && p.observedMax == 0 && p.createdAt <= p.expiresAt
    ensures var ops := [Get(0), Get(1), Put(0), Put(1)];
            var evs := (x: nat) => if x == 0 then Inside(p, 600) else Inside(p, 300);
            && !Serial(ops)
            && After(p, ops[..3], evs).stored.observedMax == 600 && After(p, ops, evs).stored.observedMax == 300
  {
    var ops := [Get(0), Get(1), Put(0), Put(1)];
    var evs := (x: nat) => if x == 0 then Inside(p, 600) else Inside(p, 300);
    assert ops[..3] == [Get(0), Get(1), Put(0)] && ops[..3][..2] == [Get(0), Get(1)];
    assert [Get(0), Get(1)][..1] == [Get(0)] && [Get(0)][..0] == [];
    assert After(p, [Get(0)], evs) == State(p, map[0 := (p, Inside(p, 600))]);
    assert After(p, [Get(0), Get(1)], evs) == State(p, map[0 := (p, Inside(p, 600)), 1 := (p, Inside(p, 300))]);
    assert After(p, ops[..3], evs) == State(Observe(p, Inside(p, 600)), map[1 := (p, Inside(p, 300))]);
    assert Holding([Get(0)]) == {0} && Holding([Get(0), Get(1)]) == {0, 1} && Stale(ops[..3]) == {1};
  }
}
