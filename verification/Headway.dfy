/** The headway index (internal/graph/headway.go) and its agreement with a recomputation from the stop times. */
module Headway {
  import opened Common
  import opened Schedule
  import opened Sorting
  import opened Cascade

  const MAX_HEADWAY_GAP_SECS := 3 * 3600
  const MAX_HEADWAY_HOUR := 27

  /** The departures of a route and direction in a station's list. */
  function Times(g: Graph, list: seq<StopTime>, rd: (string, int)): seq<int> {
    if list == [] then []
    else
      var st := list[|list| - 1];
      Times(g, list[..|list| - 1], rd) +
      if st.tripId in g.tripRoute && (g.tripRoute[st.tripId], g.DirectionOf(st.tripId)) == rd
      then [st.departureSecs] else []
  }

  /** The qualifying gap between two consecutive departures, when it belongs to the hour. */
  predicate GapCounts(earlier: int, later: int, hour: int) {
    0 < later - earlier <= MAX_HEADWAY_GAP_SECS && GoDiv(earlier, 3600) == hour <= MAX_HEADWAY_HOUR
  }

  function Gaps(times: seq<int>, hour: int): seq<int> {
    if |times| < 2 then []
    else
      var n := |times|;
      Gaps(times[..n - 1], hour) +
      if GapCounts(times[n - 2], times[n - 1], hour) then [times[n - 1] - times[n - 2]] else []
  }

  function Itself(x: int): int { x }

  function SortInts(s: seq<int>): seq<int> { SortOn(Itself, s) }

  function Median(sorted: seq<int>): real {
    var n := |sorted|;
    if n == 0 then 0.0
    else if n % 2 == 1 then sorted[n / 2] as real
    else (sorted[n / 2 - 1] + sorted[n / 2]) as real / 2.0
  }

  /** The median scheduled headway of one bucket, recomputed from the stop times. */
  function HeadwayFor(g: Graph, station: string, rd: (string, int), hour: int): Option<real> {
    var list := if station in g.byStop then g.byStop[station] else [];
    var gaps := Gaps(Times(g, list, rd), hour);
    if gaps == [] then None else Some(Median(SortInts(gaps)))
  }

  /* ---------------- the loops ---------------- */

  method GroupTimes(g: Graph, list: seq<StopTime>) returns (deps: map<(string, int), seq<int>>)
    ensures forall rd :: rd in deps <==> Times(g, list, rd) != []
    ensures forall rd :: rd in deps ==> deps[rd] == Times(g, list, rd)
  {
    deps := map[];
    for i := 0 to |list|
      invariant forall rd :: rd in deps <==> Times(g, list[..i], rd) != []
      invariant forall rd :: rd in deps ==> deps[rd] == Times(g, list[..i], rd)
    {
      TimesStep(g, list, i);
      var st := list[i];
      if st.tripId !in g.tripRoute { continue; }
      var rd := (g.tripRoute[st.tripId], g.DirectionOf(st.tripId));
      deps := deps[rd := (if rd in deps then deps[rd] else []) + [st.departureSecs]];
    }
    assert list[..|list|] == list;
  }

  lemma TimesStep(g: Graph, list: seq<StopTime>, i: nat)
    requires i < |list|
    ensures var st := list[i];
            forall rd :: Times(g, list[..i + 1], rd) ==
                         if st.tripId in g.tripRoute && (g.tripRoute[st.tripId], g.DirectionOf(st.tripId)) == rd
                         then Times(g, list[..i], rd) + [st.departureSecs] else Times(g, list[..i], rd)
  {
    assert list[..i + 1][..i] == list[..i];
  }

  /** The buckets hold exactly the qualifying gaps of each hour. */
  ghost predicate Bucketed(times: seq<int>, gaps: map<int, seq<int>>) {
    forall h :: (h in gaps <==> Gaps(times, h) != []) && (h in gaps ==> gaps[h] == Gaps(times, h))
  }

  method BucketGaps(times: seq<int>) returns (gaps: map<int, seq<int>>)
    ensures Bucketed(times, gaps)
  {
    gaps := map[];
    if |times| == 0 { return; }
    var i := 1;
    while i < |times|
      invariant 1 <= i <= |times| && Bucketed(times[..i], gaps)
    {
      hide Gaps, Bucketed;
      ghost var prior, at := gaps, i;
      var gap := times[i] - times[i - 1];
      var hour := GoDiv(times[i - 1], 3600);
      i := i + 1;
      if gap <= 0 || gap > MAX_HEADWAY_GAP_SECS || hour > MAX_HEADWAY_HOUR {
        NoGap(times, at, prior);
        continue;
      }
      gaps := gaps[hour := (if hour in gaps then gaps[hour] else []) + [gap]];
      OneGap(times, at, prior);
    }
    assert times[..|times|] == times;
  }

  lemma GapsStep(times: seq<int>, i: nat)
    requires 1 <= i < |times|
    ensures forall h :: Gaps(times[..i + 1], h) ==
                        if GapCounts(times[i - 1], times[i], h)
                        then Gaps(times[..i], h) + [times[i] - times[i - 1]] else Gaps(times[..i], h)
  {
    var t := times[..i + 1];
    assert t[..|t| - 1] == times[..i];
  }

  lemma NoGap(times: seq<int>, i: nat, gaps: map<int, seq<int>>)
    requires 1 <= i < |times| && Bucketed(times[..i], gaps)
    requires !GapCounts(times[i - 1], times[i], GoDiv(times[i - 1], 3600))
    ensures Bucketed(times[..i + 1], gaps)
  {
    GapsStep(times, i);
    hide Gaps, GoDiv;
  }

  lemma OneGap(times: seq<int>, i: nat, gaps: map<int, seq<int>>)
    requires 1 <= i < |times| && Bucketed(times[..i], gaps)
    requires GapCounts(times[i - 1], times[i], GoDiv(times[i - 1], 3600))
    ensures var hour := GoDiv(times[i - 1], 3600);
            Bucketed(times[..i + 1],
                     gaps[hour := (if hour in gaps then gaps[hour] else []) + [times[i] - times[i - 1]]])
  {
    GapsStep(times, i);
    hide Gaps, GoDiv;
  }

  /** The entries for the given stations are the recomputed ones, and there are no others. */
  ghost predicate Covers(g: Graph, stations: set<string>, m: map<HeadwayKey, real>) {
    forall r, d, s, h ::
      ((r, d, s, h) in m <==> s in stations && HeadwayFor(g, s, (r, d), h).Some?) &&
      ((r, d, s, h) in m ==> HeadwayFor(g, s, (r, d), h) == Some(m[(r, d, s, h)]))
  }

  /** As Covers, with one station finished only for some of its routes and directions. */
  ghost predicate CoversPart(
    g: Graph, stations: set<string>, station: string, done: set<(string, int)>, m: map<HeadwayKey, real>)
  {
    forall r, d, s, h ::
      ((r, d, s, h) in m <==>
        (s in stations || (s == station && (r, d) in done)) && HeadwayFor(g, s, (r, d), h).Some?) &&
      ((r, d, s, h) in m ==> HeadwayFor(g, s, (r, d), h) == Some(m[(r, d, s, h)]))
  }

  /** The entries of one route and direction at one station. */
  method AddBuckets(g: Graph, station: string, rd: (string, int), times: seq<int>, before: map<HeadwayKey, real>)
    returns (out: map<HeadwayKey, real>)
    requires station in g.byStop && times == Times(g, g.byStop[station], rd)
    requires forall h :: (rd.0, rd.1, station, h) !in before
    ensures forall r, d, s, h :: (r, d, s, h) in out <==>
              (r, d, s, h) in before || ((r, d, s) == (rd.0, rd.1, station) && HeadwayFor(g, station, rd, h).Some?)
    ensures forall k :: k in before ==> k in out && out[k] == before[k]
    ensures forall h :: (rd.0, rd.1, station, h) in out ==>
                        HeadwayFor(g, station, rd, h) == Some(out[(rd.0, rd.1, station, h)])
  {
    var gaps := BucketGaps(times);
    out := before;
    var todo := gaps.Keys;
    while todo != {}
      invariant todo <= gaps.Keys
      invariant forall r, d, s, h :: (r, d, s, h) in out <==>
                  (r, d, s, h) in before || ((r, d, s) == (rd.0, rd.1, station) && h in gaps.Keys - todo)
      invariant forall k :: k in before ==> k in out && out[k] == before[k]
      invariant forall h :: h in gaps.Keys - todo ==>
                  (rd.0, rd.1, station, h) in out && out[(rd.0, rd.1, station, h)] == Median(SortInts(gaps[h]))
      decreases todo
    {
      SomeHour(todo);
      var hour :| hour in todo;
      todo := todo - {hour};
      out := out[(rd.0, rd.1, station, hour) := Median(SortInts(gaps[hour]))];
    }
  }

  lemma SomeHour(hours: set<int>)
    requires hours != {}
    ensures exists h :: h in hours
  {
    assert (forall h :: h !in hours) ==> hours == {};
  }

  /** An unfinished route and direction has no entries yet. */
  lemma NoEntriesYet(g: Graph, stations: set<string>, station: string, done: set<(string, int)>, rd: (string, int),
                     m: map<HeadwayKey, real>, h: int)
    requires CoversPart(g, stations, station, done, m) && station !in stations && rd !in done
    ensures (rd.0, rd.1, station, h) !in m
  {
    hide HeadwayFor;
    var r, d := rd.0, rd.1;
    assert (r, d) == rd;
    assert (r, d, station, h) in m <==>
           (station in stations || (r, d) in done) && HeadwayFor(g, station, (r, d), h).Some?;
  }

  method AddStation(g: Graph, station: string, ghost stations: set<string>, before: map<HeadwayKey, real>)
    returns (out: map<HeadwayKey, real>)
    requires station in g.byStop && station !in stations && Covers(g, stations, before)
    ensures Covers(g, stations + {station}, out)
  {
    var deps := GroupTimes(g, g.byStop[station]);
    out := before;
    var todo := deps.Keys;
    assert CoversPart(g, stations, station, deps.Keys - todo, out);
    while todo != {}
      invariant todo <= deps.Keys && CoversPart(g, stations, station, deps.Keys - todo, out)
      decreases todo
    {
      var rd :| rd in todo;
      ghost var done := deps.Keys - todo;
      todo := todo - {rd};
      assert deps.Keys - todo == done + {rd};
      ghost var prior := out;
      forall h ensures (rd.0, rd.1, station, h) !in out { NoEntriesYet(g, stations, station, done, rd, out, h); }
      out := AddBuckets(g, station, rd, deps[rd], out);
    }
  }

  /** Every bucket holds the median recomputed from the stop times, and only buckets with a qualifying gap exist,
      whatever order the maps are walked in. */
  method BuildHeadwayIndex(g: Graph) returns (g': Graph)
    ensures g' == g.(headways := g'.headways) && HeadwaysIndexed(g')
  {
    var headways: map<HeadwayKey, real> := map[];
    var todo := g.byStop.Keys;
    assert Covers(g, g.byStop.Keys - todo, headways);
    while todo != {}
      invariant todo <= g.byStop.Keys && Covers(g, g.byStop.Keys - todo, headways)
      decreases todo
    {
      hide Covers;
      var station :| station in todo;
      ghost var done := g.byStop.Keys - todo;
      todo := todo - {station};
      assert g.byStop.Keys - todo == done + {station};
      headways := AddStation(g, station, done, headways);
    }
    assert g.byStop.Keys - todo == g.byStop.Keys;
    g' := g.(headways := headways);
    SameCover(g, g');
  }

  /** The headway index covers every station of the graph. */
  ghost predicate HeadwaysIndexed(g: Graph) { Covers(g, g.byStop.Keys, g.headways) }

  lemma {:induction false} TimesIgnoreHeadways(g: Graph, g': Graph, list: seq<StopTime>, rd: (string, int))
    requires g' == g.(headways := g'.headways)
    ensures Times(g, list, rd) == Times(g', list, rd)
  {
    if list != [] { TimesIgnoreHeadways(g, g', list[..|list| - 1], rd); }
  }

  lemma SameCover(g: Graph, g': Graph)
    requires g' == g.(headways := g'.headways) && Covers(g, g.byStop.Keys, g'.headways)
    ensures HeadwaysIndexed(g')
  {
    forall s, rd, h ensures HeadwayFor(g, s, rd, h) == HeadwayFor(g', s, rd, h) {
      TimesIgnoreHeadways(g, g', if s in g.byStop then g.byStop[s] else [], rd);
    }
    hide HeadwayFor;
  }

  /* ---------------- what a lookup returns ---------------- */

  /** The lookup: the bucket of that hour, or before 04:00 the past-midnight bucket when that hour has none. */
  lemma LookupRecomputes(g: Graph, route: string, dir: int, stop: string, secs: int)
    requires HeadwaysIndexed(g)
    ensures var hour := GoDiv(secs, 3600);
            var station := g.Parent(stop);
            ScheduledHeadway(g, route, dir, stop, secs) ==
            if hour < 0 || hour > MAX_HEADWAY_HOUR then None
            else if HeadwayFor(g, station, (route, dir), hour).Some? then HeadwayFor(g, station, (route, dir), hour)
            else if hour < 4 then HeadwayFor(g, station, (route, dir), hour + 24)
            else None
  {
    var station := g.Parent(stop);
    assert station !in g.byStop ==> Times(g, [], (route, dir)) == [];
    assert forall h :: station !in g.byStop ==> HeadwayFor(g, station, (route, dir), h).None?;
    hide HeadwayFor;
  }

  predicate AllWithin(s: seq<int>) { forall i :: 0 <= i < |s| ==> 0 < s[i] <= MAX_HEADWAY_GAP_SECS }

  lemma {:induction false} GapsWithin(times: seq<int>, hour: int)
    ensures AllWithin(Gaps(times, hour))
  {
    if |times| >= 2 { GapsWithin(times[..|times| - 1], hour); }
  }

  predicate SortedInts(s: seq<int>) { forall i, j :: 0 <= i < j < |s| ==> s[i] <= s[j] }

  lemma SortIntsMeaning(s: seq<int>)
    ensures SortedInts(SortInts(s)) && multiset(SortInts(s)) == multiset(s)
  {
    SortSorts(Itself, s);
    hide SortOn;
    var t := SortInts(s);
    forall i, j | 0 <= i < j < |t| ensures t[i] <= t[j] { assert Itself(t[i]) <= Itself(t[j]); }
  }

  lemma SameElements(a: seq<int>, b: seq<int>)
    requires multiset(a) == multiset(b)
    ensures |a| == |b| && forall x :: x in a <==> x in b
  {
    assert |multiset(a)| == |a| && |multiset(b)| == |b|;
    forall x ensures x in a <==> x in b { assert x in a <==> x in multiset(a); }
  }

  /* ---------------- the index written out ---------------- */

  predicate Rising(ps: seq<nat>) { forall i, j :: 0 <= i < j < |ps| ==> ps[i] < ps[j] }

  /** out lists value(i) for the chosen i below n, in order; ps are these i. */
  ghost predicate Lists(ps: seq<nat>, out: seq<int>, value: nat -> int, chosen: nat -> bool, n: nat) {
    && |ps| == |out| && Rising(ps)
    && (forall j :: 0 <= j < |ps| ==> ps[j] < n && out[j] == value(ps[j]))
    && (forall i: nat :: i < n ==> (i in ps <==> chosen(i)))
  }

  /** One more index, with what it adds to the list. */
  lemma ListsMore(ps: seq<nat>, out: seq<int>, more: seq<int>, value: nat -> int, chosen: nat -> bool, n: nat)
    returns (all: seq<nat>)
    requires Lists(ps, out, value, chosen, n)
    requires more == if chosen(n) then out + [value(n)] else out
    ensures Lists(all, more, value, chosen, n + 1)
  {
    all := if chosen(n) then ps + [n] else ps;
    forall i: nat | i < n + 1 ensures i in all <==> chosen(i) {
      assert i == n ==> i !in ps;
    }
  }

  /** The trip belongs to the route and direction; one without a direction counts as direction 0. */
  ghost predicate Serves(g: Graph, trip: string, rd: (string, int)) {
    && trip in g.tripRoute && g.tripRoute[trip] == rd.0
    && (if trip in g.tripDirection then g.tripDirection[trip] else 0) == rd.1
  }

  /** The times are the departures of the rows of the route and direction, in order. */
  lemma {:induction false} TimesExactly(
    g: Graph, list: seq<StopTime>, rd: (string, int), value: nat -> int, chosen: nat -> bool, n: nat)
    returns (ps: seq<nat>)
    requires n <= |list|
    requires forall i: nat :: i < |list| ==> value(i) == list[i].departureSecs
    requires forall i: nat :: i < |list| ==> chosen(i) == Serves(g, list[i].tripId, rd)
    ensures Lists(ps, Times(g, list[..n], rd), value, chosen, n)
  {
    if n == 0 {
      ps := [];
    } else {
      hide *;
      ps := TimesExactly(g, list, rd, value, chosen, n - 1);
      TimesOneMore(g, list, rd, n - 1);
      ps := ListsMore(ps, Times(g, list[..n - 1], rd), Times(g, list[..n], rd), value, chosen, n - 1);
    }
  }

  lemma TimesOneMore(g: Graph, list: seq<StopTime>, rd: (string, int), i: nat)
    requires i < |list|
    ensures Times(g, list[..i + 1], rd) ==
            if Serves(g, list[i].tripId, rd) then Times(g, list[..i], rd) + [list[i].departureSecs]
            else Times(g, list[..i], rd)
  {
    TimesStep(g, list, i);
    hide Times;
  }

  /** The time lies in that hour. */
  predicate InHour(time: int, hour: int) {
    if time >= 0 then 3600 * hour <= time < 3600 * (hour + 1) else 3600 * (hour - 1) < time <= 3600 * hour
  }

  /** A gap that counts for the hour: positive, at most three hours, and begun in that hour, at most the third past
      midnight. */
  ghost predicate Qualifies(earlier: int, later: int, hour: int) {
    0 < later - earlier <= 10800 && InHour(earlier, hour) && hour <= 27
  }

  /** The gaps of an hour are the qualifying differences of consecutive departures, in order. */
  lemma {:induction false} GapsExactly(times: seq<int>, hour: int, value: nat -> int, chosen: nat -> bool, n: nat)
    returns (ps: seq<nat>)
    requires n <= |times| && !chosen(0)
    requires forall i: nat :: 0 < i < |times| ==> value(i) == times[i] - times[i - 1]
    requires forall i: nat :: 0 < i < |times| ==> chosen(i) == Qualifies(times[i - 1], times[i], hour)
    ensures Lists(ps, Gaps(times[..n], hour), value, chosen, n)
  {
    if n <= 1 {
      ps := [];
    } else {
      hide *;
      ps := GapsExactly(times, hour, value, chosen, n - 1);
      GapsOneMore(times, hour, n - 1);
      ps := ListsMore(ps, Gaps(times[..n - 1], hour), Gaps(times[..n], hour), value, chosen, n - 1);
    }
  }

  lemma GapsOneMore(times: seq<int>, hour: int, i: nat)
    requires 1 <= i < |times|
    ensures Gaps(times[..i + 1], hour) ==
            if Qualifies(times[i - 1], times[i], hour) then Gaps(times[..i], hour) + [times[i] - times[i - 1]]
            else Gaps(times[..i], hour)
  {
    GapsStep(times, i);
    GapCountsExactly(times[i - 1], times[i], hour);
    hide Gaps, GapCounts, Qualifies;
  }

  lemma GapCountsExactly(earlier: int, later: int, hour: int)
    ensures GapCounts(earlier, later, hour) <==> Qualifies(earlier, later, hour)
  {
  }

  /** The median is the mean of the two middle elements, which are one and the same when the count is odd. */
  lemma MedianMiddle(s: seq<int>)
    ensures 2.0 * Median(s) == if s == [] then 0.0 else (s[(|s| - 1) / 2] + s[|s| / 2]) as real
  {
    var n := |s|;
    if n % 2 == 1 { assert (n - 1) / 2 == n / 2; } else { assert (n - 1) / 2 == n / 2 - 1; }
  }

  /** The middle elements of a sorted rearrangement of the gaps. */
  ghost predicate IsMedian(gaps: seq<int>, v: real) {
    exists s: seq<int> :: multiset(s) == multiset(gaps) && SortedInts(s) && s != [] &&
                          2.0 * v == (s[(|s| - 1) / 2] + s[|s| / 2]) as real
  }

  /** The headway index: a route and direction has an entry for a station and hour exactly when there are gaps between
      its departures there, and the entry is their median. */
  lemma HeadwayExactly(g: Graph, route: string, dir: int, station: string, hour: int)
    requires HeadwaysIndexed(g)
    ensures var list := if station in g.byStop then g.byStop[station] else [];
            var gaps := Gaps(Times(g, list, (route, dir)), hour);
            var k := (route, dir, station, hour);
            && (k in g.headways <==> gaps != [])
            && (k in g.headways ==> IsMedian(gaps, g.headways[k]))
  {
    var list := if station in g.byStop then g.byStop[station] else [];
    var gaps := Gaps(Times(g, list, (route, dir)), hour);
    assert station !in g.byStop ==> Times(g, list, (route, dir)) == [] && gaps == [];
    if gaps != [] { MedianOfSorted(gaps); }
    hide Gaps, Times, Median, IsMedian, SortInts;
  }

  lemma MedianOfSorted(gaps: seq<int>)
    requires gaps != []
    ensures IsMedian(gaps, Median(SortInts(gaps)))
  {
    var s := SortInts(gaps);
    SortIntsMeaning(gaps);
    SameElements(s, gaps);
    MedianMiddle(s);
    hide SortInts, Median, SortedInts;
  }

  /** Every headway is positive and at most three hours. */
  lemma HeadwayRange(g: Graph, station: string, rd: (string, int), hour: int)
    requires HeadwayFor(g, station, rd, hour).Some?
    ensures 0.0 < HeadwayFor(g, station, rd, hour).value <= 10800.0
  {
    var list := if station in g.byStop then g.byStop[station] else [];
    var gaps := Gaps(Times(g, list, rd), hour);
    GapsWithin(Times(g, list, rd), hour);
    SortIntsMeaning(gaps);
    var s := SortInts(gaps);
    SameElements(s, gaps);
    assert AllWithin(s) by {
      forall i | 0 <= i < |s| ensures 0 < s[i] <= MAX_HEADWAY_GAP_SECS {
        assert s[i] in s && s[i] in gaps;
      }
    }
  }

  /** How many elements lie below, respectively above, a value. */
  function CountBelow(s: seq<int>, v: real): nat {
    if s == [] then 0 else CountBelow(s[..|s| - 1], v) + if s[|s| - 1] as real < v then 1 else 0
  }

  function CountAbove(s: seq<int>, v: real): nat {
    if s == [] then 0 else CountAbove(s[..|s| - 1], v) + if s[|s| - 1] as real > v then 1 else 0
  }

  lemma {:induction false} CountBelowPrefix(s: seq<int>, v: real, k: nat)
    requires k <= |s| && forall i :: k <= i < |s| ==> s[i] as real >= v
    ensures CountBelow(s, v) <= k
  {
    if |s| > k {
      CountBelowPrefix(s[..|s| - 1], v, k);
    } else {
      CountAtMost(s, v);
    }
  }

  lemma {:induction false} CountAtMost(s: seq<int>, v: real)
    ensures CountBelow(s, v) <= |s| && CountAbove(s, v) <= |s|
  {
    if s != [] { CountAtMost(s[..|s| - 1], v); }
  }

  lemma {:induction false} CountAboveSuffix(s: seq<int>, v: real, k: nat)
    requires k <= |s| && forall i :: 0 <= i < k ==> s[i] as real <= v
    ensures CountAbove(s, v) <= |s| - k
  {
    if |s| > k {
      CountAboveSuffix(s[..|s| - 1], v, k);
    } else if s != [] {
      CountAboveSuffix(s[..|s| - 1], v, k - 1);
    }
  }

  /** The median splits a sorted list: at most half of it lies below and at most half above. */
  lemma MedianSplits(s: seq<int>)
    requires SortedInts(s) && s != []
    ensures 2 * CountBelow(s, Median(s)) <= |s| && 2 * CountAbove(s, Median(s)) <= |s|
  {
    var n := |s|;
    CountBelowPrefix(s, Median(s), n / 2);
    CountAboveSuffix(s, Median(s), (n + 1) / 2);
  }
}
