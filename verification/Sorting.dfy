/** Sorting on an integer key: some sorted rearrangement; nothing in the models depends on how ties come out. */
module Sorting {

  ghost predicate SortedOn<T(!new)>(key: T -> int, s: seq<T>) {
    forall i, j :: 0 <= i < j < |s| ==> key(s[i]) <= key(s[j])
  }

  function Insert<T>(key: T -> int, x: T, s: seq<T>): seq<T> {
    if s == [] || key(x) <= key(s[0]) then [x] + s else [s[0]] + Insert(key, x, s[1..])
  }

  function SortOn<T>(key: T -> int, s: seq<T>): seq<T> {
    if s == [] then [] else Insert(key, s[0], SortOn(key, s[1..]))
  }

  ghost predicate AtLeast<T(!new)>(key: T -> int, low: int, s: seq<T>) {
    forall i :: 0 <= i < |s| ==> low <= key(s[i])
  }

  lemma {:induction false} InsertSorts<T(!new)>(key: T -> int, x: T, s: seq<T>, low: int)
    requires SortedOn(key, s) && AtLeast(key, low, s) && low <= key(x)
    ensures SortedOn(key, Insert(key, x, s)) && AtLeast(key, low, Insert(key, x, s))
  {
    if s != [] && key(x) > key(s[0]) { InsertSorts(key, x, s[1..], key(s[0])); }
  }

  lemma {:induction false} InsertKeeps<T>(key: T -> int, x: T, s: seq<T>)
    ensures multiset(Insert(key, x, s)) == multiset(s) + multiset{x}
  {
    if s != [] {
      InsertKeeps(key, x, s[1..]);
      assert s == [s[0]] + s[1..];
    }
  }

  /** The result is ordered and a rearrangement. */
  lemma {:induction false} SortSorts<T(!new)>(key: T -> int, s: seq<T>)
    ensures SortedOn(key, SortOn(key, s)) && multiset(SortOn(key, s)) == multiset(s)
  {
    if s != [] {
      var rest := SortOn(key, s[1..]);
      SortSorts(key, s[1..]);
      InsertKeeps(key, s[0], rest);
      var low := if rest == [] || key(s[0]) <= key(rest[0]) then key(s[0]) else key(rest[0]);
      InsertSorts(key, s[0], rest, low);
      assert s == [s[0]] + s[1..];
    }
  }
}
