/** The max-heap of pending impacts: impactQueue under container/heap (internal/propagation/engine.go). */
module ImpactHeap {

  datatype ImpactType = DwellIncrease | CascadeTransfer | CascadeDwell

  datatype Item = Item(
    routeId: string, stopId: string, delay: int, confidence: real, hops: int, kind: ImpactType, directionId: int)

  /** No item of the collection outranks x: what popping a max-heap promises, ties being open. */
  ghost predicate Greatest(x: Item, items: multiset<Item>) {
    x in items && forall y :: y in items ==> y.delay <= x.delay
  }

  predicate ChildOf(p: nat, c: nat) { c == 2 * p + 1 || c == 2 * p + 2 }

  /** Every element but the root is at most its parent. */
  ghost predicate HeapOrdered(s: seq<Item>) {
    forall p: nat, c: nat :: ChildOf(p, c) && c < |s| ==> s[c].delay <= s[p].delay
  }

  /** i's children fit under i's parent. */
  ghost predicate GrandchildrenFit(s: seq<Item>, i: nat) {
    forall p: nat, c: nat :: ChildOf(p, i) && ChildOf(i, c) && c < |s| ==> s[c].delay <= s[p].delay
  }

  /** Heap order except between i and its parent. */
  ghost predicate OrderedButUp(s: seq<Item>, i: nat) {
    && (forall p: nat, c: nat :: ChildOf(p, c) && c < |s| && c != i ==> s[c].delay <= s[p].delay)
    && GrandchildrenFit(s, i)
  }

  /** Heap order except between i and its children. */
  ghost predicate OrderedButDown(s: seq<Item>, i: nat) {
    && (forall p: nat, c: nat :: ChildOf(p, c) && c < |s| && p != i ==> s[c].delay <= s[p].delay)
    && GrandchildrenFit(s, i)
  }

  function Swapped(s: seq<Item>, i: nat, j: nat): seq<Item>
    requires i < |s| && j < |s|
  {
    s[i := s[j]][j := s[i]]
  }

  lemma {:induction false} RootGreatest(s: seq<Item>, k: nat)
    requires HeapOrdered(s) && k < |s|
    ensures s[k].delay <= s[0].delay
  {
    if k > 0 {
      assert ChildOf((k - 1) / 2, k);
      RootGreatest(s, (k - 1) / 2);
    }
  }

  lemma RootIsGreatest(s: seq<Item>)
    requires HeapOrdered(s) && |s| > 0
    ensures Greatest(s[0], multiset(s))
  {
    forall y | y in multiset(s) ensures y.delay <= s[0].delay {
      assert y in s;
      var k :| 0 <= k < |s| && s[k] == y;
      RootGreatest(s, k);
    }
  }

  class ImpactQueue {
    var data: array<Item>
    var len: nat

    ghost predicate Valid()
      reads this, data
    {
      len <= data.Length && HeapOrdered(data[..len])
    }

    ghost function Items(): multiset<Item>
      requires len <= data.Length
      reads this, data
    {
      multiset(data[..len])
    }

    constructor ()
      ensures Valid() && Items() == multiset{} && fresh(data)
    {
      data := new Item[4];
      len := 0;
    }

    /** Swap within the first n elements. */
    method Swap(i: nat, j: nat, ghost n: nat)
      requires i < n && j < n <= data.Length
      modifies data
      ensures data[..n] == Swapped(old(data[..n]), i, j)
      ensures multiset(data[..n]) == old(multiset(data[..n]))
    {
      ghost var s := data[..n];
      data[i], data[j] := data[j], data[i];
      assert data[..n] == Swapped(s, i, j);
    }

    /** append: the backing array is replaced by a larger one when full. */
    method Append(x: Item)
      requires len <= data.Length
      modifies this, data
      ensures len == old(len) + 1 <= data.Length
      ensures data[..len] == old(data[..len]) + [x]
      ensures data == old(data) || fresh(data)
    {
      if len == data.Length {
        var bigger := new Item[2 * len + 1];
        forall i | 0 <= i < len { bigger[i] := data[i]; }
        assert bigger[..len] == data[..len];
        data := bigger;
      }
      data[len] := x;
      len := len + 1;
    }

    /** heap.up */
    method Up(k: nat)
      requires k < len <= data.Length && OrderedButUp(data[..len], k)
      modifies data
      ensures Valid() && Items() == old(Items())
    {
      var j: nat := k;
      while j > 0 && data[j].delay > data[(j - 1) / 2].delay
        invariant j < len <= data.Length
        invariant OrderedButUp(data[..len], j)
        invariant Items() == old(Items())
      {
        var i := (j - 1) / 2;
        ghost var s := data[..len];
        Swap(i, j, len);
        UpStep(s, data[..len], j);
        j := i;
      }
      UpStop(data[..len], j);
    }

    /** The child heap.down compares with: the right one only when it outranks the left. */
    method GreaterChild(i: nat) returns (j: nat)
      requires 2 * i + 1 < len <= data.Length
      ensures j < len && GreatestChild(data[..len], i, j)
    {
      j := 2 * i + 1;
      if j + 1 < len && data[j + 1].delay > data[j].delay { j := j + 1; }
    }

    /** heap.down */
    method Down()
      requires len <= data.Length && OrderedButDown(data[..len], 0)
      modifies data
      ensures Valid() && Items() == old(Items())
    {
      var i: nat := 0;
      while 2 * i + 1 < len
        invariant len <= data.Length
        invariant OrderedButDown(data[..len], i)
        invariant Items() == old(Items())
        decreases len - i
      {
        var j := GreaterChild(i);
        ghost var s := data[..len];
        if data[j].delay <= data[i].delay {
          return;
        }
        Swap(i, j, len);
        DownStep(s, data[..len], i, j);
        i := j;
      }
    }

    /** heap.Push */
    method Push(x: Item)
      requires Valid()
      modifies this, data
      ensures Valid() && Items() == old(Items()) + multiset{x}
      ensures data == old(data) || fresh(data)
    {
      Append(x);
      Up(len - 1);
    }

    /** The first half of heap.Pop: swap the root with the last element and take it off. */
    method TakeRoot() returns (x: Item)
      requires Valid() && len > 0
      modifies this, data
      ensures data == old(data) && len == old(len) - 1 <= data.Length
      ensures OrderedButDown(data[..len], 0)
      ensures x == old(data[0]) && Items() == old(Items()) - multiset{x}
    {
      ghost var s := data[..len];
      Swap(0, len - 1, len);
      ghost var t := data[..len];
      len := len - 1;
      assert data[..len] == t[..len];
      RootRemovedOrder(s, t);
      RootRemovedItems(s, t);
      x := data[len];
    }

    /** heap.Pop: take the root off, then sift the new root down. */
    method Pop() returns (x: Item)
      requires Valid() && len > 0
      modifies this, data
      ensures Valid() && data == old(data)
      ensures Greatest(x, old(Items())) && Items() == old(Items()) - multiset{x}
    {
      RootIsGreatest(data[..len]);
      x := TakeRoot();
      Down();
    }
  }

  lemma RootRemovedOrder(s: seq<Item>, t: seq<Item>)
    requires |s| > 0 && HeapOrdered(s) && t == Swapped(s, 0, |s| - 1)
    ensures OrderedButDown(t[..|s| - 1], 0)
  {
    var u := t[..|s| - 1];
    forall p: nat, c: nat | ChildOf(p, c) && c < |u| && p != 0 ensures u[c].delay <= u[p].delay {
      assert u[c] == s[c] && u[p] == s[p];
    }
  }

  lemma RootRemovedItems(s: seq<Item>, t: seq<Item>)
    requires |s| > 0 && t == Swapped(s, 0, |s| - 1)
    ensures t[|s| - 1] == s[0]
    ensures multiset(t[..|s| - 1]) == multiset(s) - multiset{s[0]}
  {
    DropLast(t);
  }

  lemma DropLast(t: seq<Item>)
    requires |t| > 0
    ensures multiset(t[..|t| - 1]) == multiset(t) - multiset{t[|t| - 1]}
  {
    assert t == t[..|t| - 1] + [t[|t| - 1]];
    assert multiset(t) == multiset(t[..|t| - 1]) + multiset{t[|t| - 1]};
  }

  lemma UpStop(s: seq<Item>, j: nat)
    requires j < |s| && OrderedButUp(s, j) && (j > 0 ==> s[j].delay <= s[(j - 1) / 2].delay)
    ensures HeapOrdered(s)
  {
    forall p: nat, c: nat | ChildOf(p, c) && c < |s| ensures s[c].delay <= s[p].delay {
      if c == j { assert p == (j - 1) / 2; }
    }
  }

  lemma UpStep(s: seq<Item>, t: seq<Item>, j: nat)
    requires 0 < j < |s| && OrderedButUp(s, j) && s[j].delay > s[(j - 1) / 2].delay
    requires t == Swapped(s, (j - 1) / 2, j)
    ensures OrderedButUp(t, (j - 1) / 2)
  {
    var i := (j - 1) / 2;
    assert ChildOf(i, j);
    forall p: nat, c: nat | ChildOf(p, c) && c < |t| && c != i ensures t[c].delay <= t[p].delay {
      if c == j { assert p == i; }
    }
  }

  ghost predicate GreatestChild(s: seq<Item>, i: nat, j: nat)
    requires j < |s|
  {
    ChildOf(i, j) && forall c: nat :: ChildOf(i, c) && c < |s| ==> s[c].delay <= s[j].delay
  }

  lemma DownStep(s: seq<Item>, t: seq<Item>, i: nat, j: nat)
    requires i < |s| && j < |s| && OrderedButDown(s, i) && s[j].delay > s[i].delay
    requires GreatestChild(s, i, j) && t == Swapped(s, i, j)
    ensures OrderedButDown(t, j)
  {
    forall p: nat, c: nat | ChildOf(p, c) && c < |t| && p != j ensures t[c].delay <= t[p].delay {
      if c == i { assert s[j].delay <= s[p].delay; }
    }
    forall p: nat, c: nat | ChildOf(p, j) && ChildOf(j, c) && c < |t| ensures t[c].delay <= t[p].delay {
      assert p == i;
    }
  }
}
