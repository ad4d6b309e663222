/** A min priority queue with interior removal (anomaly/indexed_priority_queue.h): a 1-indexed
    binary heap beside a map from each element to its place in it. */
module IndexedHeap {
  import opened Options

  /** What the comparator must be for "closer to the top" to make sense. */
  ghost predicate StrictWeakOrder<A(!new)>(less: (A, A) -> bool)
  {
    && (forall a, b :: less(a, b) ==> !less(b, a))
    && (forall a, b, c :: !less(a, b) && !less(b, c) ==> !less(a, c))
  }

  /** `m` is exactly the inverse of `s`, whose place 0 holds the null element. */
  ghost predicate Inverse<A>(s: seq<Option<A>>, m: map<Option<A>, nat>)
  {
    && |s| >= 1 && s[0] == None
    && (forall i :: 1 <= i < |s| ==> s[i].Some?)
    && (forall i :: 0 <= i < |s| ==> s[i] in m && m[s[i]] == i)
    && (forall a :: a in m ==> m[a] < |s| && s[m[a]] == a)
  }

  predicate Elems<A>(s: seq<Option<A>>) { forall i :: 1 <= i < |s| ==> s[i].Some? }

  /** Place `i` is not above place `p`. */
  predicate NotAbove<A>(less: (A, A) -> bool, s: seq<Option<A>>, i: nat, p: nat)
    requires Elems(s)
  {
    1 <= i < |s| && 1 <= p < |s| ==> !less(s[i].value, s[p].value)
  }

  /** Place `i` and its parent are in order. */
  predicate InOrder<A>(less: (A, A) -> bool, s: seq<Option<A>>, i: nat)
    requires Elems(s)
  {
    NotAbove(less, s, i, i / 2)
  }

  ghost predicate Heap<A>(less: (A, A) -> bool, s: seq<Option<A>>)
  {
    Elems(s) && forall i: nat :: InOrder(less, s, i)
  }

  /** In order but for place `j`, which may be above its parent, and, when `below`, under a child. */
  ghost predicate Rising<A>(less: (A, A) -> bool, s: seq<Option<A>>, j: nat, below: bool)
  {
    && Elems(s)
    && (forall i: nat :: i != j && !(below && i / 2 == j) ==> InOrder(less, s, i))
    && (forall i: nat {:trigger NotAbove(less, s, i, j / 2)} :: i / 2 == j ==> NotAbove(less, s, i, j / 2))
  }

  /** In order but for place `j`, which may be under a child. */
  ghost predicate Sinking<A>(less: (A, A) -> bool, s: seq<Option<A>>, j: nat)
  {
    && Elems(s)
    && (forall i: nat :: i / 2 != j ==> InOrder(less, s, i))
    && (forall i: nat {:trigger NotAbove(less, s, i, j / 2)} :: i / 2 == j ==> NotAbove(less, s, i, j / 2))
  }

  function Swapped<A>(s: seq<Option<A>>, i: nat, j: nat): seq<Option<A>>
    requires i < |s| && j < |s|
  {
    s[i := s[j]][j := s[i]]
  }

  lemma Through<A(!new)>(less: (A, A) -> bool, s: seq<Option<A>>, i: nat, j: nat, k: nat)
    requires StrictWeakOrder(less) && Elems(s) && 1 <= j < |s|
    requires NotAbove(less, s, i, j) && NotAbove(less, s, j, k)
    ensures NotAbove(less, s, i, k)
  {
  }

  /** One round of sifting up. */
  lemma RiseStep<A(!new)>(less: (A, A) -> bool, s: seq<Option<A>>, j: nat, below: bool)
    requires StrictWeakOrder(less) && Rising(less, s, j, below) && 2 <= j < |s|
    requires less(s[j].value, s[j / 2].value)
    ensures Rising(less, Swapped(s, j, j / 2), j / 2, false)
  {
    var p, t := j / 2, Swapped(s, j, j / 2);
    forall i: nat | i != p ensures InOrder(less, t, i) {
      if i / 2 == p && i != j {
        assert InOrder(less, s, i);
        assert NotAbove(less, s, p, j);
        Through(less, s, i, p, j);
      } else if i / 2 == j {
        assert NotAbove(less, s, i, p);
      } else {
        assert i == j || InOrder(less, s, i);
      }
    }
    forall i: nat | i / 2 == p ensures NotAbove(less, t, i, p / 2) {
      assert InOrder(less, s, p);
      if i != j {
        assert InOrder(less, s, i);
        Through(less, s, i, p, p / 2);
      }
    }
  }

  lemma RiseEnd<A(!new)>(less: (A, A) -> bool, s: seq<Option<A>>, j: nat, below: bool)
    requires StrictWeakOrder(less) && Rising(less, s, j, below) && 1 <= j < |s|
    requires InOrder(less, s, j)
    ensures below ==> Sinking(less, s, j)
    ensures !below ==> Heap(less, s)
  {
  }

  /** A heap counts as in order but for any place. */
  lemma HeapSinking<A(!new)>(less: (A, A) -> bool, s: seq<Option<A>>, j: nat)
    requires StrictWeakOrder(less) && Heap(less, s) && 1 <= j < |s|
    ensures Sinking(less, s, j)
  {
    forall i: nat | i / 2 == j ensures NotAbove(less, s, i, j / 2) {
      assert InOrder(less, s, i) && InOrder(less, s, j);
      Through(less, s, i, j, j / 2);
    }
  }

  /** The child that sift_down looks at is not under its sibling. */
  ghost predicate TopChild<A>(less: (A, A) -> bool, s: seq<Option<A>>, j: nat, c: nat)
    requires Elems(s)
  {
    2 <= c < |s| && c / 2 == j && NotAbove(less, s, 2 * j, c) && NotAbove(less, s, 2 * j + 1, c)
  }

  /** One round of sifting down. */
  lemma SinkStep<A(!new)>(less: (A, A) -> bool, s: seq<Option<A>>, j: nat, c: nat)
    requires StrictWeakOrder(less) && Sinking(less, s, j) && 1 <= j < |s| && TopChild(less, s, j, c)
    requires less(s[c].value, s[j].value)
    ensures Sinking(less, Swapped(s, c, j), c)
  {
    var t := Swapped(s, c, j);
    forall i: nat | i / 2 != c ensures InOrder(less, t, i) {
      if i / 2 == j {
        assert i == 2 * j || i == 2 * j + 1;
      } else if i == j {
        assert NotAbove(less, s, c, j / 2);
      } else {
        assert InOrder(less, s, i);
      }
    }
    forall i: nat | i / 2 == c ensures NotAbove(less, t, i, c / 2) {
      assert InOrder(less, s, i);
    }
  }

  lemma SinkEnd<A(!new)>(less: (A, A) -> bool, s: seq<Option<A>>, j: nat, c: nat)
    requires StrictWeakOrder(less) && Sinking(less, s, j) && 1 <= j < |s|
    requires 2 * j < |s| ==> TopChild(less, s, j, c) && NotAbove(less, s, c, j)
    ensures Heap(less, s)
  {
  }

  /** Putting another element at place `j` of a heap whose last place is dropped. */
  lemma ReplacedRising<A(!new)>(less: (A, A) -> bool, s: seq<Option<A>>, j: nat)
    requires StrictWeakOrder(less) && Heap(less, s) && 1 <= j < |s| - 1
    ensures Rising(less, s[j := s[|s| - 1]][..|s| - 1], j, true)
  {
    var t := s[j := s[|s| - 1]][..|s| - 1];
    forall i: nat | i != j && i / 2 != j ensures InOrder(less, t, i) {
      assert InOrder(less, s, i);
    }
    forall i: nat | i / 2 == j ensures NotAbove(less, t, i, j / 2) {
      HeapSinking(less, s, j);
      assert NotAbove(less, s, i, j / 2);
    }
  }

  lemma AppendedRising<A(!new)>(less: (A, A) -> bool, s: seq<Option<A>>, a: A)
    requires StrictWeakOrder(less) && Heap(less, s) && 1 <= |s|
    ensures Rising(less, s + [Some(a)], |s|, false)
  {
    forall i: nat | i != |s| ensures InOrder(less, s + [Some(a)], i) {
      assert InOrder(less, s, i);
    }
  }

  lemma PrefixHeap<A>(less: (A, A) -> bool, s: seq<Option<A>>)
    requires Heap(less, s) && 1 <= |s|
    ensures Heap(less, s[..|s| - 1])
  {
    var t := s[..|s| - 1];
    forall i: nat ensures InOrder(less, t, i) {
      assert InOrder(less, s, i);
    }
  }

  /** The first place of a heap is not under any other. */
  lemma {:induction false} TopIsMinimum<A(!new)>(less: (A, A) -> bool, s: seq<Option<A>>, i: nat)
    requires StrictWeakOrder(less) && Heap(less, s) && 1 <= i < |s|
    ensures !less(s[i].value, s[1].value)
    decreases i
  {
    if i > 1 {
      assert InOrder(less, s, i);
      TopIsMinimum(less, s, i / 2);
    }
  }

  lemma SwappedInverse<A>(s: seq<Option<A>>, m: map<Option<A>, nat>, i: nat, j: nat)
    requires Inverse(s, m) && 1 <= i < |s| && 1 <= j < |s|
    ensures Inverse(Swapped(s, i, j), m[s[i] := j][s[j] := i])
    ensures m[s[i] := j][s[j] := i].Keys == m.Keys
  {
  }

  /** Moving the last element into place `i` and dropping what was there. */
  lemma RemovedInverse<A>(s: seq<Option<A>>, m: map<Option<A>, nat>, i: nat)
    requires Inverse(s, m) && 1 <= i < |s|
    ensures var n := |s| - 1;
            Inverse(s[i := s[n]][..n], m[s[n] := i] - {s[i]}) && (m[s[n] := i] - {s[i]}).Keys == m.Keys - {s[i]}
  {
  }

  lemma AppendedInverse<A>(s: seq<Option<A>>, m: map<Option<A>, nat>, a: A)
    requires Inverse(s, m) && Some(a) !in m
    ensures Inverse(s + [Some(a)], m[Some(a) := |s|])
  {
  }

  ghost function Values<A(!new)>(keys: set<Option<A>>): set<A>
  {
    set x | x in keys && x.Some? :: x.value
  }

  class IndexedPriorityQueue<A(==, !new)> {
    const less: (A, A) -> bool
    var pq: seq<Option<A>>
    var indices: map<Option<A>, nat>

    /** What the sift loops keep: the map is the inverse of the array. */
    ghost predicate Indexed()
      reads this
    {
      StrictWeakOrder(less) && Inverse(pq, indices)
    }

    /** The array is a heap and the map is its inverse. */
    ghost predicate Valid()
      reads this
    {
      Indexed() && Heap(less, pq)
    }

    ghost function Contents(): set<A>
      reads this
    {
      Values(indices.Keys)
    }

    constructor (less: (A, A) -> bool)
      requires StrictWeakOrder(less)
      ensures Valid() && Contents() == {} && this.less == less
    {
      this.less := less;
      pq, indices := [None], map[None := 0];
    }

    function Size(): nat
      requires |pq| >= 1
      reads this
    {
      |pq| - 1
    }

    ghost function First(): Option<A>
      reads this
    {
      if |pq| > 1 then pq[1] else None
    }

    method Contains(a: Option<A>) returns (r: bool)
      requires Valid()
      ensures r <==> a.Some? && a.value in Contents()
    {
      r := a.Some? && a in indices;
    }

    method Top() returns (a: Option<A>)
      requires Valid()
      ensures a.None? <==> Contents() == {}
      ensures a == First()
      ensures a.Some? ==> a.value in Contents() && forall b :: b in Contents() ==> !less(b, a.value)
    {
      if Size() < 1 {
        forall x | x in indices ensures x == None { assert x == pq[indices[x]]; }
        return None;
      }
      a := pq[1];
      assert a in indices && a.value in Contents();
      forall b | b in Contents() ensures !less(b, a.value) {
        assert Some(b) in indices;
        TopIsMinimum(less, pq, indices[Some(b)]);
      }
    }

    /** Whether place `i` belongs above place `j`; places outside the array never do. */
    predicate Higher(i: nat, j: nat)
      requires Elems(pq)
      reads this
    {
      0 < i < |pq| && 0 < j < |pq| && less(pq[i].value, pq[j].value)
    }

    method SwapIndices(i: nat, j: nat)
      requires Indexed()
      modifies this
      ensures Indexed() && indices.Keys == old(indices.Keys)
      ensures pq == if 0 < i < |old(pq)| && 0 < j < |old(pq)| then Swapped(old(pq), i, j) else old(pq)
    {
      if !(0 < i < |pq| && 0 < j < |pq|) {
        return;
      }
      var a, b := pq[i], pq[j];
      SwappedInverse(pq, indices, i, j);
      pq := pq[i := b][j := a];
      indices := indices[a := j];
      indices := indices[b := i];
    }

    method SiftUp(start: nat, ghost below: bool)
      requires Indexed() && Rising(less, pq, start, below) && 1 <= start < |pq|
      modifies this
      ensures Indexed() && indices.Keys == old(indices.Keys) && |pq| == |old(pq)|
      ensures below ==> Sinking(less, pq, start)
      ensures !below ==> Heap(less, pq)
    {
      var idx := start;
      ghost var b := below;
      while idx > 1
        invariant Indexed() && indices.Keys == old(indices.Keys) && |pq| == |old(pq)|
        invariant 1 <= idx < |pq| && Rising(less, pq, idx, b)
        invariant b ==> below && idx == start
        invariant idx == start ==> b == below
      {
        var parent := idx / 2;
        if Higher(idx, parent) {
          RiseStep(less, pq, idx, b);
          SwapIndices(idx, parent);
          b := false;
        } else {
          break;
        }
        idx := parent;
      }
      RiseEnd(less, pq, idx, b);
      if below && !b {
        HeapSinking(less, pq, start);
      }
    }

    method SiftDown(start: nat)
      requires Indexed() && Sinking(less, pq, start) && 1 <= start < |pq|
      modifies this
      ensures Valid() && indices.Keys == old(indices.Keys) && |pq| == |old(pq)|
    {
      var idx := start;
      ghost var c: nat := 0;
      while 2 * idx <= Size()
        invariant Indexed() && indices.Keys == old(indices.Keys) && |pq| == |old(pq)|
        invariant 1 <= idx < |pq| && Sinking(less, pq, idx)
        decreases |pq| - idx
      {
        var child := 2 * idx;
        if child < Size() && Higher(child + 1, child) {
          child := child + 1;
        }
        c := child;
        assert TopChild(less, pq, idx, child);
        if Higher(child, idx) {
          SinkStep(less, pq, idx, child);
          SwapIndices(child, idx);
        } else {
          break;
        }
        idx := child;
      }
      SinkEnd(less, pq, idx, c);
    }

    method Push(a: Option<A>)
      requires Valid()
      modifies this
      ensures Valid() && Contents() == old(Contents()) + (if a.Some? then {a.value} else {})
    {
      if a.None? {
        return;
      }
      var present := Contains(a);
      if present {
        return;
      }
      AppendedInverse(pq, indices, a.value);
      AppendedRising(less, pq, a.value);
      pq := pq + [a];
      var idx := Size();
      indices := indices[a := idx];
      SiftUp(idx, false);
    }

    method Remove(a: Option<A>) returns (present: bool)
      requires Valid()
      modifies this
      ensures Valid()
      ensures present <==> a.Some? && a.value in old(Contents())
      ensures Contents() == old(Contents()) - (if a.Some? then {a.value} else {})
    {
      if a.None? {
        return false;
      }
      present := Contains(a);
      if !present {
        return;
      }
      var idx := indices[a];
      if idx == Size() {
        DropLast(a);
        return;
      }
      MoveLastTo(a, idx);
      SiftUp(idx, true);
      SiftDown(idx);
    }

    method DropLast(a: Option<A>)
      requires Valid() && |pq| > 1 && a == pq[|pq| - 1]
      modifies this
      ensures Valid() && indices.Keys == old(indices.Keys) - {a}
    {
      var n := |pq| - 1;
      RemovedInverse(pq, indices, n);
      PrefixHeap(less, pq);
      assert pq[n := pq[n]][..n] == pq[..n] && indices[a := n] == indices;
      pq := pq[..n];
      indices := indices - {a};
    }

    /** Puts the last element where `a` was, and forgets `a`. */
    method MoveLastTo(a: Option<A>, idx: nat)
      requires Valid() && 1 <= idx < |pq| - 1 && pq[idx] == a
      modifies this
      ensures Indexed() && indices.Keys == old(indices.Keys) - {a}
      ensures pq == old(pq)[idx := old(pq)[|old(pq)| - 1]][..|old(pq)| - 1]
      ensures Rising(less, pq, idx, true)
    {
      ghost var s, m, n := pq, indices, |pq| - 1;
      RemovedInverse(s, m, idx);
      ReplacedRising(less, s, idx);
      var last := pq[|pq| - 1];
      pq := pq[idx := last];
      pq := pq[..|pq| - 1];
      indices := indices[last := idx];
      indices := indices - {a};
      assert pq == s[idx := s[n]][..n] && indices == m[s[n] := idx] - {s[idx]};
    }

    method Pop()
      requires Valid()
      modifies this
      ensures Valid()
      ensures Contents() == old(Contents()) - (if old(First()).Some? then {old(First()).value} else {})
    {
      var a := Top();
      if a.None? {
        return;
      }
      if 1 == Size() {
        DropLast(a);
        return;
      }
      MoveLastTo(a, 1);
      RiseEnd(less, pq, 1, true);
      SiftDown(1);
    }

    method Clear()
      requires Valid()
      modifies this
      ensures Valid() && Contents() == {}
    {
      pq, indices := [None], map[None := 0];
    }
  }
}
