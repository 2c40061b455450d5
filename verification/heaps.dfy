/** Order in an array heap, as container/heap keeps it, seen on the sequence of keys. */
module Heaps {

  function Parent(c: nat): nat
    requires c > 0
  {
    (c - 1) / 2
  }

  predicate Edge(keys: seq<int>, c: nat)
    requires 0 < c < |keys|
  {
    keys[Parent(c)] <= keys[c]
  }

  /** The first n keys are in heap order below every node from lo on. */
  ghost predicate HeapFrom(keys: seq<int>, n: nat, lo: nat)
    requires n <= |keys|
  {
    forall c: nat :: 0 < c < n && lo <= Parent(c) ==> Edge(keys, c)
  }

  ghost predicate Heap(keys: seq<int>) {
    HeapFrom(keys, |keys|, 0)
  }

  /** Order, as container/heap promises it. */
  lemma HeapIff(keys: seq<int>)
    ensures Heap(keys)
            <==> forall p: nat, c: nat :: c < |keys| && (c == 2 * p + 1 || c == 2 * p + 2) ==> keys[p] <= keys[c]
  {
    if Heap(keys) {
      forall p: nat, c: nat | c < |keys| && (c == 2 * p + 1 || c == 2 * p + 2)
        ensures keys[p] <= keys[c]
      {
        assert Edge(keys, c);
      }
    } else {
      var c: nat :| 0 < c < |keys| && !Edge(keys, c);
      assert c == 2 * Parent(c) + 1 || c == 2 * Parent(c) + 2;
    }
  }

  /** In order but for the edges at i; whatever stands at i, its children are not below its parent. */
  ghost predicate HeapBut(keys: seq<int>, n: nat, lo: nat, i: nat)
    requires n <= |keys|
  {
    && (forall c: nat :: 0 < c < n && lo <= Parent(c) && c != i && Parent(c) != i ==> Edge(keys, c))
    && (forall c: nat :: 0 < c < n && Parent(c) == i && 0 < i && lo <= Parent(i) ==> keys[Parent(i)] <= keys[c])
  }

  ghost predicate ChildrenOK(keys: seq<int>, n: nat, i: nat)
    requires n <= |keys|
  {
    forall c: nat :: 0 < c < n && Parent(c) == i ==> Edge(keys, c)
  }

  predicate ParentOK(keys: seq<int>, lo: nat, i: nat)
    requires i < |keys|
  {
    0 < i && lo <= Parent(i) ==> Edge(keys, i)
  }

  lemma ButAndBothIsHeap(keys: seq<int>, n: nat, lo: nat, i: nat)
    requires n <= |keys| && i < |keys| && HeapBut(keys, n, lo, i) && ChildrenOK(keys, n, i) && ParentOK(keys, lo, i)
    ensures HeapFrom(keys, n, lo)
  {}

  function Swapped<T>(s: seq<T>, i: nat, j: nat): seq<T>
    requires i < |s| && j < |s|
  {
    s[i := s[j]][j := s[i]]
  }

  lemma SwappedMultiset<T>(s: seq<T>, i: nat, j: nat)
    requires i < |s| && j < |s|
    ensures multiset(Swapped(s, i, j)) == multiset(s)
  {}

  lemma SwappedSame<T>(s: seq<T>, i: nat, j: nat)
    requires i < |s| && j < |s|
    ensures forall k :: 0 <= k < |s| ==> Swapped(s, i, j)[k] in s
    ensures forall k :: 0 <= k < |s| ==> s[k] in Swapped(s, i, j)
  {
    var t := Swapped(s, i, j);
    forall k | 0 <= k < |s|
      ensures s[k] in t
    {
      assert t[if k == i then j else if k == j then i else k] == s[k];
    }
  }

  predicate Distinct<T(==)>(s: seq<T>) {
    forall i, j :: 0 <= i < j < |s| ==> s[i] != s[j]
  }

  lemma DistinctAppend<T>(s: seq<T>, x: T)
    ensures Distinct(s + [x]) <==> Distinct(s) && x !in s
  {
    var longer := s + [x];
    assert forall k :: 0 <= k < |s| ==> longer[k] == s[k];
    assert longer[|s|] == x;
    if x in s {
      var k :| 0 <= k < |s| && s[k] == x;
      assert longer[k] == longer[|s|];
    }
    if i, j :| 0 <= i < j < |s| && s[i] == s[j] {
      assert longer[i] == longer[j];
    }
  }

  lemma {:induction false} DistinctCounts<T>(s: seq<T>)
    ensures Distinct(s) <==> forall x :: x in s ==> multiset(s)[x] == 1
  {
    if s != [] {
      var t, x := s[..|s| - 1], s[|s| - 1];
      assert s == t + [x];
      DistinctAppend(t, x);
      DistinctCounts(t);
      assert forall y :: y in s <==> y in t || y == x;
      assert x in t <==> x in multiset(t);
    }
  }

  /** Whether anything occurs twice does not depend on the order. */
  lemma DistinctSameMultiset<T>(a: seq<T>, b: seq<T>)
    requires multiset(a) == multiset(b)
    ensures Distinct(a) <==> Distinct(b)
  {
    DistinctCounts(a);
    DistinctCounts(b);
    assert forall x :: x in a <==> x in multiset(a);
    assert forall x :: x in b <==> x in multiset(b);
  }

  lemma SwappedTail<T>(s: seq<T>, i: nat, j: nat, n: nat)
    requires i < n <= |s| && j < n
    ensures Swapped(s, i, j)[n..] == s[n..]
  {}

  /** In order below every later node is in order below i but for the edges at i. */
  lemma BelowNext(keys: seq<int>, i: nat)
    requires i < |keys| && HeapFrom(keys, |keys|, i + 1)
    ensures HeapBut(keys, |keys|, i, i)
  {}

  lemma LeastParentOK(keys: seq<int>, i: nat)
    requires i < |keys|
    ensures ParentOK(keys, i, i)
  {}

  lemma LeavesInOrder(keys: seq<int>, i: nat)
    requires i == |keys| / 2
    ensures HeapFrom(keys, |keys|, i)
  {}

  lemma HeapShorter(keys: seq<int>)
    requires Heap(keys) && keys != []
    ensures HeapFrom(keys, |keys| - 1, 0)
  {}

  lemma RootOK(keys: seq<int>)
    requires keys != []
    ensures ParentOK(keys, 0, 0)
  {}

  lemma NotBelowParent(keys: seq<int>, i: nat)
    requires 0 < i < |keys| && keys[i] >= keys[Parent(i)]
    ensures ParentOK(keys, 0, i)
  {}

  /** The first n keys of a heap over n slots are a heap of their own. */
  lemma HeapPrefix(keys: seq<int>, n: nat)
    requires n <= |keys| && HeapFrom(keys, n, 0)
    ensures Heap(keys[..n])
  {
    forall c: nat | 0 < c < n
      ensures Edge(keys[..n], c)
    {
      assert Edge(keys, c);
    }
  }

  lemma NoChild(keys: seq<int>, n: nat, i: nat)
    requires n <= |keys| && 2 * i + 1 >= n
    ensures ChildrenOK(keys, n, i)
  {}

  lemma NoSmallerChild(keys: seq<int>, n: nat, i: nat, j: nat)
    requires n <= |keys| && 0 < j < n && Parent(j) == i && keys[j] >= keys[i]
    requires forall c: nat :: 0 < c < n && Parent(c) == i ==> keys[j] <= keys[c]
    ensures ChildrenOK(keys, n, i)
  {}

  /** Exchanging a node with its smaller child moves the fault down to that child. */
  lemma SwapDown(keys: seq<int>, n: nat, lo: nat, i: nat, j: nat)
    requires n <= |keys| && lo <= i && 0 < j < n && Parent(j) == i && HeapBut(keys, n, lo, i)
    requires keys[j] < keys[i]
    requires forall c: nat :: 0 < c < n && Parent(c) == i ==> keys[j] <= keys[c]
    ensures HeapBut(Swapped(keys, i, j), n, lo, j) && ParentOK(Swapped(keys, i, j), lo, j)
    ensures ParentOK(Swapped(keys, i, j), lo, i)
  {
    var after := Swapped(keys, i, j);
    forall c: nat | 0 < c < n && lo <= Parent(c) && c != j && Parent(c) != j
      ensures Edge(after, c)
    {
      if c != i && Parent(c) != i {
        assert Edge(keys, c);
      }
    }
    forall c: nat | 0 < c < n && Parent(c) == j
      ensures after[Parent(j)] <= after[c]
    {
      assert Edge(keys, c);
    }
  }

  /** Exchanging a node with its parent moves the fault up to the parent. */
  lemma SwapUp(keys: seq<int>, n: nat, i: nat)
    requires 0 < i < n <= |keys| && HeapBut(keys, n, 0, i) && ChildrenOK(keys, n, i) && keys[i] < keys[Parent(i)]
    ensures var after := Swapped(keys, Parent(i), i);
            HeapBut(after, n, 0, Parent(i)) && ChildrenOK(after, n, Parent(i))
  {
    var p := Parent(i);
    var after := Swapped(keys, p, i);
    forall c: nat | 0 < c < n && c != p && Parent(c) != p
      ensures Edge(after, c)
    {
      if c != i && Parent(c) != i {
        assert Edge(keys, c);
      }
    }
    forall c: nat | 0 < c < n && Parent(c) == p
      ensures Edge(after, c)
      ensures 0 < p ==> after[Parent(p)] <= after[c]
    {
      if c != i {
        assert Edge(keys, c);
      }
      if 0 < p {
        assert Edge(keys, p);
      }
    }
  }

  /** Changing one key of a heap leaves it in order but at that node. */
  lemma ChangeOneKey(keys: seq<int>, i: nat, key: int)
    requires Heap(keys) && i < |keys|
    ensures HeapBut(keys[i := key], |keys|, 0, i)
  {
    var after := keys[i := key];
    forall c: nat | 0 < c < |keys| && c != i && Parent(c) != i
      ensures Edge(after, c)
    {
      assert Edge(keys, c);
    }
    forall c: nat | 0 < c < |keys| && Parent(c) == i && 0 < i
      ensures after[Parent(i)] <= after[c]
    {
      assert Edge(keys, c) && Edge(keys, i);
    }
  }

  /** A key put behind a heap can be wrong only where it stands. */
  lemma KeyAppended(keys: seq<int>, key: int)
    requires Heap(keys)
    ensures HeapBut(keys + [key], |keys| + 1, 0, |keys|)
  {
    assert forall c: nat :: 0 < c < |keys| ==> Edge(keys, c);
  }

  /** Bringing the last key to node i and leaving it out behind. */
  lemma MoveLastTo(keys: seq<int>, i: nat)
    requires Heap(keys) && i < |keys| - 1
    ensures HeapBut(Swapped(keys, i, |keys| - 1), |keys| - 1, 0, i)
  {
    var n := |keys| - 1;
    var after := Swapped(keys, i, n);
    forall c: nat | 0 < c < n && c != i && Parent(c) != i
      ensures Edge(after, c)
    {
      assert Edge(keys, c);
    }
    forall c: nat | 0 < c < n && Parent(c) == i && 0 < i
      ensures after[Parent(i)] <= after[c]
    {
      assert Edge(keys, c) && Edge(keys, i);
    }
  }

  /** The root of a heap is a least key. */
  lemma {:induction false} RootIsLeast(keys: seq<int>, k: nat)
    requires Heap(keys) && k < |keys|
    ensures keys[0] <= keys[k]
    decreases k
  {
    if k > 0 {
      assert Edge(keys, k);
      RootIsLeast(keys, Parent(k));
    }
  }
}
