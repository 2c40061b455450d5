/** The queue of pieces not yet taken: a min-heap on availability whose pieces know their place. The heap
    operations are those of container/heap over this queue's Less, Swap, Push and Pop. */
module DownloadQueues {
  import opened Heaps
  import opened Pieces

  /** What RemoveAt comes to: a piece, the fatal exit for an index beyond the length, or the panic of heap.Remove
      at the length itself, which the guard lets through. */
  datatype Removal = Removed(item: Piece) | Exit | Panic

  class DownloadQueue {
    var queue: seq<Piece>
    var locked: bool   // whether the mutex was left locked; a call that locks it again never returns

    constructor ()
      ensures queue == [] && Valid() && !locked
    {
      queue := [];
      locked := false;
    }

    /** Every piece records a place where it is. */
    ghost predicate Located()
      reads this, queue
    {
      forall i :: 0 <= i < |queue| ==> IsAt(queue[i])
    }

    ghost predicate IsAt(piece: Piece)
      reads this, piece
    {
      0 <= piece.queueIndex < |queue| && queue[piece.queueIndex] == piece
    }

    /** Every place is the one its piece records; so no piece is in the queue twice. */
    ghost predicate Indexed()
      reads this, queue
    {
      forall i :: 0 <= i < |queue| ==> queue[i].queueIndex == i
    }

    lemma IndexedIffDistinct()
      requires Located()
      ensures Indexed() <==> Distinct(queue)
    {
      if Distinct(queue) {
        forall i | 0 <= i < |queue|
          ensures queue[i].queueIndex == i
        {
          assert IsAt(queue[i]);
        }
      }
    }

    ghost function Keys(): (keys: seq<int>)
      reads this, queue
      ensures |keys| == |queue| && forall i :: 0 <= i < |queue| ==> keys[i] == queue[i].availability
    {
      seq(|queue|, i requires 0 <= i < |queue| reads this, queue => queue[i].availability)
    }

    ghost predicate Valid()
      reads this, queue
    {
      Located() && Heap(Keys())
    }

    ghost function Members(): set<Piece>
      reads this
    {
      set piece | piece in queue
    }

    method Less(i: nat, j: nat) returns (less: bool)
      requires i < |queue| && j < |queue|
      ensures less <==> Keys()[i] < Keys()[j]
    {
      less := queue[i].availability < queue[j].availability;
    }

    method Swap(i: nat, j: nat)
      requires Located() && i < |queue| && j < |queue|
      modifies this`queue, Members()`queueIndex
      ensures Located() && queue == Swapped(old(queue), i, j) && Keys() == Swapped(old(Keys()), i, j)
      ensures multiset(queue) == multiset(old(queue)) && Members() == old(Members()) && |queue| == old(|queue|)
    {
      ghost var before, keys := queue, Keys();
      SwappedMultiset(queue, i, j);
      SwappedSame(queue, i, j);
      queue := queue[i := queue[j]][j := queue[i]];
      queue[i].queueIndex := i;
      queue[j].queueIndex := j;
      assert queue == Swapped(before, i, j);
      forall k | 0 <= k < |queue|
        ensures IsAt(queue[k])
      {
        var m := if k == i then j else if k == j then i else k;
        assert queue[k] == before[m];
        assert old(IsAt(before[m]));
      }
      assert Keys() == Swapped(keys, i, j);
    }

    /** The child of i with the smaller key, the left one if they are equal. */
    method SmallerChild(i: nat, n: nat) returns (j: nat)
      requires n <= |queue| && 2 * i + 1 < n
      ensures 0 < j < n && Parent(j) == i
      ensures forall c: nat :: 0 < c < n && Parent(c) == i ==> Keys()[j] <= Keys()[c]
    {
      j := 2 * i + 1;
      if j + 1 < n {
        var rightLess := Less(j + 1, j);
        if rightLess {
          j := j + 1;
        }
      }
      assert forall c: nat :: 0 < c && Parent(c) == i ==> c == 2 * i + 1 || c == 2 * i + 2;
    }

    /** One round of heap.down: the node changes places with its smaller child, or stays. */
    method DownOnce(i: nat, n: nat, ghost lo: nat) returns (next: nat)
      requires Located() && lo <= i < n <= |queue| && HeapBut(Keys(), n, lo, i)
      modifies this`queue, Members()`queueIndex
      ensures Located() && multiset(queue) == multiset(old(queue))
      ensures Members() == old(Members()) && |queue| == old(|queue|)
      ensures queue[n..] == old(queue[n..]) && i <= next < n && HeapBut(Keys(), n, lo, next)
      ensures next == i ==> queue == old(queue) && Keys() == old(Keys()) && ChildrenOK(Keys(), n, i)
      ensures next > i ==> ParentOK(Keys(), lo, next)
    {
      hide HeapBut, ChildrenOK, ParentOK, Members;
      next := i;
      if 2 * i + 1 >= n {
        NoChild(Keys(), n, i);
      } else {
        var j := SmallerChild(i, n);
        var less := Less(j, i);
        if less {
          SwapDown(Keys(), n, lo, i, j);
          SwappedTail(queue, i, j, n);
          Swap(i, j);
          next := j;
        } else {
          NoSmallerChild(Keys(), n, i, j);
        }
      }
    }

    /** heap.down from node start within the first n; tells whether anything moved. */
    method Down(start: nat, n: nat, ghost lo: nat) returns (moved: bool)
      requires Located() && lo <= start < n <= |queue| && HeapBut(Keys(), n, lo, start)
      modifies this`queue, Members()`queueIndex
      ensures Located() && multiset(queue) == multiset(old(queue))
      ensures Members() == old(Members()) && |queue| == old(|queue|)
      ensures queue[n..] == old(queue[n..])
      ensures moved ==> HeapFrom(Keys(), n, lo)
      ensures !moved ==> queue == old(queue) && HeapBut(Keys(), n, lo, start) && ChildrenOK(Keys(), n, start)
    {
      hide HeapBut, ChildrenOK, ParentOK, HeapFrom, Located, Keys, Members;
      var i := start;
      var sifting := true;
      ghost var before := queue;
      while sifting
        invariant Located() && Members() == old(Members()) && |queue| == old(|queue|) && start <= i < n
        invariant multiset(queue) == multiset(before) && queue[n..] == before[n..]
        invariant HeapBut(Keys(), n, lo, i) && (i > start ==> ParentOK(Keys(), lo, i))
        invariant i == start ==> queue == before
        invariant !sifting ==> ChildrenOK(Keys(), n, i)
        decreases n - i, sifting
      {
        var next := DownOnce(i, n, lo);
        sifting := next != i;
        i := next;
      }
      moved := i > start;
      if moved {
        ButAndBothIsHeap(Keys(), n, lo, i);
      }
    }

    /** One round of heap.up: the node changes places with its parent, or stays. */
    method UpOnce(j: nat, ghost n: nat) returns (next: nat)
      requires Located() && j < n <= |queue| && HeapBut(Keys(), n, 0, j) && ChildrenOK(Keys(), n, j)
      modifies this`queue, Members()`queueIndex
      ensures Located() && multiset(queue) == multiset(old(queue))
      ensures Members() == old(Members()) && |queue| == old(|queue|)
      ensures queue[n..] == old(queue[n..]) && next <= j
      ensures HeapBut(Keys(), n, 0, next) && ChildrenOK(Keys(), n, next)
      ensures next == j ==> ParentOK(Keys(), 0, j)
    {
      hide HeapBut, ChildrenOK, ParentOK, Members;
      next := j;
      if j == 0 {
        RootOK(Keys());
      } else {
        var i := Parent(j);
        var less := Less(j, i);
        if less {
          SwapUp(Keys(), n, j);
          SwappedTail(queue, i, j, n);
          Swap(i, j);
          next := i;
        } else {
          NotBelowParent(Keys(), j);
        }
      }
    }

    /** heap.up from node start, seen within the first n. */
    method Up(start: nat, ghost n: nat)
      requires Located() && start < n <= |queue| && HeapBut(Keys(), n, 0, start) && ChildrenOK(Keys(), n, start)
      modifies this`queue, Members()`queueIndex
      ensures Located() && multiset(queue) == multiset(old(queue))
      ensures Members() == old(Members()) && |queue| == old(|queue|)
      ensures HeapFrom(Keys(), n, 0) && queue[n..] == old(queue[n..])
    {
      hide HeapBut, ChildrenOK, ParentOK, Members;
      var j: nat := start;
      var climbing := true;
      ghost var before := queue;
      while climbing
        invariant Located() && Members() == old(Members()) && |queue| == old(|queue|) && j < n
        invariant multiset(queue) == multiset(before) && queue[n..] == before[n..]
        invariant HeapBut(Keys(), n, 0, j) && ChildrenOK(Keys(), n, j)
        invariant !climbing ==> ParentOK(Keys(), 0, j)
        decreases j, climbing
      {
        var next := UpOnce(j, n);
        climbing := next != j;
        j := next;
      }
      ButAndBothIsHeap(Keys(), n, 0, j);
    }

    /** heap.Fix within the first n slots: down, and up if nothing moved. */
    method FixWithin(i: nat, n: nat)
      requires Located() && i < n <= |queue| && HeapBut(Keys(), n, 0, i)
      modifies this`queue, Members()`queueIndex
      ensures Located() && multiset(queue) == multiset(old(queue))
      ensures Members() == old(Members()) && |queue| == old(|queue|)
      ensures HeapFrom(Keys(), n, 0) && queue[n..] == old(queue[n..])
    {
      hide HeapBut, ChildrenOK, HeapFrom, Members;
      var moved := Down(i, n, 0);
      if !moved {
        Up(i, n);
      }
    }

    /** fixQueue: restores the order after the key at i changed. */
    method FixQueue(i: nat)
      requires Located() && i < |queue| && HeapBut(Keys(), |queue|, 0, i)
      modifies this`queue, Members()`queueIndex
      ensures Valid() && multiset(queue) == multiset(old(queue))
      ensures Members() == old(Members()) && |queue| == old(|queue|)
      ensures Indexed() <==> old(Indexed())
    {
      hide Located, Indexed, Distinct, HeapBut, HeapFrom, Keys, Members;
      ghost var before := queue;
      IndexedIffDistinct();
      FixWithin(i, |queue|);
      DistinctSameMultiset(queue, before);
      IndexedIffDistinct();
    }

    /** The change of one piece's availability, followed by the fix, as updatePiecePriority does it. */
    method Reprioritise(piece: Piece, availability: int)
      requires Valid() && Indexed() && piece in queue
      modifies this`queue, Members()`queueIndex, piece`availability
      ensures Valid() && multiset(queue) == multiset(old(queue)) && piece.availability == availability
    {
      ghost var keys := Keys();
      var i := piece.queueIndex;
      assert queue[i] == piece;
      piece.availability := availability;
      assert Keys() == keys[i := availability];
      ChangeOneKey(keys, i, availability);
      FixQueue(i);
    }

    /** The part of Push before the fix. */
    method PutLast(piece: Piece)
      requires Located()
      modifies this`queue, piece`queueIndex
      ensures Located() && queue == old(queue) + [piece] && piece.queueIndex == old(|queue|)
      ensures Keys() == old(Keys()) + [piece.availability] && Members() == old(Members()) + {piece}
    {
      ghost var before, keys := queue, Keys();
      piece.queueIndex := |queue|;
      queue := queue + [piece];
      forall k | 0 <= k < |queue|
        ensures IsAt(queue[k])
      {
        if k < |before| && before[k] != piece {
          assert old(IsAt(before[k]));
        }
      }
      assert Keys() == keys + [piece.availability];
      hide Keys, Located;
    }

    /** A piece that is queued already is queued twice: the heap stays in order, but its places are no longer all
        recorded. */
    method Push(piece: Piece)
      requires !locked && Valid()
      modifies this`queue, Members()`queueIndex, piece`queueIndex
      ensures Valid() && |queue| == old(|queue|) + 1 && multiset(queue) == multiset(old(queue)) + multiset{piece}
      ensures Indexed() <==> old(Indexed()) && piece !in old(queue)
    {
      hide Located, Indexed, Distinct, Keys, Members, Heap, HeapBut;
      ghost var before, keys := queue, Keys();
      IndexedIffDistinct();
      PutLast(piece);
      KeyAppended(keys, piece.availability);
      DistinctAppend(before, piece);
      ghost var grown := queue;
      FixQueue(piece.queueIndex);
      DistinctSameMultiset(queue, grown);
      IndexedIffDistinct();
    }

    /** Takes the last slot, as heap.Remove calls it. On the empty queue it returns nil with the mutex locked. */
    method Pop() returns (item: Piece?)
      requires !locked && Located()
      modifies this`queue, this`locked, Members()`queueIndex
      ensures old(queue) == [] ==> item == null && locked && queue == []
      ensures old(queue) != [] ==>
                && item == old(queue)[old(|queue|) - 1] && item.queueIndex == -1 && !locked
                && queue == old(queue)[..old(|queue|) - 1] && (Located() <==> item !in queue)
                && Keys() == old(Keys())[..|queue|] && multiset(queue) == multiset(old(queue)) - multiset{item}
    {
      locked := true;
      if queue == [] {
        return null;
      }
      ghost var before, keys := queue, Keys();
      var last := queue[|queue| - 1];
      last.queueIndex := NOT_QUEUED;
      queue := queue[..|queue| - 1];
      locked := false;
      assert before == queue + [last];
      forall k | 0 <= k < |queue| && queue[k] != last
        ensures IsAt(queue[k])
      {
        assert queue[k] == before[k] && old(IsAt(before[k]));
      }
      assert !IsAt(last);
      assert Keys() == keys[..|queue|];
      hide Keys, Located, Members;
      return last;
    }

    /** The part of heap.Remove before Pop: node i goes last and the rest is put in order. */
    method MoveToEnd(i: nat)
      requires Valid() && i < |queue|
      modifies this`queue, Members()`queueIndex
      ensures Located() && multiset(queue) == multiset(old(queue))
      ensures Members() == old(Members()) && |queue| == old(|queue|)
      ensures queue[|queue| - 1] == old(queue)[i] && HeapFrom(Keys(), |queue| - 1, 0)
    {
      hide HeapBut, HeapFrom, Heap, Located, Keys, Members;
      var n := |queue| - 1;
      if n != i {
        MoveLastTo(Keys(), i);
        Swap(i, n);
        ghost var last := queue[n..];
        FixWithin(i, n);
        assert queue[n] == queue[n..][0] == last[0];
      } else {
        HeapShorter(Keys());
      }
    }

    /** The part of heap.Remove that is Pop: all but the last are in order. */
    method PopRest() returns (item: Piece)
      requires !locked && Located() && queue != [] && HeapFrom(Keys(), |queue| - 1, 0)
      modifies this`queue, this`locked, Members()`queueIndex
      ensures Heap(Keys()) && (Located() <==> item !in queue)
      ensures item == old(queue)[old(|queue|) - 1] && item.queueIndex == -1 && !locked
      ensures old(queue) == queue + [item]
    {
      ghost var before := queue;
      hide Heap, HeapFrom, Keys, Located, Members;
      HeapPrefix(Keys(), |queue| - 1);
      var last := Pop();
      item := last;
      assert before == queue + [item];
    }

    /** MoveToEnd, and what it means for the recorded places. */
    method MoveAndKeep(i: nat)
      requires Valid() && i < |queue|
      modifies this`queue, Members()`queueIndex
      ensures Located() && multiset(queue) == multiset(old(queue))
      ensures Members() == old(Members()) && |queue| == old(|queue|)
      ensures queue[|queue| - 1] == old(queue)[i] && HeapFrom(Keys(), |queue| - 1, 0)
      ensures Indexed() <==> old(Indexed())
    {
      hide Located, Indexed, Distinct, HeapFrom, Heap, Keys, Members;
      ghost var before := queue;
      IndexedIffDistinct();
      MoveToEnd(i);
      DistinctSameMultiset(queue, before);
      IndexedIffDistinct();
    }

    method PopAndKeep() returns (item: Piece)
      requires !locked && Located() && queue != [] && HeapFrom(Keys(), |queue| - 1, 0)
      modifies this`queue, this`locked, Members()`queueIndex
      ensures Heap(Keys()) && (Located() <==> item !in queue)
      ensures item == old(queue)[old(|queue|) - 1] && item.queueIndex == -1 && !locked
      ensures multiset(queue) == multiset(old(queue)) - multiset{item}
      ensures old(Indexed()) ==> item !in queue && Indexed()
    {
      hide Located, Indexed, Distinct, HeapFrom, Heap, Keys, Members;
      ghost var before := queue;
      IndexedIffDistinct();
      item := PopRest();
      assert before == queue + [item];
      DistinctAppend(queue, item);
      if Located() {
        IndexedIffDistinct();
      }
    }

    /** heap.Remove behind the guard. If the piece is queued a second time, that place is not recorded any more. */
    method RemoveAt(i: nat) returns (r: Removal)
      requires !locked && Valid()
      modifies this`queue, this`locked, Members()`queueIndex
      ensures i > old(|queue|) ==> r.Exit?
      ensures i == old(|queue|) ==> r.Panic?
      ensures i >= old(|queue|) ==> queue == old(queue) && Valid()
      ensures i < old(|queue|) ==>
                && r == Removed(old(queue)[i]) && r.item.queueIndex == -1
                && multiset(queue) == multiset(old(queue)) - multiset{r.item}
                && Heap(Keys()) && (Located() <==> r.item !in queue)
      ensures i < old(|queue|) && old(Indexed()) ==> r.item !in queue && Valid() && Indexed()
      ensures !locked
    {
      hide HeapFrom, Keys, Located, Heap, Indexed, Members;
      if i > |queue| {
        return Exit;
      } else if i == |queue| {
        return Panic;
      }
      MoveAndKeep(i);
      var item := PopAndKeep();
      return Removed(item);
    }

    /** One round of heap.Init: what is in order below i + 1 is then in order below i. */
    method InitOnce(i: nat)
      requires Located() && i < |queue| && HeapFrom(Keys(), |queue|, i + 1)
      modifies this`queue, Members()`queueIndex
      ensures Located() && multiset(queue) == multiset(old(queue))
      ensures Members() == old(Members()) && |queue| == old(|queue|)
      ensures HeapFrom(Keys(), |queue|, i)
    {
      BelowNext(Keys(), i);
      hide HeapBut, HeapFrom, ChildrenOK, Keys, Members;
      var moved := Down(i, |queue|, i);
      if !moved {
        LeastParentOK(Keys(), i);
        ButAndBothIsHeap(Keys(), |queue|, i, i);
      }
    }

    /** The loop of heap.Init: every node with a child is sifted down, the last one first. */
    method SiftAll()
      requires Located()
      modifies this`queue, Members()`queueIndex
      ensures Valid() && multiset(queue) == multiset(old(queue))
      ensures Members() == old(Members()) && |queue| == old(|queue|)
    {
      var i := |queue| / 2;
      ghost var before := queue;
      LeavesInOrder(Keys(), i);
      hide HeapFrom, Located, Members;
      while i > 0
        invariant Located() && multiset(queue) == multiset(before)
        invariant Members() == old(Members()) && |queue| == old(|queue|)
        invariant 0 <= i <= |queue| / 2 && HeapFrom(Keys(), |queue|, i)
      {
        i := i - 1;
        InitOnce(i);
      }
    }

    method Init()
      requires Located()
      modifies this`queue, Members()`queueIndex
      ensures Valid() && multiset(queue) == multiset(old(queue))
      ensures Members() == old(Members()) && |queue| == old(|queue|)
      ensures Indexed() <==> old(Indexed())
    {
      hide Located, Indexed, Distinct, Heap, Keys, Members;
      ghost var before := queue;
      IndexedIffDistinct();
      SiftAll();
      DistinctSameMultiset(queue, before);
      IndexedIffDistinct();
    }
  }
}
