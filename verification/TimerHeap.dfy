/** Binary heaps of keys: the order that std::push_heap, std::pop_heap and
    std::make_heap keep for the timer queue of core/timermanager.h. */
module TimerHeap {
  import opened TimerSpec

  function Parent(i: nat): (p: nat)
    requires i > 0
    ensures p < i
  {
    (i - 1) / 2
  }

  function Swap<T>(c: seq<T>, i: nat, j: nat): (d: seq<T>)
    requires i < |c| && j < |c|
    ensures |d| == |c| && multiset(d) == multiset(c)
  {
    c[i := c[j]][j := c[i]]
  }

  /** The heap order among the descendants of the nodes from r on. */
  ghost predicate HeapFrom(s: seq<Key>, r: nat) {
    forall i: nat :: 0 < i < |s| && Parent(i) >= r ==> !Before(s[i], s[Parent(i)])
  }

  ghost predicate Heap(s: seq<Key>) {
    HeapFrom(s, 0)
  }

  /** The root of a heap comes first. */
  lemma {:induction false} RootFirst(s: seq<Key>, i: nat)
    requires Heap(s) && i < |s|
    ensures !Before(s[i], s[0])
    decreases i
  {
    if i > 0 {
      RootFirst(s, Parent(i));
    }
  }

  // ---------- Rising ----------

  /** A heap but for the element at i, which may come before its parent. */
  ghost predicate UpGap(s: seq<Key>, i: nat) {
    && i < |s|
    && (forall k: nat :: 0 < k < |s| && k != i ==> !Before(s[k], s[Parent(k)]))
    && (forall k: nat :: 0 < i && 0 < k < |s| && Parent(k) == i ==> !Before(s[k], s[Parent(i)]))
  }

  lemma LastGap(s: seq<Key>)
    requires s != [] && Heap(s[..|s| - 1])
    ensures UpGap(s, |s| - 1)
  {
    forall k: nat | 0 < k < |s| && k != |s| - 1
      ensures !Before(s[k], s[Parent(k)])
    {
      assert s[..|s| - 1][k] == s[k] && s[..|s| - 1][Parent(k)] == s[Parent(k)];
    }
  }

  lemma Rise(s: seq<Key>, i: nat)
    requires UpGap(s, i) && i > 0 && Before(s[i], s[Parent(i)])
    ensures UpGap(Swap(s, i, Parent(i)), Parent(i))
  {
    var p := Parent(i);
    var d := Swap(s, i, p);
    forall k: nat | 0 < k < |d| && k != p
      ensures !Before(d[k], d[Parent(k)])
    {
      var q := Parent(k);
      assert q != k;
      if k == i {
        assert d[q] == s[i];
      } else {
        assert !Before(s[k], s[q]);
      }
    }
    forall k: nat | 0 < p && 0 < k < |d| && Parent(k) == p
      ensures !Before(d[k], d[Parent(p)])
    {
      assert !Before(s[p], s[Parent(p)]);
      if k != i {
        assert !Before(s[k], s[p]);
      }
    }
  }

  lemma Risen(s: seq<Key>, i: nat)
    requires UpGap(s, i) && (i > 0 ==> !Before(s[i], s[Parent(i)]))
    ensures Heap(s)
  {
  }

  // ---------- Sinking ----------

  /** A heap from r on but for the element at i, which may come after its children. */
  ghost predicate DownGap(s: seq<Key>, r: nat, i: nat) {
    && r <= i < |s|
    && (forall k: nat :: 0 < k < |s| && Parent(k) >= r && Parent(k) != i ==> !Before(s[k], s[Parent(k)]))
    && (forall k: nat :: r < i && 0 < k < |s| && Parent(k) == i && Parent(i) >= r ==> !Before(s[k], s[Parent(i)]))
  }

  lemma FirstGap(s: seq<Key>, r: nat)
    requires r < |s| && HeapFrom(s, r + 1)
    ensures DownGap(s, r, r)
  {
  }

  /** The smaller child takes the sinking element's place. */
  lemma Sink(s: seq<Key>, r: nat, i: nat, child: nat)
    requires DownGap(s, r, i) && i < child < |s| && Parent(child) == i && Before(s[child], s[i])
    requires forall k: nat :: 0 < k < |s| && Parent(k) == i ==> !Before(s[k], s[child])
    ensures DownGap(Swap(s, i, child), r, child)
  {
    var d := Swap(s, i, child);
    forall k: nat | 0 < k < |d| && Parent(k) >= r && Parent(k) != child
      ensures !Before(d[k], d[Parent(k)])
    {
      var q := Parent(k);
      assert q < k;
      if q == i {
        assert d[q] == s[child];
      } else {
        assert !Before(s[k], s[q]);
        if k == i {
          assert !Before(s[child], s[q]);
        }
      }
    }
    forall k: nat | 0 < k < |d| && Parent(k) == child
      ensures !Before(d[k], d[i])
    {
      assert child < k && !Before(s[k], s[child]);
    }
  }

  lemma Sunk(s: seq<Key>, r: nat, i: nat)
    requires DownGap(s, r, i)
    requires forall k: nat :: 0 < k < |s| && Parent(k) == i ==> !Before(s[k], s[i])
    ensures HeapFrom(s, r)
  {
  }

  lemma TwoChildren(s: seq<Key>, i: nat, child: nat)
    requires 2 * i + 1 <= child <= 2 * i + 2 && child < |s|
    requires if child == 2 * i + 1 then child + 1 < |s| ==> !Before(s[child + 1], s[child]) else Before(s[child], s[child - 1])
    ensures Parent(child) == i
    ensures forall k: nat :: 0 < k < |s| && Parent(k) == i ==> !Before(s[k], s[child])
  {
    forall k: nat | 0 < k < |s| && Parent(k) == i
      ensures !Before(s[k], s[child])
    {
      assert k == 2 * i + 1 || k == 2 * i + 2;
    }
  }

  lemma NotAfterChildren(s: seq<Key>, i: nat, child: nat)
    requires i < |s| && child < |s| && !Before(s[child], s[i])
    requires forall k: nat :: 0 < k < |s| && Parent(k) == i ==> !Before(s[k], s[child])
    ensures forall k: nat :: 0 < k < |s| && Parent(k) == i ==> !Before(s[k], s[i])
  {
  }

  lemma NoChildren(s: seq<Key>, i: nat)
    requires i < |s| <= 2 * i + 1
    ensures forall k: nat :: 0 < k < |s| && Parent(k) == i ==> !Before(s[k], s[i])
  {
  }

  lemma LeavesOnly(s: seq<Key>)
    ensures HeapFrom(s, |s| / 2)
  {
  }
}
