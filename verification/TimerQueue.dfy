/** The timer queue of core/timermanager.h: a binary heap of references whose keys
    live in the mutable timer objects. */
module TimerQueue {
  import opened TimerSpec
  import opened TimerHeap

  /** `id` stands for the object's address, which breaks ties. */
  class TimerInfo {
    var timeoutNs: nat
    var intervalNs: nat
    var active: bool
    const id: nat

    constructor (id: nat)
      ensures this.id == id && !active && timeoutNs == 0 && intervalNs == 0
    {
      this.id := id;
      timeoutNs, intervalNs, active := 0, 0, false;
    }

    function Key(): Key
      reads this
    {
      TimerSpec.Key(timeoutNs, id)
    }
  }

  function Keys(c: seq<TimerInfo>): (k: seq<Key>)
    reads c
    ensures |k| == |c| && forall i: nat :: i < |c| ==> k[i] == c[i].Key()
  {
    seq(|c|, i requires 0 <= i < |c| reads c => c[i].Key())
  }

  lemma KeysSwap(c: seq<TimerInfo>, i: nat, j: nat)
    requires i < |c| && j < |c|
    ensures Keys(Swap(c, i, j)) == Swap(Keys(c), i, j)
  {
  }

  /** No timer is queued twice, and no two queued timers share an address. */
  ghost predicate Once(c: seq<TimerInfo>) {
    (forall t :: t in c ==> multiset(c)[t] == 1) &&
    (forall t, u :: t in c && u in c && t.id == u.id ==> t == u)
  }

  /** std::push_heap: the last element rises to its place. */
  method SiftUp(c0: seq<TimerInfo>) returns (c: seq<TimerInfo>)
    requires c0 != [] && Heap(Keys(c0[..|c0| - 1]))
    ensures Heap(Keys(c)) && multiset(c) == multiset(c0) && |c| == |c0|
  {
    hide UpGap, HeapFrom, Before;
    c := c0;
    var i := |c| - 1;
    assert Keys(c0)[..|c0| - 1] == Keys(c0[..|c0| - 1]);
    LastGap(Keys(c0));
    while i > 0 && Before(c[i].Key(), c[Parent(i)].Key())
      invariant 0 <= i < |c| == |c0| && multiset(c) == multiset(c0)
      invariant UpGap(Keys(c), i)
    {
      Rise(Keys(c), i);
      KeysSwap(c, i, Parent(i));
      c := Swap(c, i, Parent(i));
      i := Parent(i);
    }
    Risen(Keys(c), i);
  }

  /** The element at r sinks to its place among its descendants. */
  method SiftDown(c0: seq<TimerInfo>, r: nat) returns (c: seq<TimerInfo>)
    requires r < |c0| && HeapFrom(Keys(c0), r + 1)
    ensures HeapFrom(Keys(c), r) && multiset(c) == multiset(c0) && |c| == |c0|
  {
    hide DownGap, HeapFrom, Parent, Before;
    c := c0;
    var i := r;
    FirstGap(Keys(c), r);
    while 2 * i + 1 < |c|
      invariant r <= i < |c| == |c0| && multiset(c) == multiset(c0)
      invariant DownGap(Keys(c), r, i)
      decreases |c| - i
    {
      var child := 2 * i + 1;
      if child + 1 < |c| && Before(c[child + 1].Key(), c[child].Key()) {
        child := child + 1;
      }
      TwoChildren(Keys(c), i, child);
      if !Before(c[child].Key(), c[i].Key()) {
        NotAfterChildren(Keys(c), i, child);
        Sunk(Keys(c), r, i);
        return;
      }
      Sink(Keys(c), r, i, child);
      KeysSwap(c, i, child);
      c := Swap(c, i, child);
      i := child;
    }
    NoChildren(Keys(c), i);
    Sunk(Keys(c), r, i);
  }

  /** std::make_heap. */
  method MakeHeap(c0: seq<TimerInfo>) returns (c: seq<TimerInfo>)
    ensures Heap(Keys(c)) && multiset(c) == multiset(c0) && |c| == |c0|
  {
    c := c0;
    var r: nat := |c| / 2;
    LeavesOnly(Keys(c));
    while r > 0
      invariant r <= |c| / 2 && |c| == |c0| && multiset(c) == multiset(c0)
      invariant HeapFrom(Keys(c), r)
    {
      c := SiftDown(c, r - 1);
      r := r - 1;
    }
  }

  /** std::pop_heap and pop_back: the last element takes the root's place and sinks. */
  method WithoutRoot(c: seq<TimerInfo>) returns (d: seq<TimerInfo>)
    requires c != [] && Heap(Keys(c))
    ensures Heap(Keys(d)) && multiset(d) == multiset(c) - multiset{c[0]} && |d| < |c|
  {
    hide HeapFrom, Keys;
    if |c| == 1 {
      d := [];
      OnlyOne(c, d);
      EmptyHeap(d);
    } else {
      var moved := c[|c| - 1..] + c[1..|c| - 1];
      LastToFront(c, moved);
      FrontReplaced(c, moved);
      d := SiftDown(moved, 0);
    }
  }

  lemma OnlyOne<T>(c: seq<T>, d: seq<T>)
    requires |c| == 1 && d == []
    ensures multiset(d) == multiset(c) - multiset{c[0]}
  {
    assert c == [c[0]];
  }

  lemma EmptyHeap(d: seq<TimerInfo>)
    requires d == []
    ensures Heap(Keys(d))
  {
  }

  lemma LastToFront<T>(c: seq<T>, d: seq<T>)
    requires |c| > 1 && d == c[|c| - 1..] + c[1..|c| - 1]
    ensures multiset(d) == multiset(c) - multiset{c[0]}
  {
    assert c == [c[0]] + c[1..|c| - 1] + c[|c| - 1..];
  }

  lemma FrontReplaced(c: seq<TimerInfo>, d: seq<TimerInfo>)
    requires |c| > 1 && Heap(Keys(c)) && d == c[|c| - 1..] + c[1..|c| - 1]
    ensures HeapFrom(Keys(d), 1)
  {
    assert forall i: nat :: 0 < i < |d| ==> Keys(d)[i] == Keys(c)[i];
    hide Keys;
    forall i: nat | 0 < i < |d| && Parent(i) >= 1
      ensures !Before(Keys(d)[i], Keys(d)[Parent(i)])
    {
      assert !Before(Keys(c)[i], Keys(c)[Parent(i)]);
    }
  }

  // ---------- The queue ----------

  /** The meaning of a backing vector: its timers by address, with the keys they hold now. */
  ghost function QueueOf(c: seq<TimerInfo>): (q: Queue)
    requires Once(c)
    reads c
    ensures forall t :: t in c ==> t.id in q && q[t.id] == Timer(t.timeoutNs, t.intervalNs)
    ensures forall id :: id in q ==> exists t :: t in c && t.id == id
  {
    map t | t in c :: t.id := Timer(t.timeoutNs, t.intervalNs)
  }

  lemma MembersRemoved<T>(c: seq<T>, d: seq<T>, t: T)
    requires t in c && multiset(d) == multiset(c) - multiset{t} && multiset(c)[t] == 1
    ensures forall u :: u in d <==> u in c && u != t
    ensures forall u :: u != t ==> multiset(d)[u] == multiset(c)[u]
  {
    forall u
      ensures u in d <==> u in c && u != t
    {
      assert u in d <==> u in multiset(d);
      assert u in c <==> u in multiset(c);
    }
  }

  lemma Removed(c: seq<TimerInfo>, d: seq<TimerInfo>, t: TimerInfo)
    requires Once(c) && t in c && multiset(d) == multiset(c) - multiset{t}
    ensures Once(d) && QueueOf(d) == QueueOf(c) - {t.id} && forall u :: u in d <==> u in c && u != t
  {
    MembersRemoved(c, d, t);
    assert Once(d);
    SameQueue(c, d, t);
  }

  lemma SameQueue(c: seq<TimerInfo>, d: seq<TimerInfo>, t: TimerInfo)
    requires Once(c) && Once(d) && t in c && forall u :: u in d <==> u in c && u != t
    ensures QueueOf(d) == QueueOf(c) - {t.id}
  {
    var q, r := QueueOf(c), QueueOf(d);
    forall id
      ensures id in r <==> id in q && id != t.id
      ensures id in r ==> r[id] == q[id]
    {
      if id in q {
        var u :| u in c && u.id == id;
        assert u != t ==> u in d;
      }
    }
  }

  lemma MembersAdded<T>(c: seq<T>, d: seq<T>, t: T)
    requires t !in c && multiset(d) == multiset(c + [t])
    ensures forall u :: u in d <==> u in c || u == t
    ensures multiset(d)[t] == 1 && forall u :: u != t ==> multiset(d)[u] == multiset(c)[u]
  {
    assert multiset(c + [t]) == multiset(c) + multiset{t};
    forall u
      ensures u in d <==> u in c || u == t
    {
      assert u in d <==> u in multiset(d);
      assert u in c <==> u in multiset(c);
    }
    assert t !in multiset(c);
  }

  lemma Inserted(c: seq<TimerInfo>, d: seq<TimerInfo>, t: TimerInfo)
    requires Once(c) && t !in c && multiset(d) == multiset(c + [t])
    requires forall u :: u in c ==> u.id != t.id
    ensures Once(d) && QueueOf(d) == QueueOf(c)[t.id := Timer(t.timeoutNs, t.intervalNs)]
    ensures forall u :: u in d <==> u in c || u == t
  {
    MembersAdded(c, d, t);
    assert Once(d);
    LargerQueue(c, d, t);
  }

  lemma LargerQueue(c: seq<TimerInfo>, d: seq<TimerInfo>, t: TimerInfo)
    requires Once(c) && Once(d) && forall u :: u in d <==> u in c || u == t
    requires forall u :: u in c ==> u.id != t.id
    ensures QueueOf(d) == QueueOf(c)[t.id := Timer(t.timeoutNs, t.intervalNs)]
  {
    var q, r := QueueOf(c), QueueOf(d);
    forall id
      ensures id in r <==> id in q || id == t.id
      ensures id in q ==> r[id] == q[id]
    {
      if id in q {
        var u :| u in c && u.id == id;
        assert u in d;
      }
    }
    assert t in d;
  }

  lemma Erased<T>(c: seq<T>, i: nat)
    requires i < |c|
    ensures multiset(c[..i] + c[i + 1..]) == multiset(c) - multiset{c[i]}
  {
    assert c == c[..i] + [c[i]] + c[i + 1..];
  }

  /** The root of the heap is the queue's first timer. */
  lemma RootIsTop(c: seq<TimerInfo>)
    requires Once(c) && c != [] && Heap(Keys(c))
    ensures QueueOf(c) != map[] && c[0].id == Top(QueueOf(c))
    ensures QueueOf(c)[c[0].id] == Timer(c[0].timeoutNs, c[0].intervalNs)
  {
    var q := QueueOf(c);
    assert c[0] in c;
    forall id | id in q && id != c[0].id
      ensures Before(KeyOf(q, c[0].id), KeyOf(q, id))
    {
      var t :| t in c && t.id == id;
      var i :| 0 <= i < |c| && c[i] == t;
      RootFirst(Keys(c), i);
    }
    assert IsTop(q, c[0].id);
    TopUnique(q, c[0].id, Top(q));
  }

  /** my_priority_queue. */
  class PriorityQueue {
    var c: seq<TimerInfo>

    ghost predicate Valid()
      reads this, c
    {
      Once(c) && Heap(Keys(c))
    }

    ghost function State(): Queue
      requires Valid()
      reads this, c
    {
      QueueOf(c)
    }

    constructor ()
      ensures c == [] && Valid() && State() == map[]
    {
      c := [];
    }

    /** Replace the backing vector by a rearranged one. */
    method Store(d: seq<TimerInfo>)
      requires Once(d) && Heap(Keys(d))
      modifies this
      ensures c == d && Valid() && State() == old(QueueOf(d))
    {
      hide QueueOf, Once, Heap, Keys;
      c := d;
    }

    method Push(t: TimerInfo)
      requires Valid() && t !in c && forall u :: u in c ==> u.id != t.id
      modifies this
      ensures Valid() && State() == old(State())[t.id := Timer(t.timeoutNs, t.intervalNs)]
      ensures forall u :: u in c <==> u in old(c) || u == t
    {
      hide QueueOf, Once, Keys, HeapFrom;
      assert (c + [t])[..|c + [t]| - 1] == c;
      var d := SiftUp(c + [t]);
      Inserted(c, d, t);
      Store(d);
    }

    /** std::pop_heap and pop_back. */
    method Pop() returns (t: TimerInfo)
      requires Valid() && c != []
      modifies this
      ensures |c| < |old(c)|
      ensures t == old(c)[0] && t.id == Top(old(State()))
      ensures Valid() && State() == old(State()) - {t.id}
      ensures forall u :: u in c <==> u in old(c) && u != t
    {
      hide QueueOf, Once, HeapFrom, Keys;
      t := c[0];
      RootIsTop(c);
      var d := WithoutRoot(c);
      Removed(c, d, t);
      Store(d);
    }

    method RemoveById(t: TimerInfo) returns (found: bool)
      requires Valid() && forall u :: u in c && u.id == t.id ==> u == t
      modifies this
      ensures found == (t in old(c))
      ensures Valid() && State() == old(State()) - {t.id}
      ensures forall u :: u in c <==> u in old(c) && u != t
    {
      hide QueueOf, Once, HeapFrom, Keys;
      if c == [] {
        NotQueued(c, t);
        return false;
      }
      if c[0] == t {
        var top := Pop();
        return true;
      }
      var i := 0;
      while i < |c| && c[i] != t
        invariant 0 <= i <= |c| && t !in c[..i]
      {
        i := i + 1;
      }
      if i < |c| {
        Erased(c, i);
        var d := MakeHeap(c[..i] + c[i + 1..]);
        Removed(c, d, t);
        Store(d);
        return true;
      }
      NotQueued(c, t);
      return false;
    }
  }

  lemma NotQueued(c: seq<TimerInfo>, t: TimerInfo)
    requires Once(c) && t !in c && forall u :: u in c && u.id == t.id ==> u == t
    ensures QueueOf(c) - {t.id} == QueueOf(c)
  {
    assert t.id !in QueueOf(c);
  }
}
