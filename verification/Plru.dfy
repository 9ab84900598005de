/** The tree-based replacement of the secondary level against its history of
    touches: the victim is the less recently touched way of the less recently
    touched pair. */
module Plru {
  import opened Bits
  import opened Translation
  import opened SoftTlb

  /** The ways of one set in the order they were touched. */
  type History = seq<nat>

  /** lru_bits of way k after a history, from the cleared state. */
  function LruAfter(h: History, k: nat): nat {
    if h == [] then 0 else Touched(h[|h| - 1], k, LruAfter(h[..|h| - 1], k))
  }

  /** When way k was last touched; -1 if never. */
  function LastTouch(h: History, k: nat): (t: int)
    ensures -1 <= t < |h|
    ensures t >= 0 ==> h[t] == k && forall j: nat :: t < j < |h| ==> h[j] != k
    ensures t == -1 ==> k !in h
  {
    if h == [] then -1
    else if h[|h| - 1] == k then |h| - 1
    else
      var t := LastTouch(h[..|h| - 1], k);
      assert k in h ==> k in h[..|h| - 1];
      t
  }

  function Sibling(k: nat): nat {
    if k % 2 == 0 then k + 1 else k - 1
  }

  /** When the pair of way k was last touched. */
  function PairTouch(h: History, k: nat): int {
    if LastTouch(h, k) > LastTouch(h, Sibling(k)) then LastTouch(h, k) else LastTouch(h, Sibling(k))
  }

  ghost predicate Ways(h: History) {
    forall i: nat :: i < |h| ==> h[i] < 4
  }

  /** Bit 1 says that the pair was touched last of all, bit 0 that the way was
      touched after its sibling. */
  lemma {:induction false} LruMeaning(h: History, k: nat)
    requires Ways(h) && k < 4
    ensures LruAfter(h, k) == (if h != [] && PairTouch(h, k) == |h| - 1 then 2 else 0) +
                              (if LastTouch(h, k) > LastTouch(h, Sibling(k)) then 1 else 0)
    decreases |h|
  {
    if h != [] {
      LruMeaning(h[..|h| - 1], k);
    }
  }

  /** The four bits of a set are the ones its history leaves. */
  predicate Recorded(slots: seq<Entry>, s: nat, h: History)
    requires |slots| == SLOTS && s < SETS
  {
    slots[5 * s + 1].lru == LruAfter(h, 0) && slots[5 * s + 2].lru == LruAfter(h, 1) &&
    slots[5 * s + 3].lru == LruAfter(h, 2) && slots[5 * s + 4].lru == LruAfter(h, 3)
  }

  predicate AllValid(slots: seq<Entry>, s: nat)
    requires |slots| == SLOTS && s < SETS
  {
    Valid(slots[5 * s + 1]) && Valid(slots[5 * s + 2]) && Valid(slots[5 * s + 3]) && Valid(slots[5 * s + 4])
  }

  lemma OlderPair(a: nat, b: nat)
    requires StateOf(a, b) == Older
    ensures multiset{a, b} == multiset{0, 1} && a / 2 == b / 2
  {
  }

  lemma RecentPair(a: nat, b: nat)
    requires StateOf(a, b) == Recent
    ensures multiset{a, b} == multiset{2, 3} && a / 2 == b / 2
  {
  }

  lemma FullTree(a: Entry, b: Entry, c: Entry, d: Entry)
    requires LruOk(a, b, c, d) && Valid(a) && Valid(b) && Valid(c) && Valid(d)
    ensures multiset{a.lru, b.lru, c.lru, d.lru} == multiset{0, 1, 2, 3}
    ensures a.lru / 2 == b.lru / 2 && c.lru / 2 == d.lru / 2
  {
    hide StateOf;
    if StateOf(a.lru, b.lru) == Older {
      OlderPair(a.lru, b.lru);
      RecentPair(c.lru, d.lru);
    } else {
      RecentPair(a.lru, b.lru);
      OlderPair(c.lru, d.lru);
    }
    assert multiset{a.lru, b.lru, c.lru, d.lru} == multiset{a.lru, b.lru} + multiset{c.lru, d.lru};
  }

  lemma SetTree(t: Tlb, s: nat)
    requires TlbOk(t) && s < SETS
    ensures LruOk(t.slots[5 * s + 1], t.slots[5 * s + 2], t.slots[5 * s + 3], t.slots[5 * s + 4])
  {
    assert SetOk(t.slots, s);
    hide Sets, Tracking, LruOk, EntryOk, Distinct, Agrees;
  }

  /** A full set's bits are a permutation of 0..3, so the last, unchecked branch of
      the victim choice finds 0 too. */
  lemma FullSetBits(t: Tlb, s: nat)
    requires TlbOk(t) && s < SETS && AllValid(t.slots, s)
    ensures multiset{t.slots[5 * s + 1].lru, t.slots[5 * s + 2].lru, t.slots[5 * s + 3].lru, t.slots[5 * s + 4].lru}
            == multiset{0, 1, 2, 3}
    ensures t.slots[5 * s + 1 + VictimWay(t.slots, s)].lru == 0
  {
    SetTree(t, s);
    FullTree(t.slots[5 * s + 1], t.slots[5 * s + 2], t.slots[5 * s + 3], t.slots[5 * s + 4]);
    SomeZero(t.slots[5 * s + 1].lru, t.slots[5 * s + 2].lru, t.slots[5 * s + 3].lru, t.slots[5 * s + 4].lru);
    hide TlbOk, LruOk;
  }

  lemma SomeZero(a: nat, b: nat, c: nat, d: nat)
    requires multiset{a, b, c, d} == multiset{0, 1, 2, 3}
    ensures a == 0 || b == 0 || c == 0 || d == 0
  {
    assert 0 in multiset{a, b, c, d};
  }

  predicate WayValid(slots: seq<Entry>, s: nat, k: nat)
    requires |slots| == SLOTS && s < SETS && k < 4
  {
    Valid(slots[5 * s + 1 + k])
  }

  /** A set with room takes a new page in its first free way. */
  lemma FirstFree(slots: seq<Entry>, s: nat)
    requires |slots| == SLOTS && s < SETS && !AllValid(slots, s)
    ensures var v := VictimWay(slots, s);
            !WayValid(slots, s, v) && forall k: nat :: k < v ==> WayValid(slots, s, k)
  {
    var v := VictimWay(slots, s);
    forall k: nat | k < v
      ensures WayValid(slots, s, k)
    {
      assert k == 0 || k == 1 || k == 2;
    }
  }

  lemma OldestBits(h: History, v: nat, k: nat)
    requires Ways(h) && v < 4 && k < 4 && k / 2 != v / 2
    requires LruAfter(h, v) == 0 && LruAfter(h, Sibling(v)) == 1 && LruAfter(h, k) >= 2
    ensures LastTouch(h, v) < LastTouch(h, Sibling(v)) && PairTouch(h, v) < PairTouch(h, k)
    ensures h != [] && h[|h| - 1] != v
  {
    hide LruAfter, LastTouch;
    LruMeaning(h, v);
    LruMeaning(h, Sibling(v));
    LruMeaning(h, k);
  }

  /** Where 0 sits among paired bits that permute 0..3. */
  lemma ZeroPair(a: nat, b: nat, c: nat, d: nat)
    requires multiset{a, b, c, d} == multiset{0, 1, 2, 3} && a / 2 == b / 2 && c / 2 == d / 2
    ensures a == 0 ==> b == 1 && c >= 2 && d >= 2
    ensures b == 0 ==> a == 1 && c >= 2 && d >= 2
    ensures c == 0 ==> d == 1 && a >= 2 && b >= 2
    ensures d == 0 ==> c == 1 && a >= 2 && b >= 2
  {
    assert a in multiset{a, b, c, d} && b in multiset{a, b, c, d} && c in multiset{a, b, c, d} && d in multiset{a, b, c, d};
    assert 1 in multiset{a, b, c, d} && 0 in multiset{a, b, c, d};
    assert multiset{a, b, c, d}[0] == 1 && multiset{a, b, c, d}[1] == 1;
  }

  /** The victim of a full set is the less recently touched way of the less recently
      touched pair; in particular it is never the way touched last. */
  lemma VictimIsOldestBy(t: Tlb, s: nat, h: History)
    requires TlbOk(t) && s < SETS && AllValid(t.slots, s) && Recorded(t.slots, s, h) && Ways(h)
    ensures var v := VictimWay(t.slots, s);
            && LastTouch(h, v) < LastTouch(h, Sibling(v))
            && (forall k: nat :: k < 4 && k / 2 != v / 2 ==> PairTouch(h, v) < PairTouch(h, k))
            && h != [] && h[|h| - 1] != v
  {
    hide LruOk, VictimWay, LruAfter, LastTouch, PairTouch, Sets, Tracking;
    var slots := t.slots;
    var v := VictimWay(slots, s);
    var a, b, c, d := slots[5 * s + 1], slots[5 * s + 2], slots[5 * s + 3], slots[5 * s + 4];
    FullSetBits(t, s);
    SetTree(t, s);
    FullTree(a, b, c, d);
    ZeroPair(a.lru, b.lru, c.lru, d.lru);
    assert LruAfter(h, v) == 0 && LruAfter(h, Sibling(v)) == 1;
    OldestBits(h, v, if v < 2 then 2 else 0);
    OldestBits(h, v, if v < 2 then 3 else 1);
  }

  // ---------- How the operations record history ----------

  lemma TouchRecords(slots: seq<Entry>, s: nat, way: nat, h: History)
    requires |slots| == SLOTS && s < SETS && way < 4 && Recorded(slots, s, h)
    ensures Recorded(TouchWay(slots, s, way), s, h + [way])
  {
    assert (h + [way])[..|h|] == h;
  }

  /** What touching a way of set s' adds to the history of set s. */
  function Noted(s: nat, s': nat, way: nat): History {
    if s == s' then [way] else []
  }

  lemma TouchAnywhere(slots: seq<Entry>, s: nat, s': nat, way: nat, h: History)
    requires |slots| == SLOTS && s < SETS && s' < SETS && way < 4 && Recorded(slots, s, h)
    ensures Recorded(TouchWay(slots, s', way), s, h + Noted(s, s', way))
  {
    if s == s' {
      TouchRecords(slots, s, way, h);
    } else {
      assert h + [] == h;
      hide LruAfter, Touched;
    }
  }

  /** A refill touches the way it fills. */
  lemma InstallRecords(t: Tlb, s: nat, s': nat, tag: u32, fill: Fill, changed: bool, h: History)
    requires |t.slots| == SLOTS && s < SETS && s' < SETS && Recorded(t.slots, s, h)
    ensures Recorded(Install(t, s', tag, fill, changed).slots, s, h + Noted(s, s', VictimWay(t.slots, s')))
  {
    var way := VictimWay(t.slots, s');
    TouchAnywhere(t.slots, s, s', way, h);
    hide VictimWay, LruAfter, TouchWay, Noted;
  }

  /** Mirroring PTE_SET_C touches the way that holds the page, if one does. */
  lemma MarkBothRecords(t: Tlb, s: nat, s': nat, h: History)
    requires |t.slots| == SLOTS && s < SETS && s' < SETS && Recorded(t.slots, s, h)
    ensures var way := FindWay(t.slots, s', t.slots[5 * s'].tag);
            Recorded(MarkBoth(t, s').slots, s, h + if way < 4 then Noted(s, s', way) else [])
  {
    var marked := MarkSlot(t.slots, 5 * s');
    var way := FindWay(t.slots, s', t.slots[5 * s'].tag);
    assert FindWay(marked, s', marked[5 * s'].tag) == way;
    MarkRecords(t.slots, s, 5 * s', h);
    hide LruAfter, TouchWay, FindWay, Noted, MarkSlot;
    if way < 4 {
      TouchAnywhere(marked, s, s', way, h);
      MarkRecords(TouchWay(marked, s', way), s, 5 * s' + 1 + way, h + Noted(s, s', way));
    } else {
      assert h + [] == h;
    }
  }

  lemma MarkRecords(slots: seq<Entry>, s: nat, i: nat, h: History)
    requires |slots| == SLOTS && s < SETS && i < SLOTS && Recorded(slots, s, h)
    ensures Recorded(MarkSlot(slots, i), s, h)
  {
    hide LruAfter;
  }

  /** Promotion, invalidation and flushes touch nothing. */
  lemma PromoteRecords(t: Tlb, s: nat, s': nat, way: nat, h: History)
    requires |t.slots| == SLOTS && s < SETS && s' < SETS && way < 4 && Recorded(t.slots, s, h)
    ensures Recorded(Promote(t, s', way).slots, s, h)
  {
    hide LruAfter;
  }

  lemma InvalidateRecords(t: Tlb, s: nat, sources: Sources, h: History)
    requires |t.slots| == SLOTS && (forall i :: i in t.tracked ==> i < SLOTS) && s < SETS && Recorded(t.slots, s, h)
    ensures Recorded(Invalidate(t, sources).slots, s, h)
  {
    hide LruAfter, Retained;
  }

  lemma FlushRecords(slots: seq<Entry>, s: nat, s': nat, tag: u32, h: History)
    requires |slots| == SLOTS && s < SETS && s' < SETS && Recorded(slots, s, h)
    ensures Recorded(FlushSet(slots, s', tag), s, h)
  {
    hide LruAfter;
  }
}
