/** Every operation on a software TLB keeps its invariants and its coherence. */
module SoftTlbProofs {
  import opened Bits
  import opened Address
  import opened Translation
  import opened SoftTlb

  /** Two slot arrays that differ inside one set only. */
  predicate OnlySet(slots: seq<Entry>, slots': seq<Entry>, s: nat)
    requires |slots| == |slots'| == SLOTS
  {
    forall i: nat :: i < SLOTS && !(5 * s <= i < 5 * s + 5) ==> slots'[i] == slots[i]
  }

  lemma SetsFrame(slots: seq<Entry>, slots': seq<Entry>, s: nat)
    requires |slots| == |slots'| == SLOTS && s < SETS
    requires Sets(slots) && OnlySet(slots, slots', s) && SetOk(slots', s)
    ensures Sets(slots')
  {
    forall q: nat | q < SETS
      ensures SetOk(slots', q)
    {
      if q != s {
        assert SetOk(slots, q);
      }
    }
  }

  // ---------- Touching a way ----------

  lemma TouchedTree(a: nat, b: nat, c: nat, d: nat, way: nat)
    requires way < 4 && TreeOk(StateOf(a, b), StateOf(c, d))
    ensures var x := StateOf(Touched(way, 0, a), Touched(way, 1, b));
            var y := StateOf(Touched(way, 2, c), Touched(way, 3, d));
            TreeOk(x, y) && (if way < 2 then x == Recent else y == Recent) &&
            (StateOf(a, b) != Untouched ==> x != Untouched) && (StateOf(c, d) != Untouched ==> y != Untouched)
  {
  }

  function Retouch(e: Entry, way: nat, k: nat): Entry {
    e.(lru := Touched(way, k, e.lru))
  }

  lemma TouchLru(a: Entry, b: Entry, c: Entry, d: Entry, way: nat)
    requires way < 4 && LruOk(a, b, c, d)
    ensures LruOk(Retouch(a, way, 0), Retouch(b, way, 1), Retouch(c, way, 2), Retouch(d, way, 3))
  {
    TouchedTree(a.lru, b.lru, c.lru, d.lru, way);
  }

  lemma TouchShape(s: nat, p: Entry, a: Entry, b: Entry, c: Entry, d: Entry, way: nat)
    requires way < 4 && SetShape(s, p, a, b, c, d)
    ensures SetShape(s, p, Retouch(a, way, 0), Retouch(b, way, 1), Retouch(c, way, 2), Retouch(d, way, 3))
  {
    TouchLru(a, b, c, d, way);
    hide LruOk, Touched;
  }

  /** Slots that keep their tags, sources and flags keep the tracking invariant. */
  lemma TrackingFrame(t: Tlb, t': Tlb)
    requires Tracking(t) && |t'.slots| == |t.slots| && t'.tracked == t.tracked
    requires forall i: nat :: i < |t.slots| ==>
               SameTranslation(t.slots[i], t'.slots[i]) && t'.slots[i].tracked == t.slots[i].tracked
    ensures Tracking(t')
  {
  }

  /** A touch changes nothing but lru bits. */
  lemma TouchFrame(slots: seq<Entry>, s: nat, way: nat, i: nat)
    requires |slots| == SLOTS && s < SETS && way < 4 && i < SLOTS
    ensures TouchWay(slots, s, way)[i] == slots[i].(lru := TouchWay(slots, s, way)[i].lru)
    ensures !(5 * s < i < 5 * s + 5) ==> TouchWay(slots, s, way)[i] == slots[i]
  {
  }

  lemma TouchOk(t: Tlb, s: nat, way: nat)
    requires TlbOk(t) && s < SETS && way < 4
    ensures TlbOk(t.(slots := TouchWay(t.slots, s, way)))
  {
    var slots' := TouchWay(t.slots, s, way);
    forall i: nat | i < SLOTS
      ensures slots'[i] == t.slots[i].(lru := slots'[i].lru)
      ensures !(5 * s < i < 5 * s + 5) ==> slots'[i] == t.slots[i]
    {
      TouchFrame(t.slots, s, way, i);
    }
    TrackingFrame(t, t.(slots := slots'));
    assert SetOk(t.slots, s);
    var b := 5 * s;
    TouchShape(s, t.slots[b], t.slots[b + 1], t.slots[b + 2], t.slots[b + 3], t.slots[b + 4], way);
    assert SetOk(slots', s);
    SetsFrame(t.slots, slots', s);
  }

  // ---------- Storing an entry ----------

  /** Storing an entry under the flag its slot already has, then tracking it. */
  lemma PutTracking(t: Tlb, i: nat, e: Entry)
    requires Tracking(t) && i < |t.slots| && e.tracked == t.slots[i].tracked
    requires e.tracked ==> e.source != NoSource
    ensures Tracking(Track(t.(slots := t.slots[i := e]), i))
  {
    var t1 := t.(slots := t.slots[i := e]);
    var t2 := Track(t1, i);
    if e.source != NoSource && !e.tracked {
      assert i !in t.tracked;
      forall j, k | 0 <= j < k < |t2.tracked|
        ensures t2.tracked[j] != t2.tracked[k]
      {
        assert k < |t.tracked| ==> t.tracked[j] != t.tracked[k];
        assert t.tracked[j] in t.tracked;
      }
      assert forall j: nat :: j in t2.tracked <==> j in t.tracked || j == i;
    }
  }

  /** A refill keeps the set well formed when no other slot of the set has its tag. */
  lemma FillShape(s: nat, p: Entry, a: Entry, b: Entry, c: Entry, d: Entry, way: nat, e: Entry)
    requires way < 4 && SetShape(s, p, a, b, c, d) && EntryOk(e, s) && Valid(e)
    requires e.tag !in [p.tag, a.tag, b.tag, c.tag, d.tag]
    requires e.lru == [a, b, c, d][way].lru
    requires if way < 2 then StateOf(a.lru, b.lru) != Untouched else StateOf(c.lru, d.lru) != Untouched
    ensures SetShape(s, p, if way == 0 then e else a, if way == 1 then e else b,
                     if way == 2 then e else c, if way == 3 then e else d)
  {
    hide EntryOk, StateOf, TreeOk;
    assert p.tag != e.tag && a.tag != e.tag && b.tag != e.tag && c.tag != e.tag && d.tag != e.tag by {
      assert [p.tag, a.tag, b.tag, c.tag, d.tag][0] == p.tag;
      assert [p.tag, a.tag, b.tag, c.tag, d.tag][1] == a.tag;
      assert [p.tag, a.tag, b.tag, c.tag, d.tag][2] == b.tag;
      assert [p.tag, a.tag, b.tag, c.tag, d.tag][3] == c.tag;
      assert [p.tag, a.tag, b.tag, c.tag, d.tag][4] == d.tag;
    }
  }

  lemma PromoteShape(s: nat, p: Entry, a: Entry, b: Entry, c: Entry, d: Entry, way: nat, p': Entry)
    requires way < 4 && SetShape(s, p, a, b, c, d)
    requires Valid([a, b, c, d][way]) && [a, b, c, d][way].backing.Memory?
    requires SameTranslation([a, b, c, d][way], p')
    ensures SetShape(s, p', a, b, c, d)
  {
    hide LruOk, PageTag, SetIndex, ModeOf;
  }

  /** What an installation leaves in each slot. */
  lemma InstallFrame(t: Tlb, s: nat, tag: u32, fill: Fill, changed: bool)
    requires TlbOk(t) && s < SETS
    ensures var t' := Install(t, s, tag, fill, changed);
            var i := 5 * s + 1 + VictimWay(t.slots, s);
            && t'.pending == t.pending
            && SameTranslation(FilledEntry(t.slots[i], tag, fill, changed), t'.slots[i])
            && (forall j: nat :: j < SLOTS && j != i ==>
                  SameTranslation(t.slots[j], t'.slots[j]) && t'.slots[j].tracked == t.slots[j].tracked)
            && (forall j: nat :: j < SLOTS && !(5 * s < j < 5 * s + 5) ==> t'.slots[j] == t.slots[j])
  {
    hide Sets, Tracking, VictimWay;
    forall i: nat | i < SLOTS
      ensures TouchWay(t.slots, s, VictimWay(t.slots, s))[i] ==
              t.slots[i].(lru := TouchWay(t.slots, s, VictimWay(t.slots, s))[i].lru)
      ensures !(5 * s < i < 5 * s + 5) ==> TouchWay(t.slots, s, VictimWay(t.slots, s))[i] == t.slots[i]
    {
      TouchFrame(t.slots, s, VictimWay(t.slots, s), i);
    }
    hide TouchWay;
  }

  /** Storing and tracking an entry that leaves its own set well formed. */
  lemma PutOk(t: Tlb, s: nat, k: nat, e: Entry)
    requires TlbOk(t) && s < SETS && k < 5
    requires e.tracked == t.slots[5 * s + k].tracked && EntryOk(e, s) && Valid(e)
    requires SetOk(Track(t.(slots := t.slots[5 * s + k := e]), 5 * s + k).slots, s)
    ensures TlbOk(Track(t.(slots := t.slots[5 * s + k := e]), 5 * s + k))
  {
    var t' := Track(t.(slots := t.slots[5 * s + k := e]), 5 * s + k);
    assert e.tracked ==> e.source != NoSource by {
      assert SetOk(t.slots, s);
      assert EntryOk(t.slots[5 * s + k], s);
    }
    PutTracking(t, 5 * s + k, e);
    SetsFrame(t.slots, t'.slots, s);
  }

  lemma FillSet(t: Tlb, s: nat, way: nat, e: Entry)
    requires |t.slots| == SLOTS && s < SETS && way < 4 && SetOk(t.slots, s) && EntryOk(e, s) && Valid(e)
    requires e.lru == t.slots[5 * s + 1 + way].lru
    requires e.tag !in [t.slots[5 * s].tag, t.slots[5 * s + 1].tag, t.slots[5 * s + 2].tag,
                        t.slots[5 * s + 3].tag, t.slots[5 * s + 4].tag]
    requires if way < 2 then StateOf(t.slots[5 * s + 1].lru, t.slots[5 * s + 2].lru) == Recent
             else StateOf(t.slots[5 * s + 3].lru, t.slots[5 * s + 4].lru) == Recent
    ensures SetOk(Track(t.(slots := t.slots[5 * s + 1 + way := e]), 5 * s + 1 + way).slots, s)
  {
    var b := 5 * s;
    var t' := Track(t.(slots := t.slots[b + 1 + way := e]), b + 1 + way);
    var e' := t'.slots[b + 1 + way];
    assert SameTranslation(e, e') && e'.lru == e.lru && EntryOk(e', s);
    hide EntryOk, StateOf, LruOk, Distinct, Agrees;
    FillShape(s, t.slots[b], t.slots[b + 1], t.slots[b + 2], t.slots[b + 3], t.slots[b + 4], way, e');
    assert t'.slots[b] == t.slots[b];
    hide SetShape;
  }

  lemma InstallOk(t: Tlb, s: nat, tag: u32, fill: Fill, changed: bool)
    requires TlbOk(t) && s < SETS && FindWay(t.slots, s, tag) == 4 && t.slots[5 * s].tag != tag
    requires tag == PageTag(tag) && SetIndex(tag) == s % 4096
    requires fill.source == NoSource <==> ModeOf(s) == Real
    ensures TlbOk(Install(t, s, tag, fill, changed))
  {
    hide TouchWay, VictimWay, FindWay, Tracking, StateOf, SetShape, Track, PageTag, SetIndex;
    Geometry(tag);
    var way := VictimWay(t.slots, s);
    TouchOk(t, s, way);
    VictimTouched(t, s);
    InstallFresh(t, s, tag, way);
    var t1 := t.(slots := TouchWay(t.slots, s, way));
    var e := FilledEntry(t1.slots[5 * s + 1 + way], tag, fill, changed);
    assert SetOk(t1.slots, s);
    assert EntryOk(e, s) && Valid(e);
    hide Sets, SetOk, EntryOk;
    FillSet(t1, s, way, e);
    PutOk(t1, s, 1 + way, e);
  }

  /** A tag that missed is still absent after the touch. */
  lemma InstallFresh(t: Tlb, s: nat, tag: u32, way: nat)
    requires TlbOk(t) && s < SETS && way < 4 && FindWay(t.slots, s, tag) == 4 && t.slots[5 * s].tag != tag
    ensures var r := TouchWay(t.slots, s, way);
            tag !in [r[5 * s].tag, r[5 * s + 1].tag, r[5 * s + 2].tag, r[5 * s + 3].tag, r[5 * s + 4].tag]
  {
    forall i: nat | i < SLOTS
      ensures TouchWay(t.slots, s, way)[i].tag == t.slots[i].tag
    {
      TouchFrame(t.slots, s, way, i);
    }
    hide TouchWay;
  }

  /** After its own touch, the pair of a way counts as touched. */
  lemma VictimTouched(t: Tlb, s: nat)
    requires TlbOk(t) && s < SETS
    ensures var way := VictimWay(t.slots, s);
            var r := TouchWay(t.slots, s, way);
            if way < 2 then StateOf(r[5 * s + 1].lru, r[5 * s + 2].lru) == Recent
            else StateOf(r[5 * s + 3].lru, r[5 * s + 4].lru) == Recent
  {
    hide VictimWay;
  }

  lemma PromoteOk(t: Tlb, s: nat, way: nat)
    requires TlbOk(t) && s < SETS && way < 4
    requires Valid(t.slots[5 * s + 1 + way]) && t.slots[5 * s + 1 + way].backing.Memory?
    ensures TlbOk(Promote(t, s, way))
  {
    var b := 5 * s;
    var e := t.slots[b + 1 + way].(tracked := t.slots[b].tracked);
    var t' := Promote(t, s, way);
    assert SetOk(t.slots, s);
    PromoteShape(s, t.slots[b], t.slots[b + 1], t.slots[b + 2], t.slots[b + 3], t.slots[b + 4], way, t'.slots[b]);
    hide Sets, Tracking, LruOk;
    assert EntryOk(e, s) by { assert EntryOk(t.slots[b + 1 + way], s); }
    assert SetOk(t'.slots, s);
    hide SetOk, EntryOk, TlbOk, Track;
    PutOk(t, s, 0, e);
  }

  // ---------- Recording a Changed bit ----------

  lemma MarkShape(s: nat, p: Entry, a: Entry, b: Entry, c: Entry, d: Entry, way: nat)
    requires way < 4 && SetShape(s, p, a, b, c, d) && Valid([a, b, c, d][way])
    ensures var m := (e: Entry) => e.(changed := true);
            p.tag == [a, b, c, d][way].tag ==>
              SetShape(s, m(p), if way == 0 then m(a) else a, if way == 1 then m(b) else b,
                       if way == 2 then m(c) else c, if way == 3 then m(d) else d)
    ensures var m := (e: Entry) => e.(changed := true);
            p.tag != [a, b, c, d][way].tag ==>
              SetShape(s, p, if way == 0 then m(a) else a, if way == 1 then m(b) else b,
                       if way == 2 then m(c) else c, if way == 3 then m(d) else d)
  {
    hide PageTag, SetIndex, ModeOf, StateOf, TreeOk;
  }

  lemma MarkAlone(s: nat, p: Entry, a: Entry, b: Entry, c: Entry, d: Entry)
    requires SetShape(s, p, a, b, c, d)
    requires p.tag !in [a.tag, b.tag, c.tag, d.tag]
    ensures SetShape(s, p.(changed := true), a, b, c, d)
  {
    hide PageTag, SetIndex, ModeOf, StateOf, TreeOk;
    var tags := [a.tag, b.tag, c.tag, d.tag];
    assert tags[0] == a.tag && tags[1] == b.tag && tags[2] == c.tag && tags[3] == d.tag;
  }

  lemma MarkTracking(t: Tlb, i: nat)
    requires Tracking(t) && i < |t.slots|
    ensures Tracking(t.(slots := MarkSlot(t.slots, i)))
  {
  }

  /** Marking a way whose page is not in the primary slot. */
  lemma MarkWayOk(t: Tlb, s: nat, way: nat)
    requires TlbOk(t) && s < SETS && way < 4 && Valid(t.slots[5 * s + 1 + way])
    requires t.slots[5 * s].tag != t.slots[5 * s + 1 + way].tag
    ensures TlbOk(t.(slots := MarkSlot(t.slots, 5 * s + 1 + way)))
  {
    hide SetShape, Tracking;
    var b := 5 * s;
    var slots' := MarkSlot(t.slots, b + 1 + way);
    assert SetOk(t.slots, s);
    MarkTracking(t, b + 1 + way);
    MarkShape(s, t.slots[b], t.slots[b + 1], t.slots[b + 2], t.slots[b + 3], t.slots[b + 4], way);
    assert SetOk(slots', s);
    SetsFrame(t.slots, slots', s);
  }

  /** A store through the primary entry keeps both levels in agreement. */
  lemma MarkBothOk(t: Tlb, s: nat)
    requires TlbOk(t) && s < SETS && Valid(t.slots[5 * s])
    ensures TlbOk(MarkBoth(t, s))
  {
    assert |t.slots| == SLOTS;
    hide TlbOk, FindWay, TouchWay, MarkSlot;
    var b := 5 * s;
    var slots := MarkSlot(t.slots, b);
    FindAfterMark(t.slots, s);
    var way := FindWay(slots, s, t.slots[b].tag);
    if way == 4 {
      MarkPrimaryOk(t, s);
    } else {
      MarkPairOk(t, s, way);
      TouchOk(t.(slots := MarkSlot(slots, b + 1 + way)), s, way);
      MarkCommutes(slots, s, way);
    }
  }

  /** Marking a primary entry changes no tag. */
  lemma FindAfterMark(slots: seq<Entry>, s: nat)
    requires |slots| == SLOTS && s < SETS
    ensures var b := 5 * s;
            MarkSlot(slots, b)[b].tag == slots[b].tag &&
            FindWay(MarkSlot(slots, b), s, slots[b].tag) == FindWay(slots, s, slots[b].tag)
  {
  }

  lemma MarkCommutes(slots: seq<Entry>, s: nat, way: nat)
    requires |slots| == SLOTS && s < SETS && way < 4
    ensures MarkSlot(TouchWay(slots, s, way), 5 * s + 1 + way) == TouchWay(MarkSlot(slots, 5 * s + 1 + way), s, way)
  {
  }

  lemma MarkPrimaryOk(t: Tlb, s: nat)
    requires TlbOk(t) && s < SETS && FindWay(t.slots, s, t.slots[5 * s].tag) == 4
    ensures TlbOk(t.(slots := MarkSlot(t.slots, 5 * s)))
  {
    hide SetShape, Tracking, FindWay;
    var b := 5 * s;
    var slots := MarkSlot(t.slots, b);
    assert SetOk(t.slots, s);
    MarkTracking(t, b);
    MarkAlone(s, t.slots[b], t.slots[b + 1], t.slots[b + 2], t.slots[b + 3], t.slots[b + 4]);
    assert SetOk(slots, s);
    SetsFrame(t.slots, slots, s);
  }

  lemma MarkPairOk(t: Tlb, s: nat, way: nat)
    requires TlbOk(t) && s < SETS && way < 4 && Valid(t.slots[5 * s])
    requires t.slots[5 * s].tag == t.slots[5 * s + 1 + way].tag
    ensures TlbOk(t.(slots := MarkSlot(MarkSlot(t.slots, 5 * s), 5 * s + 1 + way)))
  {
    hide SetShape, Tracking;
    var b := 5 * s;
    var slots' := MarkSlot(MarkSlot(t.slots, b), b + 1 + way);
    assert SetOk(t.slots, s);
    MarkTracking(t, b);
    MarkTracking(t.(slots := MarkSlot(t.slots, b)), b + 1 + way);
    MarkShape(s, t.slots[b], t.slots[b + 1], t.slots[b + 2], t.slots[b + 3], t.slots[b + 4], way);
    assert SetOk(slots', s);
    SetsFrame(t.slots, slots', s);
  }

  // ---------- Invalidation ----------

  predicate Dropped(e: Entry, e': Entry) {
    e' == e.(tracked := e'.tracked) || e' == e.(tag := INVALID_TAG, tracked := e'.tracked)
  }

  lemma DropLru(a: Entry, b: Entry, c: Entry, d: Entry, a': Entry, b': Entry, c': Entry, d': Entry)
    requires LruOk(a, b, c, d)
    requires Dropped(a, a') && Dropped(b, b') && Dropped(c, c') && Dropped(d, d')
    ensures LruOk(a', b', c', d')
  {
    hide StateOf, TreeOk;
  }

  lemma DropEntry(e: Entry, e': Entry, s: nat)
    requires EntryOk(e, s) && Dropped(e, e')
    ensures EntryOk(e', s) && (Valid(e') ==> Valid(e) && e'.tag == e.tag && e'.backing == e.backing)
  {
    hide PageTag, SetIndex, ModeOf;
  }

  lemma DropPair(e: Entry, f: Entry, e': Entry, f': Entry)
    requires Dropped(e, e') && Dropped(f, f')
    ensures Distinct(e, f) ==> Distinct(e', f')
    ensures Agrees(e, f) ==> Agrees(e', f')
  {
  }

  lemma DropShape(s: nat, p: Entry, a: Entry, b: Entry, c: Entry, d: Entry,
                  p': Entry, a': Entry, b': Entry, c': Entry, d': Entry)
    requires SetShape(s, p, a, b, c, d)
    requires Dropped(p, p') && Dropped(a, a') && Dropped(b, b') && Dropped(c, c') && Dropped(d, d')
    ensures SetShape(s, p', a', b', c', d')
  {
    DropLru(a, b, c, d, a', b', c', d');
    DropEntry(p, p', s);
    DropEntry(a, a', s);
    DropEntry(b, b', s);
    DropEntry(c, c', s);
    DropEntry(d, d', s);
    DropPair(p, a, p', a');
    DropPair(p, b, p', b');
    DropPair(p, c, p', c');
    DropPair(p, d, p', d');
    DropPair(a, b, a', b');
    DropPair(a, c, a', c');
    DropPair(a, d, a', d');
    DropPair(b, c, b', c');
    DropPair(b, d, b', d');
    DropPair(c, d, c', d');
    hide LruOk, EntryOk, Distinct, Agrees, Dropped;
  }

  lemma DropSets(slots: seq<Entry>, slots': seq<Entry>)
    requires |slots| == |slots'| == SLOTS && Sets(slots)
    requires forall i: nat :: i < SLOTS ==> Dropped(slots[i], slots'[i])
    ensures Sets(slots')
  {
    forall s: nat | s < SETS
      ensures SetOk(slots', s)
    {
      assert SetOk(slots, s);
      var b := 5 * s;
      hide Dropped, SetShape;
      DropShape(s, slots[b], slots[b + 1], slots[b + 2], slots[b + 3], slots[b + 4],
                slots'[b], slots'[b + 1], slots'[b + 2], slots'[b + 3], slots'[b + 4]);
    }
  }

  /** The compaction keeps exactly the entries of other sources, in order and once each. */
  lemma {:induction false} RetainedSpec(slots: seq<Entry>, tracked: seq<nat>, sources: Sources)
    requires forall i :: i in tracked ==> i < |slots|
    requires NoRepeats(tracked)
    ensures NoRepeats(Retained(slots, tracked, sources))
    ensures forall i :: i in Retained(slots, tracked, sources) <==>
                        i in tracked && slots[i].source != NoSource && !Covers(sources, slots[i].source)
  {
    if tracked != [] {
      assert tracked[0] in tracked && forall i :: i in tracked[1..] ==> i in tracked;
      assert tracked[0] !in tracked[1..];
      assert forall i :: i in tracked ==> i == tracked[0] || i in tracked[1..];
      RetainedSpec(slots, tracked[1..], sources);
    }
  }

  /** Deferred invalidation kills every valid entry of the scheduled sources,
      leaves every other valid entry as it was, and keeps the invariants. */
  lemma InvalidateOk(t: Tlb, sources: Sources)
    requires TlbOk(t)
    ensures TlbOk(Invalidate(t, sources))
    ensures forall i: nat :: i < SLOTS ==>
              (Valid(Invalidate(t, sources).slots[i]) <==> Valid(t.slots[i]) && !Covers(sources, t.slots[i].source))
    ensures forall i: nat :: i < SLOTS && Valid(Invalidate(t, sources).slots[i]) ==>
              Invalidate(t, sources).slots[i] == t.slots[i]
  {
    var t' := Invalidate(t, sources);
    RetainedSpec(t.slots, t.tracked, sources);
    assert forall i: nat :: i < SLOTS ==> Dropped(t.slots[i], t'.slots[i]);
    DropSets(t.slots, t'.slots);
  }

  /** A flush of one page kills its page translations in the set and nothing else. */
  lemma FlushSetOk(t: Tlb, s: nat, tag: u32)
    requires TlbOk(t) && s < SETS
    ensures TlbOk(t.(slots := FlushSet(t.slots, s, tag)))
  {
    var slots' := FlushSet(t.slots, s, tag);
    assert forall i: nat :: i < SLOTS ==> Dropped(t.slots[i], slots'[i]);
    DropSets(t.slots, slots');
  }

  /** No page translation of the flushed page survives in any context, and every
      other valid entry does. */
  lemma FlushPageOk(t: Tlb, ea: u32)
    requires TlbOk(t)
    ensures TlbOk(FlushPage(t, ea))
    ensures forall i: nat :: i < SLOTS ==>
              (Valid(FlushPage(t, ea).slots[i]) <==>
               Valid(t.slots[i]) && !(t.slots[i].tag == PageTag(ea) && t.slots[i].source == FromPat))
    ensures forall i: nat :: i < SLOTS && Valid(FlushPage(t, ea).slots[i]) ==> FlushPage(t, ea).slots[i] == t.slots[i]
  {
    var tag := PageTag(ea);
    var s1, s2 := SetFor(Super, ea), SetFor(User, ea);
    FlushSetOk(t, s1, tag);
    FlushSetOk(t.(slots := FlushSet(t.slots, s1, tag)), s2, tag);
    forall i: nat | i < SLOTS && Valid(t.slots[i]) && t.slots[i].tag == tag && t.slots[i].source == FromPat
      ensures i / 5 == s1 || i / 5 == s2
    {
      PageHome(t, i);
      Geometry(ea);
    }
  }

  /** A valid entry sits in the set its own tag indexes. */
  lemma PageHome(t: Tlb, i: nat)
    requires TlbOk(t) && i < SLOTS && Valid(t.slots[i])
    ensures i / 5 == SetFor(ModeOf(i / 5), t.slots[i].tag)
    ensures t.slots[i].source == NoSource <==> ModeOf(i / 5) == Real
  {
    assert SetOk(t.slots, i / 5);
    assert EntryOk(t.slots[i], i / 5);
  }

  /** The tracking list never outgrows the slots. */
  lemma TrackedBound(t: Tlb)
    requires TlbOk(t)
    ensures |t.tracked| <= SLOTS
  {
    assert forall k: nat :: k < |t.tracked| ==> t.tracked[k] in t.tracked;
    Pigeonhole(t.tracked, SLOTS);
  }

  lemma {:induction false} Pigeonhole(l: seq<nat>, n: nat)
    requires NoRepeats(l) && (l == [] || l[0] < n) && forall k: nat :: k < |l| ==> l[k] < n
    ensures |l| <= n
  {
    if l != [] {
      if k: nat :| k < |l| && l[k] == n - 1 {
        Pigeonhole(l[..k] + l[k + 1..], n - 1);
      } else {
        Pigeonhole(l, n - 1);
      }
    }
  }

  // ---------- Coherence ----------

  /** Coherence of a TLB in which one slot at most has a new translation. */
  lemma CoherentPut(t: Tlb, t': Tlb, oracle: Oracle, stale: bool, i: nat)
    requires Coherent(t, oracle, stale) && |t'.slots| == |t.slots| && t'.pending == t.pending && i < |t.slots|
    requires forall j: nat :: j < |t.slots| && j != i ==> SameTranslation(t.slots[j], t'.slots[j])
    requires Live(t'.slots[i], t.pending, stale) ==>
               EntryCoherent(t'.slots[i], oracle(ModeOf(i / 5), t'.slots[i].tag))
    ensures Coherent(t', oracle, stale)
  {
  }

  lemma TouchCoherent(t: Tlb, s: nat, way: nat, oracle: Oracle, stale: bool)
    requires TlbOk(t) && s < SETS && way < 4 && Coherent(t, oracle, stale)
    ensures Coherent(t.(slots := TouchWay(t.slots, s, way)), oracle, stale)
  {
    var t' := t.(slots := TouchWay(t.slots, s, way));
    forall i: nat | i < SLOTS
      ensures SameTranslation(t.slots[i], t'.slots[i])
    {
      TouchFrame(t.slots, s, way, i);
    }
    CoherentPut(t, t', oracle, stale, 0);
  }

  lemma InstallCoherent(t: Tlb, s: nat, tag: u32, fill: Fill, changed: bool, oracle: Oracle, stale: bool)
    requires TlbOk(t) && s < SETS && Coherent(t, oracle, stale)
    requires oracle(ModeOf(s), tag).Filled? && oracle(ModeOf(s), tag).fill == fill
    requires changed ==> oracle(ModeOf(s), tag).changed
    ensures Coherent(Install(t, s, tag, fill, changed), oracle, stale)
  {
    var i := 5 * s + 1 + VictimWay(t.slots, s);
    InstallFrame(t, s, tag, fill, changed);
    assert i / 5 == s;
    hide VictimWay, TlbOk, Install;
    CoherentPut(t, Install(t, s, tag, fill, changed), oracle, stale, i);
  }

  lemma PromoteCoherent(t: Tlb, s: nat, way: nat, oracle: Oracle, stale: bool)
    requires TlbOk(t) && s < SETS && way < 4 && Coherent(t, oracle, stale)
    ensures Coherent(Promote(t, s, way), oracle, stale)
  {
    var i, j := 5 * s, 5 * s + 1 + way;
    assert i / 5 == s && j / 5 == s;
    var t' := Promote(t, s, way);
    assert SameTranslation(t.slots[j], t'.slots[i]);
    CoherentPut(t, t', oracle, stale, i);
  }

  lemma MarkCoherent(t: Tlb, i: nat, oracle: Oracle, stale: bool)
    requires TlbOk(t) && i < SLOTS && Coherent(t, oracle, stale)
    requires Live(t.slots[i], t.pending, stale) ==> oracle(ModeOf(i / 5), t.slots[i].tag).Filled? &&
                                                    oracle(ModeOf(i / 5), t.slots[i].tag).changed
    ensures Coherent(t.(slots := MarkSlot(t.slots, i)), oracle, stale)
  {
    CoherentPut(t, t.(slots := MarkSlot(t.slots, i)), oracle, stale, i);
  }

  lemma PairAgrees(t: Tlb, s: nat, way: nat)
    requires TlbOk(t) && s < SETS && way < 4 && Valid(t.slots[5 * s])
    requires t.slots[5 * s].tag == t.slots[5 * s + 1 + way].tag
    ensures SameTranslation(t.slots[5 * s], t.slots[5 * s + 1 + way])
  {
    assert SetOk(t.slots, s);
    hide Sets, Tracking, LruOk, EntryOk, SameTranslation;
  }

  lemma MarkPairCoherent(t: Tlb, s: nat, way: nat, oracle: Oracle, stale: bool)
    requires TlbOk(t) && s < SETS && way < 4 && Valid(t.slots[5 * s]) && Coherent(t, oracle, stale)
    requires t.slots[5 * s].tag == t.slots[5 * s + 1 + way].tag
    requires Live(t.slots[5 * s], t.pending, stale) ==> oracle(ModeOf(s), t.slots[5 * s].tag).Filled? &&
                                                        oracle(ModeOf(s), t.slots[5 * s].tag).changed
    ensures Coherent(t.(slots := MarkSlot(MarkSlot(t.slots, 5 * s), 5 * s + 1 + way)), oracle, stale)
  {
    var b, i := 5 * s, 5 * s + 1 + way;
    assert SameTranslation(t.slots[b], t.slots[i]) by { PairAgrees(t, s, way); }
    assert b / 5 == s && i / 5 == s;
    hide TlbOk, SetOk;
    CoherentPut(t, t.(slots := MarkSlot(t.slots, b)), oracle, stale, b);
    CoherentPut(t.(slots := MarkSlot(t.slots, b)), t.(slots := MarkSlot(MarkSlot(t.slots, b), i)), oracle, stale, i);
  }

  lemma MarkBothCoherent(t: Tlb, s: nat, oracle: Oracle, stale: bool)
    requires TlbOk(t) && s < SETS && Valid(t.slots[5 * s]) && Coherent(t, oracle, stale)
    requires Live(t.slots[5 * s], t.pending, stale) ==> oracle(ModeOf(s), t.slots[5 * s].tag).Filled? &&
                                                        oracle(ModeOf(s), t.slots[5 * s].tag).changed
    ensures Coherent(MarkBoth(t, s), oracle, stale)
  {
    assert |t.slots| == SLOTS;
    hide TlbOk, TouchWay, Coherent, MarkSlot, FindWay, Live;
    var b := 5 * s;
    var slots := MarkSlot(t.slots, b);
    FindAfterMark(t.slots, s);
    var way := FindWay(slots, s, t.slots[b].tag);
    assert b / 5 == s;
    if way == 4 {
      MarkCoherent(t, b, oracle, stale);
    } else {
      MarkPairCoherent(t, s, way, oracle, stale);
      MarkPairOk(t, s, way);
      MarkCommutes(slots, s, way);
      TouchCoherent(t.(slots := MarkSlot(slots, b + 1 + way)), s, way, oracle, stale);
    }
  }

  /** After synchronization nothing is pending and coherence covers every valid entry. */
  lemma SynchronizeOk(t: Tlb, oracle: Oracle, stale: bool)
    requires TlbOk(t) && Coherent(t, oracle, stale)
    ensures TlbOk(Synchronize(t)) && Coherent(Synchronize(t), oracle, stale)
    ensures Synchronize(t).pending == NOTHING
  {
    InvalidateOk(t, t.pending);
  }

  /** A change of context keeps coherence when every entry that stays live keeps
      its fresh translation. */
  lemma ContextChange(t: Tlb, pending: Sources, oracle: Oracle, oracle': Oracle, stale: bool, stale': bool)
    requires TlbOk(t) && Coherent(t, oracle, stale)
    requires forall source :: Covers(t.pending, source) ==> Covers(pending, source)
    requires stale ==> stale'
    requires forall i: nat :: i < SLOTS && Live(t.slots[i], pending, stale') ==>
               Kept(oracle(ModeOf(i / 5), t.slots[i].tag), oracle'(ModeOf(i / 5), t.slots[i].tag))
    ensures TlbOk(t.(pending := pending)) && Coherent(t.(pending := pending), oracle', stale')
  {
    var t' := t.(pending := pending);
    assert forall i: nat :: i < SLOTS && Live(t.slots[i], pending, stale') ==> Live(t.slots[i], t.pending, stale);
  }
}
