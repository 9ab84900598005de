/** One software TLB as cpu/ppc/ppcmmu.cpp keeps it: an array of entries updated in
    place, the vector of tracked slots, and the pending sources. */
module SoftTlbUnit {
  import opened Bits
  import opened Address
  import opened Translation
  import opened SoftTlb
  import opened Mmu

  class TlbUnit {
    const slots: array<Entry>
    var tracked: seq<nat>
    var pending: Sources

    predicate Ready()
      reads this
    {
      slots.Length == SLOTS && forall i :: i in tracked ==> i < SLOTS
    }

    function Value(): (t: Tlb)
      reads this, slots
      ensures |t.slots| == slots.Length && t.tracked == tracked && t.pending == pending
    {
      Tlb(slots[..], tracked, pending)
    }

    /** All entries invalid and untracked. */
    constructor (empty: Entry)
      ensures Ready() && fresh(slots) && Value() == Tlb(seq(SLOTS, _ => empty), [], NOTHING)
    {
      slots := new Entry[SLOTS](_ => empty);
      tracked, pending := [], NOTHING;
      new;
      assert slots[..] == seq(SLOTS, _ => empty);
    }

    /** tlb2_touch_way. */
    method Touch(s: nat, way: nat)
      requires slots.Length == SLOTS && s < SETS && way < 4
      modifies slots
      ensures slots[..] == TouchWay(old(slots[..]), s, way)
    {
      var k := 5 * s + 1;
      if way < 2 {
        slots[k] := slots[k].(lru := if way == 0 then 3 else 2);
        slots[k + 1] := slots[k + 1].(lru := if way == 1 then 3 else 2);
        slots[k + 2] := slots[k + 2].(lru := slots[k + 2].lru % 2);
        slots[k + 3] := slots[k + 3].(lru := slots[k + 3].lru % 2);
      } else {
        slots[k] := slots[k].(lru := slots[k].lru % 2);
        slots[k + 1] := slots[k + 1].(lru := slots[k + 1].lru % 2);
        slots[k + 2] := slots[k + 2].(lru := if way == 2 then 3 else 2);
        slots[k + 3] := slots[k + 3].(lru := if way == 3 then 3 else 2);
      }
    }

    /** tlb2_target_entry: an invalid way first, else the one whose bits are 0. */
    method TargetEntry(s: nat) returns (way: nat)
      requires slots.Length == SLOTS && s < SETS
      modifies slots
      ensures way == VictimWay(old(slots[..]), s) && slots[..] == TouchWay(old(slots[..]), s, way)
    {
      var k := 5 * s + 1;
      if !Valid(slots[k]) {
        way := 0;
      } else if !Valid(slots[k + 1]) {
        way := 1;
      } else if !Valid(slots[k + 2]) {
        way := 2;
      } else if !Valid(slots[k + 3]) {
        way := 3;
      } else if slots[k].lru == 0 {
        way := 0;
      } else if slots[k + 1].lru == 0 {
        way := 1;
      } else if slots[k + 2].lru == 0 {
        way := 2;
      } else {
        way := 3;
      }
      Touch(s, way);
    }

    /** The search of lookup_secondary_tlb. */
    method Find(s: nat, tag: u32) returns (way: nat)
      requires slots.Length == SLOTS && s < SETS
      ensures way == FindWay(slots[..], s, tag)
    {
      var k := 5 * s + 1;
      if slots[k].tag == tag {
        way := 0;
      } else if slots[k + 1].tag == tag {
        way := 1;
      } else if slots[k + 2].tag == tag {
        way := 2;
      } else if slots[k + 3].tag == tag {
        way := 3;
      } else {
        way := 4;
      }
    }

    /** track_translated_entry. */
    method TrackEntry(i: nat)
      requires Ready() && i < SLOTS
      modifies this, slots
      ensures Ready() && Value() == Track(old(Value()), i)
    {
      if slots[i].source == NoSource || slots[i].tracked {
        return;
      }
      slots[i] := slots[i].(tracked := true);
      tracked := tracked + [i];
    }

    /** The end of both refill routines. */
    method Fill(s: nat, tag: u32, fill: Translation.Fill, changed: bool) returns (way: nat)
      requires Ready() && s < SETS
      modifies this, slots
      ensures Ready() && way < 4 && way == VictimWay(old(slots[..]), s)
      ensures Value() == Install(old(Value()), s, tag, fill, changed)
    {
      hide TouchWay, VictimWay, Track;
      way := TargetEntry(s);
      var i := 5 * s + 1 + way;
      slots[i] := FilledEntry(slots[i], tag, fill, changed);
      TrackEntry(i);
    }

    /** promote_tlb_entry. */
    method PromoteEntry(s: nat, way: nat)
      requires Ready() && s < SETS && way < 4
      modifies this, slots
      ensures Ready() && Value() == Promote(old(Value()), s, way)
    {
      hide Track;
      slots[5 * s] := slots[5 * s + 1 + way].(tracked := slots[5 * s].tracked);
      TrackEntry(5 * s);
    }

    method Mark(i: nat)
      requires slots.Length == SLOTS && i < SLOTS
      modifies slots
      ensures slots[..] == MarkSlot(old(slots[..]), i)
    {
      slots[i] := slots[i].(changed := true);
    }

    /** The Changed mirroring of mmu_write_vmem after a hit in the primary level. */
    method MarkMirrored(s: nat)
      requires Ready() && s < SETS
      modifies slots
      ensures Value() == MarkBoth(old(Value()), s)
    {
      hide TouchWay, FindWay, MarkSlot;
      Mark(5 * s);
      var way := Find(s, slots[5 * s].tag);
      if way < 4 {
        Touch(s, way);
        Mark(5 * s + 1 + way);
      }
    }

    // ---------- Invalidation ----------

    /** What tlb_invalidate_tracked_entries does to one tracked slot. */
    method InvalidateSlot(i: nat, sources: Sources) returns (keep: bool)
      requires slots.Length == SLOTS && i < SLOTS
      modifies slots
      ensures slots[..] == old(slots[..])[i := Invalidated(old(slots[i]), sources)]
      ensures keep == KeptBy(old(slots[i]), sources)
    {
      var source := slots[i].source;
      keep := false;
      if Covers(sources, source) {
        slots[i] := slots[i].(tag := INVALID_TAG, tracked := false);
      } else if source != NoSource {
        keep := true;
      } else {
        slots[i] := slots[i].(tracked := false);
      }
    }

    /** tlb_invalidate_tracked_entries: the vector is compacted while it is read. */
    method InvalidateTracked(sources: Sources)
      requires Ready()
      modifies this, slots
      ensures Ready() && Value() == Invalidate(old(Value()), sources)
    {
      hide Invalidated, KeptBy, Swept, Retained;
      ghost var before, list := slots[..], tracked;
      var retained, k := 0, 0;
      SweptStart(before, list, sources);
      while k < |tracked|
        invariant retained <= k <= |tracked| == |list| && pending == old(pending)
        invariant Swept(before, list, k, sources, slots[..], tracked[..retained])
        invariant tracked[k..] == list[k..]
      {
        var i := tracked[k];
        assert i == tracked[k..][0] == list[k..][0] == list[k];
        assert tracked[k + 1..] == tracked[k..][1..] && list[k + 1..] == list[k..][1..];
        SweptStep(before, list, k, sources, slots[..], tracked[..retained]);
        var keep := InvalidateSlot(i, sources);
        if keep {
          ghost var kept := tracked[..retained];
          tracked := tracked[retained := i];
          retained := retained + 1;
          assert tracked[..retained] == kept + [i];
        }
        k := k + 1;
      }
      SweptEnd(before, list, sources, slots[..], tracked[..retained]);
      tracked := tracked[..retained];
    }

    /** The context synchronization action of schedule_tlb_invalidation. */
    method SynchronizePending()
      requires Ready()
      modifies this, slots
      ensures Ready() && Value() == Synchronize(old(Value()))
    {
      hide Retained, Invalidated;
      if pending == NOTHING {
        return;
      }
      InvalidateTracked(pending);
      pending := NOTHING;
    }

    // ---------- Flushing one page ----------

    /** The flush of `count` consecutive slots. */
    method FlushRange(first: nat, count: nat, tag: u32)
      requires slots.Length == SLOTS && first + count <= SLOTS
      modifies slots
      ensures forall i: nat :: i < SLOTS ==>
                slots[i] == if first <= i < first + count then Flushed(old(slots[i]), tag) else old(slots[i])
    {
      var i := first;
      while i < first + count
        invariant first <= i <= first + count
        invariant forall k: nat :: k < SLOTS ==>
                    slots[k] == if first <= k < i then Flushed(old(slots[k]), tag) else old(slots[k])
      {
        if slots[i].tag == tag && slots[i].source == FromPat {
          slots[i] := slots[i].(tag := INVALID_TAG);
        }
        i := i + 1;
      }
    }

    /** tlb_flush_pat_page: both levels of both translated contexts. */
    method FlushPatPage(ea: u32)
      requires Ready()
      modifies slots
      ensures Value() == FlushPage(old(Value()), ea)
    {
      hide SetFor, PageTag;
      var tag := PageTag(ea);
      var a, b := SetFor(Super, ea), SetFor(User, ea);
      FlushRange(5 * a, 1, tag);
      FlushRange(5 * b, 1, tag);
      FlushRange(5 * a + 1, 4, tag);
      FlushRange(5 * b + 1, 4, tag);
      Apart(ea);
      var want := FlushSet(FlushSet(old(slots[..]), a, tag), b, tag);
      assert forall i: nat :: i < SLOTS ==> slots[i] == want[i];
      assert slots[..] == want;
    }
  }

  lemma Apart(ea: u32)
    ensures SetFor(Super, ea) != SetFor(User, ea)
  {
  }

  predicate KeptBy(e: Entry, sources: Sources) {
    e.source != NoSource && !Covers(sources, e.source)
  }

  function Flushed(e: Entry, tag: u32): Entry {
    if e.tag == tag && e.source == FromPat then e.(tag := INVALID_TAG) else e
  }

  /** The slots and the compacted vector once the first k tracked slots are done. */
  ghost predicate Swept(before: seq<Entry>, list: seq<nat>, k: nat, sources: Sources, slots: seq<Entry>, kept: seq<nat>) {
    && k <= |list| && |slots| == |before| && (forall i :: i in list ==> i < |before|)
    && (forall i :: i in list[..k] ==> i < |before|)
    && (forall i: nat :: i < |before| ==>
          slots[i] == if i in list[..k] then Invalidated(before[i], sources) else before[i])
    && kept == Retained(before, list[..k], sources)
  }

  lemma SweptStart(before: seq<Entry>, list: seq<nat>, sources: Sources)
    requires forall i :: i in list ==> i < |before|
    ensures Swept(before, list, 0, sources, before, list[..0])
  {
  }

  lemma {:induction false} RetainedSnoc(before: seq<Entry>, list: seq<nat>, i: nat, sources: Sources)
    requires i < |before| && forall j :: j in list ==> j < |before|
    ensures forall j :: j in list + [i] ==> j < |before|
    ensures Retained(before, list + [i], sources) ==
            Retained(before, list, sources) + (if KeptBy(before[i], sources) then [i] else [])
    decreases |list|
  {
    if list == [] {
      assert list + [i] == [i];
    } else {
      assert list[0] in list && forall j :: j in list[1..] ==> j in list;
      RetainedSnoc(before, list[1..], i, sources);
      assert (list + [i])[1..] == list[1..] + [i];
    }
  }

  /** A slot listed twice is treated alike both times: its source never changes. */
  lemma SweptStep(before: seq<Entry>, list: seq<nat>, k: nat, sources: Sources, slots: seq<Entry>, kept: seq<nat>)
    requires Swept(before, list, k, sources, slots, kept) && k < |list|
    ensures list[k] < |slots|
    ensures Swept(before, list, k + 1, sources, slots[list[k] := Invalidated(slots[list[k]], sources)],
                  if KeptBy(slots[list[k]], sources) then kept + [list[k]] else kept)
  {
    assert list[..k + 1] == list[..k] + [list[k]];
    assert list[k] in list && forall i :: i in list[..k] ==> i in list;
    RetainedSnoc(before, list[..k], list[k], sources);
    assert KeptBy(slots[list[k]], sources) == KeptBy(before[list[k]], sources);
  }

  lemma SweptEnd(before: seq<Entry>, list: seq<nat>, sources: Sources, slots: seq<Entry>, kept: seq<nat>)
    requires Swept(before, list, |list|, sources, slots, kept)
    ensures (forall i :: i in kept ==> i < |before|)
    ensures forall pending :: Invalidate(Tlb(before, list, pending), sources) == Tlb(slots, kept, pending)
  {
    assert list[..|list|] == list;
    RetainedSubset(before, list, sources);
    forall pending
      ensures Invalidate(Tlb(before, list, pending), sources) == Tlb(slots, kept, pending)
    {
      assert Invalidate(Tlb(before, list, pending), sources).slots == slots;
    }
  }
}
