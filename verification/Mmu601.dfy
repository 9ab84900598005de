/** A defect of the 601 path: turning a segment into a direct-store segment hides
    its block translations, but only page translations are invalidated. */
module Mmu601 {
  import opened Bits
  import opened Address
  import opened Translation
  import opened Reference
  import opened SoftTlb
  import opened Mmu
  import opened MmuProofs
  import opened MmuAccess
  import opened MmuContext
  import opened MmuRefinement
  import opened MemoryAccess
  import opened MemoryProofs
  import opened MmuRuns
  import opened Wrappers

  lemma TwoActions(m: Machine)
    requires WellFormed(m) && m.actions == [ITLB, DTLB]
    ensures ContextSync(m).dtlb == Synchronize(m.dtlb)
  {
    hide ValidWorld, Synchronize;
    SynchronizeBounded(m.dtlb);
    SynchronizeBounded(m.itlb);
    var m1 := m.(dtlb := Synchronize(m.dtlb), actions := [ITLB]);
    assert m.actions[..1] == [ITLB];
    assert ContextSync(m) == ContextSync(m1);
    var m2 := m1.(itlb := Synchronize(m.itlb), actions := []);
    assert m1.actions[..0] == [];
    assert ContextSync(m1) == ContextSync(m2);
  }

  lemma BlockStays(t: Tlb, i: nat)
    requires |t.slots| == SLOTS && (forall k :: k in t.tracked ==> k < SLOTS)
    requires i < SLOTS && t.slots[i].source == FromBat && t.pending == PAGES
    ensures |Synchronize(t).slots| == SLOTS && Synchronize(t).slots[i] == t.slots[i]
  {
  }

  /** A direct-store segment that is not memory-forced translates nothing. */
  lemma DirectStoreStops(w: World, mode: Mode, va: u32)
    requires ValidWorld(w) && w.is601 && mode != Real
    requires DirectStore(SegmentOf(w, va)) && SegmentOf(w, va) / 0x10_0000 % 512 != 0x7F
    ensures Ideal(w, DTLB, mode, va, false) == Crashed
  {
  }

  /** From any settled state: a cached block translation outlives the segment
      register write that hides it, and the synchronization after it. */
  lemma HiddenBlockStays(m: Machine, va: u32, value: u32)
    requires MachineOk(m, false) && WellFormed(m) && m.w.is601 && m.actions == [] && m.dtlb.pending == NOTHING
    requires CurrentMode(m.msr, DTLB) != Real && DirectStore(value) && value / 0x10_0000 % 512 != 0x7F
    requires var p := m.dtlb.slots[5 * SetAt(m, DTLB, va)]; p.tag == PageTag(va) && p.source == FromBat
    requires m.w.sr[Segment(va)] != value
    ensures WellFormed(WriteSr(m, Segment(va), value))
    ensures var m' := ContextSync(WriteSr(m, Segment(va), value));
            && WellFormed(m') && Settled(m', DTLB) && m'.msr == m.msr
            && Read(m', va).1.Hit? && Ideal(m'.w, DTLB, CurrentMode(m'.msr, DTLB), va, false) == Crashed
  {
    var m1 := WriteSr(m, Segment(va), value);
    RegistersWellFormed(m, Segment(va), value, 0);
    assert m.itlb.pending == NOTHING;
    assert m1.actions == [ITLB, DTLB] && m1.dtlb == m.dtlb.(pending := PAGES);
    assert SegmentOf(m1.w, va) == value;
    hide MachineOk, ValidWorld, WriteSr, ContextSync, Synchronize, Ideal, PageTag;
    TwoActions(m1);
    BlockStays(m1.dtlb, 5 * SetAt(m, DTLB, va));
    DirectStoreStops(m1.w, CurrentMode(m.msr, DTLB), va);
    SynchronizedPending(m1.dtlb);
  }

  lemma SynchronizedPending(t: Tlb)
    requires forall k :: k in t.tracked ==> k < |t.slots|
    ensures Synchronize(t).pending == NOTHING
  {
  }

  // ---------- A concrete run ----------

  const BLOCK := BatEntry(true, 0, 2, 0, 0xFFFE_0000, 0)
  const UNUSED := BatEntry(false, 0, 0, 0, 0, 0)

  /** A 601 with 8 KB of RAM at address 0 and its first BAT mapping block 0 to it. */
  function Small601(): World {
    World(true, false, [BLOCK, UNUSED, UNUSED, UNUSED], [BLOCK, UNUSED, UNUSED, UNUSED], seq(16, _ => 0), 0,
          [Region(Ram, 0, 1, 0)], 0, seq(8192, _ => 0),
          seq(128, _ => Tlb603Entry(false, 0, 0, 0)), seq(64, _ => 0))
  }

  const TRANSLATED := Msr(false, true, false)

  lemma SmallCold()
    ensures ColdWorld(Small601())
  {
  }

  function Start601(): (m: Machine)
    ensures WellFormed(m) && m.w == Small601() && m.msr == TRANSLATED
  {
    SmallCold();
    hide ColdWorld, Small601, WellFormed;
    PowerUp(Small601(), TRANSLATED)
  }

  lemma SmallBlock(w: World)
    requires ValidWorld(w) && w.is601 && w.ibat[0] == BLOCK && w.sr[0] == 0
    ensures BlockTranslate(w, DTLB, false, 0) == BatHit(2, 0)
  {
    assert BlockMatch(BLOCK, 0);
    assert BlockPhys(BLOCK, 0) == 0;
    hide BlockMatch, BlockPhys, ValidWorld;
    assert Bat601(w.ibat, false, 0) == BatHit(Prot601(BLOCK, false), 0);
    assert SegmentOf(w, 0) == 0;
  }

  lemma SmallTranslate(w: World)
    requires ValidWorld(w) && BlockTranslate(w, DTLB, false, 0) == BatHit(2, 0)
    ensures Translate(w, DTLB, Super, 0, false) == Xlat(0, FromBat, true, true)
  {
    hide BlockTranslate, PageWalk, ValidWorld;
  }

  lemma SmallRange(regions: seq<Region>, r: Region)
    requires regions == [r] && r.firstPage == 0
    ensures FindRange(regions, 0) == Some(r)
  {
  }

  lemma SmallRefill(w: World, r: Region)
    requires ValidWorld(w) && BlockTranslate(w, DTLB, false, 0) == BatHit(2, 0)
    requires w.regions == [r] && r == Region(Ram, 0, 1, 0)
    ensures Refill(w, DTLB, Super, 0, false).Filled? && Refill(w, DTLB, Super, 0, false).fill.source == FromBat
    ensures Ideal(w, DTLB, Super, 0, false) == Hit(HostByte(0))
  {
    hide BlockTranslate, PageWalk, ValidWorld, Translate, BackingOf, FindRange;
    SmallTranslate(w);
    SmallRange(w.regions, r);
  }

  lemma SmallAnswer()
    ensures ColdWorld(Small601())
    ensures Refill(Small601(), DTLB, Super, 0, false).Filled?
    ensures Refill(Small601(), DTLB, Super, 0, false).fill.source == FromBat
    ensures Ideal(Small601(), DTLB, Super, 0, false) == Hit(HostByte(0))
  {
    SmallCold();
    assert ValidWorld(Small601());
    hide ValidWorld, ColdWorld, Refill, Ideal, BlockTranslate;
    SmallBlock(Small601());
    SmallRefill(Small601(), Region(Ram, 0, 1, 0));
  }

  /** Synchronize, load address 0, give segment 0 its T bit, synchronize. */
  function HideBlock(m: Machine, io: Devices): (r: Machine)
    requires WellFormed(m)
    ensures WellFormed(r)
  {
    hide WellFormed;
    Step(Step(Step(Step(m, Sync, io), LoadAt(0, 1), io), SetSr(0, 0x8000_0000), io), Sync, io)
  }

  /** Load address 0 through the BAT, hide the block, synchronize, load again: the
      second load still hits the hidden block, while translating afresh stops. */
  lemma HiddenBlockRun(io: Devices)
    ensures var m' := HideBlock(Start601(), io);
            Settled(m', DTLB) && Read(m', 0).1.Hit? &&
            Ideal(m'.w, DTLB, CurrentMode(m'.msr, DTLB), 0, false) == Crashed
  {
    hide MachineOk, WellFormed, Read, Ideal, Small601, EmptyTlb, PowerUp, SetFor, PageTag, ContextSync, ColdWorld, Step, WriteSr;
    SmallCold();
    PowerUpOk(Small601(), TRANSLATED);
    ContextSyncOk(Start601(), false);
    ControlSteps(Start601(), io);
    var m := ContextSync(Start601());
    FirstLoad(m, io);
    var m1 := Step(m, LoadAt(0, 1), io);
    ControlSteps(m1, io);
    HiddenBlockStays(m1, 0, 0x8000_0000);
    ControlSteps(Step(m1, SetSr(0, 0x8000_0000), io), io);
  }

  lemma ControlSteps(m: Machine, io: Devices)
    requires WellFormed(m)
    ensures Step(m, SetSr(0, 0x8000_0000), io) == WriteSr(m, 0, 0x8000_0000)
    ensures Step(m, Sync, io) == ContextSync(m)
  {
    hide WellFormed, WriteSr, ContextSync;
  }

  /** The 601 after its first synchronization. */
  predicate Begun(m: Machine) {
    m.w == Small601() && m.msr == TRANSLATED && m.actions == [] && m.dtlb.pending == NOTHING
  }

  /** The first load caches the block translation in the primary level. */
  lemma FirstLoad(m: Machine, io: Devices)
    requires Begun(m) && WellFormed(m) && MachineOk(m, false)
    ensures var m1 := Step(m, LoadAt(0, 1), io);
            && MachineOk(m1, false) && m1.w.is601 && m1.actions == [] && m1.dtlb.pending == NOTHING
            && m1.msr == m.msr && m1.w.sr[Segment(0)] == 0
            && m1.dtlb.slots[5 * SetAt(m1, DTLB, 0)].tag == PageTag(0)
            && m1.dtlb.slots[5 * SetAt(m1, DTLB, 0)].source == FromBat
  {
    hide MachineOk, WellFormed, ValidWorld, Read, Ideal, Refill, SetFor, PageTag, ContextSync, ColdWorld, Preserves, Cached;
    SmallStart(m);
    OkWellFormed(m, false);
    hide Small601, Begun;
    ReadRefines(m, 0);
    ReadOk(m, 0, false);
    ReadCaches(m, 0, false);
    var m1 := Read(m, 0).0;
    LoadStep(m, io);
    OkWellFormed(m1, false);
    CachedEntry(m, m1);
  }

  lemma SmallStart(m: Machine)
    requires Begun(m)
    ensures m.w == Small601() && m.w.is601 && |m.w.sr| == 16 && m.w.sr[0] == 0
    ensures m.msr == TRANSLATED && m.actions == [] && m.dtlb.pending == NOTHING
    ensures ColdWorld(m.w) && Refill(m.w, DTLB, Super, 0, false).Filled?
    ensures Refill(m.w, DTLB, Super, 0, false).fill.source == FromBat && Ideal(m.w, DTLB, Super, 0, false) == Hit(HostByte(0))
  {
    hide Refill, Ideal, ColdWorld, ValidWorld;
    SmallAnswer();
  }

  lemma LoadStep(m: Machine, io: Devices)
    requires WellFormed(m) && Read(m, 0).1.Hit? && Read(m, 0).1.target.HostByte?
    ensures Step(m, LoadAt(0, 1), io) == Read(m, 0).0
  {
    hide WellFormed, Read;
  }

  lemma CachedEntry(m: Machine, m1: Machine)
    requires ValidWorld(m.w) && MachineOk(m1, false) && WellFormed(m1) && Cached(m1, 0, 0, false)
    requires Settled(m1, DTLB) && CurrentMode(m1.msr, DTLB) == Super
    requires ValidWorld(m1.w) && Preserves(m.w, m1.w, DTLB)
    requires Refill(m.w, DTLB, Super, 0, false).Filled? && Refill(m.w, DTLB, Super, 0, false).fill.source == FromBat
    ensures m1.dtlb.slots[5 * SetAt(m1, DTLB, 0)].tag == PageTag(0)
    ensures m1.dtlb.slots[5 * SetAt(m1, DTLB, 0)].source == FromBat
  {
    hide MachineOk, WellFormed, ValidWorld, Refill, SetFor, PageTag;
    HitFresh(m1, DTLB, 0, 0);
    assert Kept(Refill(m.w, DTLB, Super, 0, false), Refill(m1.w, DTLB, Super, 0, false));
  }
}
