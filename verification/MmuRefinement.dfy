/** With nothing awaiting invalidation, the two-level TLB is indistinguishable
    from translating afresh on every access: same byte, same device offset,
    same exception. */
module MmuRefinement {
  import opened Bits
  import opened Address
  import opened Translation
  import opened Reference
  import opened SoftTlb
  import opened SoftTlbProofs
  import opened Mmu
  import opened MmuProofs
  import opened MmuAccess

  /** The answer of an MMU without any TLB. */
  function Ideal(w: World, ty: TlbType, mode: Mode, va: u32, write: bool): Outcome
    requires ValidWorld(w)
  {
    match Refill(w, ty, mode, va, write)
    case Filled(_, _) => Hit(Reach(w, ty, mode, va, write))
    case Unmapped => NoMemory
    case Failed(f) => Raised(f)
    case Aborted => Crashed
  }

  /** Lookups in the current context can only hit live entries. */
  predicate Settled(m: Machine, ty: TlbType) {
    TlbOf(m, ty).pending == NOTHING || CurrentMode(m.msr, ty) == Real
  }

  lemma SettledLive(m: Machine, ty: TlbType, va: u32, k: nat)
    requires MachineOk(m, false) && Settled(m, ty) && k < 5
    requires TlbOf(m, ty).slots[5 * SetAt(m, ty, va) + k].tag == PageTag(va)
    ensures Live(TlbOf(m, ty).slots[5 * SetAt(m, ty, va) + k], TlbOf(m, ty).pending, false)
  {
    hide Sets, Tracking, Coherent, Sound;
    var i := 5 * SetAt(m, ty, va) + k;
    assert i / 5 == SetAt(m, ty, va);
    Geometry(va);
    hide SetFor, PageTag;
    PageHome(TlbOf(m, ty), i);
  }

  /** A hit entry carries exactly what a fresh load translation would store. */
  lemma HitFresh(m: Machine, ty: TlbType, va: u32, k: nat)
    requires MachineOk(m, false) && Settled(m, ty) && k < 5
    requires TlbOf(m, ty).slots[5 * SetAt(m, ty, va) + k].tag == PageTag(va)
    ensures ValidWorld(m.w)
    ensures EntryCoherent(TlbOf(m, ty).slots[5 * SetAt(m, ty, va) + k],
                          Refill(m.w, ty, CurrentMode(m.msr, ty), va, false))
  {
    hide MachineOk, Refill, PageTag, SetFor;
    SettledLive(m, ty, va, k);
    LiveEntry(m, ty, va, k, false);
  }

  lemma PrimaryIsMemory(m: Machine, ty: TlbType, va: u32)
    requires MachineOk(m, false) && TlbOf(m, ty).slots[5 * SetAt(m, ty, va)].tag == PageTag(va)
    ensures TlbOf(m, ty).slots[5 * SetAt(m, ty, va)].backing.Memory?
  {
    assert SetOk(TlbOf(m, ty).slots, SetAt(m, ty, va));
    Geometry(va);
  }

  /** The unchecked fast path is sound: a primary hit is always host memory. */
  lemma FastPathTarget(b: Backing, va: u32, write: bool)
    requires b.Memory?
    ensures FastPath(b, va, write) == HitTarget(b, va, write)
  {
  }

  /** What the secondary level hands over, against the reference answer. */
  lemma SecondaryAnswer(m: Machine, ty: TlbType, va: u32, write: bool)
    requires MachineOk(m, false) && Settled(m, ty) && (ty == ITLB ==> !write)
    requires TlbOf(m, ty).slots[5 * SetAt(m, ty, va)].tag != PageTag(va)
    ensures WellFormed(m)
    ensures var (m', second) := LookupOrRefill(m, ty, va, write);
            var mode := CurrentMode(m.msr, ty);
            match second
            case Missed(end) => end == Ideal(m.w, ty, mode, va, write)
            case InWay(way) =>
              var e := TlbOf(m', ty).slots[5 * SetAt(m, ty, va) + 1 + way];
              (m'.w == m.w && EntryCoherent(e, Refill(m.w, ty, mode, va, false))) ||
              (Refill(m.w, ty, mode, va, write).Filled? &&
               var f := Refill(m.w, ty, mode, va, write);
               e == FilledEntry(e, PageTag(va), f.fill, f.changed))
  {
    hide MachineOk, WellFormed, ValidWorld, PageTag, SetFor, TouchWay, Refill, TranslateEffect, Reach;
    OkWellFormed(m, false);
    var t, s := TlbOf(m, ty), SetAt(m, ty, va);
    var way := FindWay(t.slots, s, PageTag(va));
    hide FindWay;
    if way < 4 {
      HitFresh(m, ty, va, 1 + way);
      TouchFrame(t.slots, s, way, 5 * s + 1 + way);
    } else if Refill(m.w, ty, CurrentMode(m.msr, ty), va, write).Filled? {
      var f := Refill(m.w, ty, CurrentMode(m.msr, ty), va, write);
      InstalledEntry(m, ty, s, PageTag(va), f.fill, f.changed, false);
      hide Install, VictimWay;
    }
  }

  lemma InstalledEntry(m: Machine, ty: TlbType, s: nat, tag: u32, fill: Fill, changed: bool, stale: bool)
    requires MachineOk(m, stale) && s < SETS
    ensures var t := TlbOf(m, ty);
            |t.slots| == SLOTS &&
            var e := Install(t, s, tag, fill, changed).slots[5 * s + 1 + VictimWay(t.slots, s)];
            e == FilledEntry(e, tag, fill, changed)
  {
    assert TlbOk(TlbOf(m, ty));
    hide Sets, Tracking, VictimWay, Install;
    InstallFrame(TlbOf(m, ty), s, tag, fill, changed);
  }

  lemma CoherentReaches(w: World, ty: TlbType, mode: Mode, va: u32, e: Entry)
    requires ValidWorld(w) && EntryCoherent(e, Refill(w, ty, mode, va, false))
    ensures Hit(HitTarget(e.backing, va, false)) == Ideal(w, ty, mode, va, false)
  {
    hide Refill, Reach;
    FillReaches(w, ty, mode, va, va, false);
  }

  /** Every fetch answers as a fresh translation does. */
  lemma FetchRefines(m: Machine, va: u32)
    requires MachineOk(m, false) && Settled(m, ITLB)
    ensures WellFormed(m) && Fetch(m, va).1 == Ideal(m.w, ITLB, CurrentMode(m.msr, ITLB), va, false)
  {
    hide MachineOk, WellFormed, ValidWorld, PageTag, SetFor, LookupOrRefill, Refill, Reach, Settled, Ideal;
    OkWellFormed(m, false);
    var s, mode := SetAt(m, ITLB, va), CurrentMode(m.msr, ITLB);
    if m.itlb.slots[5 * s].tag == PageTag(va) {
      PrimaryIsMemory(m, ITLB, va);
      HitFresh(m, ITLB, va, 0);
      CoherentReaches(m.w, ITLB, mode, va, m.itlb.slots[5 * s]);
    } else {
      SecondaryAnswer(m, ITLB, va, false);
      LookupOrRefillOk(m, ITLB, va, false, false);
      var (m1, second) := LookupOrRefill(m, ITLB, va, false);
      if second.InWay? {
        var i := 5 * s + 1 + second.way;
        OkWellFormed(m1, false);
        TagAbove(m1, ITLB, va, i, false);
        InstructionMemory(m1, i, false);
        var e := m1.itlb.slots[i];
        assert EntryCoherent(e, Refill(m.w, ITLB, mode, va, false));
        CoherentReaches(m.w, ITLB, mode, va, e);
        FastPathTarget(e.backing, va, false);
        assert Promote(m1.itlb, s, second.way).slots[5 * s].backing == e.backing;
      }
    }
  }

  /** Every load answers as a fresh translation does. */
  lemma ReadRefines(m: Machine, va: u32)
    requires MachineOk(m, false) && Settled(m, DTLB)
    ensures WellFormed(m) && Read(m, va).1 == Ideal(m.w, DTLB, CurrentMode(m.msr, DTLB), va, false)
  {
    hide MachineOk, WellFormed, ValidWorld, PageTag, SetFor, LookupOrRefill, Refill, Reach, Settled, Ideal;
    OkWellFormed(m, false);
    var s, mode := SetAt(m, DTLB, va), CurrentMode(m.msr, DTLB);
    if m.dtlb.slots[5 * s].tag == PageTag(va) {
      PrimaryIsMemory(m, DTLB, va);
      HitFresh(m, DTLB, va, 0);
      CoherentReaches(m.w, DTLB, mode, va, m.dtlb.slots[5 * s]);
    } else {
      SecondaryAnswer(m, DTLB, va, false);
      LookupOrRefillOk(m, DTLB, va, false, false);
      var (m1, second) := LookupOrRefill(m, DTLB, va, false);
      if second.InWay? {
        var i := 5 * s + 1 + second.way;
        OkWellFormed(m1, false);
        var e := m1.dtlb.slots[i];
        assert EntryCoherent(e, Refill(m.w, DTLB, mode, va, false));
        CoherentReaches(m.w, DTLB, mode, va, e);
        if e.backing.Memory? {
          FastPathTarget(e.backing, va, false);
          assert Promote(m1.dtlb, s, second.way).slots[5 * s].backing == e.backing;
        }
      }
    }
  }

  // ---------- Stores ----------

  /** The verdict of the store check on a fresh entry is the verdict of a full
      store translation. */
  lemma PrepareAnswer(m: Machine, va: u32, e: Entry)
    requires WellFormed(m) && EntryCoherent(e, Refill(m.w, DTLB, CurrentMode(m.msr, DTLB), va, false))
    requires e.source != FromPat ==> e.changed
    ensures var (w', verdict) := Prepare(m, e, va);
            var mode := CurrentMode(m.msr, DTLB);
            match verdict
            case Refuse(end) => end == Ideal(m.w, DTLB, mode, va, true)
            case _ => Hit(HitTarget(e.backing, va, true)) == Ideal(m.w, DTLB, mode, va, true)
  {
    hide WellFormed, Refill, Reach, Translate, PageWalk, WalkEffect;
    assert ValidWorld(m.w) by { WellFormedWorld(m); }
    hide ValidWorld;
    var mode := CurrentMode(m.msr, DTLB);
    RefusedStore(m.w, mode, va);
    if e.writable {
      if !e.changed {
        StoreWalk(m.w, mode, va);
        assert m.msr.pr == (mode == User);
      }
      if Refill(m.w, DTLB, mode, va, true).Filled? {
        StoreImpliesLoad(m.w, DTLB, mode, va);
        FillReaches(m.w, DTLB, mode, va, va, true);
      }
    }
  }

  lemma WellFormedWorld(m: Machine)
    requires WellFormed(m)
    ensures ValidWorld(m.w)
  {
  }

  /** A store refused by the cached flag fails afresh with the same DSISR and DAR;
      one allowed with C known is allowed afresh. */
  lemma RefusedStore(w: World, mode: Mode, va: u32)
    requires ValidWorld(w) && Refill(w, DTLB, mode, va, false).Filled?
    ensures var f := Refill(w, DTLB, mode, va, false);
            && (!f.fill.writable ==> Refill(w, DTLB, mode, va, true) == Failed(Dsi(0x0A00_0000, va)))
            && (f.fill.writable && f.changed ==> Refill(w, DTLB, mode, va, true) == Filled(f.fill, true))
  {
    WritableIffStoreAllowed(w, mode, va);
    hide Translate;
  }

  lemma DataEntrySound(m: Machine, i: nat)
    requires MachineOk(m, false) && i < SLOTS && Valid(m.dtlb.slots[i])
    ensures m.dtlb.slots[i].source != FromPat ==> m.dtlb.slots[i].changed
  {
    assert EntrySound(m.dtlb.slots[i], DTLB, |m.w.mem|);
  }

  lemma FinishTarget(m: Machine, way: nat, va: u32)
    requires WellFormed(m) && way < 4
    ensures var e := m.dtlb.slots[5 * SetAt(m, DTLB, va) + 1 + way];
            var (w', verdict) := Prepare(m, e, va);
            FinishWrite(m, way, va).1 ==
              (match verdict case Refuse(end) => end case _ => Hit(HitTarget(e.backing, va, true)))
  {
    assert |m.dtlb.slots| == SLOTS;
    hide WellFormed, Prepare;
    var s := SetAt(m, DTLB, va);
    hide SetFor;
    var e := m.dtlb.slots[5 * s + 1 + way];
    if e.backing.Memory? {
      FastPathTarget(e.backing, va, true);
    }
  }

  /** Every store answers as a fresh translation for a store does. */
  lemma WriteRefines(m: Machine, va: u32)
    requires MachineOk(m, false) && Settled(m, DTLB)
    ensures WellFormed(m) && Write(m, va).1 == Ideal(m.w, DTLB, CurrentMode(m.msr, DTLB), va, true)
  {
    hide MachineOk, WellFormed, ValidWorld, PageTag, SetFor, LookupOrRefill, Refill, Reach, Settled, Prepare, FinishWrite, Ideal;
    OkWellFormed(m, false);
    var s, mode := SetAt(m, DTLB, va), CurrentMode(m.msr, DTLB);
    if m.dtlb.slots[5 * s].tag == PageTag(va) {
      var e := m.dtlb.slots[5 * s];
      PrimaryIsMemory(m, DTLB, va);
      HitFresh(m, DTLB, va, 0);
      TagAbove(m, DTLB, va, 5 * s, false);
      DataEntrySound(m, 5 * s);
      PrepareAnswer(m, va, e);
    } else {
      WriteMissRefines(m, va);
    }
  }

  lemma WriteMissRefines(m: Machine, va: u32)
    requires MachineOk(m, false) && Settled(m, DTLB)
    requires m.dtlb.slots[5 * SetAt(m, DTLB, va)].tag != PageTag(va)
    ensures WellFormed(m) && Write(m, va).1 == Ideal(m.w, DTLB, CurrentMode(m.msr, DTLB), va, true)
  {
    hide MachineOk, WellFormed, ValidWorld, PageTag, SetFor, LookupOrRefill, Refill, Reach, Settled, FinishWrite, Ideal;
    OkWellFormed(m, false);
    var s, mode := SetAt(m, DTLB, va), CurrentMode(m.msr, DTLB);
    SecondaryAnswer(m, DTLB, va, true);
    LookupOrRefillOk(m, DTLB, va, true, false);
    var (m1, second) := LookupOrRefill(m, DTLB, va, true);
    if second.InWay? {
      var i := 5 * s + 1 + second.way;
      OkWellFormed(m1, false);
      TagAbove(m1, DTLB, va, i, false);
      DataEntrySound(m1, i);
      var e := m1.dtlb.slots[i];
      FinishTarget(m1, second.way, va);
      if m1.w == m.w && EntryCoherent(e, Refill(m.w, DTLB, mode, va, false)) {
        hide Prepare;
        PrepareAnswer(m1, va, e);
      } else {
        NewlyFilled(m.w, mode, va);
        assert Prepare(m1, e, va).1 == Ready;
      }
    }
  }

  /** A page filled by a store is writable and Changed, so the store proceeds at once. */
  lemma NewlyFilled(w: World, mode: Mode, va: u32)
    requires ValidWorld(w) && Refill(w, DTLB, mode, va, true).Filled?
    ensures var f := Refill(w, DTLB, mode, va, true);
            f.fill.writable && f.changed && Hit(HitTarget(f.fill.backing, va, true)) == Ideal(w, DTLB, mode, va, true)
  {
    StoreFillWritable(w, mode, va);
    hide Refill, Reach;
    FillReaches(w, DTLB, mode, va, va, true);
  }

  lemma StoreFillWritable(w: World, mode: Mode, va: u32)
    requires ValidWorld(w) && Refill(w, DTLB, mode, va, true).Filled?
    ensures Refill(w, DTLB, mode, va, true).fill.writable && Refill(w, DTLB, mode, va, true).changed
  {
    hide FindPte, ReadWord, BlockTranslate, BackingOf, Way603;
  }

  /** The Changed bit is never lost: after a completed store, whichever level
      served it, a fresh translation of the page finds C set. */
  lemma CompletedStoreChanges(m: Machine, va: u32)
    requires MachineOk(m, false) && Settled(m, DTLB)
    ensures WellFormed(m)
    ensures var (m', end) := Write(m, va);
            end.Hit? ==> MachineOk(m', false) && Refill(m'.w, DTLB, CurrentMode(m.msr, DTLB), va, false).Filled? &&
                         Refill(m'.w, DTLB, CurrentMode(m.msr, DTLB), va, false).changed
  {
    hide MachineOk, WellFormed, ValidWorld, PageTag, SetFor, Refill, Settled, WriteHit, FinishWrite, LookupOrRefill, Preserves;
    OkWellFormed(m, false);
    WriteOk(m, va, false);
    WriteMarks(m, va);
    var (m', end) := Write(m, va);
    OkWellFormed(m', false);
    if end.Hit? {
      var k := if m.dtlb.slots[5 * SetAt(m, DTLB, va)].tag == PageTag(va) then 0 else
                 1 + LookupOrRefill(m, DTLB, va, true).1.way;
      assert Settled(m', DTLB) by { SettledStays(m, m'); }
      HitFresh(m', DTLB, va, k);
    }
  }

  lemma SettledStays(m: Machine, m': Machine)
    requires Settled(m, DTLB) && m'.msr == m.msr && m'.dtlb.pending == m.dtlb.pending
    ensures Settled(m', DTLB)
  {
  }

  /** A completed store leaves its entry flagged as Changed in the slot that served it. */
  lemma WriteMarks(m: Machine, va: u32)
    requires MachineOk(m, false)
    ensures WellFormed(m)
    ensures var (m', end) := Write(m, va);
            var s := SetAt(m, DTLB, va);
            var hit := m.dtlb.slots[5 * s].tag == PageTag(va);
            end.Hit? ==> |m'.dtlb.slots| == SLOTS && (hit || LookupOrRefill(m, DTLB, va, true).1.InWay?) &&
                         var i := if hit then 5 * s else 5 * s + 1 + LookupOrRefill(m, DTLB, va, true).1.way;
                         m'.dtlb.slots[i].tag == PageTag(va) && m'.dtlb.slots[i].changed
  {
    hide MachineOk, WellFormed, ValidWorld, PageTag, SetFor, LookupOrRefill, WriteHit, FinishWrite;
    OkWellFormed(m, false);
    var s := SetAt(m, DTLB, va);
    if m.dtlb.slots[5 * s].tag == PageTag(va) {
      WriteHitMarks(m, va);
    } else {
      LookupOrRefillOk(m, DTLB, va, true, false);
      var (m1, second) := LookupOrRefill(m, DTLB, va, true);
      OkWellFormed(m1, false);
      if second.InWay? {
        FinishMarks(m1, second.way, va);
      }
    }
  }

  lemma WriteHitMarks(m: Machine, va: u32)
    requires WellFormed(m)
    ensures var (m', end) := WriteHit(m, va);
            var i := 5 * SetAt(m, DTLB, va);
            end.Hit? ==> |m'.dtlb.slots| == SLOTS && m'.dtlb.slots[i].changed &&
                         m'.dtlb.slots[i].tag == m.dtlb.slots[i].tag
  {
    assert |m.dtlb.slots| == SLOTS;
    hide WellFormed, SetFor, PageWalk, WalkEffect, MarkBoth;
    var s := SetAt(m, DTLB, va);
    MarkBothFrame(m.dtlb, s, 5 * s);
    MarkBothMarks(m.dtlb, s);
  }

  lemma FinishMarks(m: Machine, way: nat, va: u32)
    requires WellFormed(m) && way < 4
    ensures var (m', end) := FinishWrite(m, way, va);
            var i := 5 * SetAt(m, DTLB, va) + 1 + way;
            end.Hit? ==> |m'.dtlb.slots| == SLOTS && m'.dtlb.slots[i].changed &&
                         m'.dtlb.slots[i].tag == m.dtlb.slots[i].tag
  {
    assert |m.dtlb.slots| == SLOTS;
    hide WellFormed, SetFor, PageWalk, WalkEffect;
  }

  lemma MarkBothMarks(t: Tlb, s: nat)
    requires |t.slots| == SLOTS && s < SETS
    ensures MarkBoth(t, s).slots[5 * s].changed
  {
    var slots := MarkSlot(t.slots, 5 * s);
    var way := FindWay(slots, s, slots[5 * s].tag);
    if way < 4 {
      TouchFrame(slots, s, way, 5 * s);
    }
  }

  /** The unchecked fast path never leaves host memory: in every state that keeps the
      invariant a primary hit is a host page, and its offsets stay inside memory. */
  lemma FastPathInHost(m: Machine, ty: TlbType, va: u32, write: bool, stale: bool)
    requires MachineOk(m, stale) && TlbOf(m, ty).slots[5 * SetAt(m, ty, va)].tag == PageTag(va)
    ensures var b := TlbOf(m, ty).slots[5 * SetAt(m, ty, va)].backing;
            FastPath(b, va, write) == HitTarget(b, va, write) && 0 <= FastPath(b, va, write).host < |m.w.mem|
  {
    var i := 5 * SetAt(m, ty, va);
    assert SetOk(TlbOf(m, ty).slots, SetAt(m, ty, va));
    assert EntrySound(TlbOf(m, ty).slots[i], ty, |m.w.mem|);
    Geometry(va);
    hide Sets, Tracking, Coherent, LruOk, Distinct, Agrees;
  }

  /** The Changed flag of a live cached page translation is true of the page table:
      its entry in memory has C set. */
  lemma ChangedInTable(m: Machine, i: nat, stale: bool)
    requires MachineOk(m, stale) && !m.w.is603 && i < SLOTS
    requires Live(m.dtlb.slots[i], m.dtlb.pending, stale) && m.dtlb.slots[i].source == FromPat
    requires m.dtlb.slots[i].changed && !DirectStore(SegmentOf(m.w, m.dtlb.slots[i].tag))
    ensures var s := FindPte(m.w, m.dtlb.slots[i].tag);
            s.Found? && Changed(ReadWord(m.w.mem, s.pte + 4))
  {
    assert |m.dtlb.slots| == SLOTS;
    hide Refill, Sets, Tracking, Sound, FindPte, ReadWord, SegmentOf;
    var e := m.dtlb.slots[i];
    assert EntryCoherent(e, OracleFor(m.w, DTLB)(ModeOf(i / 5), e.tag));
    FlagFromTable(m.w, ModeOf(i / 5), e.tag);
  }

  lemma FlagFromTable(w: World, mode: Mode, va: u32)
    requires ValidWorld(w) && !w.is603 && !DirectStore(SegmentOf(w, va)) && Refill(w, DTLB, mode, va, false).Filled?
    requires Refill(w, DTLB, mode, va, false).fill.source == FromPat && Refill(w, DTLB, mode, va, false).changed
    ensures FindPte(w, va).Found? && Changed(ReadWord(w.mem, FindPte(w, va).pte + 4))
  {
    hide FindPte, ReadWord, BackingOf, FindRange, BlockTranslate;
  }
}
