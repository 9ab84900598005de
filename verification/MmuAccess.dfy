/** Fetches, loads and stores keep the invariant, and with nothing awaiting
    invalidation they answer exactly as a fresh translation would. */
module MmuAccess {
  import opened Bits
  import opened Address
  import opened Translation
  import opened Reference
  import opened SoftTlb
  import opened SoftTlbProofs
  import opened Mmu
  import opened MmuProofs

  // ---------- One-slot updates ----------

  lemma PromoteSide(m: Machine, ty: TlbType, s: nat, way: nat, stale: bool)
    requires ValidWorld(m.w) && SideOk(m, ty, stale) && s < SETS && way < 4
    requires Valid(TlbOf(m, ty).slots[5 * s + 1 + way]) && TlbOf(m, ty).slots[5 * s + 1 + way].backing.Memory?
    ensures SideOk(WithTlb(m, ty, Promote(TlbOf(m, ty), s, way)), ty, stale)
  {
    hide ValidWorld, Sets, Tracking, OracleFor;
    var t := TlbOf(m, ty);
    var t' := Promote(t, s, way);
    PromoteOk(t, s, way);
    PromoteCoherent(t, s, way, OracleFor(m.w, ty), stale);
    assert EntrySound(t'.slots[5 * s], ty, |m.w.mem|) by {
      assert EntrySound(t.slots[5 * s + 1 + way], ty, |m.w.mem|);
    }
    hide TlbOk, Coherent, EntrySound;
    SoundPut(t, t', ty, |m.w.mem|, 5 * s);
  }

  /** The translation of slot i says its page is Changed. */
  ghost predicate KnownChanged(m: Machine, i: nat, stale: bool)
    requires ValidWorld(m.w) && |m.dtlb.slots| == SLOTS && i < SLOTS
  {
    var e := m.dtlb.slots[i];
    Live(e, m.dtlb.pending, stale) ==>
      Refill(m.w, DTLB, ModeOf(i / 5), e.tag, false).Filled? && Refill(m.w, DTLB, ModeOf(i / 5), e.tag, false).changed
  }

  lemma MarkWaySide(m: Machine, s: nat, way: nat, stale: bool)
    requires ValidWorld(m.w) && SideOk(m, DTLB, stale) && s < SETS && way < 4
    requires Valid(m.dtlb.slots[5 * s + 1 + way]) && m.dtlb.slots[5 * s].tag != m.dtlb.slots[5 * s + 1 + way].tag
    requires KnownChanged(m, 5 * s + 1 + way, stale)
    ensures SideOk(m.(dtlb := m.dtlb.(slots := MarkSlot(m.dtlb.slots, 5 * s + 1 + way))), DTLB, stale)
  {
    hide ValidWorld, Sets, Tracking, Refill;
    var i := 5 * s + 1 + way;
    var t' := m.dtlb.(slots := MarkSlot(m.dtlb.slots, i));
    MarkWayOk(m.dtlb, s, way);
    MarkCoherent(m.dtlb, i, OracleFor(m.w, DTLB), stale);
    assert EntrySound(t'.slots[i], DTLB, |m.w.mem|) by {
      assert EntrySound(m.dtlb.slots[i], DTLB, |m.w.mem|);
    }
    hide TlbOk, Coherent, EntrySound;
    SoundPut(m.dtlb, t', DTLB, |m.w.mem|, i);
  }

  /** Marking and touching leave tags, backings and tracking alone. */
  lemma MarkBothFrame(t: Tlb, s: nat, i: nat)
    requires |t.slots| == SLOTS && s < SETS && i < SLOTS
    ensures var e, e' := t.slots[i], MarkBoth(t, s).slots[i];
            e' == e.(changed := e'.changed, lru := e'.lru) && (e.changed ==> e'.changed)
  {
    var slots := MarkSlot(t.slots, 5 * s);
    var way := FindWay(slots, s, slots[5 * s].tag);
    if way < 4 {
      hide FindWay;
      TouchFrame(slots, s, way, i);
    }
  }

  lemma MarkBothSide(m: Machine, s: nat, stale: bool)
    requires ValidWorld(m.w) && SideOk(m, DTLB, stale) && s < SETS && Valid(m.dtlb.slots[5 * s])
    requires KnownChanged(m, 5 * s, stale)
    ensures SideOk(m.(dtlb := MarkBoth(m.dtlb, s)), DTLB, stale)
  {
    hide ValidWorld, Sets, Tracking, Refill, MarkBoth;
    var t' := MarkBoth(m.dtlb, s);
    assert 5 * s / 5 == s;
    MarkBothOk(m.dtlb, s);
    MarkBothCoherent(m.dtlb, s, OracleFor(m.w, DTLB), stale);
    forall i: nat | i < SLOTS
      ensures EntrySound(t'.slots[i], DTLB, |m.w.mem|)
    {
      MarkBothFrame(m.dtlb, s, i);
      assert EntrySound(m.dtlb.slots[i], DTLB, |m.w.mem|);
    }
    hide TlbOk, Coherent, EntrySound;
    MarkBothPending(m.dtlb, s);
  }

  lemma MarkBothPending(t: Tlb, s: nat)
    requires |t.slots| == SLOTS && s < SETS
    ensures MarkBoth(t, s).pending == t.pending
  {
  }

  // ---------- The invariant across an access ----------

  /** What every access leaves alone. */
  ghost predicate Stepped(m: Machine, m': Machine, stale: bool)
    requires ValidWorld(m.w)
  {
    && MachineOk(m', stale) && m'.msr == m.msr && m'.actions == m.actions
    && m'.itlb.pending == m.itlb.pending && m'.dtlb.pending == m.dtlb.pending
    && m'.w == m.w.(mem := m'.w.mem, lru603 := m'.w.lru603)
    && Preserves(m.w, m'.w, ITLB) && Preserves(m.w, m'.w, DTLB)
  }

  lemma TagAbove(m: Machine, ty: TlbType, va: u32, i: nat, stale: bool)
    requires MachineOk(m, stale) && i < SLOTS && TlbOf(m, ty).slots[i].tag == PageTag(va)
    ensures Valid(TlbOf(m, ty).slots[i])
  {
    Geometry(va);
  }

  lemma PromoteMachine(m: Machine, ty: TlbType, s: nat, way: nat, stale: bool)
    requires MachineOk(m, stale) && s < SETS && way < 4
    requires Valid(TlbOf(m, ty).slots[5 * s + 1 + way]) && TlbOf(m, ty).slots[5 * s + 1 + way].backing.Memory?
    ensures MachineOk(WithTlb(m, ty, Promote(TlbOf(m, ty), s, way)), stale)
  {
    assert |TlbOf(m, ty).slots| == SLOTS;
    hide TlbOk, Coherent, Sound, OracleFor, ValidWorld, Promote;
    PromoteSide(m, ty, s, way, stale);
    WithTlbOk(m, ty, Promote(TlbOf(m, ty), s, way), stale);
  }

  lemma InstructionMemory(m: Machine, i: nat, stale: bool)
    requires MachineOk(m, stale) && i < SLOTS && Valid(m.itlb.slots[i])
    ensures m.itlb.slots[i].backing.Memory?
  {
    assert EntrySound(m.itlb.slots[i], ITLB, |m.w.mem|);
  }

  lemma FetchOk(m: Machine, va: u32, stale: bool)
    requires MachineOk(m, stale)
    ensures WellFormed(m) && Stepped(m, Fetch(m, va).0, stale)
  {
    hide MachineOk, WellFormed, ValidWorld, Preserves, LookupOrRefill, PageTag, SetFor;
    OkWellFormed(m, stale);
    var s := SetAt(m, ITLB, va);
    if m.itlb.slots[5 * s].tag == PageTag(va) {
      SelfPreserves(m.w);
    } else {
      LookupOrRefillOk(m, ITLB, va, false, stale);
      var (m1, second) := LookupOrRefill(m, ITLB, va, false);
      if second.InWay? {
        TagAbove(m1, ITLB, va, 5 * s + 1 + second.way, stale);
        InstructionMemory(m1, 5 * s + 1 + second.way, stale);
        PromoteMachine(m1, ITLB, s, second.way, stale);
      }
    }
  }

  lemma ReadOk(m: Machine, va: u32, stale: bool)
    requires MachineOk(m, stale)
    ensures WellFormed(m) && Stepped(m, Read(m, va).0, stale)
  {
    hide MachineOk, WellFormed, ValidWorld, Preserves, LookupOrRefill, PageTag, SetFor;
    OkWellFormed(m, stale);
    var s := SetAt(m, DTLB, va);
    if m.dtlb.slots[5 * s].tag == PageTag(va) {
      SelfPreserves(m.w);
    } else {
      LookupOrRefillOk(m, DTLB, va, false, stale);
      var (m1, second) := LookupOrRefill(m, DTLB, va, false);
      OkWellFormed(m1, stale);
      if second.InWay? && m1.dtlb.slots[5 * s + 1 + second.way].backing.Memory? {
        TagAbove(m1, DTLB, va, 5 * s + 1 + second.way, stale);
        PromoteMachine(m1, DTLB, s, second.way, stale);
      }
    }
  }

  // ---------- Stores ----------

  /** A cached page-table entry that a store may use: its fresh store translation
      is the walk that the store path makes to set C. */
  lemma StoreWalk(w: World, mode: Mode, va: u32)
    requires ValidWorld(w) && Refill(w, DTLB, mode, va, false).Filled?
    requires Refill(w, DTLB, mode, va, false).fill.source == FromPat
    ensures mode != Real && BlockTranslate(w, DTLB, mode == User, va).BatMiss?
    ensures match PageWalk(w, DTLB, va, mode == User, true)
            case Page(_, _, _, _) => Refill(w, DTLB, mode, va, true).Filled?
            case Denied(f) => Refill(w, DTLB, mode, va, true) == Failed(f)
            case Halt => Refill(w, DTLB, mode, va, true).Aborted?
    ensures TranslateEffect(w, DTLB, mode, va, true) == WalkEffect(w, DTLB, va, mode == User, true)
  {
    hide BlockTranslate, WalkEffect, BackingOf, FindPte, ReadWord, Way603, Miss603;
  }

  /** Coherence of one live data entry, for the address being accessed. */
  lemma LiveEntry(m: Machine, ty: TlbType, va: u32, k: nat, stale: bool)
    requires MachineOk(m, stale) && k < 5
    requires var i := 5 * SetAt(m, ty, va) + k;
             TlbOf(m, ty).slots[i].tag == PageTag(va) && Live(TlbOf(m, ty).slots[i], TlbOf(m, ty).pending, stale)
    ensures ValidWorld(m.w)
    ensures EntryCoherent(TlbOf(m, ty).slots[5 * SetAt(m, ty, va) + k],
                          Refill(m.w, ty, CurrentMode(m.msr, ty), va, false))
  {
    hide Refill, Sets, Tracking, Sound, PageTag, SetIndex;
    var s := SetAt(m, ty, va);
    var i := 5 * s + k;
    assert i / 5 == s;
    Geometry(va);
    assert EntryCoherent(TlbOf(m, ty).slots[i], OracleFor(m.w, ty)(ModeOf(i / 5), PageTag(va)));
    RefillUniformTag(m.w, ty, CurrentMode(m.msr, ty), va);
  }

  lemma RefillUniformTag(w: World, ty: TlbType, mode: Mode, va: u32)
    requires ValidWorld(w) && Refill(w, ty, mode, PageTag(va), false).Filled?
    ensures Refill(w, ty, mode, va, false) == Refill(w, ty, mode, PageTag(va), false)
  {
    hide Refill, ValidWorld;
    Geometry(va);
    RefillUniform(w, ty, mode, PageTag(va), va, false);
  }

  lemma UnchangedFromPat(m: Machine, i: nat, stale: bool)
    requires MachineOk(m, stale) && i < SLOTS && Valid(m.dtlb.slots[i]) && !m.dtlb.slots[i].changed
    ensures m.dtlb.slots[i].source == FromPat
  {
    assert EntrySound(m.dtlb.slots[i], DTLB, |m.w.mem|);
  }

  /** The walk that prepares a store keeps the invariant, and what it learns about
      the entry is true in the world it leaves. */
  lemma PrepareOk(m: Machine, va: u32, k: nat, stale: bool)
    requires MachineOk(m, stale) && k < 5
    requires m.dtlb.slots[5 * SetAt(m, DTLB, va) + k].tag == PageTag(va)
    ensures WellFormed(m)
    ensures var i := 5 * SetAt(m, DTLB, va) + k;
            var (w', verdict) := Prepare(m, m.dtlb.slots[i], va);
            && MachineOk(m.(w := w'), stale) && Preserves(m.w, w', ITLB) && Preserves(m.w, w', DTLB)
            && w' == m.w.(mem := w'.mem, lru603 := w'.lru603)
            && (verdict.MarkChanged? ==> KnownChanged(m.(w := w'), i, stale))
  {
    hide MachineOk, WellFormed, ValidWorld, Preserves, PageTag, SetFor, WalkEffect, PageWalk, KnownChanged;
    OkWellFormed(m, stale);
    var i := 5 * SetAt(m, DTLB, va) + k;
    var e := m.dtlb.slots[i];
    if !e.writable || e.changed {
      SelfPreserves(m.w);
      assert m.(w := m.w) == m;
    } else {
      WalkOk(m, va, stale);
      if PageWalk(m.w, DTLB, va, m.msr.pr, true).Page? {
        MarkKnown(m, va, k, stale);
      }
    }
  }

  lemma WalkOk(m: Machine, va: u32, stale: bool)
    requires MachineOk(m, stale)
    ensures ValidWorld(m.w)
    ensures var w' := WalkEffect(m.w, DTLB, va, m.msr.pr, true);
            MachineOk(m.(w := w'), stale) && Preserves(m.w, w', ITLB) && Preserves(m.w, w', DTLB)
  {
    hide MachineOk, ValidWorld, Preserves, WalkEffect;
    OkWellFormed(m, stale);
    var w' := WalkEffect(m.w, DTLB, va, m.msr.pr, true);
    WalkPreserves(m.w, va, m.msr.pr, ITLB);
    WalkPreserves(m.w, va, m.msr.pr, DTLB);
    WorldStep(m, w', stale);
  }

  lemma WalkPreserves(w: World, va: u32, pr: bool, ty: TlbType)
    requires ValidWorld(w)
    ensures Preserves(w, WalkEffect(w, DTLB, va, pr, true), ty)
  {
    hide Preserves, SearchGroup, Way603, ReadWord, ProtectionFault;
    var w' := WalkEffect(w, DTLB, va, pr, true);
    if w'.mem != w.mem {
      hide SetRC;
      SetRCKeepsTable(w, w', FindPte(w, va).pte, true);
    }
    WalksKeptPreserves(w, w', ty);
  }

  lemma MarkKnown(m: Machine, va: u32, k: nat, stale: bool)
    requires MachineOk(m, stale) && k < 5
    requires m.dtlb.slots[5 * SetAt(m, DTLB, va) + k].tag == PageTag(va)
    requires !m.dtlb.slots[5 * SetAt(m, DTLB, va) + k].changed
    requires ValidWorld(m.w) && PageWalk(m.w, DTLB, va, m.msr.pr, true).Page?
    ensures KnownChanged(m.(w := WalkEffect(m.w, DTLB, va, m.msr.pr, true)), 5 * SetAt(m, DTLB, va) + k, stale)
  {
    hide MachineOk, ValidWorld, PageTag, WalkEffect, PageWalk, Refill, TranslateEffect;
    OkWellFormed(m, stale);
    var s := SetAt(m, DTLB, va);
    var i := 5 * s + k;
    assert i / 5 == s;
    var mode := CurrentMode(m.msr, DTLB);
    var w' := WalkEffect(m.w, DTLB, va, m.msr.pr, true);
    if Live(m.dtlb.slots[i], m.dtlb.pending, stale) {
      LiveEntry(m, DTLB, va, k, stale);
      UnchangedFromPat(m, i, stale);
      StoreWalk(m.w, mode, va);
      assert m.msr.pr == (mode == User);
      StoreSetsChanged(m.w, mode, va);
      Geometry(va);
      RefillUniform(w', DTLB, mode, va, PageTag(va), false);
    }
  }

  lemma StepTogether(m: Machine, w': World, t: Tlb, stale: bool)
    requires ValidWorld(m.w) && ValidWorld(w') && MachineOk(m.(w := w', dtlb := t), stale)
    requires Preserves(m.w, w', ITLB) && Preserves(m.w, w', DTLB) && t.pending == m.dtlb.pending
    requires w' == m.w.(mem := w'.mem, lru603 := w'.lru603)
    ensures Stepped(m, m.(w := w', dtlb := t), stale)
  {
  }

  lemma MarkBothMachine(m: Machine, s: nat, stale: bool)
    requires MachineOk(m, stale) && s < SETS && Valid(m.dtlb.slots[5 * s])
    requires ValidWorld(m.w) && KnownChanged(m, 5 * s, stale)
    ensures MachineOk(m.(dtlb := MarkBoth(m.dtlb, s)), stale)
  {
    assert |m.dtlb.slots| == SLOTS;
    hide TlbOk, Coherent, Sound, OracleFor, ValidWorld, MarkBoth, KnownChanged;
    MarkBothSide(m, s, stale);
    WithTlbOk(m, DTLB, MarkBoth(m.dtlb, s), stale);
  }

  lemma MarkWayMachine(m: Machine, s: nat, way: nat, stale: bool)
    requires MachineOk(m, stale) && s < SETS && way < 4 && Valid(m.dtlb.slots[5 * s + 1 + way])
    requires m.dtlb.slots[5 * s].tag != m.dtlb.slots[5 * s + 1 + way].tag
    requires ValidWorld(m.w) && KnownChanged(m, 5 * s + 1 + way, stale)
    ensures MachineOk(m.(dtlb := m.dtlb.(slots := MarkSlot(m.dtlb.slots, 5 * s + 1 + way))), stale)
  {
    assert |m.dtlb.slots| == SLOTS;
    hide TlbOk, Coherent, Sound, OracleFor, ValidWorld, MarkSlot, KnownChanged;
    MarkWaySide(m, s, way, stale);
    WithTlbOk(m, DTLB, m.dtlb.(slots := MarkSlot(m.dtlb.slots, 5 * s + 1 + way)), stale);
  }

  lemma WriteHitOk(m: Machine, va: u32, stale: bool)
    requires MachineOk(m, stale) && m.dtlb.slots[5 * SetAt(m, DTLB, va)].tag == PageTag(va)
    ensures WellFormed(m) && Stepped(m, WriteHit(m, va).0, stale)
  {
    hide MachineOk, WellFormed, ValidWorld, Preserves, PageTag, SetFor, Prepare, MarkBoth, KnownChanged, Stepped;
    OkWellFormed(m, stale);
    var s := SetAt(m, DTLB, va);
    var (w', verdict) := Prepare(m, m.dtlb.slots[5 * s], va);
    PrepareOk(m, va, 0, stale);
    StepTogether(m, w', m.dtlb, stale);
    if verdict.MarkChanged? {
      TagAbove(m, DTLB, va, 5 * s, stale);
      MarkBothMachine(m.(w := w'), s, stale);
      MarkBothPending(m.dtlb, s);
      StepTogether(m, w', MarkBoth(m.dtlb, s), stale);
    }
  }

  lemma FinishWriteOk(m: Machine, way: nat, va: u32, stale: bool)
    requires MachineOk(m, stale) && way < 4
    requires var s := SetAt(m, DTLB, va);
             m.dtlb.slots[5 * s].tag != PageTag(va) && m.dtlb.slots[5 * s + 1 + way].tag == PageTag(va)
    ensures WellFormed(m) && Stepped(m, FinishWrite(m, way, va).0, stale)
  {
    hide MachineOk, WellFormed, ValidWorld, Preserves, PageTag, SetFor, Prepare, KnownChanged, Stepped;
    OkWellFormed(m, stale);
    var s := SetAt(m, DTLB, va);
    var i := 5 * s + 1 + way;
    var (w', verdict) := Prepare(m, m.dtlb.slots[i], va);
    PrepareOk(m, va, 1 + way, stale);
    StepTogether(m, w', m.dtlb, stale);
    TagAbove(m, DTLB, va, i, stale);
    if !verdict.Refuse? {
      var t := if verdict.Ready? then m.dtlb else m.dtlb.(slots := MarkSlot(m.dtlb.slots, i));
      if verdict.MarkChanged? {
        MarkWayMachine(m.(w := w'), s, way, stale);
      }
      StepTogether(m, w', t, stale);
      if t.slots[i].backing.Memory? {
        PromoteMachine(m.(w := w', dtlb := t), DTLB, s, way, stale);
        StepTogether(m, w', Promote(t, s, way), stale);
      }
    }
  }

  lemma LookedStepped(m: Machine, m': Machine, ty: TlbType, va: u32, second: Second, stale: bool)
    requires ValidWorld(m.w) && |TlbOf(m, ty).slots| == SLOTS && Looked(m, m', ty, va, second, stale)
    ensures Stepped(m, m', stale)
  {
  }

  lemma SteppedTrans(m: Machine, m1: Machine, m2: Machine, stale: bool)
    requires ValidWorld(m.w) && ValidWorld(m1.w) && Stepped(m, m1, stale) && Stepped(m1, m2, stale)
    ensures Stepped(m, m2, stale)
  {
    hide MachineOk;
    assert ValidWorld(m2.w) by { OkWellFormed(m2, stale); }
    PreservesTrans(m.w, m1.w, m2.w, ITLB);
    PreservesTrans(m.w, m1.w, m2.w, DTLB);
  }

  lemma PreservesTrans(w: World, w1: World, w2: World, ty: TlbType)
    requires ValidWorld(w) && ValidWorld(w1) && ValidWorld(w2) && Preserves(w, w1, ty) && Preserves(w1, w2, ty)
    ensures Preserves(w, w2, ty)
  {
    hide Refill, ValidWorld;
    forall mode: Mode, va: u32
      ensures Kept(Refill(w, ty, mode, va, false), Refill(w2, ty, mode, va, false))
    {
      assert Kept(Refill(w, ty, mode, va, false), Refill(w1, ty, mode, va, false));
      assert Kept(Refill(w1, ty, mode, va, false), Refill(w2, ty, mode, va, false));
    }
  }

  lemma WriteOk(m: Machine, va: u32, stale: bool)
    requires MachineOk(m, stale)
    ensures WellFormed(m) && Stepped(m, Write(m, va).0, stale)
  {
    hide MachineOk, WellFormed, ValidWorld, PageTag, SetFor, LookupOrRefill, WriteHit, FinishWrite, Stepped;
    OkWellFormed(m, stale);
    var s := SetAt(m, DTLB, va);
    if m.dtlb.slots[5 * s].tag == PageTag(va) {
      WriteHitOk(m, va, stale);
    } else {
      LookupOrRefillOk(m, DTLB, va, true, stale);
      var (m1, second) := LookupOrRefill(m, DTLB, va, true);
      LookedStepped(m, m1, DTLB, va, second, stale);
      if second.InWay? {
        OkWellFormed(m1, stale);
        FinishWriteOk(m1, second.way, va, stale);
        SteppedTrans(m, m1, FinishWrite(m1, second.way, va).0, stale);
      }
    }
  }
}
