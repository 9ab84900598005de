/** The machine's invariant, and its preservation by every operation. */
module MmuProofs {
  import opened Bits
  import opened Address
  import opened Translation
  import opened Reference
  import opened SoftTlb
  import opened SoftTlbProofs
  import opened Mmu

  ghost function OracleFor(w: World, ty: TlbType): Oracle
    requires ValidWorld(w)
  {
    (mode: Mode, tag: u32) => Refill(w, ty, mode, tag, false)
  }

  /** The page an entry's offsets map lies in host memory; a data entry that did
      not come from the page table never asks for a Changed update; an
      instruction entry is host memory. */
  predicate EntrySound(e: Entry, ty: TlbType, size: nat) {
    && (Valid(e) && e.backing.Memory? ==>
          0 <= e.backing.offR + e.tag && e.backing.offR + e.tag + 4096 <= size &&
          0 <= e.backing.offW + e.tag && e.backing.offW + e.tag + 4096 <= size &&
          (e.backing.offR + e.tag) % 4096 == 0)
    && (Valid(e) && ty == DTLB && e.source != FromPat ==> e.changed)
    && (Valid(e) && ty == ITLB ==> e.backing.Memory?)
  }

  ghost predicate Sound(t: Tlb, ty: TlbType, size: nat) {
    forall i: nat :: i < |t.slots| ==> EntrySound(t.slots[i], ty, size)
  }

  ghost predicate SideOk(m: Machine, ty: TlbType, stale: bool)
    requires ValidWorld(m.w)
  {
    var t := TlbOf(m, ty);
    TlbOk(t) && Coherent(t, OracleFor(m.w, ty), stale) && Sound(t, ty, |m.w.mem|) &&
    (t.pending != NOTHING ==> ty in m.actions)
  }

  /** The invariant of every reachable state. */
  ghost predicate MachineOk(m: Machine, stale: bool) {
    ValidWorld(m.w) && SideOk(m, ITLB, stale) && SideOk(m, DTLB, stale)
  }

  lemma OkWellFormed(m: Machine, stale: bool)
    requires MachineOk(m, stale)
    ensures WellFormed(m) && ValidWorld(m.w)
    ensures |m.itlb.slots| == SLOTS && |m.dtlb.slots| == SLOTS
  {
  }

  // ---------- A world that keeps its translations ----------

  lemma WorldStep(m: Machine, w': World, stale: bool)
    requires MachineOk(m, stale) && ValidWorld(w') && |w'.mem| == |m.w.mem|
    requires Preserves(m.w, w', ITLB) && Preserves(m.w, w', DTLB)
    ensures MachineOk(m.(w := w'), stale)
  {
    SideStep(m, w', ITLB, stale);
    SideStep(m, w', DTLB, stale);
  }

  lemma SideStep(m: Machine, w': World, ty: TlbType, stale: bool)
    requires ValidWorld(m.w) && SideOk(m, ty, stale) && ValidWorld(w') && |w'.mem| == |m.w.mem|
    requires Preserves(m.w, w', ty)
    ensures SideOk(m.(w := w'), ty, stale)
  {
    var t := TlbOf(m, ty);
    forall i: nat | i < SLOTS && Live(t.slots[i], t.pending, stale)
      ensures Kept(OracleFor(m.w, ty)(ModeOf(i / 5), t.slots[i].tag), OracleFor(w', ty)(ModeOf(i / 5), t.slots[i].tag))
    {
      hide Refill;
    }
    ContextChange(t, t.pending, OracleFor(m.w, ty), OracleFor(w', ty), stale, stale);
    assert t.(pending := t.pending) == t;
  }

  // ---------- Filling ----------

  lemma TranslatedOffset(w: World, ty: TlbType, mode: Mode, va: u32, write: bool)
    requires ValidWorld(w) && Translate(w, ty, mode, va, write).Xlat?
    ensures PageOffset(Translate(w, ty, mode, va, write).phys) == PageOffset(va)
  {
    hide Translate;
    TranslateUniform(w, ty, mode, va, va, write);
  }

  lemma PatOnlyUnchanged(w: World, ty: TlbType, mode: Mode, va: u32, write: bool)
    requires ValidWorld(w) && Refill(w, ty, mode, va, write).Filled? && ty == DTLB
    ensures Refill(w, ty, mode, va, write).fill.source != FromPat ==> Refill(w, ty, mode, va, write).changed
  {
    hide BlockTranslate, PageWalk, BackingOf;
  }

  lemma InstructionsInMemory(w: World, mode: Mode, va: u32, write: bool)
    requires ValidWorld(w) && Refill(w, ITLB, mode, va, write).Filled?
    ensures Refill(w, ITLB, mode, va, write).fill.backing.Memory?
  {
    hide Translate, HostAddress;
  }

  lemma FillInMemory(w: World, ty: TlbType, mode: Mode, va: u32, write: bool)
    requires ValidWorld(w) && Refill(w, ty, mode, va, write).Filled?
    ensures var b, tag := Refill(w, ty, mode, va, write).fill.backing, PageTag(va);
            b.Memory? ==> 0 <= b.offR + tag && b.offR + tag + 4096 <= |w.mem| && (b.offR + tag) % 4096 == 0 &&
                          0 <= b.offW + tag && b.offW + tag + 4096 <= |w.mem|
  {
    hide Translate, PageTag, PageOffset, PageNumber, HostAddress, ValidRegions;
    var x := Translate(w, ty, mode, va, write);
    TranslatedOffset(w, ty, mode, va, write);
    var r := FindRange(w.regions, PageNumber(x.phys)).value;
    if r.kind != Mmio {
      HostAddressInRange(w.regions, |w.mem|, r, x.phys);
      PageBounds(HostAddress(r, x.phys), va, |w.mem|);
    }
  }

  lemma FillSound(w: World, ty: TlbType, mode: Mode, va: u32, write: bool, e: Entry)
    requires ValidWorld(w) && Refill(w, ty, mode, va, write).Filled?
    requires var f := Refill(w, ty, mode, va, write); e == FilledEntry(e, PageTag(va), f.fill, f.changed)
    ensures EntrySound(e, ty, |w.mem|)
  {
    hide Refill, ValidWorld, PageTag;
    FillInMemory(w, ty, mode, va, write);
    if ty == DTLB {
      PatOnlyUnchanged(w, ty, mode, va, write);
    } else {
      InstructionsInMemory(w, mode, va, write);
    }
  }

  lemma PageBounds(host: int, va: u32, size: nat)
    requires 0 <= host && host % 4096 == PageOffset(va) && host - PageOffset(va) + 4096 <= size
    ensures 0 <= host - va + PageTag(va) && host - va + PageTag(va) + 4096 <= size
    ensures (host - va + PageTag(va)) % 4096 == 0
  {
  }

  lemma RefillSource(w: World, ty: TlbType, mode: Mode, va: u32, write: bool)
    requires ValidWorld(w) && Refill(w, ty, mode, va, write).Filled?
    ensures Refill(w, ty, mode, va, write).fill.source == NoSource <==> mode == Real
  {
    hide BlockTranslate, PageWalk, BackingOf;
  }

  /** What the refill of a page stores is what its own fresh load translation
      gives, in the world the refill leaves. */
  lemma RefillFresh(w: World, ty: TlbType, mode: Mode, va: u32, write: bool)
    requires ValidWorld(w) && Refill(w, ty, mode, va, write).Filled?
    ensures var w' := TranslateEffect(w, ty, mode, va, write);
            var f, f' := Refill(w, ty, mode, va, write), Refill(w', ty, mode, PageTag(va), false);
            f'.Filled? && f'.fill == f.fill && (f.changed ==> f'.changed)
  {
    var w' := TranslateEffect(w, ty, mode, va, write);
    Geometry(va);
    if write {
      StoreImpliesLoad(w, ty, mode, va);
    }
    RefillUniform(w, ty, mode, va, PageTag(va), false);
    WalkEffectPreserves(w, ty, mode, va, write, ty);
    assert Kept(Refill(w, ty, mode, PageTag(va), false), Refill(w', ty, mode, PageTag(va), false));
    if write && !Refill(w, ty, mode, va, false).changed && ty == DTLB {
      StoreSetsChanged(w, mode, va);
      RefillUniform(w', ty, mode, va, PageTag(va), false);
    }
  }

  /** A hashed walk for a store sets C in the entry that a later walk finds. */
  lemma HashedStoreChanges(w: World, va: u32, pr: bool)
    requires ValidWorld(w) && !w.is603 && !DirectStore(SegmentOf(w, va))
    requires HashedWalk(w, DTLB, va, pr, true).Page?
    ensures var w' := WalkEffect(w, DTLB, va, pr, true);
            FindPte(w', va).Found? && Changed(ReadWord(w'.mem, FindPte(w', va).pte + 4))
  {
    hide ReadWord, SetRC, Changed, SameEntry, ProtBits, Key;
    var pte := FindPte(w, va).pte;
    var w' := WalkEffect(w, DTLB, va, pr, true);
    assert w' == w.(mem := SetRC(w.mem, pte, true));
    SetRCChanges(w.mem, pte);
    hide WalkEffect, HashedWalk, SearchGroup;
    SetRCKeepsTable(w, w', pte, true);
    hide TableKept;
    FindKept(w, w', va);
  }

  /** Only a hashed page can be writable and not yet Changed after a store's own checks. */
  lemma UnchangedIsHashed(w: World, mode: Mode, va: u32)
    requires ValidWorld(w) && Refill(w, DTLB, mode, va, true).Filled?
    requires Refill(w, DTLB, mode, va, false).Filled? && !Refill(w, DTLB, mode, va, false).changed
    ensures mode != Real && BlockTranslate(w, DTLB, mode == User, va).BatMiss?
    ensures !w.is603 && !DirectStore(SegmentOf(w, va)) && HashedWalk(w, DTLB, va, mode == User, true).Page?
  {
    hide FindPte, ReadWord, BackingOf, FindRange, BlockTranslate, Way603;
  }

  lemma HashedChanged(w: World, mode: Mode, va: u32)
    requires ValidWorld(w) && mode != Real && BlockTranslate(w, DTLB, mode == User, va).BatMiss?
    requires !w.is603 && !DirectStore(SegmentOf(w, va)) && Refill(w, DTLB, mode, va, false).Filled?
    requires FindPte(w, va).Found? && Changed(ReadWord(w.mem, FindPte(w, va).pte + 4))
    ensures Refill(w, DTLB, mode, va, false).changed
  {
    hide FindPte, ReadWord, BackingOf, FindRange, BlockTranslate;
  }

  /** The walk of a completed store leaves the page Changed. */
  lemma StoreSetsChanged(w: World, mode: Mode, va: u32)
    requires ValidWorld(w) && Refill(w, DTLB, mode, va, true).Filled?
    ensures var w' := TranslateEffect(w, DTLB, mode, va, true);
            Refill(w', DTLB, mode, va, false).Filled? && Refill(w', DTLB, mode, va, false).changed
  {
    hide Refill, FindPte, ReadWord, WalkEffect, Bat601, PpcBat;
    var w' := TranslateEffect(w, DTLB, mode, va, true);
    StoreImpliesLoad(w, DTLB, mode, va);
    WalkEffectPreserves(w, DTLB, mode, va, true, DTLB);
    assert Kept(Refill(w, DTLB, mode, va, false), Refill(w', DTLB, mode, va, false));
    if !Refill(w, DTLB, mode, va, false).changed {
      UnchangedIsHashed(w, mode, va);
      HashedStoreChanges(w, va, mode == User);
      assert SegmentOf(w', va) == SegmentOf(w, va);
      HashedChanged(w', mode, va);
    }
  }

  // ---------- Secondary lookup and refill ----------

  /** Slots that keep their tags and payloads, or are empty, stay bounded. */
  lemma SoundPut(t: Tlb, t': Tlb, ty: TlbType, size: nat, i: nat)
    requires Sound(t, ty, size) && |t'.slots| == |t.slots| && i < |t.slots| && EntrySound(t'.slots[i], ty, size)
    requires forall j: nat :: j < |t.slots| && j != i ==>
               !Valid(t'.slots[j]) || SameTranslation(t.slots[j], t'.slots[j])
    ensures Sound(t', ty, size)
  {
  }

  lemma TouchSide(m: Machine, ty: TlbType, s: nat, way: nat, stale: bool)
    requires ValidWorld(m.w) && SideOk(m, ty, stale) && s < SETS && way < 4
    ensures SideOk(WithTlb(m, ty, TlbOf(m, ty).(slots := TouchWay(TlbOf(m, ty).slots, s, way))), ty, stale)
  {
    var t := TlbOf(m, ty);
    var t' := t.(slots := TouchWay(t.slots, s, way));
    TouchOk(t, s, way);
    TouchCoherent(t, s, way, OracleFor(m.w, ty), stale);
    forall i: nat | i < SLOTS
      ensures SameTranslation(t.slots[i], t'.slots[i])
    {
      TouchFrame(t.slots, s, way, i);
    }
    hide TlbOk, Coherent, TouchWay;
    SoundPut(t, t', ty, |m.w.mem|, 0);
  }

  lemma InstallSide(m: Machine, ty: TlbType, s: nat, tag: u32, fill: Fill, changed: bool, stale: bool)
    requires ValidWorld(m.w) && SideOk(m, ty, stale) && s < SETS
    requires FindWay(TlbOf(m, ty).slots, s, tag) == 4 && TlbOf(m, ty).slots[5 * s].tag != tag
    requires tag == PageTag(tag) && SetIndex(tag) == s % 4096
    requires fill.source == NoSource <==> ModeOf(s) == Real
    requires Refill(m.w, ty, ModeOf(s), tag, false).Filled? && Refill(m.w, ty, ModeOf(s), tag, false).fill == fill
    requires changed ==> Refill(m.w, ty, ModeOf(s), tag, false).changed
    requires forall e: Entry :: e == FilledEntry(e, tag, fill, changed) ==> EntrySound(e, ty, |m.w.mem|)
    ensures SideOk(WithTlb(m, ty, Install(TlbOf(m, ty), s, tag, fill, changed)), ty, stale)
  {
    hide Refill, FindWay, PageTag, SetIndex, Tracking, Sets, EntrySound;
    var t := TlbOf(m, ty);
    var i := 5 * s + 1 + VictimWay(t.slots, s);
    var t' := Install(t, s, tag, fill, changed);
    InstallOk(t, s, tag, fill, changed);
    InstallCoherent(t, s, tag, fill, changed, OracleFor(m.w, ty), stale);
    InstallFrame(t, s, tag, fill, changed);
    assert EntrySound(t'.slots[i], ty, |m.w.mem|);
    hide VictimWay, Install, Coherent;
    SoundPut(t, t', ty, |m.w.mem|, i);
  }

  /** A lookup or refill keeps the invariant, changes no translation, and leaves
      the page in the way it reports. */
  ghost predicate Looked(m: Machine, m': Machine, ty: TlbType, va: u32, second: Second, stale: bool)
    requires ValidWorld(m.w) && |TlbOf(m, ty).slots| == SLOTS
  {
    var s := SetAt(m, ty, va);
    && MachineOk(m', stale) && m'.msr == m.msr && m'.actions == m.actions
    && m'.w == m.w.(mem := m'.w.mem, lru603 := m'.w.lru603)
    && m'.itlb.pending == m.itlb.pending && m'.dtlb.pending == m.dtlb.pending
    && Preserves(m.w, m'.w, ITLB) && Preserves(m.w, m'.w, DTLB)
    && TlbOf(m', ty).slots[5 * s].tag == TlbOf(m, ty).slots[5 * s].tag
    && (second.InWay? ==> second.way < 4 && TlbOf(m', ty).slots[5 * s + 1 + second.way].tag == PageTag(va))
  }

  lemma SelfPreserves(w: World)
    requires ValidWorld(w)
    ensures Preserves(w, w, ITLB) && Preserves(w, w, DTLB)
  {
    hide Refill;
  }

  lemma WithTlbOk(m: Machine, ty: TlbType, t: Tlb, stale: bool)
    requires MachineOk(m, stale) && SideOk(WithTlb(m, ty, t), ty, stale)
    ensures MachineOk(WithTlb(m, ty, t), stale)
  {
    hide TlbOk, Coherent, Sound, OracleFor;
  }

  lemma HitOk(m: Machine, ty: TlbType, va: u32, way: nat, stale: bool)
    requires MachineOk(m, stale) && way < 4
    requires FindWay(TlbOf(m, ty).slots, SetAt(m, ty, va), PageTag(va)) == way
    ensures var t := TlbOf(m, ty);
            Looked(m, WithTlb(m, ty, t.(slots := TouchWay(t.slots, SetAt(m, ty, va), way))), ty, va, InWay(way), stale)
  {
    hide Sets, Tracking, Coherent, Sound, Preserves, OracleFor;
    var t, s := TlbOf(m, ty), SetAt(m, ty, va);
    TouchSide(m, ty, s, way, stale);
    WithTlbOk(m, ty, t.(slots := TouchWay(t.slots, s, way)), stale);
    TouchFrame(t.slots, s, way, 5 * s);
    TouchFrame(t.slots, s, way, 5 * s + 1 + way);
    SelfPreserves(m.w);
    hide SideOk, TouchWay, FindWay, SetFor;
  }

  /** The walk of a refill keeps the invariant and every translation. */
  lemma EffectOk(m: Machine, ty: TlbType, mode: Mode, va: u32, write: bool, stale: bool)
    requires MachineOk(m, stale)
    ensures var w' := TranslateEffect(m.w, ty, mode, va, write);
            MachineOk(m.(w := w'), stale) && Preserves(m.w, w', ITLB) && Preserves(m.w, w', DTLB)
  {
    hide MachineOk, ValidWorld, TranslateEffect, Preserves;
    OkWellFormed(m, stale);
    WalkEffectPreserves(m.w, ty, mode, va, write, ITLB);
    WalkEffectPreserves(m.w, ty, mode, va, write, DTLB);
    WorldStep(m, TranslateEffect(m.w, ty, mode, va, write), stale);
  }

  lemma RefillOk(m: Machine, ty: TlbType, va: u32, write: bool, stale: bool)
    requires MachineOk(m, stale) && TlbOf(m, ty).slots[5 * SetAt(m, ty, va)].tag != PageTag(va)
    requires FindWay(TlbOf(m, ty).slots, SetAt(m, ty, va), PageTag(va)) == 4
    ensures WellFormed(m)
    ensures Looked(m, RefillMiss(m, ty, va, write).0, ty, va, RefillMiss(m, ty, va, write).1, stale)
  {
    hide MachineOk, ValidWorld, WellFormed, Preserves, Refill, TranslateEffect, FindWay, PageTag, Install, VictimWay, SetFor;
    OkWellFormed(m, stale);
    var mode := CurrentMode(m.msr, ty);
    EffectOk(m, ty, mode, va, write, stale);
    if Refill(m.w, ty, mode, va, write).Filled? {
      InstallMachine(m, TranslateEffect(m.w, ty, mode, va, write), ty, va, write, stale);
    }
  }

  lemma InstallMachine(m: Machine, w': World, ty: TlbType, va: u32, write: bool, stale: bool)
    requires MachineOk(m, stale) && w' == TranslateEffect(m.w, ty, CurrentMode(m.msr, ty), va, write)
    requires MachineOk(m.(w := w'), stale)
    requires TlbOf(m, ty).slots[5 * SetAt(m, ty, va)].tag != PageTag(va)
    requires FindWay(TlbOf(m, ty).slots, SetAt(m, ty, va), PageTag(va)) == 4
    requires Refill(m.w, ty, CurrentMode(m.msr, ty), va, write).Filled?
    ensures var t, s := TlbOf(m, ty), SetAt(m, ty, va);
            var f := Refill(m.w, ty, CurrentMode(m.msr, ty), va, write);
            var t' := Install(t, s, PageTag(va), f.fill, f.changed);
            && MachineOk(WithTlb(m.(w := w'), ty, t'), stale)
            && t'.pending == t.pending && t'.slots[5 * s] == t.slots[5 * s]
            && t'.slots[5 * s + 1 + VictimWay(t.slots, s)].tag == PageTag(va)
  {
    hide Refill, TranslateEffect, FindWay, PageTag, SetIndex, Sets, Tracking, Coherent, Sound, OracleFor, VictimWay;
    var t, s, mode := TlbOf(m, ty), SetAt(m, ty, va), CurrentMode(m.msr, ty);
    var f := Refill(m.w, ty, mode, va, write);
    Geometry(va);
    RefillSource(m.w, ty, mode, va, write);
    RefillFresh(m.w, ty, mode, va, write);
    forall e: Entry | e == FilledEntry(e, PageTag(va), f.fill, f.changed)
      ensures EntrySound(e, ty, |m.w.mem|)
    {
      FillSound(m.w, ty, mode, va, write, e);
    }
    InstallSide(m.(w := w'), ty, s, PageTag(va), f.fill, f.changed, stale);
    InstallFrame(t, s, PageTag(va), f.fill, f.changed);
    hide Install;
    WithTlbOk(m.(w := w'), ty, Install(t, s, PageTag(va), f.fill, f.changed), stale);
  }

  lemma LookupOrRefillOk(m: Machine, ty: TlbType, va: u32, write: bool, stale: bool)
    requires MachineOk(m, stale) && TlbOf(m, ty).slots[5 * SetAt(m, ty, va)].tag != PageTag(va)
    ensures WellFormed(m)
    ensures Looked(m, LookupOrRefill(m, ty, va, write).0, ty, va, LookupOrRefill(m, ty, va, write).1, stale)
  {
    hide Looked, TouchWay, FindWay, RefillMiss, MachineOk, ValidWorld, WellFormed, PageTag, SetFor;
    OkWellFormed(m, stale);
    var way := FindWay(TlbOf(m, ty).slots, SetAt(m, ty, va), PageTag(va));
    if way < 4 {
      HitOk(m, ty, va, way, stale);
    } else {
      RefillOk(m, ty, va, write, stale);
    }
  }
}
