/** Which accesses are allowed, from the bits the guest writes: the protection tables of
    blocks and pages, the segment registers' keys and no-execute bits, and the MSR, on the
    cached paths as well as on a fresh translation. */
module Permissions {
  import opened Bits
  import opened Address
  import opened Translation
  import opened Reference
  import opened Architecture
  import opened Mmu
  import opened MmuProofs
  import opened MmuRefinement

  datatype Rights = NoAccess | ReadOnly | ReadWrite

  /** The protection table of pages, and of 601 blocks: by key and PP. */
  function KeyedRights(key: bool, pp: nat): Rights {
    match pp
    case 0 => if key then NoAccess else ReadWrite
    case 1 => if key then ReadOnly else ReadWrite
    case 2 => ReadWrite
    case _ => ReadOnly
  }

  /** The protection table of blocks: by PP alone. */
  function BlockRights(pp: nat): Rights {
    match pp
    case 0 => NoAccess
    case 2 => ReadWrite
    case _ => ReadOnly
  }

  predicate Permits(r: Rights, write: bool) {
    r == ReadWrite || (r == ReadOnly && !write)
  }

  /** The exception a forbidden access takes. */
  function Violation(ty: TlbType, va: u32, write: bool): Outcome {
    Raised(if ty == ITLB then Isi(0x0800_0000) else if write then Dsi(0x0A00_0000, va) else Dsi(0x0800_0000, va))
  }

  /** The exception of a page that the table does not hold. */
  function PageFault(ty: TlbType, va: u32, write: bool): Outcome {
    Raised(if ty == ITLB then Isi(0x4000_0000) else if write then Dsi(0x4200_0000, va) else Dsi(0x4000_0000, va))
  }

  /** The byte of a page frame that an address selects. */
  function InFrame(lo: u32, va: u32): u32 {
    lo / 4096 * 4096 + va % 4096
  }

  /** What is at a physical address. */
  function AtPhys(w: World, ty: TlbType, phys: u32, va: u32, write: bool): Outcome {
    match FindRange(w.regions, phys / 4096)
    case None => if ty == ITLB then Crashed else NoMemory
    case Some(r) => if ty == ITLB && r.kind == Mmio then Crashed else Hit(RegionTarget(w, r, phys, va, write))
  }

  /** An access with some rights to a physical address. */
  function Guarded(w: World, ty: TlbType, r: Rights, phys: u32, va: u32, write: bool): Outcome {
    if Permits(r, write) then AtPhys(w, ty, phys, va, write) else Violation(ty, va, write)
  }

  lemma IdealAnswer(w: World, ty: TlbType, mode: Mode, va: u32, write: bool)
    requires ValidWorld(w)
    ensures Ideal(w, ty, mode, va, write) ==
            match Translate(w, ty, mode, va, write)
            case Xlat(phys, _, _, _) => AtPhys(w, ty, phys, va, write)
            case Faulted(f) => Raised(f)
            case Stopped => Crashed
  {
    hide Translate, ValidWorld, RegionTarget, BackingOf;
  }

  /** The translated context that MSR[PR] selects. */
  function Translated(pr: bool): Mode {
    if pr then User else Super
  }

  // ---------- Blocks ----------

  /** An enabled block allows what its PP says, whatever the segment register holds. */
  lemma BlockAccess(w: World, ty: TlbType, va: u32, pr: bool, write: bool, prot: u2, phys: u32)
    requires ValidWorld(w) && BlockTranslate(w, ty, pr, va) == BatHit(prot, phys) && (ty == ITLB ==> !write)
    ensures Ideal(w, ty, Translated(pr), va, write) == Guarded(w, ty, BlockRights(prot), phys, va, write)
  {
    hide BlockTranslate, ValidWorld, AtPhys, Ideal;
    IdealAnswer(w, ty, Translated(pr), va, write);
  }

  /** A register pair's Vs bit enables it for the supervisor, its Vp bit for the user, and
      its block is the one the architecture describes. */
  lemma PairAnswers(upper: u32, lower: u32, k: nat, pr: bool, la: u32)
    requires k <= 11 && upper / 4 % 2048 == Pow2(k) - 1
    ensures BlockSize(k) > 0
    ensures Answers(PpcBatEntry(upper, lower), pr, la) <==>
            la / BlockSize(k) == upper / BlockSize(k) && (if pr then upper % 2 == 1 else upper / 2 % 2 == 1)
  {
    hide Pow2, BlockSize, BlockMatch, BlockPhys, PpcBatEntry;
    PpcPairMapsBlock(upper, lower, k);
    TwoBits(upper);
  }

  lemma TwoBits(x: nat)
    ensures x % 4 % 2 == x % 2 && x % 4 / 2 % 2 == x / 2 % 2 && x % 4 / 2 < 2
  {
  }

  /** The protection that a valid 601 pair gives: by its key, Ks for the supervisor and Ku for
      the user, and its PP, as for pages. */
  lemma Pair601Rights(old_: BatEntry, upper: u32, lower: u32, pr: bool)
    requires lower / 64 % 2 == 1
    ensures var key := if pr then upper / 4 % 2 == 1 else upper / 8 % 2 == 1;
            BlockRights(Prot601(Bat601Entry(old_, upper, lower), pr)) == KeyedRights(key, upper % 4)
  {
    var e := Bat601Entry(old_, upper, lower);
    assert e.access == upper / 4 % 4 && e.prot == upper % 4;
    hide And, Pow2, Bat601Entry, Not32;
    Bits601(upper);
    Remapped(e, pr);
  }

  lemma Remapped(e: BatEntry, pr: bool)
    ensures BlockRights(Prot601(e, pr)) == KeyedRights(if pr then e.access % 2 == 1 else e.access / 2 == 1, e.prot)
  {
  }

  lemma Bits601(x: nat)
    ensures x / 4 % 4 % 2 == x / 4 % 2 && x / 4 % 4 / 2 == x / 8 % 2
  {
    Eighth(x);
    TwoBits(x / 4);
  }

  lemma Eighth(x: nat)
    ensures x / 8 == x / 4 / 2
  {
  }

  // ---------- Pages of the hashed table ----------

  /** The key bit of a segment register: Kp for the user, Ks for the supervisor. */
  lemma KeyBit(sr: u32, pr: bool)
    ensures Key(sr, pr) <==> if pr then sr / 0x2000_0000 % 2 == 1 else sr / 0x4000_0000 % 2 == 1
  {
  }

  lemma WordFields(lo: u32, va: u32)
    ensures PagePhys(lo, va) == InFrame(lo, va) && ProtBits(lo) == lo % 4
  {
  }

  /** The refusals of the walks are those of the table. */
  lemma TableRefuses(key: bool, pp: u2, ty: TlbType, va: u32, write: bool)
    ensures Refused(key, pp, write) <==> !Permits(KeyedRights(key, pp), write)
    ensures Raised(ProtectionFault(ty, va, write)) == Violation(ty, va, write)
  {
  }

  /** Without a block the page walk decides. */
  lemma WalkAnswer(w: World, ty: TlbType, va: u32, pr: bool, write: bool)
    requires ValidWorld(w) && BlockTranslate(w, ty, pr, va).BatMiss?
    ensures Ideal(w, ty, Translated(pr), va, write) ==
            match PageWalk(w, ty, va, pr, write)
            case Page(phys, _, _, _) => AtPhys(w, ty, phys, va, write)
            case Denied(f) => Raised(f)
            case Halt => Crashed
  {
    hide BlockTranslate, ValidWorld, AtPhys, Ideal, PageWalk;
    IdealAnswer(w, ty, Translated(pr), va, write);
  }

  /** Where the segment register of an address is. */
  lemma SegmentAt(w: World, va: u32)
    requires ValidWorld(w)
    ensures va / 0x1000_0000 < |w.sr| && SegmentOf(w, va) == w.sr[va / 0x1000_0000]
    ensures |w.tlb603| == 128 && |w.lru603| == 64
  {
  }

  lemma HashedVerdict(w: World, ty: TlbType, va: u32, pr: bool, write: bool, pte: nat)
    requires ValidWorld(w) && FindPte(w, va) == Found(pte) && (ty == ITLB ==> !write)
    ensures var lo := ReadWord(w.mem, pte + 4);
            var key := Key(SegmentOf(w, va), pr);
            HashedWalk(w, ty, va, pr, write) ==
            if Permits(KeyedRights(key, lo % 4), write) then Page(InFrame(lo, va), key, lo % 4, Changed(lo))
            else Denied(Violation(ty, va, write).fault)
  {
    hide ValidWorld, FindPte, ReadWord, PagePhys, ProtBits, Key, SegmentOf, Changed, Refused, Permits, KeyedRights, ProtectionFault, Violation;
    var lo := ReadWord(w.mem, pte + 4);
    WordFields(lo, va);
    TableRefuses(Key(SegmentOf(w, va), pr), lo % 4, ty, va, write);
  }

  /** A page that no block covers, in a segment without T: if the table holds it, key and PP
      decide, and the second word of its entry gives the frame. */
  lemma HashedAccess(w: World, ty: TlbType, va: u32, pr: bool, write: bool)
    requires ValidWorld(w) && !w.is603 && (ty == ITLB ==> !write)
    requires BlockTranslate(w, ty, pr, va).BatMiss? && SegmentOf(w, va) < 0x8000_0000
    ensures var sr := SegmentOf(w, va);
            var answer := Ideal(w, ty, Translated(pr), va, write);
            if ty == ITLB && sr / 0x1000_0000 % 2 == 1 then answer == Raised(Isi(0x1000_0000))
            else
              match FindPte(w, va)
              case NoTable => answer == Crashed
              case NotFound => answer == PageFault(ty, va, write)
              case Found(pte) =>
                var lo := ReadWord(w.mem, pte + 4);
                var key := if pr then sr / 0x2000_0000 % 2 == 1 else sr / 0x4000_0000 % 2 == 1;
                answer == Guarded(w, ty, KeyedRights(key, lo % 4), InFrame(lo, va), va, write)
  {
    hide BlockTranslate, ValidWorld, AtPhys, Ideal, FindPte, ReadWord, Key, SegmentOf, HashedWalk, KeyedRights, Permits, Changed;
    WalkAnswer(w, ty, va, pr, write);
    KeyBit(SegmentOf(w, va), pr);
    if FindPte(w, va).Found? {
      HashedVerdict(w, ty, va, pr, write, FindPte(w, va).pte);
    } else {
      HashedFault(w, ty, va, pr, write);
    }
  }

  lemma HashedFault(w: World, ty: TlbType, va: u32, pr: bool, write: bool)
    requires ValidWorld(w) && !FindPte(w, va).Found? && (ty == ITLB ==> !write)
    ensures HashedWalk(w, ty, va, pr, write) == if FindPte(w, va).NoTable? then Halt else Denied(PageFault(ty, va, write).fault)
  {
    hide ValidWorld, FindPte;
  }

  /** A segment with T set: memory-forced segments of the 601 reach their own 256 MB with all
      rights, all others stop the emulator. */
  lemma DirectAccess(w: World, ty: TlbType, va: u32, pr: bool, write: bool)
    requires ValidWorld(w) && BlockTranslate(w, ty, pr, va).BatMiss? && SegmentOf(w, va) >= 0x8000_0000
    ensures var sr := SegmentOf(w, va);
            Ideal(w, ty, Translated(pr), va, write) ==
            if sr / 0x10_0000 % 512 == 0x7F then AtPhys(w, ty, sr % 16 * 0x1000_0000 + va % 0x1000_0000, va, write)
            else Crashed
  {
    hide BlockTranslate, ValidWorld, AtPhys, Ideal, SegmentOf;
    WalkAnswer(w, ty, va, pr, write);
  }

  // ---------- Pages of a 603 ----------

  /** The first of the two entries at an address. */
  function FirstSlot(ty: TlbType, va: u32): (i: nat)
    ensures i < 127
  {
    (if ty == ITLB then 0 else 64) + 2 * (va / 4096 % 32)
  }

  /** The entry holds the page of an address under a segment register. */
  predicate Holds(e: Tlb603Entry, sr: u32, va: u32) {
    e.valid && e.vsid == sr % 0x100_0000 && e.eaTag / 4096 % 0x1_0000 == va / 4096 % 0x1_0000
  }

  /** The miss exception: its kind, its address, the compare word, the key, and the way to replace. */
  predicate MissFor(f: Fault, ty: TlbType, sr: u32, va: u32, write: bool, key: bool, way: nat) {
    f.TlbMiss? && f.ea == va && f.key == key && f.way == way &&
    f.kind == (if ty == ITLB then InstrMiss else if write then StoreMiss else LoadMiss) &&
    f.cmp == 0x8000_0000 + sr % 0x100_0000 * 128 + va / 4096 % 0x1_0000 / 1024
  }

  lemma Miss603For(w: World, ty: TlbType, va: u32, key: bool, write: bool, way: nat)
    requires ValidWorld(w)
    ensures MissFor(Miss603(w, ty, va, key, write, way), ty, SegmentOf(w, va), va, write, key, way)
  {
    hide PrimaryHash, PtegPhys, SegmentOf, ValidWorld;
  }

  /** The entries of an address: which way holds it, and which one a miss replaces. */
  lemma Ways603(w: World, ty: TlbType, va: u32)
    requires ValidWorld(w)
    ensures |w.tlb603| == 128 && |w.lru603| == 64
    ensures var e0, e1 := w.tlb603[FirstSlot(ty, va)], w.tlb603[FirstSlot(ty, va) + 1];
            && Slot603(ty, va, 0) == FirstSlot(ty, va) && Slot603(ty, va, 1) == FirstSlot(ty, va) + 1
            && Way603(w, ty, va) == (if Holds(e0, SegmentOf(w, va), va) then 0 else if Holds(e1, SegmentOf(w, va), va) then 1 else 2)
            && Victim603(w, ty, va) == if !e0.valid then 0 else if !e1.valid then 1 else w.lru603[FirstSlot(ty, va) / 2]
  {
    assert |w.tlb603| == 128 && |w.lru603| == 64;
    hide SegmentOf, ValidWorld;
  }

  /** On a 603 an access that no entry holds misses, naming the first invalid way or else
      the one due; a held one obeys key and PP; a permitted store with C clear misses in place. */
  lemma Access603(w: World, ty: TlbType, va: u32, pr: bool, write: bool)
    requires ValidWorld(w) && w.is603 && (ty == ITLB ==> !write)
    requires BlockTranslate(w, ty, pr, va).BatMiss? && SegmentOf(w, va) < 0x8000_0000
    ensures |w.tlb603| == 128 && |w.lru603| == 64
    ensures var sr := SegmentOf(w, va);
            var answer := Ideal(w, ty, Translated(pr), va, write);
            var e0, e1 := w.tlb603[FirstSlot(ty, va)], w.tlb603[FirstSlot(ty, va) + 1];
            var key := if pr then sr / 0x2000_0000 % 2 == 1 else sr / 0x4000_0000 % 2 == 1;
            if ty == ITLB && sr / 0x1000_0000 % 2 == 1 then answer == Raised(Isi(0x1000_0000))
            else if !Holds(e0, sr, va) && !Holds(e1, sr, va) then
              answer.Raised? &&
              MissFor(answer.fault, ty, sr, va, write, key,
                      if !e0.valid then 0 else if !e1.valid then 1 else w.lru603[FirstSlot(ty, va) / 2])
            else
              var way := if Holds(e0, sr, va) then 0 else 1;
              var lo := if way == 0 then e0.pteLo else e1.pteLo;
              if Permits(KeyedRights(key, lo % 4), write) && write && lo / 128 % 2 == 0 then
                answer.Raised? && MissFor(answer.fault, ty, sr, va, write, key, way)
              else
                answer == Guarded(w, ty, KeyedRights(key, lo % 4), InFrame(lo, va), va, write)
  {
    hide BlockTranslate, ValidWorld, AtPhys, Ideal, Key, SegmentOf, Way603, Victim603, Miss603, Slot603, FirstSlot, Holds, MissFor;
    WalkAnswer(w, ty, va, pr, write);
    Ways603(w, ty, va);
    KeyBit(SegmentOf(w, va), pr);
    var key, way := Key(SegmentOf(w, va), pr), Way603(w, ty, va);
    if way == 2 {
      Miss603For(w, ty, va, key, write, Victim603(w, ty, va));
      hide Walk603, KeyedRights, Permits;
      assert Walk603(w, ty, va, pr, write) == Denied(Miss603(w, ty, va, key, write, Victim603(w, ty, va))) by { MissedWalk(w, ty, va, pr, write); }
    } else {
      Miss603For(w, DTLB, va, key, write, way);
      HeldVerdict(w, ty, va, pr, write, way);
      hide Walk603, KeyedRights, Permits;
    }
  }

  lemma MissedWalk(w: World, ty: TlbType, va: u32, pr: bool, write: bool)
    requires ValidWorld(w) && Way603(w, ty, va) == 2
    ensures Walk603(w, ty, va, pr, write) == Denied(Miss603(w, ty, va, Key(SegmentOf(w, va), pr), write, Victim603(w, ty, va)))
  {
    hide ValidWorld, Way603, Victim603, Miss603, Key, SegmentOf;
  }

  lemma HeldVerdict(w: World, ty: TlbType, va: u32, pr: bool, write: bool, way: nat)
    requires ValidWorld(w) && Way603(w, ty, va) == way < 2 && (ty == ITLB ==> !write)
    ensures Slot603(ty, va, way) < |w.tlb603|
    ensures var lo := w.tlb603[Slot603(ty, va, way)].pteLo;
            var key := Key(SegmentOf(w, va), pr);
            Walk603(w, ty, va, pr, write) ==
            if !Permits(KeyedRights(key, lo % 4), write) then Denied(Violation(ty, va, write).fault)
            else if write && lo / 128 % 2 == 0 then Denied(Miss603(w, DTLB, va, key, write, way))
            else Page(InFrame(lo, va), key, lo % 4, Changed(lo))
  {
    assert |w.tlb603| == 128;
    hide ValidWorld, Way603, Victim603, Miss603, Key, SegmentOf, PagePhys, ProtBits, Slot603, Refused, Permits, KeyedRights, ProtectionFault, Violation;
    var lo := w.tlb603[Slot603(ty, va, way)].pteLo;
    WordFields(lo, va);
    TableRefuses(Key(SegmentOf(w, va), pr), lo % 4, ty, va, write);
  }

  // ---------- The accesses of a machine ----------

  /** MSR[DR] turns on the translation of data, MSR[IR] that of instructions, and MSR[PR]
      selects the user's context; the cached paths answer as a fresh translation does. */
  lemma Accesses(m: Machine, va: u32)
    requires MachineOk(m, false)
    ensures WellFormed(m) && ValidWorld(m.w)
    ensures var mode := if m.msr.dr then Translated(m.msr.pr) else Real;
            Settled(m, DTLB) ==>
              && Read(m, va).1 == Ideal(m.w, DTLB, mode, va, false)
              && Write(m, va).1 == Ideal(m.w, DTLB, mode, va, true)
    ensures var mode := if m.msr.ir then Translated(m.msr.pr) else Real;
            Settled(m, ITLB) ==> Fetch(m, va).1 == Ideal(m.w, ITLB, mode, va, false)
  {
    hide MachineOk, WellFormed, ValidWorld, Settled, Read, Write, Fetch, Ideal;
    OkWellFormed(m, false);
    if Settled(m, DTLB) {
      ReadRefines(m, va);
      WriteRefines(m, va);
    }
    if Settled(m, ITLB) {
      FetchRefines(m, va);
    }
  }

  /** With translation off an address is its own physical address, and all is allowed. */
  lemma Untranslated(m: Machine, va: u32)
    requires MachineOk(m, false)
    ensures WellFormed(m)
    ensures !m.msr.dr ==> Read(m, va).1 == AtPhys(m.w, DTLB, va, va, false) && Write(m, va).1 == AtPhys(m.w, DTLB, va, va, true)
    ensures !m.msr.ir ==> Fetch(m, va).1 == AtPhys(m.w, ITLB, va, va, false)
  {
    Accesses(m, va);
    hide MachineOk, WellFormed, ValidWorld, Read, Write, Fetch, Ideal, AtPhys;
    IdealAnswer(m.w, DTLB, Real, va, false);
    IdealAnswer(m.w, DTLB, Real, va, true);
    IdealAnswer(m.w, ITLB, Real, va, false);
  }

  /** Loads and stores in a block, cached or not. */
  lemma BlockLoadStore(m: Machine, va: u32, prot: u2, phys: u32)
    requires MachineOk(m, false) && Settled(m, DTLB) && m.msr.dr && ValidWorld(m.w)
    requires BlockTranslate(m.w, DTLB, m.msr.pr, va) == BatHit(prot, phys)
    ensures WellFormed(m)
    ensures Read(m, va).1 == Guarded(m.w, DTLB, BlockRights(prot), phys, va, false)
    ensures Write(m, va).1 == Guarded(m.w, DTLB, BlockRights(prot), phys, va, true)
  {
    hide MachineOk, WellFormed, ValidWorld, Settled, Read, Write, Ideal, Guarded, BlockTranslate;
    Accesses(m, va);
    BlockAccess(m.w, DTLB, va, m.msr.pr, false, prot, phys);
    BlockAccess(m.w, DTLB, va, m.msr.pr, true, prot, phys);
  }

  /** Loads and stores in a page of the hashed table, cached or not: the whole protection
      table, with the exception of each refusal. */
  lemma PageLoadStore(m: Machine, va: u32, pte: nat)
    requires MachineOk(m, false) && Settled(m, DTLB) && m.msr.dr && ValidWorld(m.w) && !m.w.is603
    requires BlockTranslate(m.w, DTLB, m.msr.pr, va).BatMiss? && SegmentOf(m.w, va) < 0x8000_0000
    requires FindPte(m.w, va) == Found(pte)
    ensures WellFormed(m)
    ensures var sr, lo := SegmentOf(m.w, va), ReadWord(m.w.mem, pte + 4);
            var key := if m.msr.pr then sr / 0x2000_0000 % 2 == 1 else sr / 0x4000_0000 % 2 == 1;
            && Read(m, va).1 == Guarded(m.w, DTLB, KeyedRights(key, lo % 4), InFrame(lo, va), va, false)
            && Write(m, va).1 == Guarded(m.w, DTLB, KeyedRights(key, lo % 4), InFrame(lo, va), va, true)
  {
    hide MachineOk, WellFormed, ValidWorld, Settled, Read, Write, Ideal, Guarded, BlockTranslate, SegmentOf, FindPte, ReadWord, KeyedRights, InFrame;
    Accesses(m, va);
    HashedAccess(m.w, DTLB, va, m.msr.pr, false);
    HashedAccess(m.w, DTLB, va, m.msr.pr, true);
  }

  /** A page that the hashed table does not hold faults, with the exception of the access. */
  lemma PageMissing(m: Machine, va: u32)
    requires MachineOk(m, false) && ValidWorld(m.w) && !m.w.is603 && FindPte(m.w, va) == NotFound
    requires SegmentOf(m.w, va) < 0x8000_0000
    ensures WellFormed(m)
    ensures Settled(m, DTLB) && m.msr.dr && BlockTranslate(m.w, DTLB, m.msr.pr, va).BatMiss? ==>
              && Read(m, va).1 == Raised(Dsi(0x4000_0000, va))
              && Write(m, va).1 == Raised(Dsi(0x4200_0000, va))
    ensures Settled(m, ITLB) && m.msr.ir && BlockTranslate(m.w, ITLB, m.msr.pr, va).BatMiss? ==>
              Fetch(m, va).1 == Raised(if SegmentOf(m.w, va) / 0x1000_0000 % 2 == 1 then Isi(0x1000_0000) else Isi(0x4000_0000))
  {
    hide MachineOk, WellFormed, ValidWorld, Settled, Read, Write, Fetch, Ideal, BlockTranslate, SegmentOf, FindPte;
    Accesses(m, va);
    if BlockTranslate(m.w, DTLB, m.msr.pr, va).BatMiss? {
      HashedAccess(m.w, DTLB, va, m.msr.pr, false);
      HashedAccess(m.w, DTLB, va, m.msr.pr, true);
    }
    if BlockTranslate(m.w, ITLB, m.msr.pr, va).BatMiss? {
      HashedAccess(m.w, ITLB, va, m.msr.pr, false);
    }
  }

  /** Fetches: a no-execute segment forbids them, and otherwise only the lack of all rights. */
  lemma PageFetch(m: Machine, va: u32, pte: nat)
    requires MachineOk(m, false) && Settled(m, ITLB) && m.msr.ir && ValidWorld(m.w) && !m.w.is603
    requires BlockTranslate(m.w, ITLB, m.msr.pr, va).BatMiss? && SegmentOf(m.w, va) < 0x8000_0000
    requires FindPte(m.w, va) == Found(pte)
    ensures WellFormed(m)
    ensures var sr, lo := SegmentOf(m.w, va), ReadWord(m.w.mem, pte + 4);
            var key := if m.msr.pr then sr / 0x2000_0000 % 2 == 1 else sr / 0x4000_0000 % 2 == 1;
            Fetch(m, va).1 ==
            if sr / 0x1000_0000 % 2 == 1 then Raised(Isi(0x1000_0000))
            else Guarded(m.w, ITLB, KeyedRights(key, lo % 4), InFrame(lo, va), va, false)
  {
    hide MachineOk, WellFormed, ValidWorld, Settled, Fetch, Ideal, Guarded, BlockTranslate, SegmentOf, FindPte, ReadWord, KeyedRights, InFrame;
    Accesses(m, va);
    HashedAccess(m.w, ITLB, va, m.msr.pr, false);
  }
}
