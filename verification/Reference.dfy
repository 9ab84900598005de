/** What the reference translation guarantees: it is uniform over a page, it
    finds the first matching page table entry, its own Referenced and Changed
    updates never redirect it, and its verdict on stores is what a TLB caches. */
module Reference {
  import opened Address
  import opened Bits
  import opened Translation
  import opened Wrappers

  // ---------- One translation per page ----------

  /** Two outcomes that differ only in the page offset. */
  ghost predicate SamePageOutcome(x: Xlat, x': Xlat, va: u32, va': u32) {
    match x
    case Xlat(phys, source, writable, changed) =>
      x'.Xlat? && x' == Xlat(x'.phys, source, writable, changed) && PageNumber(x'.phys) == PageNumber(phys) &&
      PageOffset(phys) == PageOffset(va) && PageOffset(x'.phys) == PageOffset(va')
    case Faulted(_) => x'.Faulted?
    case Stopped => x'.Stopped?
  }

  /** A block address entry compares and relocates only the bits above 128 KB. */
  lemma BlockParts(e: BatEntry, va: u32)
    requires ValidBat(e)
    ensures BlockMatch(e, va) <==> And(va / 131072, e.hiMask / 131072) * 131072 == e.bepi
    ensures BlockPhys(e, va) / 131072 == Or(e.physHi / 131072, And(va / 131072, Not32(e.hiMask) / 131072))
    ensures BlockPhys(e, va) % 131072 == va % 131072
  {
    hide And, Or;
    MaskParts(va, e.hiMask);
    MaskParts(va, Not32(e.hiMask));
    UnionParts(e.physHi, And(va, Not32(e.hiMask)));
    AndNothing(va % 131072);
    AndAll(va % 131072);
    NotLow(e.hiMask);
    Blocks(And(va, e.hiMask));
  }

  lemma NotLow(x: u32)
    requires x % 131072 == 0
    ensures Not32(x) % 131072 == 131071
  {
  }

  lemma Blocks(x: nat)
    ensures x == x / 131072 * 131072 + x % 131072
  {
  }

  lemma MaskParts(va: nat, mask: nat)
    ensures And(va, mask) / 131072 == And(va / 131072, mask / 131072)
    ensures And(va, mask) % 131072 == And(va % 131072, mask % 131072)
  {
    Powers();
    AndParts(va, mask, 17);
    Parts(va, 17);
    Parts(mask, 17);
    Parts(And(va, mask), 17);
  }

  lemma UnionParts(high: nat, low: nat)
    ensures Or(high, low) / 131072 == Or(high / 131072, low / 131072)
    ensures Or(high, low) % 131072 == Or(high % 131072, low % 131072)
  {
    Powers();
    OrParts(high, low, 17);
    Parts(high, 17);
    Parts(low, 17);
    Parts(Or(high, low), 17);
  }

  lemma AndNothing(x: nat)
    ensures And(x, 0) == 0 && Or(0, x) == x
  {
  }

  lemma AndAll(x: nat)
    requires x < 131072
    ensures And(x, 131071) == x
  {
    Powers();
    AndOnes(x, 17);
  }

  lemma BlockUniform(e: BatEntry, va: u32, va': u32)
    requires ValidBat(e) && PageNumber(va) == PageNumber(va')
    ensures BlockMatch(e, va) == BlockMatch(e, va')
    ensures PageNumber(BlockPhys(e, va)) == PageNumber(BlockPhys(e, va'))
    ensures PageOffset(BlockPhys(e, va)) == PageOffset(va)
  {
    BlockParts(e, va);
    BlockParts(e, va');
    PageParts(BlockPhys(e, va));
    PageParts(BlockPhys(e, va'));
    PageParts(va);
    PageParts(va');
  }

  lemma PageParts(x: nat)
    ensures x / 4096 == x / 131072 * 32 + x % 131072 / 4096
    ensures x % 4096 == x % 131072 % 4096
    ensures x / 131072 == x / 4096 / 32 && x % 131072 / 4096 == x / 4096 % 32
  {
  }

  ghost predicate SameBat(r: BatResult, r': BatResult, va: u32, va': u32) {
    match r
    case BatMiss => r'.BatMiss?
    case BatHit(prot, phys) =>
      r'.BatHit? && r'.prot == prot && PageNumber(r'.phys) == PageNumber(phys) &&
      PageOffset(phys) == PageOffset(va) && PageOffset(r'.phys) == PageOffset(va')
  }

  lemma {:induction false} BatUniform(bats: seq<BatEntry>, pr: bool, va: u32, va': u32)
    requires forall e :: e in bats ==> ValidBat(e)
    requires PageNumber(va) == PageNumber(va')
    ensures SameBat(PpcBat(bats, pr, va), PpcBat(bats, pr, va'), va, va')
    ensures SameBat(Bat601(bats, pr, va), Bat601(bats, pr, va'), va, va')
  {
    if bats != [] {
      BlockUniform(bats[0], va, va');
      BlockUniform(bats[0], va', va);
      BatUniform(bats[1..], pr, va, va');
    }
  }

  lemma PageUniform(va: u32, va': u32)
    requires PageNumber(va) == PageNumber(va')
    ensures Segment(va) == Segment(va') && PageIndex(va) == PageIndex(va') && Set603(va) == Set603(va')
    ensures PageTag(va) == PageTag(va')
  {
    assert va / 0x1000_0000 == va / 4096 / 65536;
    assert va' / 0x1000_0000 == va' / 4096 / 65536;
  }

  lemma PhysUniform(lo: u32, va: u32)
    ensures PageNumber(PagePhys(lo, va)) == PageNumber(lo) && PageOffset(PagePhys(lo, va)) == PageOffset(va)
  {
  }

  lemma ForcedUniform(sr: u32, va: u32)
    ensures PageNumber(ForcedPhys(sr, va)) == PageIndex(va) + sr % 16 * 65536
    ensures PageOffset(ForcedPhys(sr, va)) == PageOffset(va)
  {
    var s, q := va / 0x1000_0000, va / 4096;
    assert va == q * 4096 + va % 4096;
    assert q / 65536 == s;
    assert va % 0x1000_0000 == q % 65536 * 4096 + va % 4096;
  }

  ghost predicate SameWalk(k: Walk, k': Walk, va: u32, va': u32) {
    match k
    case Page(phys, key, pp, changed) =>
      k'.Page? && k' == Page(k'.phys, key, pp, changed) && PageNumber(k'.phys) == PageNumber(phys) &&
      PageOffset(phys) == PageOffset(va) && PageOffset(k'.phys) == PageOffset(va')
    case Denied(_) => k'.Denied?
    case Halt => k'.Halt?
  }

  lemma Uniform603(w: World, ty: TlbType, va: u32, va': u32, pr: bool, write: bool)
    requires ValidWorld(w) && PageNumber(va) == PageNumber(va')
    ensures SameWalk(Walk603(w, ty, va, pr, write), Walk603(w, ty, va', pr, write), va, va')
  {
    PageUniform(va, va');
    var way := Way603(w, ty, va);
    assert way == Way603(w, ty, va');
    if way < 2 {
      PhysUniform(w.tlb603[Slot603(ty, va, way)].pteLo, va);
      PhysUniform(w.tlb603[Slot603(ty, va, way)].pteLo, va');
    }
  }

  lemma FindUniform(w: World, va: u32, va': u32)
    requires ValidWorld(w) && PageNumber(va) == PageNumber(va')
    ensures FindPte(w, va) == FindPte(w, va')
  {
    PageUniform(va, va');
  }

  lemma HashedUniform(w: World, ty: TlbType, va: u32, va': u32, pr: bool, write: bool)
    requires ValidWorld(w) && PageNumber(va) == PageNumber(va')
    ensures SameWalk(HashedWalk(w, ty, va, pr, write), HashedWalk(w, ty, va', pr, write), va, va')
  {
    hide FindPte, ReadWord, PageNumber, PageOffset, PagePhys, Segment, ProtBits, Changed, Key, ProtectionFault, ValidWorld;
    FindUniform(w, va, va');
    PageUniform(va, va');
    if FindPte(w, va).Found? {
      PhysUniform(ReadWord(w.mem, FindPte(w, va).pte + 4), va);
      PhysUniform(ReadWord(w.mem, FindPte(w, va).pte + 4), va');
    }
  }

  lemma WalkUniform(w: World, ty: TlbType, va: u32, va': u32, pr: bool, write: bool)
    requires ValidWorld(w) && PageNumber(va) == PageNumber(va')
    ensures SameWalk(PageWalk(w, ty, va, pr, write), PageWalk(w, ty, va', pr, write), va, va')
  {
    PageUniform(va, va');
    ForcedUniform(SegmentOf(w, va), va);
    ForcedUniform(SegmentOf(w, va), va');
    Uniform603(w, ty, va, va', pr, write);
    HashedUniform(w, ty, va, va', pr, write);
  }

  /** Block and page translation treat every byte of a page alike. */
  lemma TranslateUniform(w: World, ty: TlbType, mode: Mode, va: u32, va': u32, write: bool)
    requires ValidWorld(w) && PageNumber(va) == PageNumber(va')
    ensures SamePageOutcome(Translate(w, ty, mode, va, write), Translate(w, ty, mode, va', write), va, va')
  {
    if mode != Real {
      var pr := mode == User;
      PageUniform(va, va');
      BatUniform(w.ibat, pr, va, va');
      BatUniform(w.dbat, pr, va, va');
      WalkUniform(w, ty, va, va', pr, write);
    }
  }

  lemma BackingUniform(w: World, ty: TlbType, r: Region, va: u32, va': u32, phys: u32, phys': u32)
    requires PageNumber(va) == PageNumber(va') && PageNumber(phys) == PageNumber(phys')
    requires PageOffset(phys) == PageOffset(va) && PageOffset(phys') == PageOffset(va')
    ensures BackingOf(w, ty, r, va, phys) == BackingOf(w, ty, r, va', phys')
  {
    PageUniform(va, va');
    assert va == PageNumber(va) * 4096 + PageOffset(va) && va' == PageNumber(va') * 4096 + PageOffset(va');
    assert phys == PageNumber(phys) * 4096 + PageOffset(phys);
    assert phys' == PageNumber(phys') * 4096 + PageOffset(phys');
  }

  /** Refilling from any address of a page stores the same entry, so an entry
      made for one byte serves all 4096. */
  lemma RefillUniform(w: World, ty: TlbType, mode: Mode, va: u32, va': u32, write: bool)
    requires ValidWorld(w) && PageNumber(va) == PageNumber(va')
    ensures Refill(w, ty, mode, va, write).Filled? ==> Refill(w, ty, mode, va', write) == Refill(w, ty, mode, va, write)
    ensures Refill(w, ty, mode, va, write).Unmapped? ==> Refill(w, ty, mode, va', write).Unmapped?
  {
    TranslateUniform(w, ty, mode, va, va', write);
    var x, x' := Translate(w, ty, mode, va, write), Translate(w, ty, mode, va', write);
    if x.Xlat? {
      PageUniform(x.phys, x'.phys);
      var r := FindRange(w.regions, PageNumber(x.phys));
      if r.Some? {
        BackingUniform(w, ty, r.value, va, va', x.phys, x'.phys);
      }
    }
  }

  // ---------- What an entry's offsets address ----------

  /** The reference answer for one guest address: translate it and look up the region. */
  datatype Target = HostByte(host: int) | DeviceByte(region: Region, offset: int) | Nowhere

  /** A physical address in the region that holds it. Writes to ROM go to the dummy page. */
  function RegionTarget(w: World, r: Region, phys: u32, va: u32, write: bool): Target {
    if r.kind == Mmio then DeviceByte(r, phys - r.firstPage * 4096)
    else if r.kind == Rom && write then HostByte(w.dummyPage + PageOffset(va))
    else HostByte(HostAddress(r, phys))
  }

  function Reach(w: World, ty: TlbType, mode: Mode, va: u32, write: bool): Target
    requires ValidWorld(w)
  {
    match Translate(w, ty, mode, va, write)
    case Xlat(phys, _, _, _) =>
      (match FindRange(w.regions, PageNumber(phys))
       case None => Nowhere
       case Some(r) => RegionTarget(w, r, phys, va, write))
    case Faulted(_) => Nowhere
    case Stopped => Nowhere
  }

  /** The address a TLB hit computes from an entry's payload. */
  function HitTarget(b: Backing, va: u32, write: bool): Target {
    match b
    case Memory(offR, offW) => HostByte((if write then offW else offR) + va)
    case Device(r, base) => DeviceByte(r, va - base)
  }

  /** A filled entry serves every address of its page exactly as the reference does. */
  lemma FillReaches(w: World, ty: TlbType, mode: Mode, va: u32, va': u32, write: bool)
    requires ValidWorld(w) && PageNumber(va) == PageNumber(va')
    requires Refill(w, ty, mode, va, write).Filled?
    requires ty == ITLB ==> !write
    ensures HitTarget(Refill(w, ty, mode, va, write).fill.backing, va', write) == Reach(w, ty, mode, va', write)
  {
    RefillUniform(w, ty, mode, va, va', write);
    Geometry(va');
  }

  // ---------- Stores and permissions ----------

  /** What a store may reach, a load may reach, through the same entry. */
  lemma StoreImpliesLoad(w: World, ty: TlbType, mode: Mode, va: u32)
    requires ValidWorld(w) && Refill(w, ty, mode, va, true).Filled?
    ensures Refill(w, ty, mode, va, false).Filled?
    ensures Refill(w, ty, mode, va, false).fill == Refill(w, ty, mode, va, true).fill
  {
    hide FindPte, Way603, ReadWord, BlockTranslate, Miss603;
  }

  /** The cached writable flag is the verdict of a full block or page walk for
      a store, and a refused store reports DSISR 0x0A000000 and its own address. */
  lemma WritableIffStoreAllowed(w: World, mode: Mode, va: u32)
    requires ValidWorld(w) && Refill(w, DTLB, mode, va, false).Filled?
    ensures Refill(w, DTLB, mode, va, false).fill.writable <==>
            Translate(w, DTLB, mode, va, true) != Faulted(Dsi(0x0A00_0000, va))
    ensures Refill(w, DTLB, mode, va, false).fill.writable && (Refill(w, DTLB, mode, va, false).changed || !w.is603)
            ==> Refill(w, DTLB, mode, va, true) == Filled(Refill(w, DTLB, mode, va, false).fill, true)
  {
    hide FindPte, Way603, ReadWord, BlockTranslate;
  }

  // ---------- The walk's own updates ----------

  /** Two second words of a page table entry that differ in R and C only, C never lost. */
  predicate SameEntry(lo: u32, lo': u32) {
    lo / 512 == lo' / 512 && lo % 128 == lo' % 128 && (Changed(lo) ==> Changed(lo'))
  }

  ghost predicate EntryKept(mem: Memory, mem': Memory, pteg: nat, i: nat)
    requires i < 8 && pteg + 64 <= |mem| == |mem'|
  {
    ReadWord(mem', pteg + 8 * i) == ReadWord(mem, pteg + 8 * i) &&
    SameEntry(ReadWord(mem, pteg + 8 * i + 4), ReadWord(mem', pteg + 8 * i + 4))
  }

  /** Every page table entry keeps its meaning from one memory to the next. */
  ghost predicate TableKept(w: World, w': World)
    requires ValidWorld(w) && ValidWorld(w')
  {
    w' == w.(mem := w'.mem) && |w'.mem| == |w.mem| &&
    forall hash: u32, i: nat :: i < 8 && PtegHost(w, hash).Some? ==> EntryKept(w.mem, w'.mem, PtegHost(w, hash).value, i)
  }

  /** Every page that translates keeps its translation, its permission and its Changed status. */
  ghost predicate Preserves(w: World, w': World, ty: TlbType)
    requires ValidWorld(w) && ValidWorld(w')
  {
    forall mode: Mode, va: u32 :: Kept(Refill(w, ty, mode, va, false), Refill(w', ty, mode, va, false))
  }

  lemma {:induction false} SearchKept(mem: Memory, mem': Memory, pteg: nat, word: u32, i: nat)
    requires i <= 8 && pteg % 8 == 0 && pteg + 64 <= |mem| == |mem'|
    requires forall k: nat :: k < 8 ==> EntryKept(mem, mem', pteg, k)
    ensures SearchPteg(mem', pteg, word, i) == SearchPteg(mem, pteg, word, i)
    ensures SearchPteg(mem, pteg, word, i).Some? ==>
              SameEntry(ReadWord(mem, SearchPteg(mem, pteg, word, i).value + 4),
                        ReadWord(mem', SearchPteg(mem, pteg, word, i).value + 4))
    decreases 8 - i
  {
    if i < 8 {
      assert EntryKept(mem, mem', pteg, i);
      SearchKept(mem, mem', pteg, word, i + 1);
    }
  }

  lemma GroupKept(w: World, w': World, hash: u32, word: u32)
    requires ValidWorld(w) && ValidWorld(w') && TableKept(w, w')
    ensures SearchGroup(w', hash, word) == SearchGroup(w, hash, word)
    ensures SearchGroup(w, hash, word).Found? ==>
              SameEntry(ReadWord(w.mem, SearchGroup(w, hash, word).pte + 4),
                        ReadWord(w'.mem, SearchGroup(w, hash, word).pte + 4))
  {
    assert PtegHost(w', hash) == PtegHost(w, hash);
    if PtegHost(w, hash).Some? {
      SearchKept(w.mem, w'.mem, PtegHost(w, hash).value, word, 0);
    }
  }

  lemma FindKept(w: World, w': World, la: u32)
    requires ValidWorld(w) && ValidWorld(w') && TableKept(w, w')
    ensures FindPte(w', la) == FindPte(w, la)
    ensures FindPte(w, la).Found? ==>
              SameEntry(ReadWord(w.mem, FindPte(w, la).pte + 4), ReadWord(w'.mem, FindPte(w, la).pte + 4))
  {
    hide ReadWord, SameEntry;
    assert SegmentOf(w', la) == SegmentOf(w, la);
    var vsid := Vsid(SegmentOf(w, la));
    var hash := PrimaryHash(vsid, PageIndex(la));
    GroupKept(w, w', hash, MatchWord(vsid, PageIndex(la), false));
    GroupKept(w, w', Not32(hash), MatchWord(vsid, PageIndex(la), true));
  }

  lemma SameEntrySamePage(lo: u32, lo': u32, la: u32)
    requires SameEntry(lo, lo')
    ensures PagePhys(lo, la) == PagePhys(lo', la) && ProtBits(lo) == ProtBits(lo')
  {
    EntryFields(lo, la);
    EntryFields(lo', la);
    hide PagePhys, ProtBits, Changed;
  }

  lemma EntryFields(lo: u32, la: u32)
    ensures PagePhys(lo, la) == lo / 512 / 8 * 4096 + la % 4096 && ProtBits(lo) == lo % 128 % 4
  {
    FrameBits(lo);
    ProtectionBits(lo);
  }

  lemma FrameBits(lo: nat)
    ensures lo - lo % 4096 == lo / 512 / 8 * 4096
  {
    var q := lo / 512;
    QuotientUnique(lo, 4096, q / 8, q % 8 * 512 + lo % 512);
  }

  lemma ProtectionBits(lo: nat)
    ensures lo % 4 == lo % 128 % 4
  {
    var r := lo % 128;
    QuotientUnique(lo, 4, lo / 128 * 32 + r / 4, r % 4);
  }

  lemma Kept603(w: World, w': World, ty: TlbType, la: u32, pr: bool)
    requires ValidWorld(w) && ValidWorld(w') && w'.tlb603 == w.tlb603 && w'.sr == w.sr
    requires Walk603(w, ty, la, pr, false).Page?
    ensures Walk603(w', ty, la, pr, false) == Walk603(w, ty, la, pr, false)
  {
    hide Miss603;
    assert SegmentOf(w', la) == SegmentOf(w, la);
  }

  lemma HashedKept(w: World, w': World, ty: TlbType, la: u32, pr: bool)
    requires ValidWorld(w) && ValidWorld(w') && w'.sr == w.sr && FindPte(w', la) == FindPte(w, la)
    requires FindPte(w, la).Found? ==>
               FindPte(w, la).pte + 8 <= |w'.mem| &&
               SameEntry(ReadWord(w.mem, FindPte(w, la).pte + 4), ReadWord(w'.mem, FindPte(w, la).pte + 4))
    requires HashedWalk(w, ty, la, pr, false).Page?
    ensures var k, k' := HashedWalk(w, ty, la, pr, false), HashedWalk(w', ty, la, pr, false);
            k'.Page? && k' == k.(changed := k'.changed) && (k.changed ==> k'.changed)
  {
    var lo, lo' := ReadWord(w.mem, FindPte(w, la).pte + 4), ReadWord(w'.mem, FindPte(w, la).pte + 4);
    SameEntrySamePage(lo, lo', la);
    hide FindPte, ReadWord;
    assert SegmentOf(w', la) == SegmentOf(w, la);
  }

  /** A walk survives any change of memory that keeps the page table's entries,
      and any change of the 603's replacement state. */
  lemma WalkKept(w: World, w': World, ty: TlbType, la: u32, pr: bool)
    requires ValidWorld(w) && ValidWorld(w')
    requires w' == w.(lru603 := w'.lru603) || TableKept(w, w')
    requires PageWalk(w, ty, la, pr, false).Page?
    ensures var k, k' := PageWalk(w, ty, la, pr, false), PageWalk(w', ty, la, pr, false);
            k'.Page? && k' == k.(changed := k'.changed) && (k.changed ==> k'.changed)
  {
    if w' == w.(lru603 := w'.lru603) {
      FindIgnoresLru(w, w', la);
    } else {
      FindKept(w, w', la);
    }
    hide Walk603, HashedWalk, FindPte, ReadWord;
    assert SegmentOf(w', la) == SegmentOf(w, la);
    if Walk603(w, ty, la, pr, false).Page? {
      Kept603(w, w', ty, la, pr);
    }
    if HashedWalk(w, ty, la, pr, false).Page? {
      HashedKept(w, w', ty, la, pr);
    }
  }

  lemma FindIgnoresLru(w: World, w': World, la: u32)
    requires ValidWorld(w) && ValidWorld(w') && w' == w.(lru603 := w'.lru603)
    ensures FindPte(w', la) == FindPte(w, la)
    ensures FindPte(w, la).Found? ==>
              SameEntry(ReadWord(w.mem, FindPte(w, la).pte + 4), ReadWord(w'.mem, FindPte(w, la).pte + 4))
  {
    hide ReadWord;
    assert SegmentOf(w', la) == SegmentOf(w, la);
    forall hash: u32, word: u32
      ensures SearchGroup(w', hash, word) == SearchGroup(w, hash, word)
    {
      assert PtegHost(w', hash) == PtegHost(w, hash);
    }
  }

  /** A refill depends on the walk's result only. */
  lemma RefillKept(w: World, w': World, ty: TlbType, mode: Mode, va: u32)
    requires ValidWorld(w) && ValidWorld(w')
    requires mode != Real ==> BlockTranslate(w', ty, mode == User, va) == BlockTranslate(w, ty, mode == User, va)
    requires w'.regions == w.regions && w'.dummyPage == w.dummyPage
    requires var k, k' := PageWalk(w, ty, va, mode == User, false), PageWalk(w', ty, va, mode == User, false);
             k.Page? ==> k'.Page? && k' == k.(changed := k'.changed) && (k.changed ==> k'.changed)
    ensures Kept(Refill(w, ty, mode, va, false), Refill(w', ty, mode, va, false))
  {
    hide PageWalk, BlockTranslate;
  }

  /** Memory changes that keep every page table entry keep every translation. */
  lemma WalksKeptPreserves(w: World, w': World, ty: TlbType)
    requires ValidWorld(w) && ValidWorld(w')
    requires w' == w.(lru603 := w'.lru603) || TableKept(w, w')
    ensures Preserves(w, w', ty)
  {
    forall mode: Mode, va: u32
      ensures Kept(Refill(w, ty, mode, va, false), Refill(w', ty, mode, va, false))
    {
      if PageWalk(w, ty, va, mode == User, false).Page? {
        WalkKept(w, w', ty, va, mode == User);
      }
      RefillKept(w, w', ty, mode, va);
    }
  }

  lemma SetRCKeepsEntry(mem: Memory, pte: nat, write: bool, a: nat)
    requires pte % 8 == 0 && pte + 8 <= |mem| && a % 8 == 0 && a + 8 <= |mem|
    ensures var mem' := SetRC(mem, pte, write);
            ReadWord(mem', a) == ReadWord(mem, a) && SameEntry(ReadWord(mem, a + 4), ReadWord(mem', a + 4))
  {
    if a == pte {
      SetRCOwnEntry(mem, pte, write);
    } else {
      hide Changed;
      assert a + 8 <= pte || pte + 8 <= a;
      assert ReadWord(SetRC(mem, pte, write), a + 4) == ReadWord(mem, a + 4);
    }
  }

  /** In the entry itself the bytes with R and C keep their other bits. */
  lemma SetRCOwnEntry(mem: Memory, a: nat, write: bool)
    requires a + 8 <= |mem|
    ensures var mem' := SetRC(mem, a, write);
            ReadWord(mem', a) == ReadWord(mem, a) && SameEntry(ReadWord(mem, a + 4), ReadWord(mem', a + 4))
  {
    var mem' := SetRC(mem, a, write);
    assert mem'[a + 6] / 2 == mem[a + 6] / 2 && mem'[a + 7] % 128 == mem[a + 7] % 128;
    assert mem[a + 7] >= 128 ==> mem'[a + 7] >= 128;
    WordBits(mem[a + 4], mem[a + 5], mem[a + 6], mem[a + 7]);
    WordBits(mem'[a + 4], mem'[a + 5], mem'[a + 6], mem'[a + 7]);
  }

  /** The walk of a store leaves its page table entry Changed. */
  lemma SetRCChanges(mem: Memory, pte: nat)
    requires pte + 8 <= |mem|
    ensures Changed(ReadWord(SetRC(mem, pte, true), pte + 4))
  {
    var mem' := SetRC(mem, pte, true);
    WordBits(mem'[pte + 4], mem'[pte + 5], mem'[pte + 6], mem'[pte + 7]);
  }

  lemma WordBits(b0: byte, b1: byte, b2: byte, b3: byte)
    ensures var lo: int := b0 as int * 0x100_0000 + b1 as int * 0x1_0000 + b2 as int * 0x100 + b3 as int;
            lo / 512 == b0 as int * 32768 + b1 as int * 128 + b2 / 2 && lo % 128 == b3 % 128 && lo / 128 % 2 == b3 / 128
  {
  }

  /** Setting R and C, or the 603's replacement state, never changes any later translation. */
  lemma WalkEffectPreserves(w: World, ty0: TlbType, mode0: Mode, va0: u32, write0: bool, ty: TlbType)
    requires ValidWorld(w)
    ensures Preserves(w, TranslateEffect(w, ty0, mode0, va0, write0), ty)
  {
    var w' := TranslateEffect(w, ty0, mode0, va0, write0);
    if w'.mem != w.mem {
      SetRCKeepsTable(w, w', FindPte(w, va0).pte, write0);
    }
    WalksKeptPreserves(w, w', ty);
  }

  lemma SetRCKeepsTable(w: World, w': World, pte: nat, write: bool)
    requires ValidWorld(w) && ValidWorld(w') && pte % 8 == 0 && pte + 8 <= |w.mem|
    requires w' == w.(mem := SetRC(w.mem, pte, write))
    ensures TableKept(w, w')
  {
    hide ReadWord, SetRC, SameEntry, ValidWorld, PtegHost, EntryKept;
    forall hash: u32, i: nat | i < 8 && PtegHost(w, hash).Some?
      ensures EntryKept(w.mem, w'.mem, PtegHost(w, hash).value, i)
    {
      SetRCKeepsSlot(w.mem, pte, write, PtegHost(w, hash).value, i);
    }
  }

  lemma SetRCKeepsSlot(mem: Memory, pte: nat, write: bool, pteg: nat, i: nat)
    requires pte % 8 == 0 && pte + 8 <= |mem| && pteg % 8 == 0 && pteg + 64 <= |mem| && i < 8
    ensures EntryKept(mem, SetRC(mem, pte, write), pteg, i)
  {
    hide ReadWord, SetRC, SameEntry;
    SetRCKeepsEntry(mem, pte, write, pteg + 8 * i);
  }

  // ---------- The page table search ----------

  ghost predicate FirstMatch(mem: Memory, pteg: nat, word: u32, k: nat)
    requires pteg + 64 <= |mem|
  {
    k < 8 && ReadWord(mem, pteg + 8 * k) == word && forall j: nat :: j < k ==> ReadWord(mem, pteg + 8 * j) != word
  }

  ghost predicate NoMatch(mem: Memory, pteg: nat, word: u32)
    requires pteg + 64 <= |mem|
  {
    forall j: nat :: j < 8 ==> ReadWord(mem, pteg + 8 * j) != word
  }

  lemma {:induction false} SearchPtegFirst(mem: Memory, pteg: nat, word: u32, i: nat)
    requires i <= 8 && pteg % 8 == 0 && pteg + 64 <= |mem|
    requires forall j: nat :: j < i ==> ReadWord(mem, pteg + 8 * j) != word
    ensures match SearchPteg(mem, pteg, word, i)
            case Some(p) => exists k: nat :: FirstMatch(mem, pteg, word, k) && p == pteg + 8 * k
            case None => NoMatch(mem, pteg, word)
    decreases 8 - i
  {
    hide ReadWord;
    if i < 8 {
      if ReadWord(mem, pteg + 8 * i) == word {
        assert FirstMatch(mem, pteg, word, i);
      } else {
        SearchPtegFirst(mem, pteg, word, i + 1);
      }
    }
  }

  /** The walk returns the first match of the primary group; only when that group
      has none, the first match of the secondary group; and reports a page fault
      exactly when neither group has one. */
  lemma FindPteSpec(w: World, la: u32)
    requires ValidWorld(w)
    ensures var vsid := Vsid(SegmentOf(w, la));
            var hash := PrimaryHash(vsid, PageIndex(la));
            var g1, g2 := PtegHost(w, hash), PtegHost(w, Not32(hash));
            var m1, m2 := MatchWord(vsid, PageIndex(la), false), MatchWord(vsid, PageIndex(la), true);
            match FindPte(w, la)
            case Found(p) =>
              g1.Some? &&
              ((exists k: nat :: FirstMatch(w.mem, g1.value, m1, k) && p == g1.value + 8 * k) ||
               (NoMatch(w.mem, g1.value, m1) && g2.Some? &&
                exists k: nat :: FirstMatch(w.mem, g2.value, m2, k) && p == g2.value + 8 * k))
            case NotFound => g1.Some? && g2.Some? && NoMatch(w.mem, g1.value, m1) && NoMatch(w.mem, g2.value, m2)
            case NoTable => g1.None? || (NoMatch(w.mem, g1.value, m1) && g2.None?)
  {
    var vsid := Vsid(SegmentOf(w, la));
    var hash := PrimaryHash(vsid, PageIndex(la));
    var g1, g2 := PtegHost(w, hash), PtegHost(w, Not32(hash));
    if g1.Some? {
      SearchPtegFirst(w.mem, g1.value, MatchWord(vsid, PageIndex(la), false), 0);
    }
    if g2.Some? {
      SearchPtegFirst(w.mem, g2.value, MatchWord(vsid, PageIndex(la), true), 0);
    }
    hide ReadWord, PrimaryHash, MatchWord, PtegHost, FirstMatch, NoMatch;
  }

  /** The hash a page is filed under in the primary or the secondary group. */
  function HashOf(vsid: u32, pageIndex: u32, second: bool): u32 {
    if second then Not32(PrimaryHash(vsid, pageIndex)) else PrimaryHash(vsid, pageIndex)
  }

  /** The abbreviated page index loses nothing: the group's address and the
      matching word together determine the virtual page. */
  lemma VirtualPageDetermined(sdr1: u32, vsid: u32, index: u32, second: bool, vsid': u32, index': u32, second': bool)
    requires vsid < 0x100_0000 && vsid' < 0x100_0000 && index < 0x1_0000 && index' < 0x1_0000
    requires MatchWord(vsid, index, second) == MatchWord(vsid', index', second')
    requires PtegPhys(sdr1, HashOf(vsid, index, second)) == PtegPhys(sdr1, HashOf(vsid', index', second'))
    ensures vsid == vsid' && index == index' && second == second'
  {
    MatchFields(vsid, index, second, vsid', index', second');
    var h, h' := HashOf(vsid, index, second), HashOf(vsid', index', second');
    GroupBits(sdr1, h);
    GroupBits(sdr1, h');
    assert h % 1024 == h' % 1024;
    ComplementBits(PrimaryHash(vsid, index), PrimaryHash(vsid, index'));
    Powers();
    var v := vsid % 0x8_0000;
    Parts(Xor(v, index), 10);
    Parts(Xor(v, index'), 10);
    XorCancel(v, index, index', 10);
    Parts(index, 10);
    Parts(index', 10);
    assert index == index / 1024 * 1024 + index % 1024;
  }

  lemma MatchFields(vsid: u32, index: u32, second: bool, vsid': u32, index': u32, second': bool)
    requires vsid < 0x100_0000 && vsid' < 0x100_0000 && index < 0x1_0000 && index' < 0x1_0000
    requires MatchWord(vsid, index, second) == MatchWord(vsid', index', second')
    ensures vsid == vsid' && index / 1024 == index' / 1024 && second == second'
  {
    assert index / 1024 < 64 && index' / 1024 < 64;
  }

  lemma GroupBits(sdr1: u32, hash: u32)
    ensures PtegPhys(sdr1, hash) % 65536 == hash % 1024 * 64
  {
  }

  lemma ComplementBits(x: u32, y: u32)
    ensures Not32(x) % 1024 == 1023 - x % 1024 && Not32(y) % 1024 == 1023 - y % 1024
  {
  }
}
