/** What a store writes to RAM a load of the same address reads back, from the kinds of
    the regions alone, and the one store of which that is not true. */
module RamAccess {
  import opened Bits
  import opened Address
  import opened Translation
  import opened Reference
  import opened SoftTlb
  import opened Mmu
  import opened MmuProofs
  import opened MmuAccess
  import opened MmuContext
  import opened MmuRefinement
  import opened MemoryAccess
  import opened MemoryRoundTrip
  import opened MemoryStale
  import opened Wrappers

  /** A store to va translates to an address in a RAM region, backed by host byte h. */
  predicate RamPage(w: World, mode: Mode, va: u32, h: int)
    requires ValidWorld(w)
  {
    match Translate(w, DTLB, mode, va, true)
    case Xlat(phys, _, _, _) =>
      var r := FindRange(w.regions, PageNumber(phys));
      r.Some? && r.value.kind == Ram && h == HostAddress(r.value, phys)
    case _ => false
  }

  /** What a refill stores for such a page. */
  predicate RamFill(w: World, mode: Mode, va: u32, h: int)
    requires ValidWorld(w)
  {
    var f := Refill(w, DTLB, mode, va, true);
    f.Filled? && f.fill.backing == Memory(h - va, h - va)
  }

  lemma RamFills(w: World, mode: Mode, va: u32, h: int)
    requires ValidWorld(w) && RamPage(w, mode, va, h)
    ensures RamFill(w, mode, va, h)
  {
    hide Translate, ValidWorld;
  }

  /** Loads and stores both reach the byte. */
  lemma RamAnswers(w: World, mode: Mode, va: u32, h: int)
    requires ValidWorld(w) && RamFill(w, mode, va, h)
    ensures Ideal(w, DTLB, mode, va, true) == Hit(HostByte(h)) && Ideal(w, DTLB, mode, va, false) == Hit(HostByte(h))
  {
    hide Refill, Reach, ValidWorld;
    FillReaches(w, DTLB, mode, va, va, true);
    StoreImpliesLoad(w, DTLB, mode, va);
    FillReaches(w, DTLB, mode, va, va, false);
  }

  /** On a 603 a store translates only once C is known. */
  lemma ChangedOn603(w: World, mode: Mode, va: u32)
    requires ValidWorld(w) && w.is603 && Refill(w, DTLB, mode, va, true).Filled?
    ensures Refill(w, DTLB, mode, va, false).Filled? && Refill(w, DTLB, mode, va, false).changed
  {
    hide Way603, BlockTranslate, Miss603, BackingOf;
  }

  /** What keeps every load translation keeps the RAM pages of stores. */
  lemma RamKept(w: World, w': World, mode: Mode, va: u32, h: int)
    requires ValidWorld(w) && ValidWorld(w') && Preserves(w, w', DTLB) && w'.is603 == w.is603 && RamFill(w, mode, va, h)
    ensures RamFill(w', mode, va, h)
  {
    hide Refill, ValidWorld, Translate;
    StoreImpliesLoad(w, DTLB, mode, va);
    StoreFillWritable(w, mode, va);
    assert Kept(Refill(w, DTLB, mode, va, false), Refill(w', DTLB, mode, va, false));
    if w.is603 {
      ChangedOn603(w, mode, va);
    }
    WritableIffStoreAllowed(w', mode, va);
  }

  /** In every settled, unstale state a RAM page is reached by stores and by the loads
      right after them. */
  lemma RamReaches(m: Machine, va: u32, h: int)
    requires MachineOk(m, false) && Settled(m, DTLB)
    requires WellFormed(m) && ValidWorld(m.w) && RamFill(m.w, CurrentMode(m.msr, DTLB), va, h)
    ensures ReachesRam(m, va, h)
  {
    hide MachineOk, WellFormed, ValidWorld, Write, Read, Settled, RamFill, Preserves, Ideal;
    var mode := CurrentMode(m.msr, DTLB);
    WriteRefines(m, va);
    RamAnswers(m.w, mode, va, h);
    WriteOk(m, va, false);
    var m1 := Write(m, va).0;
    OkWellFormed(m1, false);
    SettledStays(m, m1);
    RamKept(m.w, m1.w, mode, va, h);
    RamAnswers(m1.w, mode, va, h);
    ReadRefines(m1, va);
  }

  /** Within a page of RAM a load returns what was stored. */
  lemma StoreThenLoad(m: Machine, va: u32, n: nat, v: nat, io: Devices, h: int)
    requires MachineOk(m, false) && Settled(m, DTLB) && AccessSize(n) && !(n == 8 && va % 4 != 0)
    requires PageOffset(va) + n <= 4096 && ValidWorld(m.w) && RamPage(m.w, CurrentMode(m.msr, DTLB), va, h)
    ensures WellFormed(m) && WellFormed(Store(m, va, n, v).0)
    ensures Store(m, va, n, v).1 == Done([]) && Load(Store(m, va, n, v).0, va, n, io).1 == Value(v % Radix(n))
  {
    hide MachineOk, WellFormed, ValidWorld, Write, Read, Settled, RamFill, RamPage, Store, Load, PageOffset;
    OkWellFormed(m, false);
    RamFills(m.w, CurrentMode(m.msr, DTLB), va, h);
    RamReaches(m, va, h);
    ReachedThenLoad(m, va, n, v, io, false);
  }

  // ---------- Crossing into the next page ----------

  /** Storing the first bytes at hA leaves the page table alone. */
  ghost predicate SparesTable(w: World, va: u32, hA: int)
    requires ValidWorld(w)
  {
    forall h: int :: hA <= h < hA + 4096 - PageOffset(va) ==> Spared(w, h)
  }

  lemma NoClash(m: Machine, vb: u32, hA: int, k: nat)
    requires WellFormed(m) && k > 0 && ValidWorld(m.w) && Spared(m.w, hA + k - 1)
    ensures !Clash(m, vb, hA, k)
  {
    hide WellFormed, ValidWorld, FindPte, PtegHost, HashedWalk, BlockTranslate;
    if Clash(m, vb, hA, k) {
      PteInGroup(m.w, vb);
    }
  }

  lemma QuietPoke(w: World, h: int, bytes: seq<byte>)
    requires ValidWorld(w) && forall i: int :: h <= i < h + |bytes| ==> Spared(w, i)
    ensures Quiet(w, Poke(w.mem, h, bytes))
  {
    hide Spared, ValidWorld;
  }

  /** The machine after the first page's bytes is as good as before. */
  lemma MidOk(m: Machine, va: u32, bytes: seq<byte>, hA: int)
    requires MachineOk(m, false) && WellFormed(m) && ValidWorld(m.w) && |bytes| == 4096 - PageOffset(va)
    requires SparesTable(m.w, va, hA)
    ensures var mid := AfterFirst(m, va, bytes, hA);
            && MachineOk(mid, false) && WellFormed(mid) && ValidWorld(mid.w) && mid.msr == m.msr
            && mid.dtlb.pending == m.dtlb.pending && mid.w.is603 == m.w.is603
            && SparesTable(mid.w, va, hA)
    ensures ValidWorld(AfterFirst(m, va, bytes, hA).w) && Preserves(m.w, AfterFirst(m, va, bytes, hA).w, DTLB)
  {
    hide MachineOk, WellFormed, ValidWorld, Write, Poke, Preserves, Spared, Quiet, PageOffset;
    WriteOk(m, va, false);
    var m1 := Write(m, va).0;
    OkWellFormed(m1, false);
    SameTable(m.w, m1.w);
    var mem := Poke(m1.w.mem, hA, bytes);
    QuietPoke(m1.w, hA, bytes);
    PokeOk(m1, mem, false);
    QuietPreserves(m1.w, mem, DTLB);
    var mid := AfterFirst(m, va, bytes, hA);
    OkWellFormed(mid, false);
    SameTable(m1.w, mid.w);
    PreservedTwice(m.w, m1.w, mid.w);
  }

  lemma PreservedTwice(a: World, b: World, c: World)
    requires ValidWorld(a) && ValidWorld(b) && ValidWorld(c) && Preserves(a, b, DTLB) && Preserves(b, c, DTLB)
    ensures Preserves(a, c, DTLB)
  {
    hide ValidWorld, Refill;
    forall mode: Mode, va: u32
      ensures Kept(Refill(a, DTLB, mode, va, false), Refill(c, DTLB, mode, va, false))
    {
      assert Kept(Refill(a, DTLB, mode, va, false), Refill(b, DTLB, mode, va, false));
      assert Kept(Refill(b, DTLB, mode, va, false), Refill(c, DTLB, mode, va, false));
    }
  }

  /** Across a page boundary a load returns what was stored, whatever RAM frames the two
      pages map to, if the bytes on the first page are no bytes of the page table; on a
      603 always. */
  lemma StoreThenLoadAcross(m: Machine, va: u32, n: nat, v: nat, io: Devices, hA: int, hB: int)
    requires MachineOk(m, false) && Settled(m, DTLB) && AccessSize(n) && !(n == 8 && va % 4 != 0)
    requires PageOffset(va) + n > 4096 && ValidWorld(m.w)
    requires RamPage(m.w, CurrentMode(m.msr, DTLB), va, hA)
    requires RamPage(m.w, CurrentMode(m.msr, DTLB), Advance(va, 4096 - PageOffset(va)), hB)
    requires SparesTable(m.w, va, hA)
    ensures WellFormed(m) && WellFormed(Store(m, va, n, v).0)
    ensures Store(m, va, n, v).1 == Done([]) && Load(Store(m, va, n, v).0, va, n, io).1 == Value(v % Radix(n))
  {
    hide MachineOk, WellFormed, ValidWorld, Write, Read, Settled, RamFill, RamPage, Store, Load, PageOffset, Advance, BytesOf, AfterFirst, Spared, ReachesRam, Clash, Preserves;
    OkWellFormed(m, false);
    OffsetBelow(va);
    var mode, k := CurrentMode(m.msr, DTLB), 4096 - PageOffset(va);
    var vb, bytes := Advance(va, k), BytesOf(v, n);
    RamFills(m.w, mode, va, hA);
    RamReaches(m, va, hA);
    MidOk(m, va, bytes[..k], hA);
    var mid := AfterFirst(m, va, bytes[..k], hA);
    SettledStays(m, mid);
    RamFills(m.w, mode, vb, hB);
    RamKept(m.w, mid.w, mode, vb, hB);
    RamReaches(mid, vb, hB);
    NoClash(mid, vb, hA, k);
    CrossingExact(m, va, n, v, io, hA, hB, false);
  }

  // ---------- A store that overwrites its own page table entry ----------

  /** A store through a block translation never walks the page table. */
  lemma BlockStoreQuiet(m: Machine, va: u32)
    requires MachineOk(m, false) && Settled(m, DTLB) && ValidWorld(m.w) && CurrentMode(m.msr, DTLB) != Real
    requires BlockTranslate(m.w, DTLB, m.msr.pr, va).BatHit?
    ensures WellFormed(m) && Write(m, va).0.w.mem == m.w.mem
  {
    hide MachineOk, WellFormed, ValidWorld, Write, Settled, PageTag, SetFor, FindWay, Refill, BlockTranslate, TableWalk;
    OkWellFormed(m, false);
    WriteMemory(m, va, false);
    var s := SetAt(m, DTLB, va);
    var way := FindWay(m.dtlb.slots, s, PageTag(va));
    var hit := m.dtlb.slots[5 * s].tag == PageTag(va);
    if hit || way < 4 {
      var k := if hit then 0 else 1 + way;
      HitFresh(m, DTLB, va, k);
      SourceOf(m.w, DTLB, CurrentMode(m.msr, DTLB), va);
      TagAbove(m, DTLB, va, 5 * s + k, false);
      DataEntrySound(m, 5 * s + k);
    }
  }

  /** The page's entry lies at the end of the frame before byte `end`, with C clear. */
  predicate EntryBefore(w: World, vb: u32, end: int)
    requires ValidWorld(w)
  {
    !w.is603 && !DirectStore(SegmentOf(w, vb)) && FindPte(w, vb).Found? &&
    FindPte(w, vb).pte + 8 == end && w.mem[FindPte(w, vb).pte + 7] < 128
  }

  lemma EntryStays(w: World, w': World, vb: u32, end: int)
    requires ValidWorld(w) && ValidWorld(w') && w' == w.(lru603 := w'.lru603) && EntryBefore(w, vb, end)
    ensures EntryBefore(w', vb, end) && forall pr: bool :: BlockTranslate(w', DTLB, pr, vb) == BlockTranslate(w, DTLB, pr, vb)
  {
    FindIgnoresLru(w, w', vb);
    assert SegmentOf(w', vb) == SegmentOf(w, vb);
    hide FindPte;
  }

  /** A store to a page with such an entry walks to it. */
  lemma EntryWalked(m: Machine, vb: u32, end: int, h: int)
    requires MachineOk(m, false) && Settled(m, DTLB) && WellFormed(m) && ValidWorld(m.w) && CurrentMode(m.msr, DTLB) != Real
    requires BlockTranslate(m.w, DTLB, m.msr.pr, vb).BatMiss? && EntryBefore(m.w, vb, end)
    requires RamFill(m.w, CurrentMode(m.msr, DTLB), vb, h)
    ensures Walks(m, vb)
  {
    hide MachineOk, WellFormed, ValidWorld, Write, Settled, Refill, BlockTranslate, Walks, FindPte, SetRC, RamFill, Ideal;
    var mode := CurrentMode(m.msr, DTLB);
    WriteRefines(m, vb);
    RamAnswers(m.w, mode, vb, h);
    CompletedStoreChanges(m, vb);
    WriteOk(m, vb, false);
    WriteMemory(m, vb, false);
    var m1 := Write(m, vb).0;
    OkWellFormed(m1, false);
    if !Walks(m, vb) {
      assert m1.w == m.w.(lru603 := m1.w.lru603);
      EntryStays(m.w, m1.w, vb, end);
      SourceOf(m1.w, DTLB, mode, vb);
      FlagFromTable(m1.w, mode, vb);
      var pte := FindPte(m1.w, vb).pte;
      WordBits(m1.w.mem[pte + 4], m1.w.mem[pte + 5], m1.w.mem[pte + 6], m1.w.mem[pte + 7]);
    }
  }

  /** A store reaches from a block of RAM into a page whose entry is the last one of the
      frame before, and stores there what the entry holds. Its own walk then marks the
      entry, and the load reads something else. */
  lemma OwnEntryFails(m: Machine, va: u32, n: nat, v: nat, io: Devices, hA: int, hB: int)
    requires MachineOk(m, false) && Settled(m, DTLB) && AccessSize(n) && !(n == 8 && va % 4 != 0)
    requires PageOffset(va) + n > 4096 && ValidWorld(m.w) && CurrentMode(m.msr, DTLB) != Real
    requires var vb := Advance(va, 4096 - PageOffset(va));
             && RamPage(m.w, CurrentMode(m.msr, DTLB), va, hA) && RamPage(m.w, CurrentMode(m.msr, DTLB), vb, hB)
             && BlockTranslate(m.w, DTLB, m.msr.pr, va).BatHit? && BlockTranslate(m.w, DTLB, m.msr.pr, vb).BatMiss?
             && EntryBefore(m.w, vb, hA + 4096 - PageOffset(va))
    requires Peek(m.w.mem, hA, 4096 - PageOffset(va)) == BytesOf(v, n)[..4096 - PageOffset(va)]
    requires InHost(m.w.mem, hA, 4096 - PageOffset(va))
    ensures WellFormed(m) && WellFormed(Store(m, va, n, v).0)
    ensures Store(m, va, n, v).1 == Done([]) && Load(Store(m, va, n, v).0, va, n, io).1 != Value(v % Radix(n))
  {
    hide MachineOk, WellFormed, ValidWorld, Write, Read, Settled, RamFill, RamPage, Store, Load, PageOffset, Advance, BytesOf, Poke, ReachesRam, BlockTranslate, EntryBefore, Preserves, Peek;
    OkWellFormed(m, false);
    OffsetBelow(va);
    var mode, k := CurrentMode(m.msr, DTLB), 4096 - PageOffset(va);
    var vb, bytes := Advance(va, k), BytesOf(v, n);
    RamFills(m.w, mode, va, hA);
    RamReaches(m, va, hA);
    WriteOk(m, va, false);
    BlockStoreQuiet(m, va);
    var mid := Write(m, va).0;
    OkWellFormed(mid, false);
    SettledStays(m, mid);
    PokeSame(mid.w.mem, hA, bytes[..k]);
    assert AfterFirst(m, va, bytes[..k], hA) == mid;
    EntryStays(m.w, mid.w, vb, hA + k);
    RamFills(m.w, mode, vb, hB);
    RamKept(m.w, mid.w, mode, vb, hB);
    RamReaches(mid, vb, hB);
    EntryWalked(mid, vb, hA + k, hB);
    assert Clash(mid, vb, hA, k) by { ClashHere(mid, vb, hA, k); }
    CrossingExact(m, va, n, v, io, hA, hB, false);
  }

  lemma ClashHere(m: Machine, vb: u32, hA: int, k: nat)
    requires WellFormed(m) && ValidWorld(m.w) && Walks(m, vb) && EntryBefore(m.w, vb, hA + k)
    ensures Clash(m, vb, hA, k)
  {
    hide WellFormed, ValidWorld, Walks, FindPte;
  }

  lemma PokeSame(mem: Memory, h: int, bytes: seq<byte>)
    requires InHost(mem, h, |bytes|) && Peek(mem, h, |bytes|) == bytes
    ensures Poke(mem, h, bytes) == mem
  {
    assert mem == mem[..h] + mem[h..h + |bytes|] + mem[h + |bytes|..];
  }
}
