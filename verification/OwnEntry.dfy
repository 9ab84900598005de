/** A concrete store that does not read back: it reaches into a page whose page table
    entry holds the byte it has just written. */
module OwnEntry {
  import opened Bits
  import opened Address
  import opened Translation
  import opened Reference
  import opened SoftTlb
  import opened Mmu
  import opened MmuProofs
  import opened MmuContext
  import opened MemoryAccess
  import opened RamAccess
  import opened MmuRuns
  import opened Wrappers

  const BLOCK := BatEntry(false, 2, 2, 0, 0xFFFE_0000, 0)
  const UNUSED := BatEntry(false, 0, 0, 0, 0, 0)
  const RAM := Region(Ram, 0, 31, 0)

  /** The last byte of the block, and the page after it. */
  const VA: u32 := 0x1_FFFF
  const NEXT: u32 := 0x2_0000

  /** The last entry of the group at 0x1FFC0 maps NEXT to page 0, read-write, C clear. */
  function TableByte(i: nat): byte {
    if i == 0x1_FFF8 then 0x80 else if i == 0x1_FFF9 then 0x01 else if i == 0x1_FFFA then 0xEF else if i == 0x1_FFFB then 0x80
    else if i == 0x1_FFFF then 2
    else 0
  }

  /** 128 KB of RAM at address 0, the first data BAT mapping it, the page table in its
      upper half, and segment 0 with VSID 0x3DF. */
  function Small(): World {
    World(false, false, [UNUSED, UNUSED, UNUSED, UNUSED], [BLOCK, UNUSED, UNUSED, UNUSED], seq(16, _ => 0x3DF), 0x1_0000,
          [RAM], 0, seq(0x2_0000, i requires 0 <= i < 0x2_0000 => TableByte(i)),
          seq(128, _ => Tlb603Entry(false, 0, 0, 0)), seq(64, _ => 0))
  }

  const TRANSLATED := Msr(false, true, false)

  lemma SmallCold()
    ensures ColdWorld(Small())
  {
  }

  /** What the proofs need of the world. */
  ghost predicate Shaped(w: World) {
    && ValidWorld(w) && !w.is601 && !w.is603 && w.dbat == [BLOCK, UNUSED, UNUSED, UNUSED] && w.sr[0] == 0x3DF && w.sdr1 == 0x1_0000
    && w.regions == [RAM] && |w.mem| == 0x2_0000
    && forall i: nat :: i < 0x2_0000 ==> w.mem[i] == TableByte(i)
  }

  lemma SmallShaped()
    ensures Shaped(Small())
  {
    SmallCold();
  }

  lemma Blocks(w: World)
    requires Shaped(w)
    ensures BlockTranslate(w, DTLB, false, VA) == BatHit(2, VA)
    ensures BlockTranslate(w, DTLB, false, NEXT) == BatMiss
  {
    hide And, Or, Shaped;
    assert w.dbat == [BLOCK, UNUSED, UNUSED, UNUSED] && !w.is601 && ValidWorld(w) by { Unfold(w); }
    BlockOf(VA);
    BlockOf(NEXT);
    hide BlockMatch, BlockPhys, ValidWorld;
    Rest(false, NEXT);
    assert w.dbat[1..] == [UNUSED, UNUSED, UNUSED];
  }

  lemma Unfold(w: World)
    requires Shaped(w)
    ensures ValidWorld(w) && w.dbat == [BLOCK, UNUSED, UNUSED, UNUSED] && !w.is601
  {
  }

  lemma Rest(pr: bool, la: u32)
    ensures PpcBat([UNUSED, UNUSED, UNUSED], pr, la) == BatMiss
  {
    var one, two := [UNUSED], [UNUSED, UNUSED];
    assert one[1..] == [] && two[1..] == one && [UNUSED, UNUSED, UNUSED][1..] == two;
    assert !AccessEnabled(0, pr);
    assert PpcBat(one, pr, la) == BatMiss;
    assert PpcBat(two, pr, la) == BatMiss;
  }

  lemma BlockOf(la: u32)
    requires la == VA || la == NEXT
    ensures BlockMatch(BLOCK, la) <==> la == VA
    ensures BlockPhys(BLOCK, VA) == VA
  {
    hide And, Or, BlockMatch, BlockPhys;
    OneBit();
    BlockParts(BLOCK, la);
    BlockParts(BLOCK, VA);
    Below(BlockPhys(BLOCK, VA));
  }

  lemma Below(x: nat)
    requires x / 131072 == 0
    ensures x == x % 131072
  {
  }

  // ---------- The page table ----------

  const GROUP: nat := 0x1_FFC0
  const WORD: u32 := 0x8001_EF80

  lemma XorBits()
    ensures Xor(0x3DF, 0x20) == 0x3FF
  {
    assert Xor(0x1E, 0x1) == 0x1F;
    assert Xor(0x7B, 0x4) == 0x7F;
  }

  lemma Hash()
    ensures PrimaryHash(0x3DF, 0x20) == 0x3FF && PageIndex(NEXT) == 0x20 && Vsid(0x3DF) == 0x3DF
    ensures MatchWord(0x3DF, 0x20, false) == WORD
  {
    hide Xor, Pow2;
    XorBits();
  }

  lemma GroupAt()
    ensures PtegPhys(0x1_0000, 0x3FF) == GROUP
  {
    hide And, Or, Pow2;
    OneBit();
  }

  lemma OneBit()
    ensures And(0, 0) == 0 && And(1, 0x7FFF) == 1 && And(0, 0x7FFF) == 0
    ensures Or(1, 0) == 1 && Or(0, 0) == 0 && forall x: nat :: And(0, x) == 0
  {
  }

  lemma Group(w: World)
    requires Shaped(w)
    ensures ValidWorld(w) && PtegHost(w, 0x3FF) == Some(GROUP)
  {
    GroupAt();
    assert FindRange([RAM], 31) == Some(RAM);
    hide PtegPhys, ValidWorld;
  }

  lemma Entries(mem: Memory)
    requires |mem| == 0x2_0000 && forall i: nat :: i < 0x2_0000 ==> mem[i] == TableByte(i)
    ensures forall k: nat :: k < 8 ==> (ReadWord(mem, GROUP + 8 * k) == WORD <==> k == 7)
    ensures ReadWord(mem, 0x1_FFFC) == 2
  {
  }

  lemma Facts(w: World)
    requires Shaped(w)
    ensures ValidWorld(w) && !w.is601 && !w.is603 && SegmentOf(w, NEXT) == 0x3DF && |w.mem| == 0x2_0000 && w.mem[0x1_FFFF] == 2
    ensures forall k: nat :: k < 8 ==> (ReadWord(w.mem, GROUP + 8 * k) == WORD <==> k == 7)
    ensures ReadWord(w.mem, 0x1_FFFC) == 2
  {
    Entries(w.mem);
    hide ReadWord, ValidWorld;
  }

  /** Only the last entry of the group matches. */
  lemma LastMatches(mem: Memory, k: nat)
    requires |mem| == 0x2_0000 && forall k: nat :: k < 8 ==> (ReadWord(mem, GROUP + 8 * k) == WORD <==> k == 7)
    ensures FirstMatch(mem, GROUP, WORD, k) ==> k == 7
    ensures !NoMatch(mem, GROUP, WORD)
  {
    hide ReadWord;
    assert ReadWord(mem, GROUP + 8 * 7) == WORD;
  }

  lemma TheEntry(w: World)
    requires Shaped(w)
    ensures ValidWorld(w) && FindPte(w, NEXT) == Found(0x1_FFF8)
  {
    hide Shaped, ValidWorld, FindPte, PtegHost, ReadWord, PrimaryHash, MatchWord, Vsid, PageIndex, SegmentOf, FirstMatch, NoMatch;
    Facts(w);
    Group(w);
    Hash();
    FindPteSpec(w, NEXT);
    forall k: nat
      ensures FirstMatch(w.mem, GROUP, WORD, k) ==> k == 7
    {
      LastMatches(w.mem, k);
    }
    LastMatches(w.mem, 0);
  }

  lemma EntryHere(w: World)
    requires Shaped(w)
    ensures ValidWorld(w) && EntryBefore(w, NEXT, 0x2_0000)
  {
    hide Shaped, ValidWorld, FindPte, SegmentOf, ReadWord;
    Facts(w);
    TheEntry(w);
  }

  lemma NextWalk(w: World)
    requires Shaped(w)
    ensures ValidWorld(w) && PageWalk(w, DTLB, NEXT, false, true) == Page(0, false, 2, false)
  {
    hide Shaped, ValidWorld, FindPte, SegmentOf, ReadWord;
    Facts(w);
    TheEntry(w);
  }

  lemma Regions(w: World)
    requires Shaped(w)
    ensures w.regions == [RAM] && FindRange(w.regions, 31) == Some(RAM) && FindRange(w.regions, 0) == Some(RAM)
  {
    hide ValidWorld;
  }

  lemma Pages(w: World)
    requires Shaped(w)
    ensures ValidWorld(w) && RamPage(w, Super, VA, 0x1_FFFF) && RamPage(w, Super, NEXT, 0)
  {
    hide Shaped, ValidWorld, BlockTranslate, PageWalk, FindRange;
    Blocks(w);
    NextWalk(w);
    Regions(w);
  }

  // ---------- The store ----------

  /** The machine after its first synchronization. */
  function Begun(): (m: Machine)
    ensures WellFormed(m) && m.w == Small() && m.msr == TRANSLATED && m.dtlb.pending == NOTHING && MachineOk(m, false)
  {
    SmallCold();
    hide ColdWorld, Small, MachineOk, WellFormed, PowerUp, ContextSync;
    PowerUpOk(Small(), TRANSLATED);
    ContextSyncOk(PowerUp(Small(), TRANSLATED), false);
    ContextSync(PowerUp(Small(), TRANSLATED))
  }

  lemma TwoBytes()
    ensures BytesOf(0x0207, 2)[..1] == [2] && Radix(2) == 65536
  {
    assert Radix(1) == 256;
  }

  lemma LastByte(w: World)
    requires Shaped(w)
    ensures InHost(w.mem, 0x1_FFFF, 1) && Peek(w.mem, 0x1_FFFF, 1) == [2]
  {
    assert w.mem[0x1_FFFF] == 2;
    hide Shaped;
  }

  /** Storing the halfword 0x0207 at 0x1FFFF completes, and loading it gives another value. */
  lemma StoreReadsBackOtherwise(io: Devices)
    ensures WellFormed(Store(Begun(), VA, 2, 0x0207).0) && Store(Begun(), VA, 2, 0x0207).1 == Done([])
    ensures Load(Store(Begun(), VA, 2, 0x0207).0, VA, 2, io).1 != Value(0x0207)
  {
    hide Begun, Small, Shaped, ValidWorld, WellFormed, MachineOk, RamPage, EntryBefore, BlockTranslate, Store, Load, BytesOf, Radix, Peek;
    var m := Begun();
    SmallShaped();
    Pages(m.w);
    EntryHere(m.w);
    Blocks(m.w);
    LastByte(m.w);
    TwoBytes();
    OwnEntryFails(m, VA, 2, 0x0207, io, 0x1_FFFF, 0);
  }
}
