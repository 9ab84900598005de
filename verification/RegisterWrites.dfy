/** What the guest's register writes mean: after a write and a context synchronization the
    next access goes through the block, the segment or the table that the operands describe. */
module RegisterWrites {
  import opened Bits
  import opened Address
  import opened Translation
  import opened Reference
  import opened Architecture
  import opened Mmu
  import opened MmuProofs
  import opened MmuContext
  import opened MmuRefinement
  import opened Permissions
  import opened MemoryAccess
  import opened MmuRuns
  import opened Wrappers

  /** Everything but the TLBs, what is pending and the registers of the world. */
  predicate SameBut(m: Machine, m1: Machine) {
    m1.msr == m.msr && m1.itlb.slots == m.itlb.slots && m1.dtlb.slots == m.dtlb.slots &&
    m1.w == m.w.(ibat := m1.w.ibat, dbat := m1.w.dbat, sr := m1.w.sr, sdr1 := m1.w.sdr1)
  }

  /** The entry is the block of a register pair with a length field of 2^k - 1. */
  ghost predicate Describes(e: BatEntry, upper: u32, lower: u32, k: nat) {
    MapsBlock(e, BlockSize(k), upper, lower) && e.access == upper % 4 && e.prot == lower % 4
  }

  predicate OnlyAt<T(==)>(a: seq<T>, b: seq<T>, n: nat) {
    |a| == |b| && forall j: nat :: j < |a| && j != n ==> b[j] == a[j]
  }

  // ---------- Which register changes ----------

  /** On all models but the 601 each side has its own registers. */
  lemma BatsWritten(m: Machine, n: nat, upper: u32, lower: u32, k: nat)
    requires WellFormed(m) && n < 4 && !m.w.is601 && k <= 11 && upper / 4 % 2048 == Pow2(k) - 1
    ensures var w := WriteIbat(m, n, upper, lower).w;
            && SameBut(m, WriteIbat(m, n, upper, lower)) && OnlyAt(m.w.ibat, w.ibat, n) && n < |w.ibat| && Describes(w.ibat[n], upper, lower, k)
            && w.dbat == m.w.dbat && w.sr == m.w.sr && w.sdr1 == m.w.sdr1
    ensures var w := WriteDbat(m, n, upper, lower).w;
            && SameBut(m, WriteDbat(m, n, upper, lower)) && OnlyAt(m.w.dbat, w.dbat, n) && n < |w.dbat| && Describes(w.dbat[n], upper, lower, k)
            && w.ibat == m.w.ibat && w.sr == m.w.sr && w.sdr1 == m.w.sdr1
  {
    assert |m.w.ibat| == 4 && |m.w.dbat| == 4;
    hide ValidWorld, PpcBatEntry, Pow2, BlockSize, MapsBlock;
    PpcPairMapsBlock(upper, lower, k);
  }

  /** On the 601 the instruction pair serves both sides, and there is no data pair. */
  lemma Bats601Written(m: Machine, n: nat, upper: u32, lower: u32)
    requires WellFormed(m) && n < 4 && m.w.is601
    ensures var w := WriteIbat(m, n, upper, lower).w;
            && SameBut(m, WriteIbat(m, n, upper, lower)) && OnlyAt(m.w.ibat, w.ibat, n) && OnlyAt(m.w.dbat, w.dbat, n)
            && n < |w.ibat| == |w.dbat| && w.sr == m.w.sr && w.sdr1 == m.w.sdr1
            && (if lower / 64 % 2 == 1 then w.ibat[n] == w.dbat[n] == Bat601Entry(m.w.ibat[n], upper, lower)
                else !w.ibat[n].valid && !w.dbat[n].valid)
    ensures WriteDbat(m, n, upper, lower) == m
  {
    assert |m.w.ibat| == 4 && |m.w.dbat| == 4;
    hide ValidWorld, And, Pow2;
  }

  lemma SegmentWritten(m: Machine, n: nat, value: u32)
    requires WellFormed(m) && n < 16
    ensures var w := WriteSr(m, n, value).w;
            && SameBut(m, WriteSr(m, n, value)) && OnlyAt(m.w.sr, w.sr, n) && n < |w.sr| && w.sr[n] == value
            && w.ibat == m.w.ibat && w.dbat == m.w.dbat && w.sdr1 == m.w.sdr1
    ensures var w := WriteSdr1(m, value).w;
            SameBut(m, WriteSdr1(m, value)) && w.sdr1 == value && w.ibat == m.w.ibat && w.dbat == m.w.dbat && w.sr == m.w.sr
  {
    hide ValidWorld;
    assert |m.w.sr| == 16 by { Sixteen(m.w); }
  }

  lemma Sixteen(w: World)
    requires ValidWorld(w)
    ensures |w.sr| == 16
  {
  }

  // ---------- Blocks, once synchronized ----------

  /** A synchronization changes no register. */
  lemma Synced(m: Machine)
    requires MachineOk(m, false)
    ensures WellFormed(m)
    ensures var m' := ContextSync(m);
            && MachineOk(m', false) && ValidWorld(m'.w) && m'.w == m.w && m'.msr == m.msr && Settled(m', ITLB) && Settled(m', DTLB)
  {
    hide MachineOk, WellFormed, ContextSync, ValidWorld;
    OkWellFormed(m, false);
    ContextSyncOk(m, false);
    OkWellFormed(ContextSync(m), false);
  }

  /** The pair is enabled for the privilege and its block holds the address. */
  predicate PairHolds(upper: u32, k: nat, pr: bool, la: u32)
    requires BlockSize(k) > 0
  {
    la / BlockSize(k) == upper / BlockSize(k) && (if pr then upper % 2 == 1 else upper / 2 % 2 == 1)
  }

  lemma DescribedAnswers(e: BatEntry, upper: u32, lower: u32, k: nat, pr: bool, la: u32)
    requires Describes(e, upper, lower, k)
    ensures BlockSize(k) > 0
    ensures Answers(e, pr, la) <==> PairHolds(upper, k, pr, la)
    ensures BlockPhys(e, la) == lower / BlockSize(k) * BlockSize(k) + la % BlockSize(k)
  {
    hide BlockSize, BlockMatch, BlockPhys;
    TwoBits(upper);
  }

  /** After a data pair is written and synchronized, a load or store in its block that no
      earlier block answers goes where the pair says, with the rights of its PP. */
  lemma DbatTakesEffect(m: Machine, n: nat, upper: u32, lower: u32, k: nat, la: u32, phys: u32)
    requires MachineOk(m, false) && WellFormed(m) && ValidWorld(m.w) && !m.w.is601 && m.msr.dr
    requires n < 4 && k <= 11 && upper / 4 % 2048 == Pow2(k) - 1 && BlockSize(k) > 0
    requires PairHolds(upper, k, m.msr.pr, la) && phys == lower / BlockSize(k) * BlockSize(k) + la % BlockSize(k)
    requires forall j: nat :: j < n && j < |m.w.dbat| ==> !Answers(m.w.dbat[j], m.msr.pr, la)
    ensures WellFormed(WriteDbat(m, n, upper, lower))
    ensures var m' := ContextSync(WriteDbat(m, n, upper, lower));
            && WellFormed(m')
            && Read(m', la).1 == Guarded(m'.w, DTLB, BlockRights(lower % 4), phys, la, false)
            && Write(m', la).1 == Guarded(m'.w, DTLB, BlockRights(lower % 4), phys, la, true)
  {
    hide MachineOk, WellFormed, ValidWorld, WriteDbat, ContextSync, Read, Write, Guarded, Settled, BlockSize, Pow2, Describes, PairHolds, Answers, BlockPhys, BlockRights;
    var m1 := WriteDbat(m, n, upper, lower);
    WriteDbatOk(m, n, upper, lower, false);
    Synced(m1);
    BatsWritten(m, n, upper, lower, k);
    DescribedAnswers(m1.w.dbat[n], upper, lower, k, m.msr.pr, la);
    EarlierSilent(m1.w.dbat, m.msr.pr, la, n);
    assert m1.w.dbat[n].prot == lower % 4 by { DescribedProt(m1.w.dbat[n], upper, lower, k); }
    BlockLoadStore(ContextSync(m1), la, lower % 4, phys);
  }

  lemma DescribedProt(e: BatEntry, upper: u32, lower: u32, k: nat)
    requires Describes(e, upper, lower, k)
    ensures e.prot == lower % 4
  {
  }

  /** The same for an instruction pair and fetches. */
  lemma IbatTakesEffect(m: Machine, n: nat, upper: u32, lower: u32, k: nat, la: u32, phys: u32)
    requires MachineOk(m, false) && WellFormed(m) && ValidWorld(m.w) && !m.w.is601 && m.msr.ir
    requires n < 4 && k <= 11 && upper / 4 % 2048 == Pow2(k) - 1 && BlockSize(k) > 0
    requires PairHolds(upper, k, m.msr.pr, la) && phys == lower / BlockSize(k) * BlockSize(k) + la % BlockSize(k)
    requires forall j: nat :: j < n && j < |m.w.ibat| ==> !Answers(m.w.ibat[j], m.msr.pr, la)
    ensures WellFormed(WriteIbat(m, n, upper, lower))
    ensures var m' := ContextSync(WriteIbat(m, n, upper, lower));
            WellFormed(m') && Fetch(m', la).1 == Guarded(m'.w, ITLB, BlockRights(lower % 4), phys, la, false)
  {
    hide MachineOk, WellFormed, ValidWorld, WriteIbat, ContextSync, Fetch, Guarded, Settled, BlockSize, Pow2, Describes, PairHolds, Answers, BlockPhys, BlockRights;
    var m1 := WriteIbat(m, n, upper, lower);
    WriteIbatOk(m, n, upper, lower, false);
    Synced(m1);
    BatsWritten(m, n, upper, lower, k);
    DescribedAnswers(m1.w.ibat[n], upper, lower, k, m.msr.pr, la);
    EarlierSilent(m1.w.ibat, m.msr.pr, la, n);
    DescribedProt(m1.w.ibat[n], upper, lower, k);
    BlockFetch(ContextSync(m1), la, lower % 4, phys);
  }

  lemma BlockFetch(m: Machine, va: u32, prot: u2, phys: u32)
    requires MachineOk(m, false) && Settled(m, ITLB) && m.msr.ir && ValidWorld(m.w)
    requires BlockTranslate(m.w, ITLB, m.msr.pr, va) == BatHit(prot, phys)
    ensures WellFormed(m) && Fetch(m, va).1 == Guarded(m.w, ITLB, BlockRights(prot), phys, va, false)
  {
    hide MachineOk, WellFormed, ValidWorld, Settled, Fetch, Ideal, Guarded, BlockTranslate;
    Accesses(m, va);
    BlockAccess(m.w, ITLB, va, m.msr.pr, false, prot, phys);
  }

  /** A valid 601 pair serves fetches, loads and stores alike, with the rights of its key and PP. */
  lemma Bat601TakesEffect(m: Machine, n: nat, upper: u32, lower: u32, k: nat, la: u32, phys: u32)
    requires MachineOk(m, false) && WellFormed(m) && ValidWorld(m.w) && m.w.is601
    requires n < 4 && k <= 6 && lower % 64 == Pow2(k) - 1 && lower / 64 % 2 == 1 && BlockSize(k) > 0
    requires SegmentOf(m.w, la) < 0x8000_0000
    requires la / BlockSize(k) == upper / BlockSize(k) && phys == lower / BlockSize(k) * BlockSize(k) + la % BlockSize(k)
    requires forall j: nat :: j < n && j < |m.w.ibat| ==> !(m.w.ibat[j].valid && BlockMatch(m.w.ibat[j], la))
    ensures WellFormed(WriteIbat(m, n, upper, lower))
    ensures var m' := ContextSync(WriteIbat(m, n, upper, lower));
            var key := if m.msr.pr then upper / 4 % 2 == 1 else upper / 8 % 2 == 1;
            && WellFormed(m')
            && (m.msr.ir ==> Fetch(m', la).1 == Guarded(m'.w, ITLB, KeyedRights(key, upper % 4), phys, la, false))
            && (m.msr.dr ==> Read(m', la).1 == Guarded(m'.w, DTLB, KeyedRights(key, upper % 4), phys, la, false))
            && (m.msr.dr ==> Write(m', la).1 == Guarded(m'.w, DTLB, KeyedRights(key, upper % 4), phys, la, true))
  {
    hide MachineOk, WellFormed, ValidWorld, WriteIbat, ContextSync, Fetch, Read, Write, Guarded, Settled, BlockSize, Pow2, BlockMatch, BlockPhys, BlockRights, KeyedRights, Prot601, Bat601Entry;
    var m1 := WriteIbat(m, n, upper, lower);
    WriteIbatOk(m, n, upper, lower, false);
    Synced(m1);
    var m' := ContextSync(m1);
    Bats601Written(m, n, upper, lower);
    var e := m1.w.ibat[n];
    Pair601MapsBlock(m.w.ibat[n], upper, lower, k);
    Pair601Rights(m.w.ibat[n], upper, lower, m.msr.pr);
    EarlierSilent601(m1.w.ibat, m.msr.pr, la, n);
    assert SegmentOf(m1.w, la) == SegmentOf(m.w, la);
    hide SegmentOf;
    var prot := Prot601(e, m.msr.pr);
    if m.msr.ir {
      BlockFetch(m', la, prot, phys);
    }
    if m.msr.dr {
      BlockLoadStore(m', la, prot, phys);
    }
  }

  // ---------- Segments and the page table, once synchronized ----------

  /** The virtual page of an address under a segment register: what the table is searched for. */
  function WordFor(sr: u32, la: u32, second: bool): u32 {
    MatchWord(sr % 0x100_0000, la / 4096 % 0x1_0000, second)
  }

  function HashFor(sr: u32, la: u32): u32 {
    PrimaryHash(sr % 0x100_0000, la / 4096 % 0x1_0000)
  }

  /** The fields of the word: V, VSID, H and the abbreviated page index. */
  lemma WordForFields(sr: u32, la: u32, second: bool)
    ensures var word := WordFor(sr, la, second);
            && word / 0x8000_0000 == 1 && word / 128 % 0x100_0000 == sr % 0x100_0000
            && (word / 64 % 2 == 1 <==> second) && word % 64 == la / 0x40_0000 % 64
  {
    Index(la);
    Packed(WordFor(sr, la, second), sr % 0x100_0000, if second then 1 else 0, la / 4096 % 0x1_0000 / 1024);
  }

  lemma Packed(word: nat, v: nat, h: nat, api: nat)
    requires v < 0x100_0000 && h < 2 && api < 64 && word == 0x8000_0000 + v * 128 + h * 64 + api
    ensures word / 0x8000_0000 == 1 && word / 128 % 0x100_0000 == v && word / 64 % 2 == h && word % 64 == api
  {
    QuotientUnique(word, 0x8000_0000, 1, v * 128 + h * 64 + api);
    QuotientUnique(word, 128, 0x100_0000 + v, h * 64 + api);
    QuotientUnique(word, 64, 0x200_0000 + v * 2 + h, api);
  }

  lemma Index(la: u32)
    ensures la / 4096 % 0x1_0000 / 1024 == la / 0x40_0000 % 64
  {
    var q := la / 4096;
    assert la / 0x40_0000 == q / 1024;
  }

  lemma {:induction false} XorBit(a: nat, b: nat, i: nat)
    ensures High(Xor(a, b), i) % 2 == (High(a, i) + High(b, i)) % 2
  {
    hide Xor;
    XorStep(a, b);
    if i > 0 {
      XorBit(a / 2, b / 2, i - 1);
    }
  }

  /** Each bit of the hash is the exclusive or of those of the VSID's low 19 bits and the
      page index. */
  lemma HashBit(sr: u32, la: u32, i: nat)
    ensures HashFor(sr, la) / Pow2(i) % 2 == (sr % 0x8_0000 / Pow2(i) + la / 4096 % 0x1_0000 / Pow2(i)) % 2
  {
    hide Xor, Pow2, High, Low;
    Nineteen(sr);
    var v, p := sr % 0x8_0000, la / 4096 % 0x1_0000;
    assert HashFor(sr, la) == Xor(v, p);
    XorBit(v, p, i);
    Parts(v, i);
    Parts(p, i);
    Parts(Xor(v, p), i);
  }

  lemma Nineteen(sr: u32)
    ensures sr % 0x100_0000 % 0x8_0000 == sr % 0x8_0000
  {
  }

  /** The first matching entry of the primary group, or else of the secondary one, is found. */
  ghost predicate TableHolds(w: World, sr: u32, la: u32, pte: nat)
    requires ValidWorld(w)
  {
    var g1, g2 := PtegHost(w, HashFor(sr, la)), PtegHost(w, Not32(HashFor(sr, la)));
    || (g1.Some? && exists i: nat :: FirstMatch(w.mem, g1.value, WordFor(sr, la, false), i) && pte == g1.value + 8 * i)
    || (g1.Some? && g2.Some? && NoMatch(w.mem, g1.value, WordFor(sr, la, false)) &&
        exists i: nat :: FirstMatch(w.mem, g2.value, WordFor(sr, la, true), i) && pte == g2.value + 8 * i)
  }

  lemma OneFirst(mem: Memory, g: nat, word: u32, i: nat, j: nat)
    requires g + 64 <= |mem| && FirstMatch(mem, g, word, i)
    ensures FirstMatch(mem, g, word, j) ==> i == j
    ensures !NoMatch(mem, g, word)
  {
    hide ReadWord;
  }

  lemma HeldFound(w: World, la: u32, pte: nat)
    requires ValidWorld(w) && TableHolds(w, SegmentOf(w, la), la, pte)
    ensures FindPte(w, la) == Found(pte)
  {
    hide ValidWorld, FindPte, PtegHost, PrimaryHash, MatchWord, SegmentOf, FirstMatch, NoMatch;
    FindPteSpec(w, la);
    var sr := SegmentOf(w, la);
    var g1, g2 := PtegHost(w, HashFor(sr, la)), PtegHost(w, Not32(HashFor(sr, la)));
    var m1, m2 := WordFor(sr, la, false), WordFor(sr, la, true);
    if i: nat :| FirstMatch(w.mem, g1.value, m1, i) && pte == g1.value + 8 * i {
      forall j: nat
        ensures FirstMatch(w.mem, g1.value, m1, j) ==> i == j
      {
        OneFirst(w.mem, g1.value, m1, i, j);
      }
      OneFirst(w.mem, g1.value, m1, i, i);
    } else {
      var i: nat :| FirstMatch(w.mem, g2.value, m2, i) && pte == g2.value + 8 * i;
      forall j: nat
        ensures FirstMatch(w.mem, g2.value, m2, j) ==> i == j
      {
        OneFirst(w.mem, g2.value, m2, i, j);
      }
      OneFirst(w.mem, g2.value, m2, i, i);
      forall j: nat
        ensures !FirstMatch(w.mem, g1.value, m1, j)
      {
        if FirstMatch(w.mem, g1.value, m1, j) {
          OneFirst(w.mem, g1.value, m1, j, j);
        }
      }
    }
  }

  /** Loads and stores through an entry that the table holds under a segment register. */
  ghost predicate ServedBy(m: Machine, sr: u32, la: u32, pte: nat)
    requires WellFormed(m) && pte + 8 <= |m.w.mem|
  {
    var lo := ReadWord(m.w.mem, pte + 4);
    var key := if m.msr.pr then sr / 0x2000_0000 % 2 == 1 else sr / 0x4000_0000 % 2 == 1;
    && Read(m, la).1 == Guarded(m.w, DTLB, KeyedRights(key, lo % 4), InFrame(lo, la), la, false)
    && Write(m, la).1 == Guarded(m.w, DTLB, KeyedRights(key, lo % 4), InFrame(lo, la), la, true)
  }

  lemma HeldServes(m: Machine, sr: u32, la: u32, pte: nat)
    requires MachineOk(m, false) && Settled(m, DTLB) && m.msr.dr && ValidWorld(m.w) && !m.w.is603
    requires BlockTranslate(m.w, DTLB, m.msr.pr, la).BatMiss? && SegmentOf(m.w, la) == sr < 0x8000_0000
    requires TableHolds(m.w, sr, la, pte)
    ensures WellFormed(m) && pte + 8 <= |m.w.mem| && ServedBy(m, sr, la, pte)
  {
    hide MachineOk, ValidWorld, Settled, BlockTranslate, SegmentOf, TableHolds, FindPte, Read, Write, Guarded, KeyedRights, InFrame, ReadWord, WellFormed;
    HeldFound(m.w, la, pte);
    PageLoadStore(m, la, pte);
  }

  /** After a segment register is written and synchronized, the table is searched with the
      new VSID, and the new key decides. */
  lemma SegmentTakesEffect(m: Machine, n: nat, value: u32, la: u32, pte: nat)
    requires MachineOk(m, false) && WellFormed(m) && n < 16 && la / 0x1000_0000 == n && value < 0x8000_0000
    requires m.msr.dr && !m.w.is603 && WellFormed(WriteSr(m, n, value)) && ValidWorld(WriteSr(m, n, value).w)
    requires var w := WriteSr(m, n, value).w; BlockTranslate(w, DTLB, m.msr.pr, la).BatMiss? && TableHolds(w, value, la, pte)
    ensures var m' := ContextSync(WriteSr(m, n, value));
            WellFormed(m') && pte + 8 <= |m'.w.mem| && ServedBy(m', value, la, pte)
  {
    hide MachineOk, WellFormed, ValidWorld, WriteSr, ContextSync, Settled, BlockTranslate, TableHolds, ServedBy, SrSafe;
    var m1 := WriteSr(m, n, value);
    TSafe(m, n, value);
    WriteSrOk(m, n, value, false);
    Synced(m1);
    SegmentWritten(m, n, value);
    SegmentAt(m1.w, la);
    HeldServes(ContextSync(m1), value, la, pte);
  }

  lemma TSafe(m: Machine, n: nat, value: u32)
    requires value < 0x8000_0000
    ensures SrSafe(m, n, value)
  {
  }

  /** After SDR1 is written and synchronized, the search goes to the groups of the new table. */
  lemma TableTakesEffect(m: Machine, value: u32, la: u32, pte: nat)
    requires MachineOk(m, false) && WellFormed(m) && m.msr.dr && !m.w.is603
    requires WellFormed(WriteSdr1(m, value)) && ValidWorld(WriteSdr1(m, value).w)
    requires var w := WriteSdr1(m, value).w;
             && SegmentOf(w, la) < 0x8000_0000 && BlockTranslate(w, DTLB, m.msr.pr, la).BatMiss?
             && TableHolds(w, SegmentOf(w, la), la, pte)
    ensures WriteSdr1(m, value).w == m.w.(sdr1 := value)
    ensures var m' := ContextSync(WriteSdr1(m, value));
            WellFormed(m') && pte + 8 <= |m'.w.mem| && ServedBy(m', SegmentOf(WriteSdr1(m, value).w, la), la, pte)
  {
    hide MachineOk, WellFormed, ValidWorld, WriteSdr1, ContextSync, Settled, BlockTranslate, TableHolds, ServedBy, SegmentOf;
    var m1 := WriteSdr1(m, value);
    WriteSdr1Ok(m, value, false);
    Synced(m1);
    SegmentWritten(m, 0, value);
    HeldServes(ContextSync(m1), SegmentOf(m1.w, la), la, pte);
  }

  /** A group of the table lies at the physical address that SDR1 and the hash give, in the
      first region of that address. */
  lemma GroupPlace(w: World, hash: u32)
    requires ValidWorld(w)
    ensures match FindRange(w.regions, PtegPhys(w.sdr1, hash) / 4096)
            case None => PtegHost(w, hash) == None
            case Some(r) =>
              if r.kind == Mmio then PtegHost(w, hash) == None
              else PtegHost(w, hash).Some? && PtegHost(w, hash).value == r.host + PtegPhys(w.sdr1, hash) - r.firstPage * 4096
  {
    hide PtegPhys, ValidWorld;
  }

  /** In a run the guest's writes are these writes, each on its own. */
  lemma BlockEvents(m: Machine, io: Devices, n: nat, upper: u32, lower: u32)
    requires WellFormed(m) && n < 4
    ensures Step(m, SetIbat(n, upper, lower), io) == WriteIbat(m, n, upper, lower)
    ensures Step(m, SetDbat(n, upper, lower), io) == WriteDbat(m, n, upper, lower)
  {
    hide WellFormed, WriteIbat, WriteDbat;
  }

  lemma TableEvents(m: Machine, io: Devices, n: nat, value: u32)
    requires WellFormed(m) && n < 16
    ensures Step(m, SetSr(n, value), io) == WriteSr(m, n, value)
    ensures Step(m, SetSdr1(value), io) == WriteSdr1(m, value)
  {
    hide WellFormed, WriteSr, WriteSdr1;
  }

  /** A change of mode acts at once. */
  lemma ModeEvent(m: Machine, io: Devices, msr: Msr)
    requires WellFormed(m)
    ensures Step(m, SetMsr(msr), io) == m.(msr := msr)
  {
    hide WellFormed;
  }

  lemma SyncEvent(m: Machine, io: Devices)
    requires WellFormed(m)
    ensures Step(m, Sync, io) == ContextSync(m)
  {
    hide WellFormed, ContextSync;
  }
}
