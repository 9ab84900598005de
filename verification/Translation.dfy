/** The slow reference translation of cpu/ppc/ppcmmu.cpp: block address
    translation, the hashed page table, the 603's software-loaded TLBs, and
    what a translation lookaside buffer refill stores for a page. */
module Translation {
  import opened Address
  import opened Bits
  import opened Wrappers

  type u2 = x: int | 0 <= x < 4

  datatype TlbType = ITLB | DTLB

  /** The three translation contexts that own separate TLB arrays. */
  datatype Mode = Real | Super | User

  datatype Source = NoSource | FromBat | FromPat

  datatype MissKind = InstrMiss | LoadMiss | StoreMiss

  /** Exceptions an access can raise, with the register values they report. */
  datatype Fault =
    | Isi(srr1: u32)
    | Dsi(dsisr: u32, dar: u32)
    | TlbMiss(kind: MissKind, ea: u32, cmp: u32, hash1: u32, hash2: u32, key: bool, way: nat)
    | Misaligned(va: u32)

  datatype BatEntry = BatEntry(valid: bool, access: u2, prot: u2, physHi: u32, hiMask: u32, bepi: u32)

  datatype Tlb603Entry = Tlb603Entry(valid: bool, vsid: u32, eaTag: u32, pteLo: u32)

  /** Everything the reference translation reads. */
  datatype World = World(
    is601: bool, is603: bool,
    ibat: seq<BatEntry>, dbat: seq<BatEntry>,
    sr: seq<u32>, sdr1: u32,
    regions: seq<Region>, dummyPage: nat, mem: Memory,
    tlb603: seq<Tlb603Entry>, lru603: seq<nat>)

  /** Masks leave the low 17 bits alone, as both BAT update routines build them. */
  predicate ValidBat(e: BatEntry) {
    e.hiMask % 131072 == 0 && e.physHi % 131072 == 0
  }

  predicate ValidWorld(w: World) {
    && |w.ibat| == 4 && |w.dbat| == 4 && |w.sr| == 16
    && (forall e :: e in w.ibat ==> ValidBat(e))
    && (forall e :: e in w.dbat ==> ValidBat(e))
    && ValidRegions(w.regions, |w.mem|)
    && w.dummyPage + 8192 <= |w.mem|
    && |w.tlb603| == 128 && |w.lru603| == 64
    && (forall k :: 0 <= k < 64 ==> w.lru603[k] < 2)
  }

  // ---------- Block address translation ----------

  datatype BatResult = BatMiss | BatHit(prot: u2, phys: u32)

  function BlockPhys(e: BatEntry, la: u32): u32 {
    Powers();
    Width(la, Not32(e.hiMask), 32);
    Width(e.physHi, And(la, Not32(e.hiMask)), 32);
    Or(e.physHi, And(la, Not32(e.hiMask)))
  }

  predicate BlockMatch(e: BatEntry, la: u32) {
    And(la, e.hiMask) == e.bepi
  }

  /** Vs enables an entry for the supervisor, Vp for the problem state. */
  predicate AccessEnabled(access: u2, pr: bool) {
    (if pr then access % 2 else access / 2) == 1
  }

  function PpcBat(bats: seq<BatEntry>, pr: bool, la: u32): BatResult {
    if bats == [] then BatMiss
    else if AccessEnabled(bats[0].access, pr) && BlockMatch(bats[0], la) then
      BatHit(bats[0].prot, BlockPhys(bats[0], la))
    else PpcBat(bats[1..], pr, la)
  }

  /** The 601's key and PP bits, remapped to PowerPC-style protection. */
  function Prot601(e: BatEntry, pr: bool): u2 {
    if AccessEnabled(e.access, pr) then
      (match e.prot case 0 => 0 case 1 => 1 case 2 => 2 case _ => 1)
    else
      (match e.prot case 0 => 2 case 1 => 2 case 2 => 2 case _ => 1)
  }

  function Bat601(bats: seq<BatEntry>, pr: bool, la: u32): BatResult {
    if bats == [] then BatMiss
    else if bats[0].valid && BlockMatch(bats[0], la) then
      BatHit(Prot601(bats[0], pr), BlockPhys(bats[0], la))
    else Bat601(bats[1..], pr, la)
  }

  function Segment(la: u32): (i: nat)
    ensures i < 16
  {
    la / 0x1000_0000
  }

  function SegmentOf(w: World, la: u32): u32
    requires ValidWorld(w)
  {
    w.sr[Segment(la)]
  }

  predicate DirectStore(sr: u32) {
    sr >= 0x8000_0000
  }

  predicate NoExecute(sr: u32) {
    sr / 0x1000_0000 % 2 == 1
  }

  function BlockTranslate(w: World, ty: TlbType, pr: bool, la: u32): BatResult
    requires ValidWorld(w)
  {
    if w.is601 then
      if DirectStore(SegmentOf(w, la)) then BatMiss else Bat601(w.ibat, pr, la)
    else
      PpcBat(if ty == ITLB then w.ibat else w.dbat, pr, la)
  }

  // ---------- Hashed page table ----------

  function PageIndex(la: u32): (i: u32)
    ensures i < 0x1_0000
  {
    la / 4096 % 0x1_0000
  }

  function Vsid(sr: u32): (v: u32)
    ensures v < 0x100_0000
  {
    sr % 0x100_0000
  }

  function PrimaryHash(vsid: u32, pageIndex: u32): u32 {
    Powers();
    Width(vsid % 0x8_0000, pageIndex, 32);
    Xor(vsid % 0x8_0000, pageIndex)
  }

  function PtegPhys(sdr1: u32, hash: u32): u32 {
    assert Pow2(8) == 256 && Pow2(16) == 65536;
    Width(sdr1 % 512, hash / 1024 % 512, 16);
    Width(sdr1 / 65536, And(sdr1 % 512, hash / 1024 % 512), 16);
    Or(sdr1 / 65536, And(sdr1 % 512, hash / 1024 % 512)) * 65536 + hash % 1024 * 64
  }

  function MatchWord(vsid: u32, pageIndex: u32, second: bool): u32
    requires vsid < 0x100_0000 && pageIndex < 0x1_0000
  {
    0x8000_0000 + vsid * 128 + (if second then 64 else 0) + pageIndex / 1024
  }

  /** Where a page table entry group sits in host memory; None aborts the emulator. */
  function PtegHost(w: World, hash: u32): (h: Option<nat>)
    requires ValidWorld(w)
    ensures h.Some? ==> h.value % 8 == 0 && h.value + 64 <= |w.mem|
  {
    var pa := PtegPhys(w.sdr1, hash);
    var r := FindRange(w.regions, PageNumber(pa));
    if r.None? || r.value.kind == Mmio then None
    else
      PtegFits(w.regions, |w.mem|, r.value, w.sdr1, hash);
      Some(HostAddress(r.value, pa))
  }

  lemma PtegFits(regions: seq<Region>, size: nat, r: Region, sdr1: u32, hash: u32)
    requires ValidRegions(regions, size) && r in regions && r.kind != Mmio
    requires r.firstPage <= PageNumber(PtegPhys(sdr1, hash)) <= r.lastPage
    ensures HostAddress(r, PtegPhys(sdr1, hash)) >= 0
    ensures HostAddress(r, PtegPhys(sdr1, hash)) % 8 == 0
    ensures HostAddress(r, PtegPhys(sdr1, hash)) + 64 <= size
  {
    var pa := PtegPhys(sdr1, hash);
    HostAddressInRange(regions, size, r, pa);
    PtegAligned(pa / 64, HostAddress(r, pa), size);
  }

  lemma PtegAligned(n: nat, host: int, size: nat)
    requires 0 <= host && host % 4096 == n * 64 % 4096 && host - host % 4096 + 4096 <= size
    ensures host % 8 == 0 && host + 64 <= size
  {
    Groups(n);
    EightBytes(host / 4096, n % 64);
  }

  lemma Groups(n: nat)
    ensures n * 64 % 4096 == n % 64 * 64
  {
  }

  lemma EightBytes(page: nat, group: nat)
    ensures (page * 4096 + group * 64) % 8 == 0
  {
    assert page * 4096 + group * 64 == (page * 512 + group * 8) * 8;
  }

  /** search_pteg from entry i on: the first entry whose first word matches. */
  function SearchPteg(mem: Memory, pteg: nat, word: u32, i: nat): (p: Option<nat>)
    requires i <= 8 && pteg % 8 == 0 && pteg + 64 <= |mem|
    ensures p.Some? ==> p.value % 8 == 0 && p.value + 8 <= |mem|
    decreases 8 - i
  {
    if i == 8 then None
    else if ReadWord(mem, pteg + 8 * i) == word then Some(pteg + 8 * i)
    else SearchPteg(mem, pteg, word, i + 1)
  }

  datatype Search = Found(pte: nat) | NotFound | NoTable

  function SearchGroup(w: World, hash: u32, word: u32): (s: Search)
    requires ValidWorld(w)
    ensures s.Found? ==> s.pte % 8 == 0 && s.pte + 8 <= |w.mem|
  {
    match PtegHost(w, hash)
    case None => NoTable
    case Some(g) => match SearchPteg(w.mem, g, word, 0) case Some(p) => Found(p) case None => NotFound
  }

  /** The primary group first, then the group of the complemented hash. */
  function FindPte(w: World, la: u32): (s: Search)
    requires ValidWorld(w)
    ensures s.Found? ==> s.pte % 8 == 0 && s.pte + 8 <= |w.mem|
  {
    var vsid := Vsid(SegmentOf(w, la));
    var hash := PrimaryHash(vsid, PageIndex(la));
    var first := SearchGroup(w, hash, MatchWord(vsid, PageIndex(la), false));
    if first.NotFound? then SearchGroup(w, Not32(hash), MatchWord(vsid, PageIndex(la), true)) else first
  }

  /** Result of a page walk: physical address, key and PP, and Changed status. */
  datatype Walk = Page(phys: u32, key: bool, pp: u2, changed: bool) | Denied(fault: Fault) | Halt

  function StoreBit(write: bool): u32 {
    if write then 0x0200_0000 else 0
  }

  predicate Key(sr: u32, pr: bool) {
    sr / (if pr then 0x2000_0000 else 0x4000_0000) % 2 == 1
  }

  predicate Refused(key: bool, pp: u2, write: bool) {
    (key && (pp == 0 || (pp == 1 && write))) || (pp == 3 && write)
  }

  function ProtectionFault(ty: TlbType, la: u32, write: bool): Fault {
    if ty == ITLB then Isi(0x0800_0000) else Dsi(0x0800_0000 + StoreBit(write), la)
  }

  function PagePhys(pteLo: u32, la: u32): u32 {
    pteLo - pteLo % 4096 + la % 4096
  }

  /** A 601 memory-forced I/O segment supplies the top four address bits. */
  function ForcedPhys(sr: u32, la: u32): u32 {
    la % 0x1000_0000 + sr % 16 * 0x1000_0000
  }

  function ProtBits(pteLo: u32): u2 {
    pteLo % 4
  }

  predicate Changed(pteLo: u32) {
    pteLo / 128 % 2 == 1
  }

  function HashedWalk(w: World, ty: TlbType, la: u32, pr: bool, write: bool): Walk
    requires ValidWorld(w)
  {
    match FindPte(w, la)
    case NoTable => Halt
    case NotFound =>
      Denied(if ty == ITLB then Isi(0x4000_0000) else Dsi(0x4000_0000 + StoreBit(write), la))
    case Found(pte) =>
      var lo := ReadWord(w.mem, pte + 4);
      var key := Key(SegmentOf(w, la), pr);
      if Refused(key, ProtBits(lo), write) then Denied(ProtectionFault(ty, la, write))
      else Page(PagePhys(lo, la), key, ProtBits(lo), Changed(lo))
  }

  // ---------- 603 software-loaded TLBs ----------

  function Set603(la: u32): (s: nat)
    ensures s < 32
  {
    la / 4096 % 32
  }

  function Slot603(ty: TlbType, ea: u32, way: nat): (i: nat)
    requires way < 2
    ensures i < 128
  {
    (if ty == ITLB then 0 else 64) + 2 * Set603(ea) + way
  }

  function Lru603(ty: TlbType, ea: u32): (i: nat)
    ensures i < 64
  {
    (if ty == ITLB then 0 else 32) + Set603(ea)
  }

  predicate Match603(e: Tlb603Entry, vsid: u32, la: u32) {
    e.valid && e.vsid == vsid && PageIndex(e.eaTag) == PageIndex(la)
  }

  /** The way that translates la, or 2 on a miss. */
  function Way603(w: World, ty: TlbType, la: u32): (way: nat)
    requires ValidWorld(w)
    ensures way <= 2
  {
    var vsid := Vsid(SegmentOf(w, la));
    if Match603(w.tlb603[Slot603(ty, la, 0)], vsid, la) then 0
    else if Match603(w.tlb603[Slot603(ty, la, 1)], vsid, la) then 1
    else 2
  }

  /** The way a miss handler is told to replace. */
  function Victim603(w: World, ty: TlbType, la: u32): (way: nat)
    requires ValidWorld(w)
    ensures way < 2
  {
    if !w.tlb603[Slot603(ty, la, 0)].valid then 0
    else if !w.tlb603[Slot603(ty, la, 1)].valid then 1
    else w.lru603[Lru603(ty, la)]
  }

  function Miss603(w: World, ty: TlbType, la: u32, key: bool, write: bool, way: nat): Fault
    requires ValidWorld(w)
  {
    var sr := SegmentOf(w, la);
    var hash := PrimaryHash(sr, PageIndex(la));
    TlbMiss(if ty == ITLB then InstrMiss else if write then StoreMiss else LoadMiss, la,
            0x8000_0000 + Vsid(sr) * 128 + PageIndex(la) / 1024,
            PtegPhys(w.sdr1, hash), PtegPhys(w.sdr1, Not32(hash)), key, way)
  }

  function Walk603(w: World, ty: TlbType, la: u32, pr: bool, write: bool): Walk
    requires ValidWorld(w)
  {
    var key := Key(SegmentOf(w, la), pr);
    var way := Way603(w, ty, la);
    if way == 2 then Denied(Miss603(w, ty, la, key, write, Victim603(w, ty, la)))
    else
      var lo := w.tlb603[Slot603(ty, la, way)].pteLo;
      if Refused(key, ProtBits(lo), write) then Denied(ProtectionFault(ty, la, write))
      else if write && !Changed(lo) then Denied(Miss603(w, DTLB, la, key, write, way))
      else Page(PagePhys(lo, la), key, ProtBits(lo), Changed(lo))
  }

  // ---------- Page address translation ----------

  function PageWalk(w: World, ty: TlbType, la: u32, pr: bool, write: bool): Walk
    requires ValidWorld(w)
  {
    var sr := SegmentOf(w, la);
    if DirectStore(sr) then
      if sr / 0x10_0000 % 512 == 0x7F then Page(ForcedPhys(sr, la), false, 0, true)
      else Halt
    else if NoExecute(sr) && ty == ITLB then Denied(Isi(0x1000_0000))
    else if w.is603 then Walk603(w, ty, la, pr, write)
    else HashedWalk(w, ty, la, pr, write)
  }

  /** Set Referenced, and Changed for a store, in the entry at pte. */
  function SetRC(mem: Memory, pte: nat, write: bool): (m: Memory)
    requires pte + 8 <= |mem|
    ensures |m| == |mem|
  {
    var m := mem[pte + 6 := if mem[pte + 6] % 2 == 0 then mem[pte + 6] + 1 else mem[pte + 6]];
    if write && m[pte + 7] < 128 then m[pte + 7 := m[pte + 7] + 128] else m
  }

  /** What a page walk leaves behind: R and C bits, or the 603's replacement state. */
  function WalkEffect(w: World, ty: TlbType, la: u32, pr: bool, write: bool): (w': World)
    requires ValidWorld(w)
    ensures ValidWorld(w') && w' == w.(mem := w'.mem, lru603 := w'.lru603) && |w'.mem| == |w.mem|
  {
    var sr := SegmentOf(w, la);
    if DirectStore(sr) || (NoExecute(sr) && ty == ITLB) then w
    else if w.is603 then
      var way := Way603(w, ty, la);
      if way == 2 then w else w.(lru603 := w.lru603[Lru603(ty, la) := 1 - way])
    else if HashedWalk(w, ty, la, pr, write).Page? then
      w.(mem := SetRC(w.mem, FindPte(w, la).pte, write))
    else w
  }

  // ---------- Translation and refill ----------

  datatype Xlat = Xlat(phys: u32, source: Source, writable: bool, changed: bool) | Faulted(fault: Fault) | Stopped

  /** Address translation as the two refill routines perform it. */
  function Translate(w: World, ty: TlbType, mode: Mode, va: u32, write: bool): Xlat
    requires ValidWorld(w)
  {
    if mode == Real then Xlat(va, NoSource, true, true)
    else
      var pr := mode == User;
      match BlockTranslate(w, ty, pr, va)
      case BatHit(prot, phys) =>
        if prot == 0 || (ty == DTLB && prot % 2 == 1 && write) then Faulted(ProtectionFault(ty, va, write))
        else Xlat(phys, FromBat, prot == 2, true)
      case BatMiss =>
        match PageWalk(w, ty, va, pr, write)
        case Page(phys, key, pp, changed) =>
          Xlat(phys, FromPat, (!key && pp <= 2) || (key && pp == 2), write || changed)
        case Denied(f) => Faulted(f)
        case Halt => Stopped
  }

  function TranslateEffect(w: World, ty: TlbType, mode: Mode, va: u32, write: bool): (w': World)
    requires ValidWorld(w)
    ensures ValidWorld(w') && w' == w.(mem := w'.mem, lru603 := w'.lru603) && |w'.mem| == |w.mem|
  {
    if mode == Real || BlockTranslate(w, ty, mode == User, va).BatHit? then w
    else WalkEffect(w, ty, va, mode == User, write)
  }

  /** A TLB entry's payload: host offsets for memory, region and base for a device. */
  datatype Backing = Memory(offR: int, offW: int) | Device(region: Region, base: int)

  /** What a refill stores for a page, apart from its bookkeeping bits. */
  datatype Fill = Fill(source: Source, writable: bool, backing: Backing, physTag: u32)

  datatype FillResult = Filled(fill: Fill, changed: bool) | Unmapped | Failed(fault: Fault) | Aborted

  function BackingOf(w: World, ty: TlbType, r: Region, va: u32, phys: u32): Backing {
    if r.kind == Mmio then Device(r, va - (phys - r.firstPage * 4096))
    else
      var offR := HostAddress(r, phys) - va;
      Memory(offR, if r.kind == Rom && ty == DTLB then w.dummyPage - PageTag(va) else offR)
  }

  /** Region lookup after translation. An instruction fetch must hit host memory. */
  function FillOf(w: World, ty: TlbType, va: u32, x: Xlat): FillResult {
    match x
    case Faulted(f) => Failed(f)
    case Stopped => Aborted
    case Xlat(phys, source, writable, changed) =>
      match FindRange(w.regions, PageNumber(phys))
      case None => if ty == ITLB then Aborted else Unmapped
      case Some(r) =>
        if ty == ITLB && r.kind == Mmio then Aborted
        else
          Filled(Fill(source, ty == DTLB && writable, BackingOf(w, ty, r, va, phys), PageTag(phys)),
                 ty == DTLB && changed)
  }

  /** itlb2_refill and dtlb2_refill up to the choice of the slot. */
  function Refill(w: World, ty: TlbType, mode: Mode, va: u32, write: bool): FillResult
    requires ValidWorld(w)
  {
    FillOf(w, ty, va, Translate(w, ty, mode, va, write))
  }

  /** A page that fills keeps its payload and does not lose its Changed status. */
  predicate Kept(a: FillResult, a': FillResult) {
    a.Filled? ==> a'.Filled? && a'.fill == a.fill && (a.changed ==> a'.changed)
  }
}
