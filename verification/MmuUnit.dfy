/** The MMU of cpu/ppc/ppcmmu.cpp in its own form: global arrays and registers
    updated in place, searched by loops. Every method is tied to the state machine
    that the other modules reason about. */
module MmuUnit {
  import opened Bits
  import opened Address
  import opened Translation
  import opened Reference
  import opened SoftTlb
  import opened SoftTlbUnit
  import opened Mmu
  import opened MemoryAccess
  import opened MmuContext
  import opened MmuRuns
  import opened Wrappers

  /** The loop of ppc_block_address_translation. */
  method SearchBats(bats: seq<BatEntry>, pr: bool, la: u32) returns (r: BatResult)
    ensures r == PpcBat(bats, pr, la)
  {
    var i := 0;
    while i < |bats|
      invariant 0 <= i <= |bats|
      invariant PpcBat(bats[i..], pr, la) == PpcBat(bats, pr, la)
    {
      assert bats[i..][1..] == bats[i + 1..];
      if AccessEnabled(bats[i].access, pr) && BlockMatch(bats[i], la) {
        return BatHit(bats[i].prot, BlockPhys(bats[i], la));
      }
      i := i + 1;
    }
    return BatMiss;
  }

  /** The loop of mpc601_block_address_translation. */
  method SearchBats601(bats: seq<BatEntry>, pr: bool, la: u32) returns (r: BatResult)
    ensures r == Bat601(bats, pr, la)
  {
    var i := 0;
    while i < |bats|
      invariant 0 <= i <= |bats|
      invariant Bat601(bats[i..], pr, la) == Bat601(bats, pr, la)
    {
      assert bats[i..][1..] == bats[i + 1..];
      if bats[i].valid && BlockMatch(bats[i], la) {
        return BatHit(Prot601(bats[i], pr), BlockPhys(bats[i], la));
      }
      i := i + 1;
    }
    return BatMiss;
  }

  class MmuUnit {
    const is601: bool
    const is603: bool
    const regions: seq<Region>
    const dummyPage: nat
    const mem: array<byte>
    const itlb: TlbUnit
    const dtlb: TlbUnit
    var ibat: seq<BatEntry>
    var dbat: seq<BatEntry>
    var sr: seq<u32>
    var sdr1: u32
    var tlb603: seq<Tlb603Entry>
    var lru603: seq<nat>
    var msr: Msr
    var actions: seq<TlbType>

    /** ppc_mmu_init, on a machine whose memory map and registers are given. */
    constructor (w: World, msr: Msr)
      requires ColdWorld(w)
      ensures Ready() && State() == PowerUp(w, msr)
      ensures fresh(mem) && fresh(itlb) && fresh(dtlb) && fresh(itlb.slots) && fresh(dtlb.slots)
    {
      is601, is603, regions, dummyPage := w.is601, w.is603, w.regions, w.dummyPage;
      mem := new byte[|w.mem|](i requires 0 <= i < |w.mem| => w.mem[i]);
      itlb := new TlbUnit(EMPTY);
      dtlb := new TlbUnit(EMPTY);
      ibat, dbat, sr, sdr1 := w.ibat, w.dbat, w.sr, w.sdr1;
      tlb603, lru603 := w.tlb603, w.lru603;
      this.msr, actions := msr, [];
      new;
      assert mem[..] == w.mem;
      assert State() == Blank(w, msr);
      ScheduleInvalidation(ITLB, TRANSLATION);
      ScheduleInvalidation(DTLB, TRANSLATION);
    }

    function Surroundings(): World
      reads this, mem
    {
      World(is601, is603, ibat, dbat, sr, sdr1, regions, dummyPage, mem[..], tlb603, lru603)
    }

    function State(): Machine
      reads this, mem, itlb, itlb.slots, dtlb, dtlb.slots
    {
      Machine(Surroundings(), itlb.Value(), dtlb.Value(), msr, actions)
    }

    predicate Ready()
      reads this, mem, itlb, itlb.slots, dtlb, dtlb.slots
      ensures Ready() ==> WellFormed(State()) && itlb.Ready() && dtlb.Ready()
    {
      WellFormed(State()) && itlb != dtlb && itlb.slots != dtlb.slots
    }

    function Unit(ty: TlbType): TlbUnit
      reads this
    {
      if ty == ITLB then itlb else dtlb
    }

    function Mode(ty: TlbType): Translation.Mode
      reads this
    {
      CurrentMode(msr, ty)
    }

    // ---------- Translation ----------

    method BlockTranslation(ty: TlbType, pr: bool, la: u32) returns (r: BatResult)
      requires Ready()
      ensures r == BlockTranslate(Surroundings(), ty, pr, la)
    {
      hide PpcBat, Bat601;
      if is601 {
        if DirectStore(sr[Segment(la)]) {
          return BatMiss;
        }
        r := SearchBats601(ibat, pr, la);
      } else {
        r := SearchBats(if ty == ITLB then ibat else dbat, pr, la);
      }
    }

    /** search_pteg. */
    method SearchGroupAt(pteg: nat, word: u32) returns (p: Option<nat>)
      requires pteg % 8 == 0 && pteg + 64 <= mem.Length
      ensures p == SearchPteg(mem[..], pteg, word, 0)
    {
      var i := 0;
      while i < 8
        invariant 0 <= i <= 8
        invariant SearchPteg(mem[..], pteg, word, 0) == SearchPteg(mem[..], pteg, word, i)
      {
        if ReadWord(mem[..], pteg + 8 * i) == word {
          return Some(pteg + 8 * i);
        }
        i := i + 1;
      }
      return None;
    }

    method FindEntry(la: u32) returns (s: Search)
      requires Ready()
      ensures s == FindPte(Surroundings(), la)
    {
      assert |sr| == 16;
      hide SearchPteg, PtegHost, PrimaryHash, MatchWord, ValidWorld;
      var w := Surroundings();
      var vsid := Vsid(sr[Segment(la)]);
      var hash := PrimaryHash(vsid, PageIndex(la));
      var host := PtegHost(w, hash);
      if host.None? {
        return NoTable;
      }
      var p := SearchGroupAt(host.value, MatchWord(vsid, PageIndex(la), false));
      if p.Some? {
        return Found(p.value);
      }
      host := PtegHost(w, Not32(hash));
      if host.None? {
        return NoTable;
      }
      p := SearchGroupAt(host.value, MatchWord(vsid, PageIndex(la), true));
      return if p.Some? then Found(p.value) else NotFound;
    }
  
    /** The R and C updates of page_address_translation. */
    method UpdateRC(pte: nat, write: bool)
      requires pte + 8 <= mem.Length
      modifies mem
      ensures mem[..] == SetRC(old(mem[..]), pte, write)
    {
      if mem[pte + 6] % 2 == 0 {
        mem[pte + 6] := mem[pte + 6] + 1;
      }
      if write && mem[pte + 7] < 128 {
        mem[pte + 7] := mem[pte + 7] + 128;
      }
    }

    /** The way search of mpc603_page_address_translation. */
    method FindWay603(ty: TlbType, la: u32) returns (way: nat)
      requires Ready()
      ensures way == Way603(Surroundings(), ty, la)
    {
      hide Match603, Slot603;
      var vsid := Vsid(sr[Segment(la)]);
      way := 0;
      while way < 2 && !Match603(tlb603[Slot603(ty, la, way)], vsid, la)
        invariant 0 <= way <= 2
        invariant way > 0 ==> !Match603(tlb603[Slot603(ty, la, 0)], vsid, la)
        invariant way > 1 ==> !Match603(tlb603[Slot603(ty, la, 1)], vsid, la)
      {
        way := way + 1;
      }
    }

    /** mpc603_page_address_translation. */
    method Translate603(ty: TlbType, la: u32, pr: bool, write: bool) returns (r: Walk)
      requires Ready() && is603 && !DirectStore(sr[Segment(la)]) && !(NoExecute(sr[Segment(la)]) && ty == ITLB)
      modifies `lru603
      ensures Ready() && r == Walk603(old(Surroundings()), ty, la, pr, write)
      ensures Surroundings() == WalkEffect(old(Surroundings()), ty, la, pr, write)
    {
      assert |sr| == 16 && |tlb603| == 128 && |lru603| == 64;
      hide Way603, Miss603, Slot603, Victim603, ValidWorld;
      var w := Surroundings();
      var key := Key(sr[Segment(la)], pr);
      var way := FindWay603(ty, la);
      if way == 2 {
        return Denied(Miss603(w, ty, la, key, write, Victim603(w, ty, la)));
      }
      lru603 := lru603[Lru603(ty, la) := 1 - way];
      var lo := tlb603[Slot603(ty, la, way)].pteLo;
      if Refused(key, ProtBits(lo), write) {
        return Denied(ProtectionFault(ty, la, write));
      }
      if write && !Changed(lo) {
        return Denied(Miss603(w, DTLB, la, key, write, way));
      }
      return Page(PagePhys(lo, la), key, ProtBits(lo), Changed(lo));
    }

    /** The hashed half of page_address_translation. */
    method TranslateHashed(ty: TlbType, la: u32, pr: bool, write: bool) returns (r: Walk)
      requires Ready() && !is603 && !DirectStore(sr[Segment(la)]) && !(NoExecute(sr[Segment(la)]) && ty == ITLB)
      modifies mem
      ensures Ready() && r == HashedWalk(old(Surroundings()), ty, la, pr, write)
      ensures Surroundings() == WalkEffect(old(Surroundings()), ty, la, pr, write)
    {
      hide FindPte, SetRC, ReadWord;
      var s := FindEntry(la);
      match s {
        case NoTable => return Halt;
        case NotFound =>
          return Denied(if ty == ITLB then Isi(0x4000_0000) else Dsi(0x4000_0000 + StoreBit(write), la));
        case Found(pte) =>
          var lo := ReadWord(mem[..], pte + 4);
          var key := Key(sr[Segment(la)], pr);
          if Refused(key, ProtBits(lo), write) {
            return Denied(ProtectionFault(ty, la, write));
          }
          UpdateRC(pte, write);
          return Page(PagePhys(lo, la), key, ProtBits(lo), Changed(lo));
      }
    }

    /** page_address_translation. */
    method PageTranslation(ty: TlbType, la: u32, pr: bool, write: bool) returns (r: Walk)
      requires Ready()
      modifies `lru603, mem
      ensures Ready() && r == PageWalk(old(Surroundings()), ty, la, pr, write)
      ensures Surroundings() == WalkEffect(old(Surroundings()), ty, la, pr, write)
    {
      hide Walk603, HashedWalk;
      var value := sr[Segment(la)];
      if DirectStore(value) {
        return if value / 0x10_0000 % 512 == 0x7F then Page(ForcedPhys(value, la), false, 0, true) else Halt;
      }
      if NoExecute(value) && ty == ITLB {
        return Denied(Isi(0x1000_0000));
      }
      if is603 {
        r := Translate603(ty, la, pr, write);
      } else {
        r := TranslateHashed(ty, la, pr, write);
      }
    }
  
    /** The address translation of both refill routines. */
    method TranslateAddress(ty: TlbType, va: u32, write: bool) returns (x: Xlat)
      requires Ready()
      modifies `lru603, mem
      ensures Ready() && x == Translate(old(Surroundings()), ty, Mode(ty), va, write)
      ensures Surroundings() == TranslateEffect(old(Surroundings()), ty, Mode(ty), va, write)
    {
      hide BlockTranslate, PageWalk, WalkEffect;
      var mode := Mode(ty);
      if mode == Real {
        return Xlat(va, NoSource, true, true);
      }
      var pr := msr.pr;
      assert pr == (mode == User);
      var bat := BlockTranslation(ty, pr, va);
      if bat.BatHit? {
        if bat.prot == 0 || (ty == DTLB && bat.prot % 2 == 1 && write) {
          return Faulted(ProtectionFault(ty, va, write));
        }
        return Xlat(bat.phys, FromBat, bat.prot == 2, true);
      }
      var walk := PageTranslation(ty, va, pr, write);
      match walk {
        case Page(phys, key, pp, changed) =>
          return Xlat(phys, FromPat, (!key && pp <= 2) || (key && pp == 2), write || changed);
        case Denied(f) => return Faulted(f);
        case Halt => return Stopped;
      }
    }

    /** itlb2_refill and dtlb2_refill. */
    method RefillSecondary(ty: TlbType, va: u32, write: bool) returns (second: Second)
      requires Ready()
      modifies `lru603, mem, itlb, itlb.slots, dtlb, dtlb.slots
      ensures Ready() && (State(), second) == RefillMiss(old(State()), ty, va, write)
    {
      hide Translate, TranslateEffect, FillOf, Install, VictimWay, SetFor, PageTag;
      var before := Surroundings();
      var s := SetFor(Mode(ty), va);
      var x := TranslateAddress(ty, va, write);
      match FillOf(before, ty, va, x) {
        case Filled(fill, changed) =>
          var way := Unit(ty).Fill(s, PageTag(va), fill, changed);
          second := InWay(way);
        case Unmapped => second := Missed(NoMemory);
        case Failed(f) => second := Missed(Raised(f));
        case Aborted => second := Missed(Crashed);
      }
    }

    method LookupSecondary(ty: TlbType, va: u32, write: bool) returns (second: Second)
      requires Ready()
      modifies `lru603, mem, itlb, itlb.slots, dtlb, dtlb.slots
      ensures Ready() && (State(), second) == LookupOrRefill(old(State()), ty, va, write)
    {
      hide RefillMiss, TouchWay, FindWay, SetFor, PageTag;
      var s := SetFor(Mode(ty), va);
      var way := Unit(ty).Find(s, PageTag(va));
      if way < 4 {
        Unit(ty).Touch(s, way);
        second := InWay(way);
      } else {
        second := RefillSecondary(ty, va, write);
      }
    }
  
    // ---------- Accesses ----------

    /** mmu_translate_imem. */
    method TranslateImem(va: u32) returns (end: Outcome)
      requires Ready()
      modifies `lru603, mem, itlb, itlb.slots, dtlb, dtlb.slots
      ensures Ready() && (State(), end) == Fetch(old(State()), va)
    {
      hide LookupOrRefill, Promote, SetFor, PageTag;
      var s := SetFor(Mode(ITLB), va);
      if itlb.slots[5 * s].tag == PageTag(va) {
        return Hit(FastPath(itlb.slots[5 * s].backing, va, false));
      }
      var second := LookupSecondary(ITLB, va, false);
      if second.Missed? {
        return second.end;
      }
      itlb.PromoteEntry(s, second.way);
      return Hit(FastPath(itlb.slots[5 * s].backing, va, false));
    }

    /** Where mmu_read_vmem reads. */
    method ReadAddress(va: u32) returns (end: Outcome)
      requires Ready()
      modifies `lru603, mem, itlb, itlb.slots, dtlb, dtlb.slots
      ensures Ready() && (State(), end) == Read(old(State()), va)
    {
      hide LookupOrRefill, Promote, SetFor, PageTag;
      var s := SetFor(Mode(DTLB), va);
      if dtlb.slots[5 * s].tag == PageTag(va) {
        return Hit(FastPath(dtlb.slots[5 * s].backing, va, false));
      }
      var second := LookupSecondary(DTLB, va, false);
      if second.Missed? {
        return second.end;
      }
      var e := dtlb.slots[5 * s + 1 + second.way];
      if e.backing.Memory? {
        dtlb.PromoteEntry(s, second.way);
        return Hit(FastPath(dtlb.slots[5 * s].backing, va, false));
      }
      return Hit(HitTarget(e.backing, va, false));
    }

    /** prepare_dtlb_write. */
    method PrepareWrite(e: Entry, va: u32) returns (verdict: Prepared)
      requires Ready()
      modifies `lru603, mem
      ensures Ready() && (Surroundings(), verdict) == Prepare(old(State()), e, va)
    {
      hide PageWalk, WalkEffect;
      if !e.writable {
        return Refuse(Raised(Dsi(0x0A00_0000, va)));
      }
      if e.changed {
        return Prepared.Ready;
      }
      var walk := PageTranslation(DTLB, va, msr.pr, true);
      match walk {
        case Page(_, _, _, _) => return MarkChanged;
        case Denied(f) => return Refuse(Raised(f));
        case Halt => return Refuse(Crashed);
      }
    }

    method WriteThroughPrimary(va: u32) returns (end: Outcome)
      requires Ready()
      modifies `lru603, mem, dtlb, dtlb.slots
      ensures Ready() && (State(), end) == WriteHit(old(State()), va)
    {
      hide Prepare, MarkBoth, SetFor, PageTag;
      var s := SetFor(Mode(DTLB), va);
      var p := dtlb.slots[5 * s];
      var verdict := PrepareWrite(p, va);
      match verdict {
        case Refuse(refused) => return refused;
        case Ready => return Hit(FastPath(p.backing, va, true));
        case MarkChanged =>
          dtlb.MarkMirrored(s);
          return Hit(FastPath(p.backing, va, true));
      }
    }

    method WriteThroughSecondary(way: nat, va: u32) returns (end: Outcome)
      requires Ready() && way < 4
      modifies `lru603, mem, dtlb, dtlb.slots
      ensures Ready() && (State(), end) == FinishWrite(old(State()), way, va)
    {
      hide Prepare, Promote, MarkSlot, SetFor, PageTag;
      var s := SetFor(Mode(DTLB), va);
      var i := 5 * s + 1 + way;
      var verdict := PrepareWrite(dtlb.slots[i], va);
      if verdict.Refuse? {
        return verdict.end;
      }
      if verdict.MarkChanged? {
        dtlb.Mark(i);
      }
      if dtlb.slots[i].backing.Memory? {
        dtlb.PromoteEntry(s, way);
        return Hit(FastPath(dtlb.slots[5 * s].backing, va, true));
      }
      return Hit(HitTarget(dtlb.slots[i].backing, va, true));
    }

    /** Where mmu_write_vmem writes. */
    method WriteAddress(va: u32) returns (end: Outcome)
      requires Ready()
      modifies `lru603, mem, itlb, itlb.slots, dtlb, dtlb.slots
      ensures Ready() && (State(), end) == Write(old(State()), va)
    {
      hide LookupOrRefill, WriteHit, FinishWrite, SetFor, PageTag;
      var s := SetFor(Mode(DTLB), va);
      if dtlb.slots[5 * s].tag == PageTag(va) {
        end := WriteThroughPrimary(va);
        return;
      }
      var second := LookupSecondary(DTLB, va, true);
      if second.Missed? {
        return second.end;
      }
      end := WriteThroughSecondary(second.way, va);
    }
  
    // ---------- Loads and stores ----------

    /** One host store of some bytes. */
    method WriteHost(h: int, bytes: seq<byte>)
      modifies mem
      ensures mem[..] == Poke(old(mem[..]), h, bytes)
    {
      if 0 <= h && h + |bytes| <= mem.Length {
        forall i | 0 <= i < |bytes| {
          mem[h + i] := bytes[i];
        }
      }
    }

    /** mmu_read_vmem for one byte. */
    method ReadByte(va: u32, io: Devices) returns (r: Loaded)
      requires Ready()
      modifies `lru603, mem, itlb, itlb.slots, dtlb, dtlb.slots
      ensures Ready() && (State(), r) == LoadByte(old(State()), va, io)
    {
      hide Read, Peek, DeviceValue, WellFormed;
      var end := ReadAddress(va);
      match end {
        case Hit(HostByte(h)) => r := Value(Peek(mem[..], h, 1)[0]);
        case Hit(DeviceByte(region, offset)) => r := Value(DeviceValue(io, region, offset, 1));
        case Hit(Nowhere) => r := LoadAbort;
        case NoMemory => r := Value(255);
        case Raised(f) => r := LoadFault(f);
        case Crashed => r := LoadAbort;
      }
    }

    /** The bytewise loop of read_unaligned. */
    method ReadUnaligned(va: u32, n: nat, io: Devices) returns (r: Loaded)
      requires Ready()
      modifies `lru603, mem, itlb, itlb.slots, dtlb, dtlb.slots
      ensures Ready() && (State(), r) == LoadBytes(old(State()), va, n, 0, io)
    {
      hide LoadByte, WellFormed;
      var result: nat, i: nat := 0, 0;
      assert Advance(va, 0) == va;
      while i < n
        invariant 0 <= i <= n && Ready()
        invariant LoadBytes(old(State()), va, n, 0, io) == LoadBytes(State(), Advance(va, i), n - i, result, io)
      {
        assert Advance(Advance(va, i), 1) == Advance(va, i + 1);
        var b := ReadByte(Advance(va, i), io);
        if !b.Value? {
          return b;
        }
        result := result * 256 + b.v;
        i := i + 1;
      }
      return Value(result);
    }

    /** mmu_read_vmem. */
    method ReadVmem(va: u32, n: nat, io: Devices) returns (r: Loaded)
      requires Ready() && AccessSize(n)
      modifies `lru603, mem, itlb, itlb.slots, dtlb, dtlb.slots
      ensures Ready() && (State(), r) == Load(old(State()), va, n, io)
    {
      hide Read, LoadByte, LoadBytes, Peek, DeviceValue, BigEndian, Radix, PageOffset, WellFormed;
      if n == 1 {
        r := ReadByte(va, io);
        return;
      }
      var end := ReadAddress(va);
      match end {
        case Hit(HostByte(h)) =>
          if Misfit(va, n) && n == 8 && va % 4 != 0 {
            r := LoadFault(Misaligned(va));
          } else if Misfit(va, n) && PageOffset(va) + n > 4096 {
            r := ReadUnaligned(va, n, io);
          } else {
            r := Value(BigEndian(0, Peek(mem[..], h, n)));
          }
        case Hit(DeviceByte(region, offset)) =>
          if n == 8 && va % 4 != 0 {
            r := LoadFault(Misaligned(va));
          } else {
            r := Value(DeviceValue(io, region, offset, n));
          }
        case Hit(Nowhere) => r := LoadAbort;
        case NoMemory => r := Value(Radix(n) - 1);
        case Raised(f) => r := LoadFault(f);
        case Crashed => r := LoadAbort;
      }
    }

    /** mmu_write_vmem for one byte. */
    method WriteByte(va: u32, b: byte) returns (r: Stored)
      requires Ready()
      modifies `lru603, mem, itlb, itlb.slots, dtlb, dtlb.slots
      ensures Ready() && (State(), r) == StoreByte(old(State()), va, b)
    {
      StoreByteReady(va, b);
      hide Write, Poke, WellFormed;
      var end := WriteAddress(va);
      match end {
        case Hit(HostByte(h)) =>
          WriteHost(h, [b]);
          r := Done([]);
        case Hit(DeviceByte(region, offset)) => r := Done([DeviceWrite(region, offset, b, 1)]);
        case Hit(Nowhere) => r := StoreAbort;
        case NoMemory => r := Done([]);
        case Raised(f) => r := StoreFault(f);
        case Crashed => r := StoreAbort;
      }
    }

    lemma StoreByteReady(va: u32, b: byte)
      requires Ready()
      ensures WellFormed(StoreByte(State(), va, b).0)
    {
      StoreByteWellFormed(State(), va, b);
    }

    /** The bytewise loop of write_unaligned. */
    method WriteUnaligned(va: u32, bytes: seq<byte>) returns (r: Stored)
      requires Ready()
      modifies `lru603, mem, itlb, itlb.slots, dtlb, dtlb.slots
      ensures Ready() && (State(), r) == StoreBytes(old(State()), va, bytes)
    {
      hide StoreByte, StoreBytes, WellFormed, After;
      var devices: seq<DeviceWrite> := [];
      var i := 0;
      assert Advance(va, 0) == va && bytes[0..] == bytes;
      NothingAfter(StoreBytes(State(), va, bytes));
      while i < |bytes|
        invariant 0 <= i <= |bytes| && Ready()
        invariant StoreBytes(old(State()), va, bytes) ==
                  After(devices, StoreBytes(State(), Advance(va, i), bytes[i..]))
      {
        assert Advance(Advance(va, i), 1) == Advance(va, i + 1) && bytes[i..][1..] == bytes[i + 1..];
        AfterByte(State(), Advance(va, i), bytes[i..], devices);
        var b := WriteByte(Advance(va, i), bytes[i]);
        if !b.Done? {
          return b;
        }
        devices := devices + b.devices;
        i := i + 1;
      }
      AfterAll(State(), Advance(va, i), devices);
      assert bytes[i..] == [];
      return Done(devices);
    }

    /** mmu_write_vmem. */
    method WriteVmem(va: u32, n: nat, v: nat) returns (r: Stored)
      requires Ready() && AccessSize(n)
      modifies `lru603, mem, itlb, itlb.slots, dtlb, dtlb.slots
      ensures Ready() && (State(), r) == Store(old(State()), va, n, v)
    {
      StoreReady(va, n, v);
      hide Write, StoreByte, StoreBytes, StoreToDevice, BytesOf, Poke, Radix, PageOffset, WellFormed;
      if n == 1 {
        r := WriteByte(va, v % 256);
        return;
      }
      var end := WriteAddress(va);
      match end {
        case Hit(HostByte(h)) =>
          if Misfit(va, n) && n == 8 && va % 4 != 0 {
            r := StoreFault(Misaligned(va));
          } else if Misfit(va, n) && PageOffset(va) + n > 4096 {
            r := WriteUnaligned(va, BytesOf(v, n));
          } else {
            WriteHost(h, BytesOf(v, n));
            r := Done([]);
          }
        case Hit(DeviceByte(region, offset)) => r := StoreToDevice(va, n, v, region, offset);
        case Hit(Nowhere) => r := StoreAbort;
        case NoMemory => r := Done([]);
        case Raised(f) => r := StoreFault(f);
        case Crashed => r := StoreAbort;
      }
    }

    lemma StoreReady(va: u32, n: nat, v: nat)
      requires Ready() && AccessSize(n)
      ensures WellFormed(Store(State(), va, n, v).0)
    {
      StoreWellFormed(State(), va, n, v);
    }

    /** The four stores of mmu_dcbz. */
    method ZeroLine(va: u32) returns (r: Stored)
      requires Ready()
      modifies `lru603, mem, itlb, itlb.slots, dtlb, dtlb.slots
      ensures Ready() && (State(), r) == ZeroBlock(old(State()), va, 4)
    {
      hide Store, ZeroBlock, WellFormed, After;
      var devices: seq<DeviceWrite> := [];
      var i := 0;
      assert Advance(va, 0) == va;
      NothingAfter(ZeroBlock(State(), va, 4));
      while i < 4
        invariant 0 <= i <= 4 && Ready()
        invariant ZeroBlock(old(State()), va, 4) == After(devices, ZeroBlock(State(), Advance(va, 8 * i), 4 - i))
      {
        assert Advance(Advance(va, 8 * i), 8) == Advance(va, 8 * (i + 1));
        AfterStore(State(), Advance(va, 8 * i), 4 - i, devices);
        var b := WriteVmem(Advance(va, 8 * i), 8, 0);
        if !b.Done? {
          return b;
        }
        devices := devices + b.devices;
        i := i + 1;
      }
      AfterBlock(State(), Advance(va, 8 * i), devices);
      return Done(devices);
    }

    /** The checks mmu_dcbz makes on a device page. */
    method CheckDevicePage(i: nat, va: u32) returns (r: Stored)
      requires Ready() && i < SLOTS
      modifies `lru603, mem, dtlb, dtlb.slots
      ensures Ready() && (State(), r) == CheckDevice(old(State()), i, va)
    {
      hide Prepare, MarkSlot;
      var verdict := PrepareWrite(dtlb.slots[i], va);
      match verdict {
        case Refuse(Raised(f)) => return StoreFault(f);
        case Refuse(_) => return StoreAbort;
        case Ready => return Done([]);
        case MarkChanged =>
          dtlb.Mark(i);
          return Done([]);
      }
    }

    /** mmu_dcbz. */
    method ZeroCacheLine(va: u32) returns (r: Stored)
      requires Ready()
      modifies `lru603, mem, itlb, itlb.slots, dtlb, dtlb.slots
      ensures Ready() && (State(), r) == Dcbz(old(State()), va)
    {
      hide LookupOrRefill, ZeroBlock, CheckDevice, SetFor, PageTag, WellFormed;
      var i := 5 * SetFor(Mode(DTLB), va);
      if dtlb.slots[i].tag != PageTag(va) {
        var second := LookupSecondary(DTLB, va, true);
        if second.Missed? && !second.end.NoMemory? {
          return if second.end.Raised? then StoreFault(second.end.fault) else StoreAbort;
        }
        if second.Missed? {
          r := ZeroLine(va);
          return;
        }
        i := i + 1 + second.way;
      }
      if dtlb.slots[i].backing.Memory? {
        r := ZeroLine(va);
      } else {
        r := CheckDevicePage(i, va);
      }
    }

    // ---------- Context changes ----------

    /** schedule_tlb_invalidation: only the first request registers the action. */
    method ScheduleInvalidation(ty: TlbType, sources: Sources)
      requires Ready()
      modifies `actions, itlb`pending, dtlb`pending
      ensures Ready() && State() == Schedule(old(State()), ty, sources)
    {
      var t := Unit(ty);
      if t.pending == NOTHING {
        actions := actions + [ty];
      }
      t.pending := Merge(t.pending, sources);
    }

    /** do_ctx_sync. */
    method SyncContext()
      requires Ready()
      modifies `actions, itlb, itlb.slots, dtlb, dtlb.slots
      ensures Ready() && State() == ContextSync(old(State()))
    {
      hide Synchronize, ValidWorld;
      while actions != []
        invariant Ready() && ContextSync(State()) == ContextSync(old(State()))
        decreases |actions|
      {
        var ty := actions[|actions| - 1];
        Unit(ty).SynchronizePending();
        actions := actions[..|actions| - 1];
      }
    }

    /** ibat_update: mpc601_bat_update or ppc_ibat_update. */
    method UpdateIbat(n: nat, upper: u32, lower: u32)
      requires Ready() && n < 4
      modifies `ibat, `dbat, `actions, itlb`pending, dtlb`pending
      ensures Ready() && State() == WriteIbat(old(State()), n, upper, lower)
    {
      RegistersReady(n, upper, lower);
      assert |ibat| == 4 && |dbat| == 4;
      hide Bat601Entry, PpcBatEntry, ValidWorld, Schedule;
      if is601 {
        var entry := Bat601Entry(ibat[n], upper, lower);
        ibat := ibat[n := entry];
        dbat := dbat[n := if entry.valid then entry else dbat[n].(valid := false)];
        ScheduleInvalidation(ITLB, TRANSLATION);
        ScheduleInvalidation(DTLB, TRANSLATION);
      } else {
        ibat := ibat[n := PpcBatEntry(upper, lower)];
        ScheduleInvalidation(ITLB, TRANSLATION);
      }
    }

    lemma RegistersReady(n: nat, upper: u32, lower: u32)
      requires Ready() && n < 4
      ensures ValidWorld(WriteIbat(State(), n, upper, lower).w) && ValidWorld(WriteDbat(State(), n, upper, lower).w)
    {
      BatUpdateValid(State(), n, upper, lower);
    }

    method UpdateDbat(n: nat, upper: u32, lower: u32)
      requires Ready() && n < 4
      modifies `dbat, `actions, itlb`pending, dtlb`pending
      ensures Ready() && State() == WriteDbat(old(State()), n, upper, lower)
    {
      RegistersReady(n, upper, lower);
      assert |dbat| == 4;
      hide PpcBatEntry, ValidWorld, Schedule;
      if !is601 {
        dbat := dbat[n := PpcBatEntry(upper, lower)];
        ScheduleInvalidation(DTLB, TRANSLATION);
      }
    }

    /** mmu_pat_ctx_changed. */
    method PatContextChanged()
      requires Ready()
      modifies `actions, itlb`pending, dtlb`pending
      ensures Ready() && State() == PageContextChanged(old(State()))
    {
      hide Schedule;
      ScheduleInvalidation(ITLB, PAGES);
      ScheduleInvalidation(DTLB, PAGES);
    }

    /** mtsr and mtsrin. */
    method MoveToSr(n: nat, value: u32)
      requires Ready() && n < 16
      modifies `sr, `actions, itlb`pending, dtlb`pending
      ensures Ready() && State() == WriteSr(old(State()), n, value)
    {
      hide PageContextChanged;
      if sr[n] != value {
        sr := sr[n := value];
        PatContextChanged();
      }
    }

    /** mtspr SDR1. */
    method MoveToSdr1(value: u32)
      requires Ready()
      modifies `sdr1, `actions, itlb`pending, dtlb`pending
      ensures Ready() && State() == WriteSdr1(old(State()), value)
    {
      hide PageContextChanged;
      if sdr1 != value {
        sdr1 := value;
        PatContextChanged();
      }
    }

    /** tlb_flush_all_pat. */
    method FlushAllPat()
      requires Ready()
      modifies itlb, itlb.slots, dtlb, dtlb.slots
      ensures Ready() && State() == FlushPages(old(State()))
    {
      hide Invalidate, ValidWorld;
      itlb.InvalidateTracked(PAGES);
      dtlb.InvalidateTracked(PAGES);
    }

    /** tlbie, with mmu_603_tlb_invalidate_set on a 603. */
    method InvalidateEntry(ea: u32)
      requires Ready()
      modifies `tlb603, itlb, itlb.slots, dtlb, dtlb.slots
      ensures Ready() && State() == Tlbie(old(State()), ea)
    {
      hide FlushPages, InvalidateSet603, Slot603;
      if is603 {
        DisableSet(ea);
      }
      FlushAllPat();
    }

    method DisableSet(ea: u32)
      requires Ready()
      modifies `tlb603
      ensures Ready() && Surroundings() == InvalidateSet603(old(Surroundings()), ea)
    {
      assert |tlb603| == 128;
      hide Slot603, ValidWorld;
      var a, b := Slot603(ITLB, ea, 0), Slot603(DTLB, ea, 0);
      assert a + 1 == Slot603(ITLB, ea, 1) && b + 1 == Slot603(DTLB, ea, 1) by { SlotPairs(ea); }
      tlb603 := tlb603[a := Disabled(tlb603[a])];
      tlb603 := tlb603[a + 1 := Disabled(tlb603[a + 1])];
      tlb603 := tlb603[b := Disabled(tlb603[b])];
      tlb603 := tlb603[b + 1 := Disabled(tlb603[b + 1])];
    }

    /** Store a loaded entry; never leave two entries for one page. */
    method PutEntry(ty: TlbType, ea: u32, way: nat, entry: Tlb603Entry)
      requires |tlb603| == 128 && |lru603| == 64 && way < 2
      modifies `tlb603, `lru603
      ensures var i, j := Slot603(ty, ea, way), Slot603(ty, ea, 1 - way);
              var other := old(tlb603[j]);
              var twin := other.valid && other.vsid == entry.vsid && PageIndex(other.eaTag) == PageIndex(entry.eaTag);
              tlb603 == old(tlb603)[i := entry][j := if twin then Disabled(other) else other]
      ensures lru603 == old(lru603)[Lru603(ty, ea) := 1 - way]
    {
      hide Slot603, PageIndex;
      var i, j := Slot603(ty, ea, way), Slot603(ty, ea, 1 - way);
      assert i != j by { WaysApart(ty, ea); }
      tlb603 := tlb603[i := entry];
      lru603 := lru603[Lru603(ty, ea) := 1 - way];
      var other := tlb603[j];
      if other.valid && other.vsid == entry.vsid && PageIndex(other.eaTag) == PageIndex(entry.eaTag) {
        tlb603 := tlb603[j := Disabled(other)];
      } else {
        assert tlb603[j := other] == tlb603;
      }
    }

    /** mmu_603_tlb_load. */
    method LoadTlb603(ty: TlbType, ea: u32, way: nat, cmp: u32, rpa: u32)
      requires Ready() && way < 2
      modifies `tlb603, `lru603, itlb.slots, dtlb.slots
      ensures Ready() && State() == Load603(old(State()), ty, ea, way, cmp, rpa)
    {
      LoadReady(ty, ea, way, cmp, rpa);
      assert |tlb603| == 128 && |lru603| == 64;
      hide FlushPage, PageTag, Slot603, Lru603, PageIndex, ValidWorld;
      var t := Unit(ty);
      var old_ := tlb603[Slot603(ty, ea, way)];
      if old_.valid {
        t.FlushPatPage(old_.eaTag);
      }
      var entry := Tlb603Entry(cmp >= 0x8000_0000, cmp / 128 % 0x100_0000, PageTag(ea), rpa);
      PutEntry(ty, ea, way, entry);
      t.FlushPatPage(entry.eaTag);
    }

    lemma LoadReady(ty: TlbType, ea: u32, way: nat, cmp: u32, rpa: u32)
      requires Ready() && way < 2
      ensures WellFormed(Load603(State(), ty, ea, way, cmp, rpa))
    {
      Load603WellFormed(State(), ty, ea, way, cmp, rpa);
    }

    /** The MMU's part of taking an exception. */
    method EnterHandler()
      requires Ready()
      modifies `actions, `msr, itlb, itlb.slots, dtlb, dtlb.slots
      ensures Ready() && State() == TakeException(old(State()))
    {
      hide ContextSync;
      SyncContext();
      msr := Msr(false, false, false);
    }
  }

  lemma SlotPairs(ea: u32)
    ensures Slot603(ITLB, ea, 1) == Slot603(ITLB, ea, 0) + 1 && Slot603(DTLB, ea, 1) == Slot603(DTLB, ea, 0) + 1
  {
  }

  lemma WaysApart(ty: TlbType, ea: u32)
    ensures Slot603(ty, ea, 0) != Slot603(ty, ea, 1)
  {
  }

  /** The outcome of the rest of a store after some device writes. */
  function After(devices: seq<DeviceWrite>, rest: (Machine, Stored)): (Machine, Stored) {
    (rest.0, if rest.1.Done? then Done(devices + rest.1.devices) else rest.1)
  }

  lemma NothingAfter(rest: (Machine, Stored))
    ensures After([], rest) == rest
  {
    assert rest.1.Done? ==> [] + rest.1.devices == rest.1.devices;
  }

  lemma AfterAll(m: Machine, va: u32, devices: seq<DeviceWrite>)
    requires WellFormed(m)
    ensures After(devices, StoreBytes(m, va, [])) == (m, Done(devices))
  {
    hide WellFormed;
    assert devices + [] == devices;
  }

  /** One byte of a store: its device writes join those before it, or it ends the store. */
  lemma AfterByte(m: Machine, va: u32, bytes: seq<byte>, devices: seq<DeviceWrite>)
    requires WellFormed(m) && bytes != []
    ensures var (m1, first) := StoreByte(m, va, bytes[0]);
            WellFormed(m1) &&
            After(devices, StoreBytes(m, va, bytes)) ==
              if first.Done? then After(devices + first.devices, StoreBytes(m1, Advance(va, 1), bytes[1..]))
              else (m1, first)
  {
    StoreByteWellFormed(m, va, bytes[0]);
    hide StoreByte, WellFormed, Advance;
    var (m1, first) := StoreByte(m, va, bytes[0]);
    if first.Done? {
      var (m2, rest) := StoreBytes(m1, Advance(va, 1), bytes[1..]);
      if rest.Done? {
        assert devices + (first.devices + rest.devices) == devices + first.devices + rest.devices;
      }
    }
  }

  lemma AfterBlock(m: Machine, va: u32, devices: seq<DeviceWrite>)
    requires WellFormed(m)
    ensures After(devices, ZeroBlock(m, va, 0)) == (m, Done(devices))
  {
    hide WellFormed;
    assert devices + [] == devices;
  }

  lemma AfterStore(m: Machine, va: u32, count: nat, devices: seq<DeviceWrite>)
    requires WellFormed(m) && count > 0
    ensures var (m1, first) := Store(m, va, 8, 0);
            WellFormed(m1) &&
            After(devices, ZeroBlock(m, va, count)) ==
              if first.Done? then After(devices + first.devices, ZeroBlock(m1, Advance(va, 8), count - 1))
              else (m1, first)
  {
    StoreWellFormed(m, va, 8, 0);
    hide Store, WellFormed, Advance;
    var (m1, first) := Store(m, va, 8, 0);
    if first.Done? {
      var (m2, rest) := ZeroBlock(m1, Advance(va, 8), count - 1);
      if rest.Done? {
        assert devices + (first.devices + rest.devices) == devices + first.devices + rest.devices;
      }
    }
  }
}
