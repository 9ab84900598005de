/** How loads, stores and dcbz of every size end, exceptions included, against accesses that
    translate every byte afresh; and how a run goes on after an exception. */
module AccessOutcomes {
  import opened Bits
  import opened Address
  import opened Translation
  import opened Reference
  import opened SoftTlb
  import opened Mmu
  import opened MmuProofs
  import opened MmuAccess
  import opened MmuContext
  import opened MmuRefinement
  import opened MemoryAccess
  import opened MemoryProofs
  import opened MemoryRoundTrip
  import opened MemoryStale
  import opened FreshAnswers
  import opened RamAccess
  import opened MmuRuns

  // ---------- Accesses without TLBs ----------

  /** One byte: memory, a device's answer, all ones where nothing is mapped, or the exception. */
  function IdealByte(w: World, mode: Mode, va: u32, io: Devices): Loaded
    requires ValidWorld(w)
  {
    match Ideal(w, DTLB, mode, va, false)
    case Hit(HostByte(h)) => Value(if 0 <= h < |w.mem| then w.mem[h] else 0)
    case Hit(DeviceByte(r, offset)) => Value(io(r, offset, 1) % 256)
    case Hit(Nowhere) => LoadAbort
    case NoMemory => Value(0xFF)
    case Raised(f) => LoadFault(f)
    case Crashed => LoadAbort
  }

  /** Bytes one after the other, big-endian; the first one that faults ends the load. */
  function IdealLoadBytes(w: World, mode: Mode, va: u32, n: nat, acc: nat, io: Devices): Loaded
    requires ValidWorld(w)
    decreases n
  {
    if n == 0 then Value(acc)
    else
      var b := IdealByte(w, mode, va, io);
      if b.Value? then IdealLoadBytes(w, mode, Advance(va, 1), n - 1, acc * 256 + b.v, io) else b
  }

  /** A load is decided by its first byte: memory is read byte by byte, a device is asked once, or
      twice for a doubleword, unmapped addresses read as all ones, and the exception is that
      of the translation; a doubleword off a word boundary is misaligned. */
  function IdealLoad(w: World, mode: Mode, va: u32, n: nat, io: Devices): Loaded
    requires ValidWorld(w)
  {
    var odd := n == 8 && va % 4 != 0;
    match Ideal(w, DTLB, mode, va, false)
    case Hit(HostByte(_)) => if odd then LoadFault(Misaligned(va)) else IdealLoadBytes(w, mode, va, n, 0, io)
    case Hit(DeviceByte(r, offset)) =>
      if odd then LoadFault(Misaligned(va))
      else if n == 8 then
        Value(io(r, offset, 4) % 0x1_0000_0000 * 0x1_0000_0000 + io(r, offset + 4, 4) % 0x1_0000_0000)
      else Value(io(r, offset, n) % Radix(n))
    case Hit(Nowhere) => LoadAbort
    case NoMemory => Value(Radix(n) - 1)
    case Raised(f) => LoadFault(f)
    case Crashed => LoadAbort
  }

  function IdealStoreByte(w: World, mode: Mode, va: u32, b: byte): Stored
    requires ValidWorld(w)
  {
    match Ideal(w, DTLB, mode, va, true)
    case Hit(HostByte(_)) => Done([])
    case Hit(DeviceByte(r, offset)) => Done([DeviceWrite(r, offset, b, 1)])
    case Hit(Nowhere) => StoreAbort
    case NoMemory => Done([])
    case Raised(f) => StoreFault(f)
    case Crashed => StoreAbort
  }

  function IdealStoreBytes(w: World, mode: Mode, va: u32, bytes: seq<byte>): Stored
    requires ValidWorld(w)
    decreases |bytes|
  {
    if bytes == [] then Done([])
    else
      var first := IdealStoreByte(w, mode, va, bytes[0]);
      if !first.Done? then first
      else
        var rest := IdealStoreBytes(w, mode, Advance(va, 1), bytes[1..]);
        if rest.Done? then Done(first.devices + rest.devices) else rest
  }

  function IdealStore(w: World, mode: Mode, va: u32, n: nat, v: nat): Stored
    requires ValidWorld(w)
  {
    var odd := n == 8 && va % 4 != 0;
    match Ideal(w, DTLB, mode, va, true)
    case Hit(HostByte(_)) => if odd then StoreFault(Misaligned(va)) else IdealStoreBytes(w, mode, va, BytesOf(v, n))
    case Hit(DeviceByte(r, offset)) =>
      if odd then StoreFault(Misaligned(va))
      else if n == 8 then
        Done([DeviceWrite(r, offset, v / 0x1_0000_0000 % 0x1_0000_0000, 4),
              DeviceWrite(r, offset + 4, v % 0x1_0000_0000, 4)])
      else Done([DeviceWrite(r, offset, v % Radix(n), n)])
    case Hit(Nowhere) => StoreAbort
    case NoMemory => Done([])
    case Raised(f) => StoreFault(f)
    case Crashed => StoreAbort
  }

  /** Host memory after the bytes up to the first that faults. */
  function IdealMemory(w: World, mem: Memory, mode: Mode, va: u32, bytes: seq<byte>): (r: Memory)
    requires ValidWorld(w)
    ensures |r| == |mem|
    decreases |bytes|
  {
    if bytes == [] || !IdealStoreByte(w, mode, va, bytes[0]).Done? then mem
    else
      var end := Ideal(w, DTLB, mode, va, true);
      var mem1 := if end.Hit? && end.target.HostByte? then Poke(mem, end.target.host, [bytes[0]]) else mem;
      IdealMemory(w, mem1, mode, Advance(va, 1), bytes[1..])
  }

  // ---------- Addresses within one access ----------

  lemma Near(va: u32, i: nat)
    requires i < 8
    ensures Apart(va, Advance(va, i))
  {
  }

  lemma AdvanceMore(va: u32, i: nat)
    ensures Advance(Advance(va, 1), i) == Advance(va, i + 1) && Advance(va, 0) == va
  {
  }

  /** From w to w' nothing is disturbed at the n bytes from va on. */
  ghost predicate SteadyFor(w: World, w': World, va: u32, n: nat)
    requires ValidWorld(w) && ValidWorld(w')
  {
    forall i: nat :: i < n ==> Steady(w, w', Advance(va, i))
  }

  lemma SteadyOn(w0: World, w: World, w1: World, va: u32, n: nat)
    requires ValidWorld(w0) && ValidWorld(w) && ValidWorld(w1) && 0 < n <= 8
    requires SteadyFor(w0, w, va, n) && forall va': u32 :: Apart(va, va') ==> Steady(w, w1, va')
    ensures SteadyFor(w0, w1, Advance(va, 1), n - 1)
  {
    hide Steady, ValidWorld, Apart;
    forall i: nat | i < n - 1
      ensures Steady(w0, w1, Advance(Advance(va, 1), i))
    {
      hide Advance;
      AdvanceMore(va, i);
      Near(va, i + 1);
      SteadyTwice(w0, w, w1, Advance(va, i + 1));
    }
  }

  lemma SteadyFirst(w0: World, w: World, va: u32, n: nat, mode: Mode, write: bool)
    requires ValidWorld(w0) && ValidWorld(w) && n > 0 && SteadyFor(w0, w, va, n)
    ensures Ideal(w, DTLB, mode, va, write) == Ideal(w0, DTLB, mode, va, write) && w == w0.(mem := w.mem, lru603 := w.lru603)
  {
    hide Steady, ValidWorld, Ideal;
    assert Steady(w0, w, Advance(va, 0));
    SteadyAnswer(w0, w, mode, va, write);
    SteadyModel(w0, w, va);
  }

  lemma SteadySelf(w: World, va: u32, n: nat)
    requires ValidWorld(w)
    ensures SteadyFor(w, w, va, n) && MemAgrees(w, w.mem, w.mem)
  {
    hide Steady, ValidWorld, Spared;
    forall i: nat | i < n
      ensures Steady(w, w, Advance(va, i))
    {
      SteadySame(w, Advance(va, i));
    }
  }

  // ---------- Loads ----------

  /** A machine in which every answer is the fresh one. */
  ghost predicate Fresh(m: Machine) {
    MachineOk(m, false) && Settled(m, DTLB)
  }

  lemma FreshFormed(m: Machine)
    requires Fresh(m)
    ensures WellFormed(m) && ValidWorld(m.w)
  {
    OkWellFormed(m, false);
  }

  /** The address path of a load. */
  lemma ReadKeeps(m: Machine, va: u32)
    requires Fresh(m)
    ensures WellFormed(m) && ValidWorld(m.w)
    ensures var m1 := Read(m, va).0;
            && Fresh(m1) && WellFormed(m1) && ValidWorld(m1.w) && Kin(m, m1)
            && (forall va': u32 :: Apart(va, va') ==> Steady(m.w, m1.w, va'))
            && MemAgrees(m.w, m.w.mem, m1.w.mem)
    ensures Read(m, va).1 == Ideal(m.w, DTLB, CurrentMode(m.msr, DTLB), va, false)
  {
    hide MachineOk, WellFormed, ValidWorld, Read, Settled, Ideal, WalkEffect, Steady, Preserves, Spared, Apart;
    FreshFormed(m);
    ReadRefines(m, va);
    ReadOk(m, va, false);
    ReadWorld(m, va);
    var m1 := Read(m, va).0;
    SettledStays(m, m1);
    FreshFormed(m1);
    WalkKeeps(m.w, m1.w, va, m.msr.pr, false);
  }

  lemma WalkKeeps(w: World, w1: World, va: u32, pr: bool, write: bool)
    requires ValidWorld(w) && ValidWorld(w1) && (w1 == w || w1 == WalkEffect(w, DTLB, va, pr, write))
    ensures forall va': u32 :: Apart(va, va') ==> Steady(w, w1, va')
    ensures MemAgrees(w, w.mem, w1.mem)
  {
    hide ValidWorld, WalkEffect, Steady, Spared, Apart;
    forall va': u32 | Apart(va, va')
      ensures Steady(w, w1, va')
    {
      if w1 == w {
        SteadySame(w, va');
      } else {
        WalkSteady(w, va, pr, write, va');
      }
    }
    forall h: nat | h < |w.mem| && Spared(w, h)
      ensures w1.mem[h] == w.mem[h]
    {
      WalkSpares(w, va, pr, write, h);
    }
  }

  /** The host bytes that a load of n bytes reaches are no bytes of the page table. */
  ghost predicate SparedReads(w: World, mode: Mode, va: u32, n: nat)
    requires ValidWorld(w)
  {
    forall i: nat :: i < n ==>
      var end := Ideal(w, DTLB, mode, Advance(va, i), false);
      end.Hit? && end.target.HostByte? ==> Spared(w, end.target.host)
  }

  /** Both give a value, or both end the same way. */
  predicate Alike(a: Loaded, b: Loaded) {
    if a.Value? then b.Value? else b == a
  }

  /** The byte loop ends as the fresh bytes do; and with the same value, unless it reads the
      page table, whose R and C bits its own walks set. */
  lemma {:induction false} LoadBytesAnswer(m: Machine, w0: World, va: u32, n: nat, acc: nat, acc0: nat, io: Devices)
    requires Fresh(m) && ValidWorld(w0) && WellFormed(m) && ValidWorld(m.w)
    requires n <= 8 && SteadyFor(w0, m.w, va, n) && MemAgrees(w0, w0.mem, m.w.mem)
    ensures var mode := CurrentMode(m.msr, DTLB);
            var (m', r) := LoadBytes(m, va, n, acc, io);
            && Alike(r, IdealLoadBytes(w0, mode, va, n, acc0, io))
            && (acc == acc0 && SparedReads(w0, mode, va, n) ==> r == IdealLoadBytes(w0, mode, va, n, acc0, io))
            && MemAgrees(w0, w0.mem, m'.w.mem) && Kin(m, m')
    decreases n
  {
    hide Fresh, WellFormed, ValidWorld, Read, LoadByte, Ideal, IdealByte, Steady, SteadyFor, Spared, Apart, Advance, MemAgrees, SparedReads, CurrentMode;
    if n > 0 {
      var mode := CurrentMode(m.msr, DTLB);
      ReadKeeps(m, va);
      var m1 := Read(m, va).0;
      SteadyFirst(w0, m.w, va, n, mode, false);
      MemChain(w0, w0.mem, m.w, m1.w.mem);
      ByteAlike(m, w0, va, io);
      var b := LoadByte(m, va, io).1;
      var b0 := IdealByte(w0, mode, va, io);
      if b.Value? {
        SteadyOn(w0, m.w, m1.w, va, n);
        SparedRest(w0, mode, va, n);
        LoadBytesAnswer(m1, w0, Advance(va, 1), n - 1, acc * 256 + b.v, acc0 * 256 + b0.v, io);
      }
    }
  }

  lemma ByteAlike(m: Machine, w0: World, va: u32, io: Devices)
    requires Fresh(m) && ValidWorld(w0) && WellFormed(m) && ValidWorld(m.w)
    requires Read(m, va).1 == Ideal(w0, DTLB, CurrentMode(m.msr, DTLB), va, false)
    requires MemAgrees(w0, w0.mem, Read(m, va).0.w.mem)
    ensures LoadByte(m, va, io).0 == Read(m, va).0
    ensures var b, b0 := LoadByte(m, va, io).1, IdealByte(w0, CurrentMode(m.msr, DTLB), va, io);
            Alike(b, b0) && (SparedReads(w0, CurrentMode(m.msr, DTLB), va, 1) ==> b == b0)
  {
    hide Fresh, WellFormed, ValidWorld, Read, Ideal, Spared;
    assert Radix(1) == 256;
    assert Advance(va, 0) == va;
  }

  lemma SparedRest(w: World, mode: Mode, va: u32, n: nat)
    requires ValidWorld(w) && n > 0
    ensures SparedReads(w, mode, va, n) ==> SparedReads(w, mode, va, 1) && SparedReads(w, mode, Advance(va, 1), n - 1)
  {
    hide ValidWorld, Ideal, Spared;
    if SparedReads(w, mode, va, n) {
      forall i: nat | i < n - 1
        ensures Advance(Advance(va, 1), i) == Advance(va, i + 1)
      {
        AdvanceMore(va, i);
      }
      hide Advance;
    }
  }

  /** What a step leaves agrees with what was there before, and so on back. */
  lemma MemChain(w0: World, mem0: Memory, w: World, mem: Memory)
    requires ValidWorld(w0) && ValidWorld(w) && w == w0.(mem := w.mem, lru603 := w.lru603)
    requires MemAgrees(w0, mem0, w.mem) && MemAgrees(w, w.mem, mem)
    ensures MemAgrees(w0, mem0, mem)
  {
    hide ValidWorld, Spared;
    SameTable(w0, w);
  }

  /** A load of any size at any address ends as the one without TLBs: with the same value, unless it
      reads the page table itself, or with the same exception, that of its first byte that
      faults. It changes no memory outside the page table and no register. */
  lemma LoadRefines(m: Machine, va: u32, n: nat, io: Devices)
    requires Fresh(m) && AccessSize(n)
    ensures WellFormed(m) && ValidWorld(m.w)
    ensures var mode := CurrentMode(m.msr, DTLB);
            var (m', r) := Load(m, va, n, io);
            && Alike(r, IdealLoad(m.w, mode, va, n, io))
            && (SparedReads(m.w, mode, va, n) ==> r == IdealLoad(m.w, mode, va, n, io))
            && MemAgrees(m.w, m.w.mem, m'.w.mem) && Kin(m, m')
  {
    hide Fresh, WellFormed, ValidWorld, Read, Ideal, SteadyFor, MemAgrees, SparedReads, LoadBytes, IdealLoadBytes, Misfit, Peek;
    ReadKeeps(m, va);
    SteadySelf(m.w, va, n);
    LoadBytesAnswer(m, m.w, va, n, 0, 0, io);
    FreshFold(m, va, n, io);
    if n == 1 {
      OneByte(m.w, CurrentMode(m.msr, DTLB), va, io);
      LoadSingle(m, va, io);
    } else {
      OddMisfit(va);
    }
  }

  lemma FreshFold(m: Machine, va: u32, n: nat, io: Devices)
    requires Fresh(m) && AccessSize(n)
    ensures WellFormed(m)
    ensures Read(m, va).1.Hit? && Read(m, va).1.target.HostByte? && !(n == 8 && va % 4 != 0) ==>
              Load(m, va, n, io) == LoadBytes(m, va, n, 0, io)
  {
    hide MachineOk, WellFormed, Read, Load, LoadBytes;
    FreshFormed(m);
    if !(n == 8 && va % 4 != 0) {
      LoadIsByteFold(m, va, n, io, false);
    }
  }

  lemma LoadSingle(m: Machine, va: u32, io: Devices)
    requires WellFormed(m)
    ensures Load(m, va, 1, io) == LoadBytes(m, va, 1, 0, io)
  {
    hide WellFormed, LoadByte;
    if LoadByte(m, va, io).1.Value? {
      LoadOne(m, va, io);
    }
  }

  /** A doubleword off a word boundary takes the unaligned path. */
  lemma OddMisfit(va: u32)
    ensures va % 4 != 0 ==> Misfit(va, 8)
  {
  }

  lemma OneByte(w: World, mode: Mode, va: u32, io: Devices)
    requires ValidWorld(w)
    ensures IdealLoad(w, mode, va, 1, io) == IdealLoadBytes(w, mode, va, 1, 0, io) == IdealByte(w, mode, va, io)
  {
    hide ValidWorld, Ideal;
    assert Radix(1) == 256;
    var b := IdealByte(w, mode, va, io);
    if b.Value? {
      assert IdealLoadBytes(w, mode, Advance(va, 1), 0, b.v, io) == b;
    }
  }

  // ---------- Stores ----------

  /** The address path of a store. */
  lemma WriteKeeps(m: Machine, va: u32)
    requires Fresh(m)
    ensures WellFormed(m) && ValidWorld(m.w)
    ensures var m1 := Write(m, va).0;
            && Fresh(m1) && WellFormed(m1) && ValidWorld(m1.w) && Kin(m, m1)
            && (forall va': u32 :: Apart(va, va') ==> Steady(m.w, m1.w, va'))
            && MemAgrees(m.w, m.w.mem, m1.w.mem)
    ensures Write(m, va).1 == Ideal(m.w, DTLB, CurrentMode(m.msr, DTLB), va, true)
  {
    hide MachineOk, WellFormed, ValidWorld, Write, Settled, Ideal, WalkEffect, Steady, Preserves, Spared, Apart;
    FreshFormed(m);
    WriteRefines(m, va);
    WriteOk(m, va, false);
    WriteWorld(m, va, false);
    var m1 := Write(m, va).0;
    SettledStays(m, m1);
    FreshFormed(m1);
    WalkKeeps(m.w, m1.w, va, m.msr.pr, true);
  }

  /** The host byte that a store of one byte reaches is no byte of the page table. */
  ghost predicate SparedWrite(w: World, mode: Mode, va: u32)
    requires ValidWorld(w)
  {
    var end := Ideal(w, DTLB, mode, va, true);
    end.Hit? && end.target.HostByte? ==> Spared(w, end.target.host)
  }

  ghost predicate SparedWrites(w: World, mode: Mode, va: u32, n: nat)
    requires ValidWorld(w)
  {
    forall i: nat :: i < n ==> SparedWrite(w, mode, Advance(va, i))
  }

  /** Host memory after the byte at an address is stored. */
  function ByteStored(w: World, mem: Memory, mode: Mode, va: u32, b: byte): (r: Memory)
    requires ValidWorld(w)
    ensures |r| == |mem|
  {
    var end := Ideal(w, DTLB, mode, va, true);
    if end.Hit? && end.target.HostByte? then Poke(mem, end.target.host, [b]) else mem
  }

  lemma PokeAgrees(w: World, mem0: Memory, mem: Memory, h: int, bytes: seq<byte>)
    requires ValidWorld(w) && MemAgrees(w, mem0, mem)
    ensures MemAgrees(w, Poke(mem0, h, bytes), Poke(mem, h, bytes))
  {
    hide ValidWorld, Spared;
  }

  /** Writing spared bytes leaves a fresh machine fresh. */
  lemma PokeKeeps(m: Machine, h: int, bytes: seq<byte>)
    requires Fresh(m) && WellFormed(m) && ValidWorld(m.w) && forall i: int :: h <= i < h + |bytes| ==> Spared(m.w, i)
    ensures var m1 := WithMemory(m, Poke(m.w.mem, h, bytes));
            && Fresh(m1) && WellFormed(m1) && ValidWorld(m1.w) && Kin(m, m1)
            && forall va: u32 :: Steady(m.w, m1.w, va)
  {
    hide MachineOk, WellFormed, ValidWorld, Quiet, Poke, Steady, Spared;
    QuietPoke(m.w, h, bytes);
    var mem := Poke(m.w.mem, h, bytes);
    PokeOk(m, mem, false);
    var m1 := WithMemory(m, mem);
    FreshFormed(m1);
    forall va: u32
      ensures Steady(m.w, m1.w, va)
    {
      QuietSteady(m.w, mem, va);
    }
  }

  lemma StoreByteKeeps(m: Machine, va: u32, b: byte)
    requires Fresh(m) && WellFormed(m) && ValidWorld(m.w) && SparedWrite(m.w, CurrentMode(m.msr, DTLB), va)
    ensures var mode := CurrentMode(m.msr, DTLB);
            var (m2, r) := StoreByte(m, va, b);
            && Fresh(m2) && WellFormed(m2) && ValidWorld(m2.w) && Kin(m, m2)
            && (forall va': u32 :: Apart(va, va') ==> Steady(m.w, m2.w, va'))
            && MemAgrees(m.w, ByteStored(m.w, m.w.mem, mode, va, b), m2.w.mem)
            && r == IdealStoreByte(m.w, mode, va, b)
  {
    hide Fresh, WellFormed, ValidWorld, Write, Ideal, Steady, Poke, Spared, Apart, MemAgrees;
    WriteKeeps(m, va);
    var (m1, end) := Write(m, va);
    if end.Hit? && end.target.HostByte? {
      var h := end.target.host;
      SameTable(m.w, m1.w);
      PokeKeeps(m1, h, [b]);
      var m2 := WithMemory(m1, Poke(m1.w.mem, h, [b]));
      forall va': u32 | Apart(va, va')
        ensures Steady(m.w, m2.w, va')
      {
        SteadyTwice(m.w, m1.w, m2.w, va');
      }
      PokeAgrees(m.w, m.w.mem, m1.w.mem, h, [b]);
    }
  }

  lemma SparedOn(w0: World, w: World, mode: Mode, va: u32, n: nat)
    requires ValidWorld(w0) && ValidWorld(w) && n > 0 && SteadyFor(w0, w, va, n) && SparedWrites(w0, mode, va, n)
    ensures SparedWrite(w, mode, va) && SparedWrites(w0, mode, Advance(va, 1), n - 1)
  {
    hide Spared, ValidWorld, Ideal, SteadyFor;
    SteadyFirst(w0, w, va, n, mode, true);
    SameTable(w0, w);
    assert SparedWrite(w0, mode, Advance(va, 0));
    AdvanceMore(va, 0);
    forall i: nat | i < n - 1
      ensures SparedWrite(w0, mode, Advance(Advance(va, 1), i))
    {
      hide Advance;
      AdvanceMore(va, i);
    }
  }

  lemma StoredChain(w0: World, mem0: Memory, w: World, mem: Memory, mode: Mode, va: u32, b: byte)
    requires ValidWorld(w0) && ValidWorld(w) && w == w0.(mem := w.mem, lru603 := w.lru603)
    requires Ideal(w, DTLB, mode, va, true) == Ideal(w0, DTLB, mode, va, true)
    requires MemAgrees(w0, mem0, w.mem) && MemAgrees(w, ByteStored(w, w.mem, mode, va, b), mem)
    ensures MemAgrees(w0, ByteStored(w0, mem0, mode, va, b), mem)
  {
    hide ValidWorld, Spared, Ideal, Poke;
    SameTable(w0, w);
    var end := Ideal(w, DTLB, mode, va, true);
    if end.Hit? && end.target.HostByte? {
      PokeAgrees(w0, mem0, w.mem, end.target.host, [b]);
    }
  }

  /** The byte loop of a store outside the page table ends as the fresh bytes do, and leaves the
      memory they leave. */
  lemma {:induction false} StoreBytesAnswer(m: Machine, w0: World, mem0: Memory, va: u32, bytes: seq<byte>)
    requires Fresh(m) && ValidWorld(w0) && WellFormed(m) && ValidWorld(m.w) && |bytes| <= 8
    requires SteadyFor(w0, m.w, va, |bytes|) && MemAgrees(w0, mem0, m.w.mem) && m.w == w0.(mem := m.w.mem, lru603 := m.w.lru603)
    requires SparedWrites(w0, CurrentMode(m.msr, DTLB), va, |bytes|)
    ensures var mode := CurrentMode(m.msr, DTLB);
            var (m', r) := StoreBytes(m, va, bytes);
            && r == IdealStoreBytes(w0, mode, va, bytes)
            && MemAgrees(w0, IdealMemory(w0, mem0, mode, va, bytes), m'.w.mem) && Kin(m, m')
    decreases |bytes|
  {
    hide Fresh, WellFormed, ValidWorld, StoreByte, Ideal, Steady, SteadyFor, Spared, Apart, Advance, MemAgrees, SparedWrite, SparedWrites, Poke;
    if bytes != [] {
      var mode := CurrentMode(m.msr, DTLB);
      SteadyFirst(w0, m.w, va, |bytes|, mode, true);
      SparedOn(w0, m.w, mode, va, |bytes|);
      StoreByteKeeps(m, va, bytes[0]);
      var (m1, first) := StoreByte(m, va, bytes[0]);
      assert first == IdealStoreByte(w0, mode, va, bytes[0]);
      StoredChain(w0, mem0, m.w, m1.w.mem, mode, va, bytes[0]);
      if first.Done? {
        SteadyOn(w0, m.w, m1.w, va, |bytes|);
        StoreBytesAnswer(m1, w0, ByteStored(w0, mem0, mode, va, bytes[0]), Advance(va, 1), bytes[1..]);
      } else {
        FaultStoresNothing(w0, mem0, mode, va, bytes[0]);
      }
    }
  }

  lemma FaultStoresNothing(w: World, mem: Memory, mode: Mode, va: u32, b: byte)
    requires ValidWorld(w) && !IdealStoreByte(w, mode, va, b).Done?
    ensures ByteStored(w, mem, mode, va, b) == mem
  {
    hide ValidWorld, Ideal;
  }

  // ---------- Stores within a page ----------

  /** Within a page of host memory consecutive addresses reach consecutive bytes. */
  lemma IdealAlong(w: World, mode: Mode, va: u32, va': u32, h: int)
    requires ValidWorld(w) && PageNumber(va) == PageNumber(va') && Ideal(w, DTLB, mode, va, true) == Hit(HostByte(h))
    ensures Ideal(w, DTLB, mode, va', true) == Hit(HostByte(h + va' - va))
  {
    hide Refill, Reach, ValidWorld;
    RefillUniform(w, DTLB, mode, va, va', true);
    FillReaches(w, DTLB, mode, va, va, true);
    FillReaches(w, DTLB, mode, va, va', true);
    FillReaches(w, DTLB, mode, va', va', true);
  }

  lemma {:induction false} IdealInPage(w: World, mem: Memory, mode: Mode, va: u32, bytes: seq<byte>, h: int)
    requires ValidWorld(w) && PageOffset(va) + |bytes| <= 4096 && InHost(mem, h, |bytes|)
    requires bytes != [] ==> Ideal(w, DTLB, mode, va, true) == Hit(HostByte(h))
    ensures IdealStoreBytes(w, mode, va, bytes) == Done([]) && IdealMemory(w, mem, mode, va, bytes) == Poke(mem, h, bytes)
    decreases |bytes|
  {
    hide Ideal, ValidWorld, Advance, PageOffset, Poke;
    if bytes == [] {
      PokeNothing(mem, h);
    } else {
      var mem1 := Poke(mem, h, [bytes[0]]);
      if |bytes| > 1 {
        StepsInPage(va);
        SamePage(va, Advance(va, 1));
        IdealAlong(w, mode, va, Advance(va, 1), h);
        OffsetAlong(va, |bytes|);
      } else {
        assert PageOffset(Advance(va, 1)) + 0 <= 4096 by { OffsetBelow(Advance(va, 1)); }
      }
      IdealInPage(w, mem1, mode, Advance(va, 1), bytes[1..], h + 1);
      PokeCons(mem, h, bytes);
    }
  }

  lemma OffsetAlong(va: u32, n: nat)
    requires n > 1 && PageOffset(va) + n <= 4096
    ensures PageOffset(Advance(va, 1)) + (n - 1) <= 4096
  {
    StepsInPage(va);
  }

  lemma PokeNothing(mem: Memory, h: int)
    requires InHost(mem, h, 0)
    ensures Poke(mem, h, []) == mem
  {
  }

  /** A store that stays within its page of host memory always completes. */
  lemma StoreInPage(m: Machine, va: u32, n: nat, v: nat, h: int)
    requires Fresh(m) && AccessSize(n) && !(n == 8 && va % 4 != 0) && PageOffset(va) + n <= 4096
    requires WellFormed(m) && Write(m, va).1 == Hit(HostByte(h))
    ensures var m1 := Write(m, va).0;
            && WellFormed(m1) && InHost(m1.w.mem, h, n) && Cached(m1, va, h - va, true)
            && Store(m, va, n, v) == (WithMemory(m1, Poke(m1.w.mem, h, BytesOf(v, n))), Done([]))
  {
    hide MachineOk, WellFormed, Write, Cached, Store, StoreBytes, BytesOf, Poke, PageOffset, Settled;
    var m1 := Write(m, va).0;
    WriteCaches(m, va, false);
    CachedInHost(m1, va, h - va, true, n, false);
    CrossingStore(m, va, n, v, false);
    StoreAgain(m, va, BytesOf(v, n), h - va);
    StorePage(m1, va, BytesOf(v, n), h - va);
  }

  /** A store of any size at any address ends as the one without TLBs: with the same device writes
      or the same exception, that of its first byte that faults; and outside the page
      table memory is what the bytes before it leave. Only a store that crosses into a
      second page must not write the page table on the first. */
  lemma StoreRefines(m: Machine, va: u32, n: nat, v: nat)
    requires Fresh(m) && WellFormed(m) && ValidWorld(m.w) && AccessSize(n)
    requires PageOffset(va) + n > 4096 ==> SparedWrites(m.w, CurrentMode(m.msr, DTLB), va, n)
    ensures var mode := CurrentMode(m.msr, DTLB);
            var (m', r) := Store(m, va, n, v);
            && r == IdealStore(m.w, mode, va, n, v) && Kin(m, m')
            && MemAgrees(m.w, if StoresBytes(m.w, mode, va, n) then IdealMemory(m.w, m.w.mem, mode, va, BytesOf(v, n)) else m.w.mem,
                         m'.w.mem)
  {
    hide Fresh, WellFormed, ValidWorld, Write, Ideal, SteadyFor, MemAgrees, SparedWrites, Store, StoreBytes, IdealStoreBytes, IdealMemory, BytesOf, PageOffset;
    var mode := CurrentMode(m.msr, DTLB);
    WriteKeeps(m, va);
    if StoresBytes(m.w, mode, va, n) {
      var h := Write(m, va).1.target.host;
      if PageOffset(va) + n <= 4096 {
        StoreInPage(m, va, n, v, h);
        var m1 := Write(m, va).0;
        assert |m1.w.mem| == |m.w.mem| by { AgreedSize(m.w, m.w.mem, m1.w.mem); }
        IdealInPage(m.w, m.w.mem, mode, va, BytesOf(v, n), h);
        PokeAgrees(m.w, m.w.mem, m1.w.mem, h, BytesOf(v, n));
      } else {
        SteadySelf(m.w, va, n);
        StoreBytesAnswer(m, m.w, m.w.mem, va, BytesOf(v, n));
        FreshStoreFold(m, va, n, v);
      }
    } else {
      StoreElse(m, va, n, v);
    }
  }

  lemma AgreedSize(w: World, mem0: Memory, mem: Memory)
    requires ValidWorld(w) && MemAgrees(w, mem0, mem)
    ensures |mem| == |mem0|
  {
  }

  /** The store goes to memory: its first byte is host memory and it is not misaligned. */
  predicate StoresBytes(w: World, mode: Mode, va: u32, n: nat)
    requires ValidWorld(w)
  {
    var end := Ideal(w, DTLB, mode, va, true);
    end.Hit? && end.target.HostByte? && !(n == 8 && va % 4 != 0)
  }

  lemma FreshStoreFold(m: Machine, va: u32, n: nat, v: nat)
    requires Fresh(m) && AccessSize(n) && !(n == 8 && va % 4 != 0) && WellFormed(m)
    requires Write(m, va).1.Hit? && Write(m, va).1.target.HostByte?
    ensures Store(m, va, n, v) == StoreBytes(m, va, BytesOf(v, n))
  {
    hide MachineOk, WellFormed, Write, Store, StoreBytes, BytesOf;
    StoreIsByteFold(m, va, n, v, false);
  }

  /** Every other store ends with its address path. */
  lemma StoreElse(m: Machine, va: u32, n: nat, v: nat)
    requires Fresh(m) && WellFormed(m) && ValidWorld(m.w) && AccessSize(n) && !StoresBytes(m.w, CurrentMode(m.msr, DTLB), va, n)
    requires Write(m, va).1 == Ideal(m.w, DTLB, CurrentMode(m.msr, DTLB), va, true)
    ensures Store(m, va, n, v) == (Write(m, va).0, IdealStore(m.w, CurrentMode(m.msr, DTLB), va, n, v))
  {
    hide Fresh, WellFormed, ValidWorld, Write, Ideal, StoreBytes, BytesOf, Poke;
    OddMisfit(va);
    assert Radix(1) == 256;
  }

  // ---------- dcbz ----------

  function Zeros(n: nat): (z: seq<byte>)
    ensures |z| == n
  {
    seq(n, _ => 0)
  }

  lemma ZeroBytes()
    ensures BytesOf(0, 8) == Zeros(8)
  {
    hide Radix;
    ZeroBytesOf(8);
  }

  lemma {:induction false} ZeroBytesOf(n: nat)
    ensures BytesOf(0, n) == Zeros(n)
  {
    if n > 0 {
      ZeroBytesOf(n - 1);
      NoDigits(Radix(n - 1));
    }
  }

  lemma NoDigits(r: nat)
    requires r > 0
    ensures 0 / r % 256 == 0
  {
  }

  lemma ZeroSplit(mem: Memory, h: int, n: nat)
    requires n >= 8 && InHost(mem, h, n)
    ensures Poke(Poke(mem, h, Zeros(8)), h + 8, Zeros(n - 8)) == Poke(mem, h, Zeros(n))
  {
    var a, b := Poke(Poke(mem, h, Zeros(8)), h + 8, Zeros(n - 8)), Poke(mem, h, Zeros(n));
    assert forall i: nat :: i < |mem| ==> a[i] == b[i];
  }

  lemma EightOn(va: u32, count: nat)
    requires va % 8 == 0 && count > 1 && PageOffset(va) + 8 * count <= 4096
    ensures Advance(va, 8) == va + 8 && PageTag(Advance(va, 8)) == PageTag(va)
    ensures PageOffset(Advance(va, 8)) + 8 * (count - 1) <= 4096 && Advance(va, 8) % 8 == 0
    ensures PageNumber(Advance(va, 8)) == PageNumber(va)
  {
  }

  lemma Aligned8(va: u32)
    requires va % 8 == 0
    ensures va % 4 == 0 && !Misfit(va, 8)
  {
  }

  /** Doublewords of zeros through a cached page of memory. */
  lemma {:induction false} ZeroCached(m: Machine, va: u32, count: nat, h: int)
    requires WellFormed(m) && va % 8 == 0 && PageOffset(va) + 8 * count <= 4096 && InHost(m.w.mem, h, 8 * count)
    requires count > 0 ==> Cached(m, va, h - va, true)
    ensures ZeroBlock(m, va, count) == (WithMemory(m, Poke(m.w.mem, h, Zeros(8 * count))), Done([]))
    decreases count
  {
    hide WellFormed, Cached, Write, PageOffset, Advance, Poke, Misfit;
    if count == 0 {
      assert Zeros(8 * count) == [];
      PokeNothing(m.w.mem, h);
      assert WithMemory(m, m.w.mem) == m;
    } else {
      CachedWrite(m, va, h - va);
      ZeroBytes();
      Aligned8(va);
      var m1 := WithMemory(m, Poke(m.w.mem, h, Zeros(8)));
      hide BytesOf;
      assert Store(m, va, 8, 0) == (m1, Done([]));
      CachedElsewhere(m, m1.w.mem, va, h - va, true);
      ZeroSplit(m.w.mem, h, 8 * count);
      if count > 1 {
        EightOn(va, count);
        CachedPage(m1, va, Advance(va, 8), h - va, true);
      }
      NextAligned(va, count);
      ZeroCached(m1, Advance(va, 8), count - 1, h + 8);
      var none: seq<DeviceWrite> := [];
      assert none + none == none;
    }
  }

  lemma NextAligned(va: u32, count: nat)
    requires va % 8 == 0 && count > 0 && PageOffset(va) + 8 * count <= 4096
    ensures Advance(va, 8) % 8 == 0 && PageOffset(Advance(va, 8)) + 8 * (count - 1) <= 4096
  {
    if count > 1 {
      EightOn(va, count);
    } else {
      OffsetBelow(Advance(va, 8));
      assert Advance(va, 8) % 8 == 0;
    }
    hide Advance;
  }

  /** A block of host memory is zeroed. */
  lemma ZeroHost(m: Machine, va: u32, h: int)
    requires Fresh(m) && WellFormed(m) && va % 32 == 0 && Write(m, va).1 == Hit(HostByte(h))
    ensures var m1 := Write(m, va).0;
            && WellFormed(m1) && InHost(m1.w.mem, h, 32)
            && ZeroBlock(m, va, 4) == (WithMemory(m1, Poke(m1.w.mem, h, Zeros(32))), Done([]))
  {
    hide MachineOk, WellFormed, Write, Cached, Store, BytesOf, Poke, Settled, PageOffset, Advance;
    Block32(va);
    StoreInPage(m, va, 8, 0, h);
    ZeroBytes();
    var m1 := Write(m, va).0;
    FreshHost(m, va, h);
    var m2 := WithMemory(m1, Poke(m1.w.mem, h, Zeros(8)));
    CachedElsewhere(m1, m2.w.mem, va, h - va, true);
    EightOn(va, 4);
    CachedPage(m2, va, Advance(va, 8), h - va, true);
    ZeroCached(m2, Advance(va, 8), 3, h + 8);
    ZeroSplit(m1.w.mem, h, 32);
  }

  lemma Block32(va: u32)
    requires va % 32 == 0
    ensures va % 8 == 0 && va % 4 == 0 && PageOffset(va) + 32 <= 4096
  {
    var lines := va / 32;
    QuotientUnique(va, 8, 4 * lines, 0);
    QuotientUnique(va, 4, 8 * lines, 0);
    QuotientUnique(va, 4096, lines / 128, 32 * (lines % 128));
  }

  lemma FreshHost(m: Machine, va: u32, h: int)
    requires Fresh(m) && WellFormed(m) && va % 32 == 0 && Write(m, va).1 == Hit(HostByte(h))
    ensures WellFormed(Write(m, va).0) && InHost(Write(m, va).0.w.mem, h, 32)
  {
    hide MachineOk, WellFormed, Write, Cached, Settled, PageOffset;
    Block32(va);
    WriteCaches(m, va, false);
    CachedInHost(Write(m, va).0, va, h - va, true, 32, false);
  }

  lemma UnmappedAlong(w: World, mode: Mode, va: u32, va': u32)
    requires ValidWorld(w) && PageNumber(va) == PageNumber(va') && Ideal(w, DTLB, mode, va, true) == NoMemory
    ensures Ideal(w, DTLB, mode, va', true) == NoMemory
  {
    hide Refill, Reach, ValidWorld;
    RefillUniform(w, DTLB, mode, va, va', true);
  }

  /** On an unmapped page the block of stores does nothing. */
  lemma {:induction false} ZeroUnmapped(m: Machine, va: u32, count: nat)
    requires Fresh(m) && WellFormed(m) && ValidWorld(m.w) && va % 8 == 0 && PageOffset(va) + 8 * count <= 4096
    requires count > 0 ==> Ideal(m.w, DTLB, CurrentMode(m.msr, DTLB), va, true) == NoMemory
    ensures ZeroBlock(m, va, count).1 == Done([]) && MemAgrees(m.w, m.w.mem, ZeroBlock(m, va, count).0.w.mem)
    decreases count
  {
    hide Fresh, WellFormed, ValidWorld, Write, Store, Ideal, PageOffset, Advance, Steady, Apart, Spared;
    if count > 0 {
      var mode := CurrentMode(m.msr, DTLB);
      WriteKeeps(m, va);
      StoreElse(m, va, 8, 0);
      Aligned8(va);
      var m1 := Write(m, va).0;
      NextAligned(va, count);
      if count > 1 {
        EightOn(va, count);
        UnmappedAlong(m.w, mode, va, Advance(va, 8));
        assert Apart(va, Advance(va, 8)) by { SamePageApart(va, Advance(va, 8)); }
        SteadyAnswer(m.w, m1.w, mode, Advance(va, 8), true);
      }
      ZeroUnmapped(m1, Advance(va, 8), count - 1);
      SameTable(m.w, m1.w);
      MemChain(m.w, m.w.mem, m1.w, ZeroBlock(m1, Advance(va, 8), count - 1).0.w.mem);
    }
  }

  lemma SamePageApart(va: u32, va': u32)
    requires PageNumber(va) == PageNumber(va')
    ensures Apart(va, va')
  {
  }

  /** How the block of stores ends: as its first store does. */
  lemma ZeroAnswer(m: Machine, va: u32)
    requires Fresh(m) && WellFormed(m) && ValidWorld(m.w) && va % 32 == 0
    requires !(Ideal(m.w, DTLB, CurrentMode(m.msr, DTLB), va, true).Hit? &&
               Ideal(m.w, DTLB, CurrentMode(m.msr, DTLB), va, true).target.DeviceByte?)
    ensures ZeroBlock(m, va, 4).1 == ZeroEnd(Ideal(m.w, DTLB, CurrentMode(m.msr, DTLB), va, true))
    ensures MemAgrees(m.w, Zeroed(m.w.mem, Ideal(m.w, DTLB, CurrentMode(m.msr, DTLB), va, true)), ZeroBlock(m, va, 4).0.w.mem)
  {
    hide Fresh, WellFormed, ValidWorld, Write, Store, Ideal, PageOffset, Advance, Spared, Steady, Apart, Poke;
    var end := Ideal(m.w, DTLB, CurrentMode(m.msr, DTLB), va, true);
    WriteKeeps(m, va);
    Block32(va);
    if end.Hit? && end.target.HostByte? {
      ZeroHost(m, va, end.target.host);
      PokeAgrees(m.w, m.w.mem, Write(m, va).0.w.mem, end.target.host, Zeros(32));
    } else if end.NoMemory? {
      ZeroUnmapped(m, va, 4);
    } else {
      StoreElse(m, va, 8, 0);
    }
  }

  /** How dcbz ends, from the answer of a fresh translation for a store: a device page is
      checked for the right to write and not written. */
  function ZeroEnd(end: Outcome): Stored {
    match end
    case Hit(Nowhere) => StoreAbort
    case Hit(_) => Done([])
    case NoMemory => Done([])
    case Raised(f) => StoreFault(f)
    case Crashed => StoreAbort
  }

  function Zeroed(mem: Memory, end: Outcome): (r: Memory)
    ensures |r| == |mem|
  {
    if end.Hit? && end.target.HostByte? then Poke(mem, end.target.host, Zeros(32)) else mem
  }

  /** The lookup that precedes the stores of dcbz. */
  lemma LookupKeeps(m: Machine, va: u32)
    requires Fresh(m) && WellFormed(m) && ValidWorld(m.w) && m.dtlb.slots[5 * SetAt(m, DTLB, va)].tag != PageTag(va)
    ensures var m1 := LookupOrRefill(m, DTLB, va, true).0;
            && Fresh(m1) && WellFormed(m1) && ValidWorld(m1.w) && m1.msr == m.msr
            && m1.w == m.w.(mem := m1.w.mem, lru603 := m1.w.lru603)
            && (forall va': u32 :: Apart(va, va') ==> Steady(m.w, m1.w, va'))
            && MemAgrees(m.w, m.w.mem, m1.w.mem)
  {
    hide MachineOk, WellFormed, ValidWorld, Settled, WalkEffect, Steady, Preserves, Spared, Apart, PageTag, SetFor, RefillMiss, FindWay, TouchWay, LookupOrRefill;
    LookupOrRefillOk(m, DTLB, va, true, false);
    var m1 := LookupOrRefill(m, DTLB, va, true).0;
    SettledStays(m, m1);
    FreshFormed(m1);
    LookupWorld(m, va);
    WalkKeeps(m.w, m1.w, va, m.msr.pr, true);
  }

  lemma LookupWorld(m: Machine, va: u32)
    requires WellFormed(m) && ValidWorld(m.w)
    ensures var w := LookupOrRefill(m, DTLB, va, true).0.w;
            w == m.w || w == WalkEffect(m.w, DTLB, va, m.msr.pr, true)
  {
    hide WellFormed, ValidWorld, PageTag, SetFor, FindWay, TouchWay, TranslateEffect, WalkEffect, Refill, Install, VictimWay;
    RefillWorld(m, va);
  }

  /** A store answers from the entry that the lookup names, or as the lookup failed. */
  lemma EntryAnswers(m: Machine, va: u32)
    requires Fresh(m) && WellFormed(m) && ValidWorld(m.w) && m.dtlb.slots[5 * SetAt(m, DTLB, va)].tag != PageTag(va)
    ensures var (m1, second) := LookupOrRefill(m, DTLB, va, true);
            && WellFormed(m1)
            && match second
               case Missed(end) => Write(m, va).1 == end && !end.Hit?
               case InWay(way) =>
                 var e := m1.dtlb.slots[5 * SetAt(m, DTLB, va) + 1 + way];
                 Write(m, va).1 == match Prepare(m1, e, va).1 case Refuse(end) => end case _ => Hit(HitTarget(e.backing, va, true))
  {
    hide Fresh, WellFormed, ValidWorld, LookupOrRefill, FinishWrite, Prepare, PageTag, SetFor;
    var (m1, second) := LookupOrRefill(m, DTLB, va, true);
    if second.InWay? {
      FinishTarget(m1, second.way, va);
    }
  }

  lemma RefusesWith(m: Machine, e: Entry, va: u32)
    requires WellFormed(m)
    ensures Prepare(m, e, va).1.Refuse? ==> Prepare(m, e, va).1.end.Raised? || Prepare(m, e, va).1.end.Crashed?
  {
    hide WellFormed, PageWalk, WalkEffect;
  }

  lemma CheckAnswers(m: Machine, i: nat, va: u32)
    requires Fresh(m) && WellFormed(m) && ValidWorld(m.w) && i < SLOTS && |m.dtlb.slots| == SLOTS
    ensures CheckDevice(m, i, va).1 ==
            match Prepare(m, m.dtlb.slots[i], va).1
            case Refuse(Raised(f)) => StoreFault(f)
            case Refuse(_) => StoreAbort
            case _ => Done([])
    ensures MemAgrees(m.w, m.w.mem, CheckDevice(m, i, va).0.w.mem)
  {
    hide Fresh, WellFormed, ValidWorld, Prepare, WalkEffect, Steady, Apart, MemAgrees, MarkSlot;
    PrepareWorld(m, m.dtlb.slots[i], va);
    WalkKeeps(m.w, Prepare(m, m.dtlb.slots[i], va).0, va, m.msr.pr, true);
  }

  /** Once a secondary entry serves the block. */
  lemma DcbzThrough(m: Machine, m1: Machine, va: u32, i: nat, end: Outcome)
    requires Fresh(m) && WellFormed(m) && ValidWorld(m.w) && Fresh(m1) && WellFormed(m1) && ValidWorld(m1.w)
    requires va % 32 == 0 && i < SLOTS && |m1.dtlb.slots| == SLOTS
    requires m1.w == m.w.(mem := m1.w.mem, lru603 := m1.w.lru603) && MemAgrees(m.w, m.w.mem, m1.w.mem)
    requires Ideal(m1.w, DTLB, CurrentMode(m1.msr, DTLB), va, true) == end
    requires var e := m1.dtlb.slots[i];
             end == match Prepare(m1, e, va).1 case Refuse(f) => f case _ => Hit(HitTarget(e.backing, va, true))
    ensures var r := if m1.dtlb.slots[i].backing.Memory? then ZeroBlock(m1, va, 4) else CheckDevice(m1, i, va);
            r.1 == ZeroEnd(end) && MemAgrees(m.w, Zeroed(m.w.mem, end), r.0.w.mem)
  {
    hide Fresh, WellFormed, ValidWorld, Ideal, ZeroBlock, CheckDevice, Prepare, MemAgrees, Zeroed;
    RefusesWith(m1, m1.dtlb.slots[i], va);
    if m1.dtlb.slots[i].backing.Memory? {
      ZeroAnswer(m1, va);
      ZeroedChain(m.w, m1.w, ZeroBlock(m1, va, 4).0.w.mem, end);
    } else {
      CheckAnswers(m1, i, va);
      MemChain(m.w, m.w.mem, m1.w, CheckDevice(m1, i, va).0.w.mem);
      NotZeroed(m.w.mem, end);
    }
  }

  /** A block on a page that the primary level does not hold. */
  lemma DcbzLooked(m: Machine, va: u32)
    requires Fresh(m) && WellFormed(m) && ValidWorld(m.w) && va % 32 == 0
    requires m.dtlb.slots[5 * SetAt(m, DTLB, va)].tag != PageTag(va)
    ensures ZeroesAs(m, va, Dcbz(m, va))
  {
    hide Fresh, WellFormed, ValidWorld, Write, Ideal, ZeroBlock, CheckDevice, Prepare, LookupOrRefill, PageTag, SetFor, Steady, Apart, MemAgrees, Zeroed, CurrentMode;
    var mode := CurrentMode(m.msr, DTLB);
    var i := 5 * SetAt(m, DTLB, va);
    WriteKeeps(m, va);
    LookupKeeps(m, va);
    EntryAnswers(m, va);
    var end := Ideal(m.w, DTLB, mode, va, true);
    var (m1, second) := LookupOrRefill(m, DTLB, va, true);
    DataSlots(m1);
    SamePageApart(va, va);
    SteadyAnswer(m.w, m1.w, mode, va, true);
    match second {
      case InWay(way) => DcbzThrough(m, m1, va, i + 1 + way, end);
      case Missed(_) =>
        if end.NoMemory? {
          ZeroAnswer(m1, va);
          ZeroedChain(m.w, m1.w, ZeroBlock(m1, va, 4).0.w.mem, end);
        } else {
          NotZeroed(m.w.mem, end);
        }
    }
  }

  /** The block ends and leaves memory as the fresh translation for a store says. */
  ghost predicate ZeroesAs(m: Machine, va: u32, r: (Machine, Stored))
    requires ValidWorld(m.w)
  {
    var end := Ideal(m.w, DTLB, CurrentMode(m.msr, DTLB), va, true);
    r.1 == ZeroEnd(end) && MemAgrees(m.w, Zeroed(m.w.mem, end), r.0.w.mem)
  }

  /** dcbz of an aligned block ends as a fresh translation for a store of its address says: it
      zeroes 32 bytes of host memory, leaves devices and unmapped addresses alone, or raises
      the exception. Nothing else outside the page table changes. */
  lemma DcbzRefines(m: Machine, va: u32)
    requires Fresh(m) && WellFormed(m) && ValidWorld(m.w) && va % 32 == 0
    ensures ZeroesAs(m, va, Dcbz(m, va)) && Kin(m, Dcbz(m, va).0)
  {
    DcbzKin(m, va);
    DataSlots(m);
    hide Fresh, WellFormed, ValidWorld, Write, Ideal, ZeroBlock, CheckDevice, LookupOrRefill, PageTag, SetFor, Steady, Apart, MemAgrees, Kin, Zeroed;
    if m.dtlb.slots[5 * SetAt(m, DTLB, va)].tag == PageTag(va) {
      WriteKeeps(m, va);
      PrimaryEnds(m, va);
      ZeroAnswer(m, va);
    } else {
      DcbzLooked(m, va);
    }
  }

  lemma NotZeroed(mem: Memory, end: Outcome)
    ensures !(end.Hit? && end.target.HostByte?) ==> Zeroed(mem, end) == mem
  {
  }

  lemma ZeroedChain(w: World, w1: World, mem: Memory, end: Outcome)
    requires ValidWorld(w) && ValidWorld(w1) && w1 == w.(mem := w1.mem, lru603 := w1.lru603)
    requires MemAgrees(w, w.mem, w1.mem) && MemAgrees(w1, Zeroed(w1.mem, end), mem)
    ensures MemAgrees(w, Zeroed(w.mem, end), mem)
  {
    hide ValidWorld, Spared, Poke;
    SameTable(w, w1);
    if end.Hit? && end.target.HostByte? {
      PokeAgrees(w, w.mem, w1.mem, end.target.host, Zeros(32));
    }
  }

  lemma DataSlots(m: Machine)
    requires WellFormed(m)
    ensures |m.dtlb.slots| == SLOTS
  {
  }

  lemma PrimaryEnds(m: Machine, va: u32)
    requires Fresh(m) && WellFormed(m) && m.dtlb.slots[5 * SetAt(m, DTLB, va)].tag == PageTag(va)
    ensures m.dtlb.slots[5 * SetAt(m, DTLB, va)].backing.Memory?
    ensures !(Write(m, va).1.Hit? && Write(m, va).1.target.DeviceByte?)
  {
    PrimaryIsMemory(m, DTLB, va);
    hide MachineOk, WellFormed, Prepare, MarkBoth, PageTag, SetFor;
    RefusesWith(m, m.dtlb.slots[5 * SetAt(m, DTLB, va)], va);
  }

  lemma DcbzKin(m: Machine, va: u32)
    requires Fresh(m) && WellFormed(m)
    ensures Kin(m, Dcbz(m, va).0)
  {
    hide MachineOk, WellFormed, Dcbz;
    DcbzOk(m, va, false);
  }

  // ---------- How a run goes on ----------

  /** The state in which an exception handler starts: translation off, no privilege lowered, and
      nothing pending. */
  predicate InHandler(m: Machine) {
    m.msr == Msr(false, false, false) && m.actions == [] && m.itlb.pending == NOTHING && m.dtlb.pending == NOTHING
  }

  /** Entering a handler changes nothing else of the machine's world. */
  lemma HandlerEntered(m: Machine, stale: bool)
    requires MachineOk(m, stale)
    ensures WellFormed(m) && InHandler(TakeException(m)) && TakeException(m).w == m.w
  {
    hide MachineOk, ContextSync;
    TakeExceptionOk(m, stale);
  }

  lemma EndedAt(m: Machine, faulted: bool, stale: bool)
    requires MachineOk(m, stale) && WellFormed(m)
    ensures Ended(m, faulted).w == m.w
    ensures if faulted then InHandler(Ended(m, faulted)) else Ended(m, faulted) == m
  {
    hide MachineOk, WellFormed, TakeException, InHandler;
    if faulted {
      HandlerEntered(m, stale);
    }
  }

  /** After a load the run is in the handler exactly if the fresh load faults. */
  lemma LoadEvent(m: Machine, va: u32, n: nat, io: Devices)
    requires Fresh(m) && WellFormed(m) && ValidWorld(m.w) && AccessSize(n)
    ensures var m' := Step(m, LoadAt(va, n), io);
            && (if IdealLoad(m.w, CurrentMode(m.msr, DTLB), va, n, io).LoadFault? then InHandler(m') else m'.msr == m.msr)
            && MemAgrees(m.w, m.w.mem, m'.w.mem)
  {
    hide MachineOk, WellFormed, ValidWorld, Load, IdealLoad, Settled, InHandler, TakeException, Spared, SparedReads;
    LoadRefines(m, va, n, io);
    LoadOk(m, va, n, io, false);
    LoadWellFormed(m, va, n, io);
    EndedAt(Load(m, va, n, io).0, Load(m, va, n, io).1.LoadFault?, false);
  }

  /** A fetch that faults afresh enters the handler; any other goes on. */
  lemma FetchEvent(m: Machine, va: u32, io: Devices)
    requires MachineOk(m, false) && Settled(m, ITLB) && WellFormed(m) && ValidWorld(m.w)
    ensures var m' := Step(m, FetchAt(va), io);
            if Ideal(m.w, ITLB, CurrentMode(m.msr, ITLB), va, false).Raised? then InHandler(m') else m'.msr == m.msr
  {
    hide MachineOk, WellFormed, ValidWorld, Fetch, Ideal, Settled, InHandler, TakeException;
    FetchRefines(m, va);
    FetchOk(m, va, false);
    FetchWellFormed(m, va);
    EndedAt(Fetch(m, va).0, Fetch(m, va).1.Raised?, false);
  }

  /** After a store the run is in the handler exactly if the fresh store faults, with the memory
      that its bytes before the fault leave. */
  lemma StoreEvent(m: Machine, va: u32, n: nat, v: nat, io: Devices)
    requires Fresh(m) && WellFormed(m) && ValidWorld(m.w) && AccessSize(n)
    requires PageOffset(va) + n > 4096 ==> SparedWrites(m.w, CurrentMode(m.msr, DTLB), va, n)
    ensures var m' := Step(m, StoreAt(va, n, v), io);
            var mode := CurrentMode(m.msr, DTLB);
            && (if IdealStore(m.w, mode, va, n, v).StoreFault? then InHandler(m') else m'.msr == m.msr)
            && MemAgrees(m.w, if StoresBytes(m.w, mode, va, n) then IdealMemory(m.w, m.w.mem, mode, va, BytesOf(v, n)) else m.w.mem,
                         m'.w.mem)
  {
    hide MachineOk, WellFormed, ValidWorld, Store, IdealStore, IdealMemory, StoresBytes, Settled, InHandler, ContextSync, Spared, SparedWrites, BytesOf;
    StoreRefines(m, va, n, v);
    StoreOk(m, va, n, v, false);
    StoreWellFormed(m, va, n, v);
    EndedAt(Store(m, va, n, v).0, Store(m, va, n, v).1.StoreFault?, StaleStore(m, va, n, v, false));
  }

  /** And after dcbz. */
  lemma ZeroEvent(m: Machine, va: u32, io: Devices)
    requires Fresh(m) && WellFormed(m) && ValidWorld(m.w) && va % 32 == 0
    ensures var m' := Step(m, ZeroAt(va), io);
            var end := Ideal(m.w, DTLB, CurrentMode(m.msr, DTLB), va, true);
            && (if end.Raised? then InHandler(m') else m'.msr == m.msr)
            && MemAgrees(m.w, Zeroed(m.w.mem, end), m'.w.mem)
  {
    hide MachineOk, WellFormed, ValidWorld, Dcbz, Ideal, Zeroed, Settled, InHandler, ContextSync, Spared, StaleDcbz;
    DcbzRefines(m, va);
    DcbzOk(m, va, false);
    DcbzWellFormed(m, va);
    EndedAt(Dcbz(m, va).0, Dcbz(m, va).1.StoreFault?, StaleDcbz(m, va, false));
  }
}
