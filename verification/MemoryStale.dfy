/** Stores keep the MMU's invariant; only one that changes a byte of the page
    table leaves cached page translations stale. */
module MemoryStale {
  import opened Bits
  import opened Address
  import opened Translation
  import opened Reference
  import opened SoftTlb
  import opened Mmu
  import opened MmuProofs
  import opened MmuAccess
  import opened MmuContext
  import opened MemoryAccess
  import opened MemoryProofs
  import opened MemoryRoundTrip

  /** A memory change that leaves the page table alone. A 603 never reads it. */
  ghost predicate Quiet(w: World, mem: Memory)
    requires ValidWorld(w)
  {
    |mem| == |w.mem| && forall h: nat :: h < |mem| && mem[h] != w.mem[h] ==> Spared(w, h)
  }

  lemma QuietTable(w: World, mem: Memory)
    requires ValidWorld(w) && Quiet(w, mem) && !w.is603
    ensures ValidWorld(w.(mem := mem)) && TableKept(w, w.(mem := mem))
  {
    var w' := w.(mem := mem);
    assert ValidWorld(w');
    hide ValidWorld, PtegHost, Changed;
    forall hash: u32, i: nat | i < 8 && PtegHost(w, hash).Some?
      ensures EntryKept(w.mem, mem, PtegHost(w, hash).value, i)
    {
      var g := PtegHost(w, hash).value;
      forall h: nat | g <= h < g + 64
        ensures mem[h] == w.mem[h]
      {
        assert mem[h] != w.mem[h] ==> Spared(w, h);
      }
    }
  }

  /** A quiet change keeps every translation. */
  lemma QuietPreserves(w: World, mem: Memory, ty: TlbType)
    requires ValidWorld(w) && Quiet(w, mem)
    ensures ValidWorld(w.(mem := mem)) && Preserves(w, w.(mem := mem), ty)
  {
    hide Preserves, Spared;
    var w' := w.(mem := mem);
    assert ValidWorld(w');
    hide ValidWorld;
    if w.is603 {
      Memory603(w, w', ty);
    } else {
      QuietTable(w, mem);
      WalksKeptPreserves(w, w', ty);
    }
  }

  lemma Memory603(w: World, w': World, ty: TlbType)
    requires ValidWorld(w) && ValidWorld(w') && w.is603 && w' == w.(mem := w'.mem)
    ensures Preserves(w, w', ty)
  {
    hide ValidWorld, Walk603, HashedWalk, BlockTranslate, Refill;
    forall mode: Mode, va: u32
      ensures Kept(Refill(w, ty, mode, va, false), Refill(w', ty, mode, va, false))
    {
      MemoryBlocks(w, w', ty, mode == User, va);
      assert SegmentOf(w', va) == SegmentOf(w, va);
      if Walk603(w, ty, va, mode == User, false).Page? {
        Kept603(w, w', ty, va, mode == User);
      }
      RefillKept(w, w', ty, mode, va);
    }
  }

  /** Writing host memory keeps the invariant, stale unless the change is quiet. */
  lemma PokeOk(m: Machine, mem: Memory, stale: bool)
    requires MachineOk(m, stale) && |mem| == |m.w.mem|
    ensures ValidWorld(m.w) && MachineOk(WithMemory(m, mem), stale || !Quiet(m.w, mem))
  {
    OkWellFormed(m, stale);
    var w' := m.w.(mem := mem);
    assert ValidWorld(w');
    hide MachineOk, ValidWorld, Quiet, Preserves;
    if Quiet(m.w, mem) {
      QuietPreserves(m.w, mem, ITLB);
      QuietPreserves(m.w, mem, DTLB);
    }
    MemoryWriteOk(m, w', stale, stale || !Quiet(m.w, mem));
  }

  /** What no access changes: every register, the 603's entries, what is pending. */
  predicate Kin(m: Machine, m': Machine) {
    m'.w == m.w.(mem := m'.w.mem, lru603 := m'.w.lru603) && m'.msr == m.msr && m'.actions == m.actions &&
    m'.itlb.pending == m.itlb.pending && m'.dtlb.pending == m.dtlb.pending
  }

  // ---------- Stores ----------

  /** Whether page translations are stale after a store of one byte. */
  ghost predicate StaleByte(m: Machine, va: u32, b: byte, stale: bool)
    requires WellFormed(m)
  {
    WriteWellFormed(m, va);
    stale || !Quiet(Write(m, va).0.w, StoreByte(m, va, b).0.w.mem)
  }

  ghost predicate StaleBytes(m: Machine, va: u32, bytes: seq<byte>, stale: bool)
    requires WellFormed(m)
    decreases |bytes|
  {
    if bytes == [] then stale
    else
      StoreByteWellFormed(m, va, bytes[0]);
      var stale1 := StaleByte(m, va, bytes[0], stale);
      var (m1, first) := StoreByte(m, va, bytes[0]);
      if first.Done? then StaleBytes(m1, Advance(va, 1), bytes[1..], stale1) else stale1
  }

  ghost predicate StaleStore(m: Machine, va: u32, n: nat, v: nat, stale: bool)
    requires WellFormed(m) && AccessSize(n)
  {
    WriteWellFormed(m, va);
    if n == 1 then StaleByte(m, va, v % 256, stale)
    else if ByBytes(m, va, n) then StaleBytes(Write(m, va).0, va, BytesOf(v, n), stale)
    else stale || !Quiet(Write(m, va).0.w, Store(m, va, n, v).0.w.mem)
  }

  /** The store goes byte by byte: it crosses into the next page. */
  predicate ByBytes(m: Machine, va: u32, n: nat)
    requires WellFormed(m) && AccessSize(n)
  {
    Write(m, va).1.Hit? && Write(m, va).1.target.HostByte? && !(n == 8 && va % 4 != 0) &&
    Misfit(va, n) && PageOffset(va) + n > 4096
  }

  lemma StoreByteOk(m: Machine, va: u32, b: byte, stale: bool)
    requires MachineOk(m, stale)
    ensures WellFormed(m) && Kin(m, StoreByte(m, va, b).0)
    ensures WellFormed(m) && MachineOk(StoreByte(m, va, b).0, StaleByte(m, va, b, stale))
    ensures StoreByte(m, va, b).0 == WithMemory(Write(m, va).0, StoreByte(m, va, b).0.w.mem)
  {
    hide MachineOk, WellFormed, Write, Quiet, Poke;
    OkWellFormed(m, stale);
    WriteOk(m, va, stale);
    WriteWellFormed(m, va);
    var m1 := Write(m, va).0;
    var mem := StoreByte(m, va, b).0.w.mem;
    assert StoreByte(m, va, b).0 == WithMemory(m1, mem);
    PokeOk(m1, mem, stale);
  }

  lemma {:induction false} StoreBytesOk(m: Machine, va: u32, bytes: seq<byte>, stale: bool)
    requires MachineOk(m, stale)
    ensures WellFormed(m) && Kin(m, StoreBytes(m, va, bytes).0)
    ensures WellFormed(m) && MachineOk(StoreBytes(m, va, bytes).0, StaleBytes(m, va, bytes, stale))
    decreases |bytes|
  {
    hide MachineOk, WellFormed, StoreByte, StaleByte;
    OkWellFormed(m, stale);
    if bytes != [] {
      StoreByteOk(m, va, bytes[0], stale);
      var (m1, first) := StoreByte(m, va, bytes[0]);
      if first.Done? {
        StoreBytesOk(m1, Advance(va, 1), bytes[1..], StaleByte(m, va, bytes[0], stale));
      }
    }
  }

  /** A store of any size keeps the invariant. */
  lemma StoreOk(m: Machine, va: u32, n: nat, v: nat, stale: bool)
    requires MachineOk(m, stale) && AccessSize(n)
    ensures WellFormed(m) && Kin(m, Store(m, va, n, v).0)
    ensures WellFormed(m) && MachineOk(Store(m, va, n, v).0, StaleStore(m, va, n, v, stale))
  {
    hide MachineOk, WellFormed, Write, StoreByte, StaleByte, StoreBytes, StaleBytes, Quiet, Poke, BytesOf, Misfit, PageOffset;
    OkWellFormed(m, stale);
    if n == 1 {
      StoreByteOk(m, va, v % 256, stale);
    } else {
      WriteOk(m, va, stale);
      WriteWellFormed(m, va);
      var m1 := Write(m, va).0;
      if ByBytes(m, va, n) {
        StoreBytesOk(m1, va, BytesOf(v, n), stale);
      } else {
        var mem := Store(m, va, n, v).0.w.mem;
        assert Store(m, va, n, v).0 == WithMemory(m1, mem);
        PokeOk(m1, mem, stale);
      }
    }
  }

  ghost predicate StaleZero(m: Machine, va: u32, count: nat, stale: bool)
    requires WellFormed(m)
    decreases count
  {
    if count == 0 then stale
    else
      StoreWellFormed(m, va, 8, 0);
      var stale1 := StaleStore(m, va, 8, 0, stale);
      var (m1, first) := Store(m, va, 8, 0);
      if first.Done? then StaleZero(m1, Advance(va, 8), count - 1, stale1) else stale1
  }

  lemma {:induction false} ZeroBlockOk(m: Machine, va: u32, count: nat, stale: bool)
    requires MachineOk(m, stale)
    ensures WellFormed(m) && Kin(m, ZeroBlock(m, va, count).0)
    ensures WellFormed(m) && MachineOk(ZeroBlock(m, va, count).0, StaleZero(m, va, count, stale))
    decreases count
  {
    hide MachineOk, WellFormed, Store, StaleStore;
    OkWellFormed(m, stale);
    if count > 0 {
      StoreOk(m, va, 8, 0, stale);
      var (m1, first) := Store(m, va, 8, 0);
      if first.Done? {
        ZeroBlockOk(m1, Advance(va, 8), count - 1, StaleStore(m, va, 8, 0, stale));
      }
    }
  }

  // ---------- dcbz ----------

  ghost predicate StaleDcbz(m: Machine, va: u32, stale: bool)
    requires WellFormed(m)
  {
    var i := 5 * SetAt(m, DTLB, va);
    if m.dtlb.slots[i].tag == PageTag(va) then
      if m.dtlb.slots[i].backing.Memory? then StaleZero(m, va, 4, stale) else stale
    else
      var (m1, second) := LookupOrRefill(m, DTLB, va, true);
      match second
      case InWay(way) => if m1.dtlb.slots[i + 1 + way].backing.Memory? then StaleZero(m1, va, 4, stale) else stale
      case Missed(end) => if end.NoMemory? then StaleZero(m1, va, 4, stale) else stale
  }

  lemma CheckDeviceOk(m: Machine, way: nat, va: u32, stale: bool)
    requires MachineOk(m, stale) && way < 4
    requires var s := SetAt(m, DTLB, va);
             m.dtlb.slots[5 * s].tag != PageTag(va) && m.dtlb.slots[5 * s + 1 + way].tag == PageTag(va)
    ensures WellFormed(m) && Kin(m, CheckDevice(m, 5 * SetAt(m, DTLB, va) + 1 + way, va).0)
    ensures WellFormed(m) && MachineOk(CheckDevice(m, 5 * SetAt(m, DTLB, va) + 1 + way, va).0, stale)
  {
    hide MachineOk, WellFormed, ValidWorld, Preserves, PageTag, SetFor, Prepare, KnownChanged;
    OkWellFormed(m, stale);
    var s := SetAt(m, DTLB, va);
    var i := 5 * s + 1 + way;
    var (w', verdict) := Prepare(m, m.dtlb.slots[i], va);
    PrepareOk(m, va, 1 + way, stale);
    TagAbove(m, DTLB, va, i, stale);
    if verdict.MarkChanged? {
      MarkWayMachine(m.(w := w'), s, way, stale);
    }
  }

  lemma DcbzOk(m: Machine, va: u32, stale: bool)
    requires MachineOk(m, stale)
    ensures WellFormed(m) && Kin(m, Dcbz(m, va).0)
    ensures WellFormed(m) && MachineOk(Dcbz(m, va).0, StaleDcbz(m, va, stale))
  {
    hide MachineOk, WellFormed, ValidWorld, PageTag, SetFor, LookupOrRefill, ZeroBlock, StaleZero, CheckDevice, Preserves;
    OkWellFormed(m, stale);
    var s := SetAt(m, DTLB, va);
    if m.dtlb.slots[5 * s].tag == PageTag(va) {
      PrimaryMemory(m, va, stale);
      ZeroBlockOk(m, va, 4, stale);
    } else {
      LookupOrRefillOk(m, DTLB, va, true, stale);
      var (m1, second) := LookupOrRefill(m, DTLB, va, true);
      OkWellFormed(m1, stale);
      ZeroBlockOk(m1, va, 4, stale);
      if second.InWay? {
        CheckDeviceOk(m1, second.way, va, stale);
      }
    }
  }

  // ---------- Loads ----------

  lemma {:induction false} LoadBytesOk(m: Machine, va: u32, n: nat, acc: nat, io: Devices, stale: bool)
    requires MachineOk(m, stale)
    ensures WellFormed(m) && Kin(m, LoadBytes(m, va, n, acc, io).0)
    ensures WellFormed(m) && MachineOk(LoadBytes(m, va, n, acc, io).0, stale)
    decreases n
  {
    hide MachineOk, WellFormed, Read;
    OkWellFormed(m, stale);
    if n > 0 {
      ReadOk(m, va, stale);
      var (m1, b) := LoadByte(m, va, io);
      if b.Value? {
        LoadBytesOk(m1, Advance(va, 1), n - 1, acc * 256 + b.v, io, stale);
      }
    }
  }

  lemma LoadOk(m: Machine, va: u32, n: nat, io: Devices, stale: bool)
    requires MachineOk(m, stale) && AccessSize(n)
    ensures WellFormed(m) && Kin(m, Load(m, va, n, io).0)
    ensures WellFormed(m) && MachineOk(Load(m, va, n, io).0, stale)
  {
    hide MachineOk, WellFormed, Read, LoadBytes;
    OkWellFormed(m, stale);
    ReadOk(m, va, stale);
    LoadBytesOk(Read(m, va).0, va, n, 0, io, stale);
  }
}
