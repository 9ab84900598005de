/** Loads, stores and dcbz of any size: mmu_read_vmem, mmu_write_vmem, the
    unaligned and page-crossing paths, and mmu_dcbz. */
module MemoryAccess {
  import opened Bits
  import opened Address
  import opened Translation
  import opened Reference
  import opened SoftTlb
  import opened Mmu

  /** What a device answers to a read of some bytes at an offset of its region. */
  type Devices = (Region, int, nat) -> nat

  predicate AccessSize(n: nat) {
    n == 1 || n == 2 || n == 4 || n == 8
  }

  /** 256 to the n. */
  function Radix(n: nat): (r: nat)
    ensures r > 0
  {
    if n == 0 then 1 else 256 * Radix(n - 1)
  }

  /** The big-endian value of some bytes after the value acc. */
  function BigEndian(acc: nat, bytes: seq<byte>): nat
    decreases |bytes|
  {
    if bytes == [] then acc else BigEndian(acc * 256 + bytes[0], bytes[1..])
  }

  /** The n low bytes of a value, most significant first. */
  function BytesOf(v: nat, n: nat): (b: seq<byte>)
    ensures |b| == n
  {
    if n == 0 then [] else [v / Radix(n - 1) % 256] + BytesOf(v, n - 1)
  }

  /** Host memory access; an address outside host memory would be a wild pointer. */
  predicate InHost(mem: Memory, h: int, n: nat) {
    0 <= h && h + n <= |mem|
  }

  function Peek(mem: Memory, h: int, n: nat): (b: seq<byte>)
    ensures |b| == n
  {
    if InHost(mem, h, n) then mem[h..h + n] else seq(n, _ => 0)
  }

  function Poke(mem: Memory, h: int, bytes: seq<byte>): (r: Memory)
    ensures |r| == |mem|
  {
    if InHost(mem, h, |bytes|) then mem[..h] + bytes + mem[h + |bytes|..] else mem
  }

  function WithMemory(m: Machine, mem: Memory): Machine {
    m.(w := m.w.(mem := mem))
  }

  // ---------- Loads ----------

  datatype Loaded = Value(v: nat) | LoadFault(fault: Fault) | LoadAbort

  function DeviceValue(io: Devices, r: Region, offset: int, n: nat): nat {
    if n == 8 then io(r, offset, 4) % 0x1_0000_0000 * 0x1_0000_0000 + io(r, offset + 4, 4) % 0x1_0000_0000
    else io(r, offset, n) % Radix(n)
  }

  /** mmu_read_vmem for one byte. */
  function LoadByte(m: Machine, va: u32, io: Devices): (r: (Machine, Loaded))
    requires WellFormed(m)
  {
    var (m1, end) := Read(m, va);
    match end
    case Hit(HostByte(h)) => (m1, Value(Peek(m1.w.mem, h, 1)[0]))
    case Hit(DeviceByte(r, offset)) => (m1, Value(DeviceValue(io, r, offset, 1)))
    case Hit(Nowhere) => (m1, LoadAbort)
    case NoMemory => (m1, Value(255))
    case Raised(f) => (m1, LoadFault(f))
    case Crashed => (m1, LoadAbort)
  }

  /** The bytewise loop of read_unaligned. */
  function LoadBytes(m: Machine, va: u32, n: nat, acc: nat, io: Devices): (r: (Machine, Loaded))
    requires WellFormed(m)
    decreases n
  {
    if n == 0 then (m, Value(acc))
    else
      var (m1, b) := LoadByte(m, va, io);
      if b.Value? then
        ReadWellFormed(m, va);
        LoadBytes(m1, Advance(va, 1), n - 1, acc * 256 + b.v, io)
      else (m1, b)
  }

  lemma ReadWellFormed(m: Machine, va: u32)
    requires WellFormed(m)
    ensures WellFormed(Read(m, va).0)
  {
    hide LookupOrRefill, ValidWorld, PageTag, SetFor;
  }

  predicate Misfit(va: u32, n: nat)
    requires n > 0
  {
    va % n != 0
  }

  /** mmu_read_vmem with read_unaligned. */
  function Load(m: Machine, va: u32, n: nat, io: Devices): (r: (Machine, Loaded))
    requires WellFormed(m) && AccessSize(n)
  {
    if n == 1 then LoadByte(m, va, io)
    else
      var (m1, end) := Read(m, va);
      match end
      case Hit(HostByte(h)) =>
        if Misfit(va, n) && n == 8 && va % 4 != 0 then (m1, LoadFault(Misaligned(va)))
        else if Misfit(va, n) && PageOffset(va) + n > 4096 then
          ReadWellFormed(m, va);
          LoadBytes(m1, va, n, 0, io)
        else (m1, Value(BigEndian(0, Peek(m1.w.mem, h, n))))
      case Hit(DeviceByte(r, offset)) =>
        if n == 8 && va % 4 != 0 then (m1, LoadFault(Misaligned(va)))
        else (m1, Value(DeviceValue(io, r, offset, n)))
      case Hit(Nowhere) => (m1, LoadAbort)
      case NoMemory => (m1, Value(Radix(n) - 1))
      case Raised(f) => (m1, LoadFault(f))
      case Crashed => (m1, LoadAbort)
  }

  // ---------- Stores ----------

  /** How a store ends; a completed one lists its device writes. */
  datatype Stored = Done(devices: seq<DeviceWrite>) | StoreFault(fault: Fault) | StoreAbort

  datatype DeviceWrite = DeviceWrite(region: Region, offset: int, value: nat, size: nat)

  lemma WriteWellFormed(m: Machine, va: u32)
    requires WellFormed(m)
    ensures WellFormed(Write(m, va).0)
  {
    hide LookupOrRefill, ValidWorld, PageTag, SetFor, Prepare;
    if m.dtlb.slots[5 * SetAt(m, DTLB, va)].tag == PageTag(va) {
      MarkBothTracked(m.dtlb, SetAt(m, DTLB, va));
    }
  }

  lemma MarkBothTracked(t: Tlb, s: nat)
    requires |t.slots| == SLOTS && s < SETS
    ensures MarkBoth(t, s).tracked == t.tracked
  {
  }

  /** mmu_write_vmem for one byte. */
  function StoreByte(m: Machine, va: u32, b: byte): (r: (Machine, Stored))
    requires WellFormed(m)
  {
    var (m1, end) := Write(m, va);
    match end
    case Hit(HostByte(h)) => (WithMemory(m1, Poke(m1.w.mem, h, [b])), Done([]))
    case Hit(DeviceByte(r, offset)) => (m1, Done([DeviceWrite(r, offset, b, 1)]))
    case Hit(Nowhere) => (m1, StoreAbort)
    case NoMemory => (m1, Done([]))
    case Raised(f) => (m1, StoreFault(f))
    case Crashed => (m1, StoreAbort)
  }

  lemma StoreByteWellFormed(m: Machine, va: u32, b: byte)
    requires WellFormed(m)
    ensures WellFormed(StoreByte(m, va, b).0)
  {
    WriteWellFormed(m, va);
    hide Write;
  }

  /** The bytewise loop of write_unaligned. */
  function StoreBytes(m: Machine, va: u32, bytes: seq<byte>): (r: (Machine, Stored))
    requires WellFormed(m)
    decreases |bytes|
  {
    if bytes == [] then (m, Done([]))
    else
      var (m1, first) := StoreByte(m, va, bytes[0]);
      if first.Done? then
        StoreByteWellFormed(m, va, bytes[0]);
        var (m2, rest) := StoreBytes(m1, Advance(va, 1), bytes[1..]);
        (m2, if rest.Done? then Done(first.devices + rest.devices) else rest)
      else (m1, first)
  }

  /** A device takes a doubleword as two words. */
  function StoreToDevice(va: u32, n: nat, v: nat, r: Region, offset: int): Stored {
    if n == 8 && va % 4 != 0 then StoreFault(Misaligned(va))
    else if n == 8 then
      Done([DeviceWrite(r, offset, v / 0x1_0000_0000 % 0x1_0000_0000, 4),
            DeviceWrite(r, offset + 4, v % 0x1_0000_0000, 4)])
    else Done([DeviceWrite(r, offset, v % Radix(n), n)])
  }

  /** mmu_write_vmem with write_unaligned. */
  function Store(m: Machine, va: u32, n: nat, v: nat): (r: (Machine, Stored))
    requires WellFormed(m) && AccessSize(n)
  {
    if n == 1 then StoreByte(m, va, v % 256)
    else
      var (m1, end) := Write(m, va);
      match end
      case Hit(HostByte(h)) =>
        if Misfit(va, n) && n == 8 && va % 4 != 0 then (m1, StoreFault(Misaligned(va)))
        else if Misfit(va, n) && PageOffset(va) + n > 4096 then
          WriteWellFormed(m, va);
          StoreBytes(m1, va, BytesOf(v, n))
        else (WithMemory(m1, Poke(m1.w.mem, h, BytesOf(v, n))), Done([]))
      case Hit(DeviceByte(r, offset)) => (m1, StoreToDevice(va, n, v, r, offset))
      case Hit(Nowhere) => (m1, StoreAbort)
      case NoMemory => (m1, Done([]))
      case Raised(f) => (m1, StoreFault(f))
      case Crashed => (m1, StoreAbort)
  }

  lemma {:induction false} StoreBytesWellFormed(m: Machine, va: u32, bytes: seq<byte>)
    requires WellFormed(m)
    ensures WellFormed(StoreBytes(m, va, bytes).0)
    decreases |bytes|
  {
    if bytes != [] {
      StoreByteWellFormed(m, va, bytes[0]);
      hide StoreByte, WellFormed;
      if StoreByte(m, va, bytes[0]).1.Done? {
        StoreBytesWellFormed(StoreByte(m, va, bytes[0]).0, Advance(va, 1), bytes[1..]);
      }
    }
  }

  lemma StoreWellFormed(m: Machine, va: u32, n: nat, v: nat)
    requires WellFormed(m) && AccessSize(n)
    ensures WellFormed(Store(m, va, n, v).0)
  {
    WriteWellFormed(m, va);
    StoreByteWellFormed(m, va, v % 256);
    StoreBytesWellFormed(Write(m, va).0, va, BytesOf(v, n));
    hide Write, StoreByte, StoreBytes, BytesOf;
  }

  // ---------- dcbz ----------

  function ZeroBlock(m: Machine, va: u32, count: nat): (r: (Machine, Stored))
    requires WellFormed(m)
    decreases count
  {
    if count == 0 then (m, Done([]))
    else
      var (m1, first) := Store(m, va, 8, 0);
      if first.Done? then
        StoreWellFormed(m, va, 8, 0);
        var (m2, rest) := ZeroBlock(m1, Advance(va, 8), count - 1);
        (m2, if rest.Done? then Done(first.devices + rest.devices) else rest)
      else (m1, first)
  }

  /** mmu_dcbz: a device page is checked for writing but not written. */
  function Dcbz(m: Machine, va: u32): (r: (Machine, Stored))
    requires WellFormed(m)
  {
    var s := SetAt(m, DTLB, va);
    if m.dtlb.slots[5 * s].tag == PageTag(va) then
      if m.dtlb.slots[5 * s].backing.Memory? then ZeroBlock(m, va, 4) else CheckDevice(m, 5 * s, va)
    else
      var (m1, second) := LookupOrRefill(m, DTLB, va, true);
      match second
      case InWay(way) =>
        if m1.dtlb.slots[5 * s + 1 + way].backing.Memory? then ZeroBlock(m1, va, 4)
        else CheckDevice(m1, 5 * s + 1 + way, va)
      case Missed(NoMemory) => ZeroBlock(m1, va, 4)
      case Missed(Raised(f)) => (m1, StoreFault(f))
      case Missed(_) => (m1, StoreAbort)
  }

  function CheckDevice(m: Machine, i: nat, va: u32): (r: (Machine, Stored))
    requires WellFormed(m) && i < SLOTS
  {
    var (w', verdict) := Prepare(m, m.dtlb.slots[i], va);
    match verdict
    case Ready => (m.(w := w'), Done([]))
    case MarkChanged => (m.(w := w', dtlb := m.dtlb.(slots := MarkSlot(m.dtlb.slots, i))), Done([]))
    case Refuse(Raised(f)) => (m.(w := w'), StoreFault(f))
    case Refuse(_) => (m.(w := w'), StoreAbort)
  }
}
