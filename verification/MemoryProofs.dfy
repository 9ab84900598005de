/** Loads and stores of any size and alignment are the big-endian fold of
    byte accesses; what is stored is what is loaded back. */
module MemoryProofs {
  import opened Bits
  import opened Address
  import opened Translation
  import opened Reference
  import opened SoftTlb
  import opened SoftTlbProofs
  import opened Mmu
  import opened MmuProofs
  import opened MmuAccess
  import opened MemoryAccess

  // ---------- Repeating an access ----------

  /** The primary slot of va's set holds va's page as host memory at host offset off. */
  predicate Cached(m: Machine, va: u32, off: int, write: bool)
    requires WellFormed(m)
  {
    var p := m.dtlb.slots[5 * SetAt(m, DTLB, va)];
    p.tag == PageTag(va) && p.backing.Memory? &&
    (if write then p.writable && p.changed && p.backing.offW == off else p.backing.offR == off)
  }

  lemma ReadCaches(m: Machine, va: u32, stale: bool)
    requires MachineOk(m, stale)
    ensures WellFormed(m) && WellFormed(Read(m, va).0)
    ensures match Read(m, va).1
            case Hit(HostByte(h)) => Cached(Read(m, va).0, va, h - va, false) && MachineOk(Read(m, va).0, stale)
            case _ => true
  {
    hide MachineOk, WellFormed, ValidWorld, PageTag, SetFor, LookupOrRefill, Preserves;
    OkWellFormed(m, stale);
    ReadOk(m, va, stale);
    OkWellFormed(Read(m, va).0, stale);
    var s := SetAt(m, DTLB, va);
    if m.dtlb.slots[5 * s].tag == PageTag(va) {
      PrimaryMemory(m, va, stale);
    } else {
      LookupOrRefillOk(m, DTLB, va, false, stale);
      var (m1, second) := LookupOrRefill(m, DTLB, va, false);
      OkWellFormed(m1, stale);
      if second.InWay? {
        var e := m1.dtlb.slots[5 * s + 1 + second.way];
        assert Promote(m1.dtlb, s, second.way).slots[5 * s].backing == e.backing;
        assert Promote(m1.dtlb, s, second.way).slots[5 * s].tag == e.tag;
        hide Promote;
      }
    }
  }

  lemma PrimaryMemory(m: Machine, va: u32, stale: bool)
    requires MachineOk(m, stale) && m.dtlb.slots[5 * SetAt(m, DTLB, va)].tag == PageTag(va)
    ensures m.dtlb.slots[5 * SetAt(m, DTLB, va)].backing.Memory?
  {
    assert SetOk(m.dtlb.slots, SetAt(m, DTLB, va));
    Geometry(va);
  }

  lemma CachedRead(m: Machine, va: u32, off: int)
    requires WellFormed(m) && Cached(m, va, off, false)
    ensures Read(m, va) == (m, Hit(HostByte(off + va)))
  {
  }

  lemma CachedPage(m: Machine, va: u32, va': u32, off: int, write: bool)
    requires WellFormed(m) && Cached(m, va, off, write) && PageTag(va) == PageTag(va')
    ensures Cached(m, va', off, write)
  {
    SamePage(va, va');
    PageUniform(va, va');
    SetUniform(va, va');
  }

  lemma SetUniform(va: u32, va': u32)
    requires PageNumber(va) == PageNumber(va')
    ensures SetIndex(va) == SetIndex(va')
  {
  }

  /** A cached page lies in host memory, so no access through it leaves it. */
  lemma CachedInHost(m: Machine, va: u32, off: int, write: bool, n: nat, stale: bool)
    requires MachineOk(m, stale) && WellFormed(m) && Cached(m, va, off, write) && PageOffset(va) + n <= 4096
    ensures InHost(m.w.mem, off + va, n)
  {
    var i := 5 * SetAt(m, DTLB, va);
    assert EntrySound(m.dtlb.slots[i], DTLB, |m.w.mem|);
    Geometry(va);
  }

  lemma AlignedFits(va: u32, n: nat)
    requires AccessSize(n) && !Misfit(va, n)
    ensures PageOffset(va) + n <= 4096
  {
  }

  lemma StepsInPage(va: u32)
    requires PageOffset(va) + 1 < 4096
    ensures PageTag(Advance(va, 1)) == PageTag(va) && PageOffset(Advance(va, 1)) == PageOffset(va) + 1
    ensures Advance(va, 1) == va + 1
  {
  }

  // ---------- Loads ----------

  lemma AdvanceTwice(va: u32, n: nat)
    requires n > 0
    ensures Advance(Advance(va, 1), n - 1) == Advance(va, n)
  {
  }

  /** Within one cached page the byte loop reads consecutive host bytes, and then
      goes on with the bytes that follow. */
  lemma {:induction false} CachedLoadBytes(m: Machine, va: u32, n: nat, more: nat, acc: nat, io: Devices, off: int, stale: bool)
    requires MachineOk(m, stale) && WellFormed(m) && Cached(m, va, off, false) && PageOffset(va) + n <= 4096
    ensures LoadBytes(m, va, n + more, acc, io) ==
            LoadBytes(m, Advance(va, n), more, BigEndian(acc, Peek(m.w.mem, off + va, n)), io)
    decreases n
  {
    hide MachineOk, WellFormed, Cached, Read, PageOffset;
    if n > 0 {
      CachedInHost(m, va, off, false, n, stale);
      CachedRead(m, va, off);
      var bytes := Peek(m.w.mem, off + va, n);
      assert Peek(m.w.mem, off + va, 1)[0] == bytes[0];
      if n > 1 {
        StepsInPage(va);
        CachedPage(m, va, Advance(va, 1), off, false);
        AdvanceTwice(va, n);
        hide Advance;
        CachedLoadBytes(m, Advance(va, 1), n - 1, more, acc * 256 + bytes[0], io, off, stale);
        assert Peek(m.w.mem, off + va + 1, n - 1) == bytes[1..];
      }
    }
  }

  /** A load equals the big-endian fold of byte loads of its addresses, whether it
      is aligned, unaligned or page-crossing, and leaves the same machine. */
  lemma LoadIsByteFold(m: Machine, va: u32, n: nat, io: Devices, stale: bool)
    requires MachineOk(m, stale) && AccessSize(n) && !(n == 8 && va % 4 != 0)
    ensures WellFormed(m)
    ensures Read(m, va).1.Hit? && Read(m, va).1.target.HostByte? ==> Load(m, va, n, io) == LoadBytes(m, va, n, 0, io)
  {
    hide MachineOk, WellFormed, Cached, Read, PageOffset, Misfit;
    OkWellFormed(m, stale);
    ReadCaches(m, va, stale);
    var (m1, end) := Read(m, va);
    if end.Hit? && end.target.HostByte? {
      var off := end.target.host - va;
      CachedRead(m1, va, off);
      if n == 1 {
        LoadOne(m, va, io);
      } else if Misfit(va, n) && PageOffset(va) + n > 4096 {
        LoadAgain(m, va, n, io, off);
      } else {
        if !Misfit(va, n) {
          AlignedFits(va, n);
        }
        CachedLoadBytes(m1, va, n, 0, 0, io, off, stale);
        LoadAgain(m, va, n, io, off);
      }
    }
  }

  lemma LoadOne(m: Machine, va: u32, io: Devices)
    requires WellFormed(m) && LoadByte(m, va, io).1.Value?
    ensures LoadBytes(m, va, 1, 0, io) == LoadByte(m, va, io)
  {
    hide LoadByte, WellFormed;
    assert LoadBytes(m, va, 1, 0, io) ==
      (ReadWellFormed(m, va); LoadByteKeeps(m, va, io);
       LoadBytes(LoadByte(m, va, io).0, Advance(va, 1), 0, LoadByte(m, va, io).1.v, io));
  }

  lemma LoadByteKeeps(m: Machine, va: u32, io: Devices)
    requires WellFormed(m)
    ensures WellFormed(LoadByte(m, va, io).0)
  {
    ReadWellFormed(m, va);
    hide Read, WellFormed;
  }

  /** Reading a page that the read just cached starts from the same state. */
  lemma LoadAgain(m: Machine, va: u32, n: nat, io: Devices, off: int)
    requires WellFormed(m) && WellFormed(Read(m, va).0) && n > 0
    requires Read(m, va).1 == Hit(HostByte(off + va)) && Cached(Read(m, va).0, va, off, false)
    ensures LoadBytes(Read(m, va).0, va, n, 0, io) == LoadBytes(m, va, n, 0, io)
  {
    CachedRead(Read(m, va).0, va, off);
    hide Read, WellFormed, Cached;
    assert LoadByte(Read(m, va).0, va, io) == LoadByte(m, va, io);
  }

  // ---------- Stores ----------

  lemma WriteCaches(m: Machine, va: u32, stale: bool)
    requires MachineOk(m, stale)
    ensures WellFormed(m) && WellFormed(Write(m, va).0) && MachineOk(Write(m, va).0, stale)
    ensures match Write(m, va).1
            case Hit(HostByte(h)) => Cached(Write(m, va).0, va, h - va, true)
            case _ => true
  {
    hide MachineOk, WellFormed, ValidWorld, PageTag, SetFor, LookupOrRefill, Preserves, WriteHit, FinishWrite;
    OkWellFormed(m, stale);
    WriteOk(m, va, stale);
    OkWellFormed(Write(m, va).0, stale);
    if m.dtlb.slots[5 * SetAt(m, DTLB, va)].tag == PageTag(va) {
      PrimaryMemory(m, va, stale);
      WriteHitCaches(m, va);
    } else {
      LookupOrRefillOk(m, DTLB, va, true, stale);
      var (m1, second) := LookupOrRefill(m, DTLB, va, true);
      OkWellFormed(m1, stale);
      if second.InWay? {
        FinishWriteCaches(m1, second.way, va);
      }
    }
  }

  lemma WriteHitCaches(m: Machine, va: u32)
    requires WellFormed(m) && WellFormed(WriteHit(m, va).0)
    requires m.dtlb.slots[5 * SetAt(m, DTLB, va)].tag == PageTag(va)
    requires m.dtlb.slots[5 * SetAt(m, DTLB, va)].backing.Memory?
    ensures match WriteHit(m, va).1
            case Hit(HostByte(h)) => Cached(WriteHit(m, va).0, va, h - va, true)
            case _ => true
  {
    assert |m.dtlb.slots| == SLOTS;
    hide WellFormed, SetFor, PageWalk, WalkEffect, MarkBoth, PageTag;
    var s := SetAt(m, DTLB, va);
    MarkBothFrame(m.dtlb, s, 5 * s);
    MarkBothIsChanged(m.dtlb, s);
  }

  lemma MarkBothIsChanged(t: Tlb, s: nat)
    requires |t.slots| == SLOTS && s < SETS
    ensures MarkBoth(t, s).slots[5 * s].changed
  {
    var slots := MarkSlot(t.slots, 5 * s);
    var way := FindWay(slots, s, slots[5 * s].tag);
    if way < 4 {
      TouchFrame(slots, s, way, 5 * s);
    }
  }

  lemma FinishWriteCaches(m: Machine, way: nat, va: u32)
    requires WellFormed(m) && way < 4 && WellFormed(FinishWrite(m, way, va).0)
    requires m.dtlb.slots[5 * SetAt(m, DTLB, va) + 1 + way].tag == PageTag(va)
    ensures match FinishWrite(m, way, va).1
            case Hit(HostByte(h)) => Cached(FinishWrite(m, way, va).0, va, h - va, true)
            case _ => true
  {
    assert |m.dtlb.slots| == SLOTS;
    hide WellFormed, SetFor, PageWalk, WalkEffect, PageTag;
  }

  lemma CachedWrite(m: Machine, va: u32, off: int)
    requires WellFormed(m) && Cached(m, va, off, true)
    ensures Write(m, va) == (m, Hit(HostByte(off + va)))
  {
    hide WellFormed, SetFor, PageTag;
    assert m.(w := m.w) == m;
  }

  lemma CachedElsewhere(m: Machine, mem: Memory, va: u32, off: int, write: bool)
    requires WellFormed(m) && |mem| == |m.w.mem|
    ensures WellFormed(WithMemory(m, mem))
    ensures Cached(WithMemory(m, mem), va, off, write) == Cached(m, va, off, write)
  {
  }

  lemma PokeCons(mem: Memory, h: int, bytes: seq<byte>)
    requires bytes != [] && InHost(mem, h, |bytes|)
    ensures Poke(Poke(mem, h, [bytes[0]]), h + 1, bytes[1..]) == Poke(mem, h, bytes)
  {
    var a, b := Poke(Poke(mem, h, [bytes[0]]), h + 1, bytes[1..]), Poke(mem, h, bytes);
    assert forall i: nat :: i < |mem| ==> a[i] == b[i];
  }

  lemma SameMemoryTwice(m: Machine, mem1: Memory, mem2: Memory)
    ensures WithMemory(WithMemory(m, mem1), mem2) == WithMemory(m, mem2)
  {
  }

  lemma CachedStoreByte(m: Machine, va: u32, b: byte, off: int)
    requires WellFormed(m) && Cached(m, va, off, true)
    ensures StoreByte(m, va, b) == (WithMemory(m, Poke(m.w.mem, off + va, [b])), Done([]))
  {
    CachedWrite(m, va, off);
    hide WellFormed, Write, Cached;
  }

  /** Within one cached page the byte loop writes consecutive host bytes, and then
      goes on with the bytes that follow. */
  lemma {:induction false} CachedStoreBytes(m: Machine, va: u32, bytes: seq<byte>, more: seq<byte>, off: int)
    requires WellFormed(m) && Cached(m, va, off, true) && PageOffset(va) + |bytes| <= 4096
    requires InHost(m.w.mem, off + va, |bytes|) && bytes != []
    ensures WellFormed(WithMemory(m, Poke(m.w.mem, off + va, bytes)))
    ensures StoreBytes(m, va, bytes + more) ==
            StoreBytes(WithMemory(m, Poke(m.w.mem, off + va, bytes)), Advance(va, |bytes|), more)
    decreases |bytes|
  {
    hide WellFormed, Cached, PageOffset, StoreByte, Poke;
    CachedStoreByte(m, va, bytes[0], off);
    var mem1 := Poke(m.w.mem, off + va, [bytes[0]]);
    var m1 := WithMemory(m, mem1);
    CachedElsewhere(m, mem1, va, off, true);
    CachedElsewhere(m, Poke(m.w.mem, off + va, bytes), va, off, true);
    assert (bytes + more)[0] == bytes[0] && (bytes + more)[1..] == bytes[1..] + more;
    FirstStep(m, va, bytes + more, m1);
    if |bytes| == 1 {
      assert bytes == [bytes[0]] && bytes[1..] + more == more;
    } else {
      StepsInPage(va);
      AdvanceTwice(va, |bytes|);
      CachedPage(m1, va, Advance(va, 1), off, true);
      PokeCons(m.w.mem, off + va, bytes);
      SameMemoryTwice(m, mem1, Poke(mem1, off + va + 1, bytes[1..]));
      hide Advance;
      CachedStoreBytes(m1, Advance(va, 1), bytes[1..], more, off);
    }
  }

  /** A first byte that stores without a device write hands over to the rest. */
  lemma FirstStep(m: Machine, va: u32, bytes: seq<byte>, m1: Machine)
    requires WellFormed(m) && WellFormed(m1) && bytes != [] && StoreByte(m, va, bytes[0]) == (m1, Done([]))
    ensures StoreBytes(m, va, bytes) == StoreBytes(m1, Advance(va, 1), bytes[1..])
  {
    hide WellFormed, StoreByte;
    var (m2, rest) := StoreBytes(m1, Advance(va, 1), bytes[1..]);
    assert rest.Done? ==> [] + rest.devices == rest.devices;
  }

  /** A store equals the fold of byte stores of its big-endian bytes. */
  lemma StoreIsByteFold(m: Machine, va: u32, n: nat, v: nat, stale: bool)
    requires MachineOk(m, stale) && AccessSize(n) && !(n == 8 && va % 4 != 0)
    ensures WellFormed(m)
    ensures Write(m, va).1.Hit? && Write(m, va).1.target.HostByte? ==> Store(m, va, n, v) == StoreBytes(m, va, BytesOf(v, n))
  {
    hide MachineOk, WellFormed, Cached, Write, PageOffset, Misfit, BytesOf, StoreByte, Poke;
    OkWellFormed(m, stale);
    WriteCaches(m, va, stale);
    var (m1, end) := Write(m, va);
    if end.Hit? && end.target.HostByte? {
      var off := end.target.host - va;
      var bytes := BytesOf(v, n);
      StoreAgain(m, va, bytes, off);
      if n == 1 {
        StoreOne(m, va, v);
      } else if !(Misfit(va, n) && PageOffset(va) + n > 4096) {
        if !Misfit(va, n) {
          AlignedFits(va, n);
        }
        CachedInHost(m1, va, off, true, n, stale);
        CachedStoreBytes(m1, va, bytes, [], off);
        assert bytes + [] == bytes;
      }
    }
  }

  lemma StoreOne(m: Machine, va: u32, v: nat)
    requires WellFormed(m) && StoreByte(m, va, BytesOf(v, 1)[0]).1 == Done([])
    ensures StoreBytes(m, va, BytesOf(v, 1)) == StoreByte(m, va, v % 256)
  {
    hide StoreByte, WellFormed;
    assert BytesOf(v, 1) == [v % 256];
    StoreByteWellFormed(m, va, v % 256);
    FirstStep(m, va, [v % 256], StoreByte(m, va, v % 256).0);
  }

  lemma StoreAgain(m: Machine, va: u32, bytes: seq<byte>, off: int)
    requires WellFormed(m) && WellFormed(Write(m, va).0) && bytes != []
    requires Write(m, va).1 == Hit(HostByte(off + va)) && Cached(Write(m, va).0, va, off, true)
    ensures StoreBytes(Write(m, va).0, va, bytes) == StoreBytes(m, va, bytes)
    ensures StoreByte(m, va, bytes[0]).1 == Done([])
  {
    CachedWrite(Write(m, va).0, va, off);
    hide Write, WellFormed, Cached, Poke;
    var m1 := Write(m, va).0;
    assert StoreByte(m1, va, bytes[0]) == StoreByte(m, va, bytes[0]);
    StoreByteWellFormed(m, va, bytes[0]);
    FirstStep(m, va, bytes, StoreByte(m, va, bytes[0]).0);
    FirstStep(m1, va, bytes, StoreByte(m, va, bytes[0]).0);
  }
}
