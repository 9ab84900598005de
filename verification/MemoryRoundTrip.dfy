/** What a store writes to RAM is what a load of the same address reads back,
    also when the access crosses into a page that shares its frame. */
module MemoryRoundTrip {
  import opened Bits
  import opened Address
  import opened Translation
  import opened Reference
  import opened SoftTlb
  import opened SoftTlbProofs
  import opened Mmu
  import opened MmuProofs
  import opened MmuAccess
  import opened MmuContext
  import opened MmuRefinement
  import opened MemoryAccess
  import opened MemoryProofs

  /** Splitting a value into bytes and reading them big-endian gives it back. */
  lemma {:induction false} BytesRoundTrip(acc: nat, v: nat, n: nat)
    ensures BigEndian(acc, BytesOf(v, n)) == acc * Radix(n) + v % Radix(n)
    decreases n
  {
    if n > 0 {
      var r := Radix(n - 1);
      var top := v / r % 256;
      assert BytesOf(v, n)[1..] == BytesOf(v, n - 1);
      BytesRoundTrip(acc * 256 + top, v, n - 1);
      TopByte(v, r);
      Regroup(acc, top, r);
    }
  }

  lemma Regroup(acc: nat, top: nat, r: nat)
    ensures (acc * 256 + top) * r == acc * (256 * r) + top * r
  {
  }

  lemma TopByte(v: nat, r: nat)
    requires r > 0
    ensures v % (256 * r) == v / r % 256 * r + v % r
  {
    var q, low := v / r, v % r;
    assert q % 256 * r + low < 256 * r by {
      TimesMono(q % 256, 255, r);
    }
    assert v == q / 256 * (256 * r) + (q % 256 * r + low) by {
      assert q == q / 256 * 256 + q % 256;
      assert v == q * r + low;
    }
    QuotientUnique(v, 256 * r, q / 256, q % 256 * r + low);
  }

  lemma {:induction false} BigEndianAppend(acc: nat, a: seq<byte>, b: seq<byte>)
    ensures BigEndian(BigEndian(acc, a), b) == BigEndian(acc, a + b)
    decreases |a|
  {
    if a == [] {
      assert a + b == b;
    } else {
      BigEndianAppend(acc * 256 + a[0], a[1..], b);
      assert (a + b)[1..] == a[1..] + b;
    }
  }

  lemma PokePeek(mem: Memory, h: int, bytes: seq<byte>)
    requires InHost(mem, h, |bytes|)
    ensures Peek(Poke(mem, h, bytes), h, |bytes|) == bytes
  {
  }

  /** Within one page: a store followed by a load of the same size and address returns
      the stored value if both reach the same host byte. */
  lemma ReachedThenLoad(m: Machine, va: u32, n: nat, v: nat, io: Devices, stale: bool)
    requires MachineOk(m, stale) && AccessSize(n) && !(n == 8 && va % 4 != 0) && PageOffset(va) + n <= 4096
    ensures WellFormed(m) && WellFormed(Write(m, va).0) && WellFormed(Store(m, va, n, v).0)
    ensures Write(m, va).1.Hit? && Write(m, va).1.target.HostByte? &&
            Read(Write(m, va).0, va).1 == Write(m, va).1 ==>
              Store(m, va, n, v).1 == Done([]) && Load(Store(m, va, n, v).0, va, n, io).1 == Value(v % Radix(n))
  {
    hide MachineOk, WellFormed, Cached, Write, Read, PageOffset, Misfit, BytesOf, Poke, Peek, Load, LoadBytes, StoreByte, StoreBytes, Store;
    OkWellFormed(m, stale);
    WriteCaches(m, va, stale);
    StoreWellFormed(m, va, n, v);
    var (m1, end) := Write(m, va);
    if end.Hit? && end.target.HostByte? && Read(m1, va).1 == end {
      var off := end.target.host - va;
      var bytes := BytesOf(v, n);
      CachedBoth(m1, va, off, stale);
      CachedInHost(m1, va, off, true, n, stale);
      StoreIsByteFold(m, va, n, v, stale);
      StoreAgain(m, va, bytes, off);
      StorePage(m1, va, bytes, off);
      var m2 := WithMemory(m1, Poke(m1.w.mem, off + va, bytes));
      PokePeek(m1.w.mem, off + va, bytes);
      CachedElsewhere(m1, Poke(m1.w.mem, off + va, bytes), va, off, false);
      LoadPage(m2, va, n, io, off, bytes);
      BytesRoundTrip(0, v, n);
    }
  }

  lemma CachedBoth(m: Machine, va: u32, off: int, stale: bool)
    requires MachineOk(m, stale) && WellFormed(m) && Cached(m, va, off, true)
    requires Read(m, va).1 == Hit(HostByte(off + va))
    ensures Cached(m, va, off, false)
  {
  }

  /** A store of one page's bytes through its cached entry. */
  lemma StorePage(m: Machine, va: u32, bytes: seq<byte>, off: int)
    requires WellFormed(m) && Cached(m, va, off, true) && PageOffset(va) + |bytes| <= 4096
    requires InHost(m.w.mem, off + va, |bytes|) && bytes != []
    ensures StoreBytes(m, va, bytes) == (WithMemory(m, Poke(m.w.mem, off + va, bytes)), Done([]))
  {
    hide WellFormed, Cached, Poke, PageOffset;
    CachedStoreBytes(m, va, bytes, [], off);
    assert bytes + [] == bytes;
  }

  /** Loading a cached page needs no more than its structure. */
  lemma {:induction false} PlainLoadBytes(m: Machine, va: u32, n: nat, more: nat, acc: nat, io: Devices, off: int)
    requires WellFormed(m) && Cached(m, va, off, false) && PageOffset(va) + n <= 4096 && InHost(m.w.mem, off + va, n)
    ensures LoadBytes(m, va, n + more, acc, io) ==
            LoadBytes(m, Advance(va, n), more, BigEndian(acc, Peek(m.w.mem, off + va, n)), io)
    decreases n
  {
    hide WellFormed, Cached, Read, PageOffset;
    if n > 0 {
      CachedRead(m, va, off);
      var bytes := Peek(m.w.mem, off + va, n);
      assert Peek(m.w.mem, off + va, 1)[0] == bytes[0];
      if n > 1 {
        StepsInPage(va);
        CachedPage(m, va, Advance(va, 1), off, false);
        AdvanceTwice(va, n);
        hide Advance;
        PlainLoadBytes(m, Advance(va, 1), n - 1, more, acc * 256 + bytes[0], io, off);
        assert Peek(m.w.mem, off + va + 1, n - 1) == bytes[1..];
      }
    }
  }

  lemma LoadPage(m: Machine, va: u32, n: nat, io: Devices, off: int, bytes: seq<byte>)
    requires WellFormed(m) && AccessSize(n) && Cached(m, va, off, false) && PageOffset(va) + n <= 4096
    requires !(n == 8 && va % 4 != 0) && Peek(m.w.mem, off + va, n) == bytes
    ensures Load(m, va, n, io) == (m, Value(BigEndian(0, bytes)))
  {
    CachedRead(m, va, off);
    hide WellFormed, Cached, Read, LoadBytes, Misfit;
    if n == 1 {
      assert bytes == [bytes[0]];
      assert BigEndian(0, bytes) == bytes[0];
    }
  }

  // ---------- Crossing into the next page ----------

  /** No page table entry group of the current table contains the host byte. A 603 never
      reads or writes the table itself. */
  ghost predicate Spared(w: World, h: int)
    requires ValidWorld(w)
  {
    w.is603 ||
    forall hash: u32 :: PtegHost(w, hash).Some? ==> !(PtegHost(w, hash).value <= h < PtegHost(w, hash).value + 64)
  }

  /** The entry a walk finds lies in one of the groups. */
  lemma PteInGroup(w: World, la: u32)
    requires ValidWorld(w) && FindPte(w, la).Found?
    ensures exists hash: u32 :: PtegHost(w, hash).Some? &&
              PtegHost(w, hash).value <= FindPte(w, la).pte && FindPte(w, la).pte + 8 <= PtegHost(w, hash).value + 64
  {
    FindPteSpec(w, la);
    hide PtegHost, ReadWord, MatchWord, FindPte;
    var vsid := Vsid(SegmentOf(w, la));
    var hash := PrimaryHash(vsid, PageIndex(la));
    hide PrimaryHash;
    if PtegHost(w, Not32(hash)).Some? {
      assert PtegHost(w, hash).Some?;
    }
  }

  /** The walk of a store finds the page in the table and sets R and C. */
  predicate TableWalk(w: World, va: u32, pr: bool)
    requires ValidWorld(w)
  {
    !w.is603 && !DirectStore(SegmentOf(w, va)) && HashedWalk(w, DTLB, va, pr, true).Page?
  }

  lemma WalkMemory(w: World, va: u32, pr: bool)
    requires ValidWorld(w)
    ensures TableWalk(w, va, pr) ==> FindPte(w, va).Found?
    ensures WalkEffect(w, DTLB, va, pr, true).mem ==
            if TableWalk(w, va, pr) then SetRC(w.mem, FindPte(w, va).pte, true) else w.mem
  {
    hide FindPte, SetRC, ReadWord;
  }

  /** The address path of a store walks the table: on a hit only to set C. */
  predicate Walks(m: Machine, va: u32)
    requires WellFormed(m)
  {
    var s, mode := SetAt(m, DTLB, va), CurrentMode(m.msr, DTLB);
    var hit, way := m.dtlb.slots[5 * s].tag == PageTag(va), FindWay(m.dtlb.slots, s, PageTag(va));
    if hit || way < 4 then
      var e := m.dtlb.slots[if hit then 5 * s else 5 * s + 1 + way];
      e.writable && !e.changed && TableWalk(m.w, va, m.msr.pr)
    else
      mode != Real && BlockTranslate(m.w, DTLB, m.msr.pr, va).BatMiss? && TableWalk(m.w, va, m.msr.pr)
  }

  /** The memory once the entry at a page's PTE is marked, if it is. */
  function Marked(w: World, va: u32, walks: bool): (mem: Memory)
    requires ValidWorld(w)
    ensures |mem| == |w.mem|
  {
    if walks && FindPte(w, va).Found? then SetRC(w.mem, FindPte(w, va).pte, true) else w.mem
  }

  lemma PrepareMemory(m: Machine, e: Entry, va: u32)
    requires WellFormed(m)
    ensures Prepare(m, e, va).0.mem == Marked(m.w, va, e.writable && !e.changed && TableWalk(m.w, va, m.msr.pr))
  {
    hide FindPte, SetRC, TableWalk, WalkEffect, PageWalk;
    WalkMemory(m.w, va, m.msr.pr);
  }

  lemma RefillMemory(m: Machine, va: u32)
    requires WellFormed(m)
    ensures var mode := CurrentMode(m.msr, DTLB);
            var walks := mode != Real && BlockTranslate(m.w, DTLB, m.msr.pr, va).BatMiss? && TableWalk(m.w, va, m.msr.pr);
            TranslateEffect(m.w, DTLB, mode, va, true).mem == Marked(m.w, va, walks)
  {
    hide FindPte, SetRC, TableWalk, WalkEffect, BlockTranslate;
    WalkMemory(m.w, va, m.msr.pr);
  }

  /** What a store's address path does to memory: R and C of the entry it walks to, and
      nothing else. */
  lemma WriteMemory(m: Machine, va: u32, stale: bool)
    requires MachineOk(m, stale)
    ensures WellFormed(m) && Write(m, va).0.w.mem == Marked(m.w, va, Walks(m, va))
  {
    hide MachineOk, WellFormed, ValidWorld, PageTag, SetFor, RefillMiss, FindWay, Prepare, MarkBoth, Promote, MarkSlot, TouchWay, TableWalk, BlockTranslate, Marked;
    OkWellFormed(m, stale);
    var s := SetAt(m, DTLB, va);
    var way := FindWay(m.dtlb.slots, s, PageTag(va));
    if m.dtlb.slots[5 * s].tag == PageTag(va) {
      PrepareMemory(m, m.dtlb.slots[5 * s], va);
    } else if way < 4 {
      var m1 := LookupOrRefill(m, DTLB, va, true).0;
      TouchedEntry(m.dtlb.slots, s, way);
      PrepareMemory(m1, m1.dtlb.slots[5 * s + 1 + way], va);
    } else {
      RefilledReady(m, va, stale);
      RefillMemory(m, va);
    }
  }

  lemma TouchedEntry(slots: seq<Entry>, s: nat, way: nat)
    requires |slots| == SLOTS && s < SETS && way < 4
    ensures SameTranslation(slots[5 * s + 1 + way], TouchWay(slots, s, way)[5 * s + 1 + way])
  {
    TouchFrame(slots, s, way, 5 * s + 1 + way);
  }

  /** A page refilled for a store is writable and Changed, so no second walk follows. */
  lemma RefilledReady(m: Machine, va: u32, stale: bool)
    requires MachineOk(m, stale)
    ensures WellFormed(m)
    ensures var (m1, second) := RefillMiss(m, DTLB, va, true);
            && m1.w == TranslateEffect(m.w, DTLB, CurrentMode(m.msr, DTLB), va, true)
            && (second.InWay? ==> FinishWrite(m1, second.way, va).0.w == m1.w)
  {
    hide MachineOk, WellFormed, ValidWorld, PageTag, SetFor, TlbOk, TranslateEffect, Refill, VictimWay, Install, Promote;
    OkWellFormed(m, stale);
    var s, mode := SetAt(m, DTLB, va), CurrentMode(m.msr, DTLB);
    var f := Refill(m.w, DTLB, mode, va, true);
    if f.Filled? {
      var m1 := RefillMiss(m, DTLB, va, true).0;
      InstalledEntry(m, DTLB, s, PageTag(va), f.fill, f.changed, stale);
      StoreFillWritable(m.w, mode, va);
      ReadyFinish(m1, VictimWay(m.dtlb.slots, s), va);
    }
  }

  lemma ReadyFinish(m: Machine, way: nat, va: u32)
    requires WellFormed(m) && way < 4
    requires var e := m.dtlb.slots[5 * SetAt(m, DTLB, va) + 1 + way]; e.writable && e.changed
    ensures FinishWrite(m, way, va).0.w == m.w
  {
    hide ValidWorld, PageTag, SetFor, Promote;
  }

  /** A store's address path touches one TLB set. */
  lemma WriteElsewhere(m: Machine, va: u32, i: nat, stale: bool)
    requires MachineOk(m, stale) && i < SLOTS && !(5 * SetAt(m, DTLB, va) <= i < 5 * SetAt(m, DTLB, va) + 5)
    ensures WellFormed(m) && |Write(m, va).0.dtlb.slots| == SLOTS && Write(m, va).0.dtlb.slots[i] == m.dtlb.slots[i]
  {
    hide MachineOk, WellFormed, ValidWorld, PageTag, SetFor, LookupOrRefill, WriteHit, FinishWrite, Preserves;
    OkWellFormed(m, stale);
    if m.dtlb.slots[5 * SetAt(m, DTLB, va)].tag == PageTag(va) {
      WriteHitElsewhere(m, va, i);
    } else {
      LookupElsewhere(m, va, i, stale);
      var (m1, second) := LookupOrRefill(m, DTLB, va, true);
      if second.InWay? {
        FinishElsewhere(m1, second.way, va, i);
      }
    }
  }

  lemma WriteHitElsewhere(m: Machine, va: u32, i: nat)
    requires WellFormed(m)
    requires i < SLOTS && !(5 * SetAt(m, DTLB, va) <= i < 5 * SetAt(m, DTLB, va) + 5)
    ensures |WriteHit(m, va).0.dtlb.slots| == SLOTS && WriteHit(m, va).0.dtlb.slots[i] == m.dtlb.slots[i]
  {
    assert |m.dtlb.slots| == SLOTS;
    hide WellFormed, SetFor, Prepare;
    MarkBothElsewhere(m.dtlb, SetAt(m, DTLB, va), i);
  }

  lemma MarkBothElsewhere(t: Tlb, s: nat, i: nat)
    requires |t.slots| == SLOTS && s < SETS && i < SLOTS && !(5 * s <= i < 5 * s + 5)
    ensures MarkBoth(t, s).slots[i] == t.slots[i]
  {
    var slots := MarkSlot(t.slots, 5 * s);
    var way := FindWay(slots, s, slots[5 * s].tag);
    if way < 4 {
      hide FindWay;
      TouchFrame(slots, s, way, i);
    }
  }

  lemma LookupElsewhere(m: Machine, va: u32, i: nat, stale: bool)
    requires MachineOk(m, stale) && i < SLOTS && !(5 * SetAt(m, DTLB, va) <= i < 5 * SetAt(m, DTLB, va) + 5)
    ensures WellFormed(m) && |LookupOrRefill(m, DTLB, va, true).0.dtlb.slots| == SLOTS
    ensures LookupOrRefill(m, DTLB, va, true).0.dtlb.slots[i] == m.dtlb.slots[i]
  {
    hide MachineOk, WellFormed, ValidWorld, PageTag, SetFor, TlbOk, TranslateEffect, Refill, VictimWay, FindWay, Install, TouchWay;
    OkWellFormed(m, stale);
    TouchOrInstall(m, SetAt(m, DTLB, va), PageTag(va), i, stale);
  }

  lemma TouchOrInstall(m: Machine, s: nat, tag: u32, i: nat, stale: bool)
    requires MachineOk(m, stale) && s < SETS && i < SLOTS && !(5 * s <= i < 5 * s + 5)
    ensures |m.dtlb.slots| == SLOTS
    ensures forall way: nat :: way < 4 ==> TouchWay(m.dtlb.slots, s, way)[i] == m.dtlb.slots[i]
    ensures forall fill: Fill, changed: bool :: Install(m.dtlb, s, tag, fill, changed).slots[i] == m.dtlb.slots[i]
  {
    var t := m.dtlb;
    assert TlbOk(t);
    hide MachineOk, Sets, Tracking, Install, TouchWay;
    forall way: nat | way < 4
      ensures TouchWay(t.slots, s, way)[i] == t.slots[i]
    {
      TouchFrame(t.slots, s, way, i);
    }
    forall fill: Fill, changed: bool
      ensures Install(t, s, tag, fill, changed).slots[i] == t.slots[i]
    {
      InstallFrame(t, s, tag, fill, changed);
    }
  }

  lemma FinishElsewhere(m: Machine, way: nat, va: u32, i: nat)
    requires WellFormed(m) && way < 4
    requires i < SLOTS && !(5 * SetAt(m, DTLB, va) <= i < 5 * SetAt(m, DTLB, va) + 5)
    ensures |FinishWrite(m, way, va).0.dtlb.slots| == SLOTS && FinishWrite(m, way, va).0.dtlb.slots[i] == m.dtlb.slots[i]
  {
    assert |m.dtlb.slots| == SLOTS;
    hide WellFormed, SetAt, Prepare, Promote, MarkSlot, FastPath, HitTarget;
    var s := SetAt(m, DTLB, va);
    var k := 5 * s + 1 + way;
    var marked := m.dtlb.(slots := MarkSlot(m.dtlb.slots, k));
    assert marked.slots[i] == m.dtlb.slots[i] by { MarkElsewhere(m.dtlb.slots, k, i); }
    PromoteElsewhere(m.dtlb, s, way, i);
    PromoteElsewhere(marked, s, way, i);
  }

  lemma MarkElsewhere(slots: seq<Entry>, k: nat, i: nat)
    requires k < |slots| && i < |slots| && i != k
    ensures MarkSlot(slots, k)[i] == slots[i]
  {
  }

  lemma PromoteElsewhere(t: Tlb, s: nat, way: nat, i: nat)
    requires |t.slots| == SLOTS && s < SETS && way < 4 && i < SLOTS && !(5 * s <= i < 5 * s + 5)
    ensures Promote(t, s, way).slots[i] == t.slots[i]
  {
  }

  /** A store to va reaches host byte h, and so does a load right after it: RAM. */
  predicate ReachesRam(m: Machine, va: u32, h: int)
    requires WellFormed(m)
  {
    Write(m, va).1 == Hit(HostByte(h)) && WellFormed(Write(m, va).0) && Read(Write(m, va).0, va).1 == Hit(HostByte(h))
  }

  /** The machine once the first page of a crossing store has its bytes. */
  function AfterFirst(m: Machine, va: u32, bytes: seq<byte>, h: int): Machine
    requires WellFormed(m)
  {
    var m1 := Write(m, va).0;
    WithMemory(m1, Poke(m1.w.mem, h, bytes))
  }

  lemma FirstPage(m: Machine, va: u32, bytes: seq<byte>, more: seq<byte>, h: int, stale: bool)
    requires MachineOk(m, stale) && WellFormed(m) && ReachesRam(m, va, h)
    requires bytes != [] && PageOffset(va) + |bytes| <= 4096
    ensures var m2 := AfterFirst(m, va, bytes, h);
            && MachineOk(m2, true) && WellFormed(m2) && m2.msr == m.msr
            && Cached(m2, va, h - va, false) && h % 4096 == PageOffset(va) && InHost(m2.w.mem, h, |bytes|)
            && Peek(m2.w.mem, h, |bytes|) == bytes
            && StoreBytes(m, va, bytes + more) == StoreBytes(m2, Advance(va, |bytes|), more)
  {
    hide MachineOk, WellFormed, Cached, Write, Read, PageOffset, StoreBytes, Poke, Peek, Spared;
    WriteCaches(m, va, stale);
    WriteOk(m, va, stale);
    var m1 := Write(m, va).0;
    CachedBoth(m1, va, h - va, stale);
    CachedInHost(m1, va, h - va, true, |bytes|, stale);
    CachedFrame(m1, va, h - va, stale);
    StoreAgain(m, va, bytes + more, h - va);
    CachedStoreBytes(m1, va, bytes, more, h - va);
    PokePeek(m1.w.mem, h, bytes);
    CachedElsewhere(m1, Poke(m1.w.mem, h, bytes), va, h - va, false);
    PokedMachine(m1, h, bytes, stale);
    OkWellFormed(AfterFirst(m, va, bytes, h), true);
  }

  lemma PokedMachine(m: Machine, h: int, bytes: seq<byte>, stale: bool)
    requires MachineOk(m, stale)
    ensures MachineOk(WithMemory(m, Poke(m.w.mem, h, bytes)), true)
  {
    hide Poke, SideOk;
    OkWellFormed(m, stale);
    MemoryWriteOk(m, m.w.(mem := Poke(m.w.mem, h, bytes)), stale, true);
  }

  /** A cached RAM page keeps the page offset of its addresses. */
  lemma CachedFrame(m: Machine, va: u32, off: int, stale: bool)
    requires MachineOk(m, stale) && WellFormed(m) && Cached(m, va, off, false)
    ensures (off + va) % 4096 == PageOffset(va)
  {
    hide MachineOk, WellFormed, PageTag, PageOffset, SetFor;
    OkWellFormed(m, stale);
    Geometry(va);
    PageFrame(m, 5 * SetAt(m, DTLB, va), stale);
    FrameOffset(off, va);
  }

  lemma PageFrame(m: Machine, i: nat, stale: bool)
    requires MachineOk(m, stale) && i < SLOTS && Valid(m.dtlb.slots[i]) && m.dtlb.slots[i].backing.Memory?
    ensures (m.dtlb.slots[i].backing.offR + m.dtlb.slots[i].tag) % 4096 == 0
  {
    hide Sets, Tracking, Coherent, OracleFor, ValidWorld;
    assert EntrySound(m.dtlb.slots[i], DTLB, |m.w.mem|);
  }

  lemma FrameOffset(off: int, va: u32)
    requires (off + PageTag(va)) % 4096 == 0
    ensures (off + va) % 4096 == PageOffset(va)
  {
  }

  lemma SameTable(w: World, w': World)
    requires ValidWorld(w) && ValidWorld(w') && w' == w.(mem := w'.mem, lru603 := w'.lru603)
    ensures forall k: int :: Spared(w, k) ==> Spared(w', k)
  {
    forall hash: u32
      ensures PtegHost(w', hash) == PtegHost(w, hash)
    {
    }
    hide ValidWorld, PtegHost;
  }

  lemma NextPage(va: u32, k: nat)
    requires 0 < k == 4096 - PageOffset(va)
    ensures PageOffset(Advance(va, k)) == 0 && SetIndex(Advance(va, k)) != SetIndex(va)
  {
  }

  lemma OffsetBelow(va: u32)
    ensures PageOffset(va) < 4096
  {
  }

  lemma OtherSet(msr: Msr, va: u32, vb: u32)
    requires SetIndex(va) != SetIndex(vb)
    ensures var a, b := SetFor(CurrentMode(msr, DTLB), va), SetFor(CurrentMode(msr, DTLB), vb);
            !(5 * b <= 5 * a < 5 * b + 5)
  {
  }

  /** The second page of a crossing store leaves the first page's entry, and of its bytes
      all that its own address path leaves. */
  lemma SecondPage(m: Machine, va: u32, vb: u32, rest: seq<byte>, hA: int, k: nat, hB: int)
    requires MachineOk(m, true) && WellFormed(m) && SetIndex(va) != SetIndex(vb)
    requires Cached(m, va, hA - va, false) && InHost(m.w.mem, hA, k)
    requires hA % 4096 + k == 4096 && PageOffset(vb) == 0 && |rest| + k <= 8 && rest != []
    requires ReachesRam(m, vb, hB)
    ensures var m' := AfterFirst(m, vb, rest, hB);
            && WellFormed(m') && StoreBytes(m, vb, rest) == (m', Done([]))
            && Cached(m', va, hA - va, false) && InHost(m'.w.mem, hA, k)
            && Peek(m'.w.mem, hA, k) == Peek(Write(m, vb).0.w.mem, hA, k)
            && Cached(m', vb, hB - vb, false) && InHost(m'.w.mem, hB, |rest|) && Peek(m'.w.mem, hB, |rest|) == rest
  {
    hide MachineOk, WellFormed, Cached, Write, Read, PageOffset, StoreBytes, Poke, Peek, Spared, SetIndex, Marked;
    FirstPage(m, vb, rest, [], hB, true);
    assert rest + [] == rest;
    StoreNothing(AfterFirst(m, vb, rest, hB), Advance(vb, |rest|));
    var m1 := Write(m, vb).0;
    WriteMemory(m, vb, true);
    assert |m1.w.mem| == |m.w.mem|;
    KeepsCached(m, va, vb, hA - va);
    CachedElsewhere(m1, Poke(m1.w.mem, hB, rest), va, hA - va, false);
    PokeApart(m1.w.mem, hB, rest, hA, k);
  }

  lemma StoreNothing(m: Machine, va: u32)
    requires WellFormed(m)
    ensures StoreBytes(m, va, []) == (m, Done([]))
  {
  }

  lemma KeepsCached(m: Machine, va: u32, vb: u32, off: int)
    requires MachineOk(m, true) && WellFormed(m) && SetIndex(va) != SetIndex(vb) && Cached(m, va, off, false)
    ensures WellFormed(Write(m, vb).0) && Cached(Write(m, vb).0, va, off, false)
  {
    hide MachineOk, WellFormed, Write, PageTag, SetIndex, Preserves;
    WriteOk(m, vb, true);
    OkWellFormed(Write(m, vb).0, true);
    OtherSet(m.msr, va, vb);
    WriteElsewhere(m, vb, 5 * SetAt(m, DTLB, va), true);
  }

  /** Bytes at the end of a frame and at the start of a frame never overlap. */
  lemma PokeApart(mem: Memory, hB: int, rest: seq<byte>, hA: int, k: nat)
    requires hA % 4096 + k == 4096 && hB % 4096 == 0 && |rest| + k <= 8
    requires InHost(mem, hA, k) && InHost(mem, hB, |rest|)
    ensures InHost(Poke(mem, hB, rest), hA, k) && Peek(Poke(mem, hB, rest), hA, k) == Peek(mem, hA, k)
  {
  }

  /** Both pages of a crossing store are RAM: its first bytes reach hA, the rest hB. */
  predicate CrossesRam(m: Machine, va: u32, bytes: seq<byte>, hA: int, hB: int)
    requires WellFormed(m) && PageOffset(va) + |bytes| > 4096
  {
    var k := 4096 - PageOffset(va);
    var mid := AfterFirst(m, va, bytes[..k], hA);
    ReachesRam(m, va, hA) && WellFormed(mid) && ReachesRam(mid, Advance(va, k), hB)
  }

  /** The second page's walk marks the entry at the very end of the first page's frame, in
      a byte the store has just written. */
  predicate Clash(m: Machine, vb: u32, hA: int, k: nat)
    requires WellFormed(m)
  {
    Walks(m, vb) && FindPte(m.w, vb).Found? &&
    var pte := FindPte(m.w, vb).pte;
    pte + 8 == hA + k && (m.w.mem[pte + 7] < 128 || (k >= 2 && m.w.mem[pte + 6] % 2 == 0))
  }

  /** The two pages of a crossing store clash. */
  predicate Clashes(m: Machine, va: u32, bytes: seq<byte>, hA: int)
    requires WellFormed(m) && PageOffset(va) + |bytes| > 4096
  {
    var k := 4096 - PageOffset(va);
    var mid := AfterFirst(m, va, bytes[..k], hA);
    WellFormed(mid) && Clash(mid, Advance(va, k), hA, k)
  }

  lemma ClashExact(m: Machine, vb: u32, hA: int, k: nat, stale: bool)
    requires MachineOk(m, stale) && WellFormed(m) && InHost(m.w.mem, hA, k) && hA % 4096 + k == 4096 && 0 < k < 8
    ensures |Write(m, vb).0.w.mem| == |m.w.mem|
    ensures Peek(Write(m, vb).0.w.mem, hA, k) == Peek(m.w.mem, hA, k) <==> !Clash(m, vb, hA, k)
  {
    hide MachineOk, WellFormed, Write, Walks, FindPte, SetRC, Peek;
    OkWellFormed(m, stale);
    WriteMemory(m, vb, stale);
    if Walks(m, vb) && FindPte(m.w, vb).Found? {
      MarkTail(m.w.mem, FindPte(m.w, vb).pte, hA, k);
    }
  }

  lemma MarkTail(mem: Memory, pte: nat, hA: int, k: nat)
    requires pte % 8 == 0 && pte + 8 <= |mem| && InHost(mem, hA, k) && hA % 4096 + k == 4096 && 0 < k < 8
    ensures Peek(SetRC(mem, pte, true), hA, k) == Peek(mem, hA, k) <==>
            !(pte + 8 == hA + k && (mem[pte + 7] < 128 || (k >= 2 && mem[pte + 6] % 2 == 0)))
  {
    var mem' := SetRC(mem, pte, true);
    TailBytes(pte, hA, k);
    MarkedBytes(mem, pte);
    hide SetRC;
    var a, b := Peek(mem', hA, k), Peek(mem, hA, k);
    assert forall i: nat :: i < k ==> a[i] == mem'[hA + i] && b[i] == mem[hA + i];
    if pte + 8 == hA + k {
      assert a[k - 1] == mem'[pte + 7] && b[k - 1] == mem[pte + 7];
      if k >= 2 {
        assert a[k - 2] == mem'[pte + 6] && b[k - 2] == mem[pte + 6];
      }
    }
  }

  lemma MarkedBytes(mem: Memory, pte: nat)
    requires pte + 8 <= |mem|
    ensures var mem' := SetRC(mem, pte, true);
            && (forall h: nat :: h < |mem| && h != pte + 6 && h != pte + 7 ==> mem'[h] == mem[h])
            && (mem'[pte + 7] != mem[pte + 7] <==> mem[pte + 7] < 128)
            && (mem'[pte + 6] != mem[pte + 6] <==> mem[pte + 6] % 2 == 0)
  {
  }

  /** An entry reaches into the last k bytes of a frame only as its last entry. */
  lemma TailBytes(pte: nat, hA: int, k: nat)
    requires pte % 8 == 0 && hA % 4096 + k == 4096 && 0 < k < 8
    ensures hA <= pte + 7 < hA + k <==> pte + 8 == hA + k
    ensures hA <= pte + 6 < hA + k <==> pte + 8 == hA + k && k >= 2
  {
    Multiple(hA, k);
    var p, q := pte / 8, (hA + k) / 8;
    assert pte == 8 * p && hA + k == 8 * q;
  }

  lemma Multiple(hA: int, k: nat)
    requires hA % 4096 + k == 4096
    ensures (hA + k) % 8 == 0
  {
    QuotientUnique(hA + k, 8, 512 * (hA / 4096 + 1), 0);
  }

  /** Different bytes give different values. */
  lemma {:induction false} BigEndianInjective(x: nat, a: seq<byte>, y: nat, b: seq<byte>)
    requires |a| == |b| && BigEndian(x, a) == BigEndian(y, b)
    ensures x == y && a == b
    decreases |a|
  {
    if a != [] {
      BigEndianInjective(x * 256 + a[0], a[1..], y * 256 + b[0], b[1..]);
      assert a == [a[0]] + a[1..] && b == [b[0]] + b[1..];
    }
  }

  /** A store that crosses into the next page and a load of the same address agree,
      whatever frames the two pages map to, exactly when the two do not clash. */
  lemma CrossingExact(m: Machine, va: u32, n: nat, v: nat, io: Devices, hA: int, hB: int, stale: bool)
    requires MachineOk(m, stale) && WellFormed(m) && AccessSize(n) && !(n == 8 && va % 4 != 0)
    requires PageOffset(va) + n > 4096 && CrossesRam(m, va, BytesOf(v, n), hA, hB)
    ensures WellFormed(Store(m, va, n, v).0) && Store(m, va, n, v).1 == Done([])
    ensures Load(Store(m, va, n, v).0, va, n, io).1 == Value(v % Radix(n)) <==> !Clashes(m, va, BytesOf(v, n), hA)
  {
    hide MachineOk, WellFormed, Cached, CrossesRam, Write, PageOffset, BytesOf, StoreBytes, Load, Store, AfterFirst, Peek, Clash, Advance, BigEndian, Misfit;
    OffsetBelow(va);
    var k := 4096 - PageOffset(va);
    var bytes := BytesOf(v, n);
    assert Write(m, va).1 == Hit(HostByte(hA)) by { CrossesHit(m, va, bytes, hA, hB); }
    CrossingStore(m, va, n, v, stale);
    CrossingEnd(m, va, bytes, k, hA, hB, stale);
    var end := CrossedEnd(m, va, bytes, k, hA, hB);
    CrossingLoad(end, va, n, k, io, hA, hB);
    Spliced(Peek(end.w.mem, hA, k), k, v, n);
  }

  /** Only the stored first bytes, followed by the rest, give the stored value. */
  lemma Spliced(first: seq<byte>, k: nat, v: nat, n: nat)
    requires |first| == k <= n
    ensures var bytes := BytesOf(v, n);
            BigEndian(BigEndian(0, first), bytes[k..]) == v % Radix(n) <==> first == bytes[..k]
  {
    hide BytesOf, BigEndian, Radix;
    var bytes := BytesOf(v, n);
    assert bytes == bytes[..k] + bytes[k..];
    assert (first + bytes[k..])[..k] == first;
    BigEndianAppend(0, first, bytes[k..]);
    BytesRoundTrip(0, v, n);
    if BigEndian(0, first + bytes[k..]) == BigEndian(0, bytes) {
      BigEndianInjective(0, first + bytes[k..], 0, bytes);
    }
  }

  function CrossedEnd(m: Machine, va: u32, bytes: seq<byte>, k: nat, hA: int, hB: int): Machine
    requires WellFormed(m) && k < |bytes| && WellFormed(AfterFirst(m, va, bytes[..k], hA))
  {
    AfterFirst(AfterFirst(m, va, bytes[..k], hA), Advance(va, k), bytes[k..], hB)
  }

  lemma CrossingEnd(m: Machine, va: u32, bytes: seq<byte>, k: nat, hA: int, hB: int, stale: bool)
    requires MachineOk(m, stale) && WellFormed(m) && 0 < k == 4096 - PageOffset(va) < |bytes| <= 8
    requires CrossesRam(m, va, bytes, hA, hB)
    ensures WellFormed(AfterFirst(m, va, bytes[..k], hA))
    ensures var end := CrossedEnd(m, va, bytes, k, hA, hB);
            && WellFormed(end) && StoreBytes(m, va, bytes) == (end, Done([]))
            && Cached(end, va, hA - va, false) && InHost(end.w.mem, hA, k)
            && (Peek(end.w.mem, hA, k) == bytes[..k] <==> !Clash(AfterFirst(m, va, bytes[..k], hA), Advance(va, k), hA, k))
            && Cached(end, Advance(va, k), hB - Advance(va, k), false) && InHost(end.w.mem, hB, |bytes| - k)
            && Peek(end.w.mem, hB, |bytes| - k) == bytes[k..]
  {
    hide MachineOk, WellFormed, Cached, ReachesRam, PageOffset, StoreBytes, AfterFirst, Peek, Clash, Advance, SetIndex, Write;
    NextPage(va, k);
    assert bytes == bytes[..k] + bytes[k..];
    FirstPage(m, va, bytes[..k], bytes[k..], hA, stale);
    var mid := AfterFirst(m, va, bytes[..k], hA);
    SecondPage(mid, va, Advance(va, k), bytes[k..], hA, k, hB);
    ClashExact(mid, Advance(va, k), hA, k, true);
  }

  lemma CrossingStore(m: Machine, va: u32, n: nat, v: nat, stale: bool)
    requires MachineOk(m, stale) && WellFormed(m) && AccessSize(n) && !(n == 8 && va % 4 != 0)
    requires Write(m, va).1.Hit? && Write(m, va).1.target.HostByte?
    ensures Store(m, va, n, v) == StoreBytes(m, va, BytesOf(v, n)) && WellFormed(Store(m, va, n, v).0)
  {
    hide MachineOk, WellFormed, Store, StoreBytes, BytesOf;
    StoreIsByteFold(m, va, n, v, stale);
    StoreWellFormed(m, va, n, v);
  }

  lemma CrossingLoad(m: Machine, va: u32, n: nat, k: nat, io: Devices, hA: int, hB: int)
    requires WellFormed(m) && AccessSize(n) && !(n == 8 && va % 4 != 0) && 0 < k == 4096 - PageOffset(va) < n
    requires Cached(m, va, hA - va, false) && InHost(m.w.mem, hA, k)
    requires Cached(m, Advance(va, k), hB - Advance(va, k), false) && InHost(m.w.mem, hB, n - k)
    ensures Load(m, va, n, io) == (m, Value(BigEndian(BigEndian(0, Peek(m.w.mem, hA, k)), Peek(m.w.mem, hB, n - k))))
  {
    hide WellFormed, Cached, Read, Peek, Advance, BigEndian, Misfit;
    assert PageOffset(Advance(va, k)) == 0 by { NextPage(va, k); }
    if !Misfit(va, n) {
      AlignedFits(va, n);
    }
    CachedRead(m, va, hA - va);
    hide PageOffset;
    PlainLoadBytes(m, va, k, n - k, 0, io, hA - va);
    PlainLoadBytes(m, Advance(va, k), n - k, 0, BigEndian(0, Peek(m.w.mem, hA, k)), io, hB - Advance(va, k));
  }

  lemma CrossesHit(m: Machine, va: u32, bytes: seq<byte>, hA: int, hB: int)
    requires WellFormed(m) && PageOffset(va) + |bytes| > 4096 && CrossesRam(m, va, bytes, hA, hB)
    ensures Write(m, va).1 == Hit(HostByte(hA))
  {
    hide WellFormed, Write, Read, AfterFirst;
  }
}
