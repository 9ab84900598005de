/** The replacement policy over whole runs: the bits of every set are those its history
    of touches leaves, whatever happened, so each victim is the oldest way. */
module PlruRuns {
  import opened Bits
  import opened Address
  import opened Translation
  import opened SoftTlb
  import opened Plru
  import opened Mmu
  import opened MemoryAccess
  import opened MmuRuns

  /** One use of a secondary way: a translation found its page there, was put there,
      or a store through the primary entry marked it. */
  datatype Touch = Touch(ty: TlbType, home: nat, way: Way)

  type Way = k: nat | k < 4

  /** The ways of one set in the order they were touched. */
  function HistoryOf(ts: seq<Touch>, ty: TlbType, s: nat): (h: History)
    ensures Ways(h)
    decreases |ts|
  {
    if ts == [] then []
    else (if ts[0].ty == ty && ts[0].home == s then [ts[0].way] else []) + HistoryOf(ts[1..], ty, s)
  }

  lemma {:induction false} HistoryConcat(a: seq<Touch>, b: seq<Touch>, ty: TlbType, s: nat)
    ensures HistoryOf(a + b, ty, s) == HistoryOf(a, ty, s) + HistoryOf(b, ty, s)
    decreases |a|
  {
    if a == [] {
      assert a + b == b;
    } else {
      assert (a + b)[1..] == a[1..] + b;
      HistoryConcat(a[1..], b, ty, s);
    }
  }

  lemma HistoryOne(t: Touch, ty: TlbType, s: nat)
    ensures HistoryOf([t], ty, s) == (if t.ty == ty then Noted(s, t.home, t.way) else []) && HistoryOf([], ty, s) == []
  {
    assert [t][1..] == [];
  }

  // ---------- The touches of each operation ----------

  function LookupTouches(m: Machine, ty: TlbType, va: u32, write: bool): seq<Touch>
    requires WellFormed(m)
  {
    var t, s := TlbOf(m, ty), SetAt(m, ty, va);
    var way := FindWay(t.slots, s, PageTag(va));
    if way < 4 then [Touch(ty, s, way)]
    else if Refill(m.w, ty, CurrentMode(m.msr, ty), va, write).Filled? then [Touch(ty, s, VictimWay(t.slots, s))]
    else []
  }

  predicate PrimaryHit(m: Machine, ty: TlbType, va: u32)
    requires WellFormed(m)
  {
    TlbOf(m, ty).slots[5 * SetAt(m, ty, va)].tag == PageTag(va)
  }

  /** A fetch or a load: a primary hit touches nothing. */
  function ReadTouches(m: Machine, ty: TlbType, va: u32): seq<Touch>
    requires WellFormed(m)
  {
    if PrimaryHit(m, ty, va) then [] else LookupTouches(m, ty, va, false)
  }

  /** A store: a primary hit that sets C touches the way that holds the same page. */
  function WriteTouches(m: Machine, va: u32): seq<Touch>
    requires WellFormed(m)
  {
    var s := SetAt(m, DTLB, va);
    if !PrimaryHit(m, DTLB, va) then LookupTouches(m, DTLB, va, true)
    else
      var way := FindWay(m.dtlb.slots, s, PageTag(va));
      if Prepare(m, m.dtlb.slots[5 * s], va).1.MarkChanged? && way < 4 then [Touch(DTLB, s, way)] else []
  }

  function LoadBytesTouches(m: Machine, va: u32, n: nat, io: Devices): seq<Touch>
    requires WellFormed(m)
    decreases n
  {
    if n == 0 then []
    else
      ReadWellFormed(m, va);
      var (m1, b) := LoadByte(m, va, io);
      ReadTouches(m, DTLB, va) + if b.Value? then LoadBytesTouches(m1, Advance(va, 1), n - 1, io) else []
  }

  predicate Splits(va: u32, n: nat)
    requires n > 0
  {
    Misfit(va, n) && !(n == 8 && va % 4 != 0) && PageOffset(va) + n > 4096
  }

  function LoadTouches(m: Machine, va: u32, n: nat, io: Devices): seq<Touch>
    requires WellFormed(m) && AccessSize(n)
  {
    ReadWellFormed(m, va);
    var (m1, end) := Read(m, va);
    ReadTouches(m, DTLB, va) +
    if n > 1 && end.Hit? && end.target.HostByte? && Splits(va, n) then LoadBytesTouches(m1, va, n, io) else []
  }

  function StoreBytesTouches(m: Machine, va: u32, bytes: seq<byte>): seq<Touch>
    requires WellFormed(m)
    decreases |bytes|
  {
    if bytes == [] then []
    else
      StoreByteWellFormed(m, va, bytes[0]);
      var (m1, first) := StoreByte(m, va, bytes[0]);
      WriteTouches(m, va) + if first.Done? then StoreBytesTouches(m1, Advance(va, 1), bytes[1..]) else []
  }

  function StoreTouches(m: Machine, va: u32, n: nat, v: nat): seq<Touch>
    requires WellFormed(m) && AccessSize(n)
  {
    WriteWellFormed(m, va);
    var (m1, end) := Write(m, va);
    WriteTouches(m, va) +
    if n > 1 && end.Hit? && end.target.HostByte? && Splits(va, n) then StoreBytesTouches(m1, va, BytesOf(v, n)) else []
  }

  function ZeroTouches(m: Machine, va: u32, count: nat): seq<Touch>
    requires WellFormed(m)
    decreases count
  {
    if count == 0 then []
    else
      StoreWellFormed(m, va, 8, 0);
      var (m1, first) := Store(m, va, 8, 0);
      StoreTouches(m, va, 8, 0) + if first.Done? then ZeroTouches(m1, Advance(va, 8), count - 1) else []
  }

  /** dcbz looks its page up once; on a page that is not a device it then stores. */
  function DcbzTouches(m: Machine, va: u32): seq<Touch>
    requires WellFormed(m)
  {
    var s := SetAt(m, DTLB, va);
    if PrimaryHit(m, DTLB, va) then
      if m.dtlb.slots[5 * s].backing.Memory? then ZeroTouches(m, va, 4) else []
    else
      var (m1, second) := LookupOrRefill(m, DTLB, va, true);
      LookupTouches(m, DTLB, va, true) +
      if (if second.InWay? then m1.dtlb.slots[5 * s + 1 + second.way].backing.Memory? else second.end.NoMemory?)
      then ZeroTouches(m1, va, 4)
      else []
  }

  function EventTouches(m: Machine, ev: Event, io: Devices): seq<Touch>
    requires WellFormed(m) && Possible(m, ev)
  {
    match ev
    case FetchAt(va) => ReadTouches(m, ITLB, va)
    case LoadAt(va, size) => LoadTouches(m, va, size, io)
    case StoreAt(va, size, value) => StoreTouches(m, va, size, value)
    case ZeroAt(va) => DcbzTouches(m, va)
    case _ => []
  }

  /** All touches of a run, in order. */
  ghost function RunTouches(m: Machine, evs: seq<Event>, io: Devices): seq<Touch>
    requires WellFormed(m) && AllowedRun(m, evs, io)
    decreases |evs|
  {
    if evs == [] then [] else EventTouches(m, evs[0], io) + RunTouches(Step(m, evs[0], io), evs[1..], io)
  }

  // ---------- Each operation records its touches ----------

  /** The bits of set s of one TLB are those a history leaves. */
  predicate Keeps(m: Machine, ty: TlbType, s: nat, h: History)
    requires WellFormed(m) && s < SETS
  {
    Recorded(TlbOf(m, ty).slots, s, h)
  }

  /** The step from m to m1 extends every history of set s by its touches. */
  ghost predicate Extends(m: Machine, m1: Machine, ts: seq<Touch>, ty: TlbType, s: nat)
    requires WellFormed(m) && WellFormed(m1) && s < SETS
  {
    forall h: History :: Keeps(m, ty, s, h) ==> Keeps(m1, ty, s, h + HistoryOf(ts, ty, s))
  }

  lemma ExtendsTwice(m: Machine, m1: Machine, m2: Machine, a: seq<Touch>, b: seq<Touch>, ty: TlbType, s: nat)
    requires WellFormed(m) && WellFormed(m1) && WellFormed(m2) && s < SETS
    requires Extends(m, m1, a, ty, s) && Extends(m1, m2, b, ty, s)
    ensures Extends(m, m2, a + b, ty, s)
  {
    hide WellFormed, Keeps, HistoryOf;
    HistoryConcat(a, b, ty, s);
    forall h: History | Keeps(m, ty, s, h)
      ensures Keeps(m2, ty, s, h + HistoryOf(a + b, ty, s))
    {
      var ha, hb := HistoryOf(a, ty, s), HistoryOf(b, ty, s);
      assert Keeps(m1, ty, s, h + ha);
      assert h + ha + hb == h + (ha + hb);
    }
  }

  /** No bit of any set changed. */
  lemma NothingTouched(m: Machine, m1: Machine, ty: TlbType, s: nat)
    requires WellFormed(m) && WellFormed(m1) && s < SETS
    requires forall h: History :: Recorded(TlbOf(m, ty).slots, s, h) ==> Recorded(TlbOf(m1, ty).slots, s, h)
    ensures Extends(m, m1, [], ty, s)
  {
    hide WellFormed, Recorded;
    assert forall h: History :: h + [] == h;
  }

  /** One way of one set was touched. */
  lemma OneTouched(m: Machine, m1: Machine, t: Touch, ty: TlbType, s: nat)
    requires WellFormed(m) && WellFormed(m1) && s < SETS
    requires t.ty != ty ==> TlbOf(m1, ty) == TlbOf(m, ty)
    requires t.ty == ty ==> forall h: History :: Recorded(TlbOf(m, ty).slots, s, h) ==>
                                                 Recorded(TlbOf(m1, ty).slots, s, h + Noted(s, t.home, t.way))
    ensures Extends(m, m1, [t], ty, s)
  {
    hide WellFormed, Recorded;
    HistoryOne(t, ty, s);
    assert forall h: History :: h + [] == h;
  }

  lemma LookupExtends(m: Machine, side: TlbType, va: u32, write: bool, ty: TlbType, s: nat)
    requires WellFormed(m) && s < SETS
    ensures Extends(m, LookupOrRefill(m, side, va, write).0, LookupTouches(m, side, va, write), ty, s)
  {
    hide WellFormed, ValidWorld, Recorded, TouchWay, FindWay, Install, VictimWay, Extends, Noted, PageTag, SetFor;
    Slots(m, side);
    var t, home := TlbOf(m, side), SetAt(m, side, va);
    var m1 := LookupOrRefill(m, side, va, write).0;
    var way := FindWay(t.slots, home, PageTag(va));
    if way < 4 {
      forall h: History | Recorded(t.slots, s, h)
        ensures Recorded(TouchWay(t.slots, home, way), s, h + Noted(s, home, way))
      {
        TouchAnywhere(t.slots, s, home, way, h);
      }
      OneTouched(m, m1, Touch(side, home, way), ty, s);
    } else {
      RefillExtends(m, side, va, write, ty, s);
    }
  }

  lemma Slots(m: Machine, ty: TlbType)
    requires WellFormed(m)
    ensures |TlbOf(m, ty).slots| == SLOTS
  {
  }

  lemma RefillExtends(m: Machine, side: TlbType, va: u32, write: bool, ty: TlbType, s: nat)
    requires WellFormed(m) && s < SETS
    requires var t := TlbOf(m, side); |t.slots| == SLOTS && FindWay(t.slots, SetAt(m, side, va), PageTag(va)) == 4
    ensures Extends(m, RefillMiss(m, side, va, write).0, LookupTouches(m, side, va, write), ty, s)
  {
    hide WellFormed, ValidWorld, Recorded, FindWay, Install, VictimWay, Extends, Noted, PageTag, SetFor, Refill, TranslateEffect;
    Slots(m, side);
    WorldOf(m);
    var t, home := TlbOf(m, side), SetAt(m, side, va);
    var m1 := RefillMiss(m, side, va, write).0;
    var r := Refill(m.w, side, CurrentMode(m.msr, side), va, write);
    if r.Filled? {
      forall h: History | Recorded(t.slots, s, h)
        ensures Recorded(Install(t, home, PageTag(va), r.fill, r.changed).slots, s, h + Noted(s, home, VictimWay(t.slots, home)))
      {
        InstallRecords(t, s, home, PageTag(va), r.fill, r.changed, h);
      }
      OneTouched(m, m1, Touch(side, home, VictimWay(t.slots, home)), ty, s);
    } else {
      NothingTouched(m, m1, ty, s);
    }
  }

  /** Promotion after a lookup adds no touch. */
  lemma PromoteExtends(m: Machine, side: TlbType, home: nat, way: nat, m1: Machine, ty: TlbType, s: nat)
    requires WellFormed(m) && WellFormed(m1) && s < SETS && home < SETS && way < 4
    requires |TlbOf(m, side).slots| == SLOTS
    requires TlbOf(m1, side) == Promote(TlbOf(m, side), home, way) && (ty != side ==> TlbOf(m1, ty) == TlbOf(m, ty))
    ensures Extends(m, m1, [], ty, s)
  {
    hide WellFormed, Recorded, Promote;
    forall h: History | Recorded(TlbOf(m, side).slots, s, h)
      ensures Recorded(Promote(TlbOf(m, side), home, way).slots, s, h)
    {
      PromoteRecords(TlbOf(m, side), s, home, way, h);
    }
    NothingTouched(m, m1, ty, s);
  }

  lemma FetchExtends(m: Machine, va: u32, ty: TlbType, s: nat)
    requires WellFormed(m) && s < SETS
    ensures WellFormed(Fetch(m, va).0) && Extends(m, Fetch(m, va).0, ReadTouches(m, ITLB, va), ty, s)
  {
    hide WellFormed, ValidWorld, LookupOrRefill, LookupTouches, Extends, PageTag, SetFor, Promote;
    Slots(m, ITLB);
    FetchWellFormed(m, va);
    var home := SetAt(m, ITLB, va);
    var m2 := Fetch(m, va).0;
    if PrimaryHit(m, ITLB, va) {
      NothingTouched(m, m, ty, s);
    } else {
      LookupExtends(m, ITLB, va, false, ty, s);
      var (m1, second) := LookupOrRefill(m, ITLB, va, false);
      Slots(m1, ITLB);
      if second.InWay? {
        PromoteExtends(m1, ITLB, home, second.way, m2, ty, s);
        ExtendsTwice(m, m1, m2, LookupTouches(m, ITLB, va, false), [], ty, s);
        assert LookupTouches(m, ITLB, va, false) + [] == LookupTouches(m, ITLB, va, false);
      }
    }
  }

  lemma ReadExtends(m: Machine, va: u32, ty: TlbType, s: nat)
    requires WellFormed(m) && s < SETS
    ensures WellFormed(Read(m, va).0) && Extends(m, Read(m, va).0, ReadTouches(m, DTLB, va), ty, s)
  {
    hide WellFormed, ValidWorld, LookupOrRefill, LookupTouches, Extends, PageTag, SetFor, Promote;
    Slots(m, DTLB);
    ReadWellFormed(m, va);
    var home := SetAt(m, DTLB, va);
    var m2 := Read(m, va).0;
    if PrimaryHit(m, DTLB, va) {
      NothingTouched(m, m, ty, s);
    } else {
      LookupExtends(m, DTLB, va, false, ty, s);
      var (m1, second) := LookupOrRefill(m, DTLB, va, false);
      Slots(m1, DTLB);
      if second.InWay? && m1.dtlb.slots[5 * home + 1 + second.way].backing.Memory? {
        PromoteExtends(m1, DTLB, home, second.way, m2, ty, s);
        ExtendsTwice(m, m1, m2, LookupTouches(m, DTLB, va, false), [], ty, s);
        assert LookupTouches(m, DTLB, va, false) + [] == LookupTouches(m, DTLB, va, false);
      }
    }
  }

  lemma FinishExtends(m: Machine, way: nat, va: u32, ty: TlbType, s: nat)
    requires WellFormed(m) && s < SETS && way < 4 && WellFormed(FinishWrite(m, way, va).0)
    ensures Extends(m, FinishWrite(m, way, va).0, [], ty, s)
  {
    hide WellFormed, ValidWorld, Recorded, Prepare, MarkSlot, Promote, PageTag, SetFor;
    Slots(m, DTLB);
    var home := SetAt(m, DTLB, va);
    var slots := MarkSlot(m.dtlb.slots, 5 * home + 1 + way);
    var marked := m.dtlb.(slots := slots);
    forall h: History | Recorded(m.dtlb.slots, s, h)
      ensures Recorded(slots, s, h) && Recorded(Promote(marked, home, way).slots, s, h)
      ensures Recorded(Promote(m.dtlb, home, way).slots, s, h)
    {
      MarkRecords(m.dtlb.slots, s, 5 * home + 1 + way, h);
      PromoteRecords(marked, s, home, way, h);
      PromoteRecords(m.dtlb, s, home, way, h);
    }
    NothingTouched(m, FinishWrite(m, way, va).0, ty, s);
  }

  lemma WriteHitExtends(m: Machine, va: u32, ty: TlbType, s: nat)
    requires WellFormed(m) && s < SETS && WellFormed(WriteHit(m, va).0) && PrimaryHit(m, DTLB, va)
    ensures Extends(m, WriteHit(m, va).0, WriteTouches(m, va), ty, s)
  {
    hide WellFormed, ValidWorld, Recorded, Prepare, MarkBoth, FindWay, PageTag, SetFor, Noted, Extends;
    Slots(m, DTLB);
    var home := SetAt(m, DTLB, va);
    var way := FindWay(m.dtlb.slots, home, PageTag(va));
    var m1 := WriteHit(m, va).0;
    if Prepare(m, m.dtlb.slots[5 * home], va).1.MarkChanged? {
      forall h: History | Recorded(m.dtlb.slots, s, h)
        ensures Recorded(MarkBoth(m.dtlb, home).slots, s, h + if way < 4 then Noted(s, home, way) else [])
      {
        MarkBothRecords(m.dtlb, s, home, h);
      }
      if way < 4 {
        OneTouched(m, m1, Touch(DTLB, home, way), ty, s);
      } else {
        assert forall h: History :: h + [] == h;
        NothingTouched(m, m1, ty, s);
      }
    } else {
      NothingTouched(m, m1, ty, s);
    }
  }

  lemma WriteExtends(m: Machine, va: u32, ty: TlbType, s: nat)
    requires WellFormed(m) && s < SETS
    ensures WellFormed(Write(m, va).0) && Extends(m, Write(m, va).0, WriteTouches(m, va), ty, s)
  {
    hide WellFormed, ValidWorld, LookupOrRefill, LookupTouches, Extends, PageTag, SetFor, Prepare, FinishWrite, WriteHit;
    Slots(m, DTLB);
    WriteWellFormed(m, va);
    var m2 := Write(m, va).0;
    if PrimaryHit(m, DTLB, va) {
      WriteHitExtends(m, va, ty, s);
    } else {
      LookupExtends(m, DTLB, va, true, ty, s);
      var (m1, second) := LookupOrRefill(m, DTLB, va, true);
      if second.InWay? {
        FinishExtends(m1, second.way, va, ty, s);
        ExtendsTwice(m, m1, m2, LookupTouches(m, DTLB, va, true), [], ty, s);
        assert LookupTouches(m, DTLB, va, true) + [] == LookupTouches(m, DTLB, va, true);
      }
    }
  }

  lemma LoadByteExtends(m: Machine, va: u32, io: Devices, ty: TlbType, s: nat)
    requires WellFormed(m) && s < SETS
    ensures WellFormed(LoadByte(m, va, io).0) && Extends(m, LoadByte(m, va, io).0, ReadTouches(m, DTLB, va), ty, s)
  {
    hide WellFormed, Read, ReadTouches, Extends;
    ReadExtends(m, va, ty, s);
  }

  lemma {:induction false} LoadBytesExtends(m: Machine, va: u32, n: nat, acc: nat, io: Devices, ty: TlbType, s: nat)
    requires WellFormed(m) && s < SETS
    ensures WellFormed(LoadBytes(m, va, n, acc, io).0)
    ensures Extends(m, LoadBytes(m, va, n, acc, io).0, LoadBytesTouches(m, va, n, io), ty, s)
    decreases n
  {
    hide WellFormed, LoadByte, ReadTouches, Extends;
    if n == 0 {
      NothingTouched(m, m, ty, s);
    } else {
      LoadByteExtends(m, va, io, ty, s);
      var (m1, b) := LoadByte(m, va, io);
      var ts := ReadTouches(m, DTLB, va);
      if b.Value? {
        LoadBytesExtends(m1, Advance(va, 1), n - 1, acc * 256 + b.v, io, ty, s);
        ExtendsTwice(m, m1, LoadBytes(m, va, n, acc, io).0, ts, LoadBytesTouches(m1, Advance(va, 1), n - 1, io), ty, s);
      } else {
        assert ts + [] == ts;
      }
    }
  }

  lemma LoadExtends(m: Machine, va: u32, n: nat, io: Devices, ty: TlbType, s: nat)
    requires WellFormed(m) && AccessSize(n) && s < SETS
    ensures WellFormed(Load(m, va, n, io).0) && Extends(m, Load(m, va, n, io).0, LoadTouches(m, va, n, io), ty, s)
  {
    hide WellFormed, Read, ReadTouches, LoadBytes, LoadBytesTouches, Extends;
    ReadExtends(m, va, ty, s);
    var (m1, end) := Read(m, va);
    var ts := ReadTouches(m, DTLB, va);
    if n > 1 && end.Hit? && end.target.HostByte? && Splits(va, n) {
      LoadBytesExtends(m1, va, n, 0, io, ty, s);
      ExtendsTwice(m, m1, Load(m, va, n, io).0, ts, LoadBytesTouches(m1, va, n, io), ty, s);
    } else {
      assert ts + [] == ts;
    }
  }

  lemma PokedExtends(m: Machine, m1: Machine, mem: Memory, ts: seq<Touch>, ty: TlbType, s: nat)
    requires WellFormed(m) && WellFormed(m1) && s < SETS && |mem| == |m1.w.mem| && Extends(m, m1, ts, ty, s)
    ensures WellFormed(WithMemory(m1, mem)) && Extends(m, WithMemory(m1, mem), ts, ty, s)
  {
    MemoryWellFormed(m1, mem);
    hide WellFormed, Recorded, HistoryOf;
    assert forall h: History :: Keeps(WithMemory(m1, mem), ty, s, h) == Keeps(m1, ty, s, h);
  }

  lemma StoreByteExtends(m: Machine, va: u32, b: byte, ty: TlbType, s: nat)
    requires WellFormed(m) && s < SETS
    ensures WellFormed(StoreByte(m, va, b).0) && Extends(m, StoreByte(m, va, b).0, WriteTouches(m, va), ty, s)
  {
    hide WellFormed, Write, WriteTouches, Extends, Poke;
    WriteExtends(m, va, ty, s);
    var (m1, end) := Write(m, va);
    if end.Hit? && end.target.HostByte? {
      PokedExtends(m, m1, Poke(m1.w.mem, end.target.host, [b]), WriteTouches(m, va), ty, s);
    }
  }

  lemma {:induction false} StoreBytesExtends(m: Machine, va: u32, bytes: seq<byte>, ty: TlbType, s: nat)
    requires WellFormed(m) && s < SETS
    ensures WellFormed(StoreBytes(m, va, bytes).0)
    ensures Extends(m, StoreBytes(m, va, bytes).0, StoreBytesTouches(m, va, bytes), ty, s)
    decreases |bytes|
  {
    hide WellFormed, StoreByte, WriteTouches, Extends;
    if bytes == [] {
      NothingTouched(m, m, ty, s);
    } else {
      StoreByteExtends(m, va, bytes[0], ty, s);
      var (m1, first) := StoreByte(m, va, bytes[0]);
      var ts := WriteTouches(m, va);
      if first.Done? {
        StoreBytesExtends(m1, Advance(va, 1), bytes[1..], ty, s);
        ExtendsTwice(m, m1, StoreBytes(m, va, bytes).0, ts, StoreBytesTouches(m1, Advance(va, 1), bytes[1..]), ty, s);
      } else {
        assert ts + [] == ts;
      }
    }
  }

  lemma StoreExtends(m: Machine, va: u32, n: nat, v: nat, ty: TlbType, s: nat)
    requires WellFormed(m) && AccessSize(n) && s < SETS
    ensures WellFormed(Store(m, va, n, v).0) && Extends(m, Store(m, va, n, v).0, StoreTouches(m, va, n, v), ty, s)
  {
    hide WellFormed, Write, WriteTouches, StoreByte, StoreBytes, StoreBytesTouches, Extends, Poke, BytesOf;
    WriteExtends(m, va, ty, s);
    StoreByteExtends(m, va, v % 256, ty, s);
    var (m1, end) := Write(m, va);
    var ts := WriteTouches(m, va);
    if n > 1 && end.Hit? && end.target.HostByte? && Splits(va, n) {
      StoreBytesExtends(m1, va, BytesOf(v, n), ty, s);
      ExtendsTwice(m, m1, Store(m, va, n, v).0, ts, StoreBytesTouches(m1, va, BytesOf(v, n)), ty, s);
    } else {
      assert ts + [] == ts;
      if n > 1 && end.Hit? && end.target.HostByte? {
        PokedExtends(m, m1, Poke(m1.w.mem, end.target.host, BytesOf(v, n)), ts, ty, s);
      }
    }
  }

  lemma {:induction false} ZeroExtends(m: Machine, va: u32, count: nat, ty: TlbType, s: nat)
    requires WellFormed(m) && s < SETS
    ensures WellFormed(ZeroBlock(m, va, count).0) && Extends(m, ZeroBlock(m, va, count).0, ZeroTouches(m, va, count), ty, s)
    decreases count
  {
    hide WellFormed, Store, StoreTouches, Extends;
    if count == 0 {
      NothingTouched(m, m, ty, s);
    } else {
      StoreExtends(m, va, 8, 0, ty, s);
      var (m1, first) := Store(m, va, 8, 0);
      var ts := StoreTouches(m, va, 8, 0);
      if first.Done? {
        ZeroExtends(m1, Advance(va, 8), count - 1, ty, s);
        ExtendsTwice(m, m1, ZeroBlock(m, va, count).0, ts, ZeroTouches(m1, Advance(va, 8), count - 1), ty, s);
      } else {
        assert ts + [] == ts;
      }
    }
  }

  lemma CheckExtends(m: Machine, i: nat, va: u32, ty: TlbType, s: nat)
    requires WellFormed(m) && i < SLOTS && s < SETS
    ensures WellFormed(CheckDevice(m, i, va).0) && Extends(m, CheckDevice(m, i, va).0, [], ty, s)
  {
    CheckDeviceWellFormed(m, i, va);
    hide WellFormed, ValidWorld, Prepare, Recorded, MarkSlot, Extends;
    Slots(m, DTLB);
    forall h: History | Recorded(m.dtlb.slots, s, h)
      ensures Recorded(MarkSlot(m.dtlb.slots, i), s, h)
    {
      MarkRecords(m.dtlb.slots, s, i, h);
    }
    NothingTouched(m, CheckDevice(m, i, va).0, ty, s);
  }

  lemma DcbzExtends(m: Machine, va: u32, ty: TlbType, s: nat)
    requires WellFormed(m) && s < SETS
    ensures WellFormed(Dcbz(m, va).0) && Extends(m, Dcbz(m, va).0, DcbzTouches(m, va), ty, s)
  {
    hide WellFormed, ValidWorld, LookupOrRefill, LookupTouches, ZeroBlock, ZeroTouches, CheckDevice, Extends, PageTag, SetFor;
    DcbzWellFormed(m, va);
    Slots(m, DTLB);
    var home := SetAt(m, DTLB, va);
    var m2 := Dcbz(m, va).0;
    if PrimaryHit(m, DTLB, va) {
      ZeroExtends(m, va, 4, ty, s);
      CheckExtends(m, 5 * home, va, ty, s);
    } else {
      LookupExtends(m, DTLB, va, true, ty, s);
      var (m1, second) := LookupOrRefill(m, DTLB, va, true);
      var ts := LookupTouches(m, DTLB, va, true);
      Slots(m1, DTLB);
      assert ts + [] == ts;
      ZeroExtends(m1, va, 4, ty, s);
      ExtendsTwice(m, m1, ZeroBlock(m1, va, 4).0, ts, ZeroTouches(m1, va, 4), ty, s);
      if second.InWay? {
        var i := 5 * home + 1 + second.way;
        CheckExtends(m1, i, va, ty, s);
        ExtendsTwice(m, m1, CheckDevice(m1, i, va).0, ts, [], ty, s);
      }
    }
  }

  // ---------- Context changes touch nothing ----------

  lemma SameSlots(m: Machine, m1: Machine, ty: TlbType, s: nat)
    requires WellFormed(m) && WellFormed(m1) && s < SETS && TlbOf(m1, ty).slots == TlbOf(m, ty).slots
    ensures Extends(m, m1, [], ty, s)
  {
    hide WellFormed, Recorded;
    NothingTouched(m, m1, ty, s);
  }

  /** A TLB of m1 is that of m after an invalidation. */
  lemma InvalidateExtends(m: Machine, m1: Machine, sources: Sources, ty: TlbType, s: nat)
    requires WellFormed(m) && WellFormed(m1) && s < SETS
    requires forall i :: i in TlbOf(m, ty).tracked ==> i < |TlbOf(m, ty).slots|
    requires TlbOf(m1, ty).slots == Invalidate(TlbOf(m, ty), sources).slots
    ensures Extends(m, m1, [], ty, s)
  {
    Slots(m, ty);
    hide WellFormed, Recorded, Invalidate;
    forall h: History | Recorded(TlbOf(m, ty).slots, s, h)
      ensures Recorded(TlbOf(m1, ty).slots, s, h)
    {
      InvalidateRecords(TlbOf(m, ty), s, sources, h);
    }
    NothingTouched(m, m1, ty, s);
  }

  lemma Bounded(m: Machine, ty: TlbType)
    requires WellFormed(m)
    ensures |TlbOf(m, ty).slots| == SLOTS && forall i :: i in TlbOf(m, ty).tracked ==> i < SLOTS
  {
  }

  lemma {:induction false} SyncExtends(m: Machine, ty: TlbType, s: nat)
    requires WellFormed(m) && s < SETS
    ensures Extends(m, ContextSync(m), [], ty, s)
    decreases |m.actions|
  {
    hide ValidWorld, Recorded, Invalidate, Extends;
    if m.actions == [] {
      SameSlots(m, m, ty, s);
    } else {
      var side := m.actions[|m.actions| - 1];
      var t := TlbOf(m, side);
      SynchronizeBounded(t);
      var m1 := WithTlb(m, side, Synchronize(t)).(actions := m.actions[..|m.actions| - 1]);
      if side == ty && t.pending != NOTHING {
        InvalidateExtends(m, m1, t.pending, ty, s);
      } else {
        SameSlots(m, m1, ty, s);
      }
      SyncExtends(m1, ty, s);
      var none: seq<Touch> := [];
      assert none + none == none;
      ExtendsTwice(m, m1, ContextSync(m), none, none, ty, s);
    }
  }

  lemma FlushPagesExtends(m: Machine, ty: TlbType, s: nat)
    requires WellFormed(m) && s < SETS
    ensures WellFormed(FlushPages(m)) && Extends(m, FlushPages(m), [], ty, s)
  {
    FlushPagesWellFormed(m);
    Bounded(m, ty);
    hide WellFormed, Invalidate, Extends;
    InvalidateExtends(m, FlushPages(m), PAGES, ty, s);
  }

  lemma FlushPageRecords(t: Tlb, s: nat, ea: u32, h: History)
    requires |t.slots| == SLOTS && s < SETS && Recorded(t.slots, s, h)
    ensures Recorded(FlushPage(t, ea).slots, s, h)
  {
    hide Recorded, FlushSet, PageTag, SetFor;
    FlushRecords(t.slots, s, SetFor(Super, ea), PageTag(ea), h);
    FlushRecords(FlushSet(t.slots, SetFor(Super, ea), PageTag(ea)), s, SetFor(User, ea), PageTag(ea), h);
  }

  lemma LoadEntryExtends(m: Machine, side: TlbType, ea: u32, way: nat, cmp: u32, rpa: u32, ty: TlbType, s: nat)
    requires WellFormed(m) && way < 2 && s < SETS
    ensures WellFormed(Load603(m, side, ea, way, cmp, rpa))
    ensures Extends(m, Load603(m, side, ea, way, cmp, rpa), [], ty, s)
  {
    Load603WellFormed(m, side, ea, way, cmp, rpa);
    Bounded(m, ty);
    var old_ := m.w.tlb603[Slot603(side, ea, way)];
    hide WellFormed, Recorded, FlushPage, Extends;
    var t := TlbOf(m, ty);
    var t1 := if old_.valid then FlushPage(t, old_.eaTag) else t;
    forall h: History | Recorded(t.slots, s, h)
      ensures Recorded(t1.slots, s, h) && Recorded(FlushPage(t1, PageTag(ea)).slots, s, h)
    {
      FlushPageRecords(t, s, old_.eaTag, h);
      FlushPageRecords(t1, s, PageTag(ea), h);
    }
    NothingTouched(m, Load603(m, side, ea, way, cmp, rpa), ty, s);
  }

  lemma ControlExtends(m: Machine, ev: Event, ty: TlbType, s: nat)
    requires WellFormed(m) && Possible(m, ev) && s < SETS
    ensures WellFormed(Control(m, ev)) && Extends(m, Control(m, ev), [], ty, s)
  {
    ControlWellFormed(m, ev);
    hide WellFormed, ContextSync, Tlbie, FlushPages, Load603, Extends, PpcBatEntry, Bat601Entry;
    match ev {
      case Sync => SyncExtends(m, ty, s);
      case TlbInvalidate(ea) => TlbieExtends(m, ea, ty, s);
      case TlbInvalidateAll => FlushPagesExtends(m, ty, s);
      case TlbLoad(side, ea, way, cmp, rpa) => LoadEntryExtends(m, side, ea, way, cmp, rpa, ty, s);
      case _ => SameSlots(m, Control(m, ev), ty, s);
    }
  }

  lemma TlbieExtends(m: Machine, ea: u32, ty: TlbType, s: nat)
    requires WellFormed(m) && s < SETS
    ensures WellFormed(Tlbie(m, ea)) && Extends(m, Tlbie(m, ea), [], ty, s)
  {
    var m1 := if m.w.is603 then m.(w := InvalidateSet603(m.w, ea)) else m;
    assert WellFormed(m1);
    hide WellFormed, FlushPages, Extends, InvalidateSet603;
    SameSlots(m, m1, ty, s);
    FlushPagesExtends(m1, ty, s);
    ExtendsTwice(m, m1, Tlbie(m, ea), [], [], ty, s);
  }

  // ---------- Runs ----------

  lemma AccessExtends(m: Machine, ev: Event, io: Devices, ty: TlbType, s: nat)
    requires WellFormed(m) && Possible(m, ev) && IsAccess(ev) && s < SETS
    ensures WellFormed(Access(m, ev, io).0) && Extends(m, Access(m, ev, io).0, EventTouches(m, ev, io), ty, s)
  {
    AccessWellFormed(m, ev, io);
    hide WellFormed, Fetch, Load, Store, Dcbz, Extends, ReadTouches, LoadTouches, StoreTouches, DcbzTouches;
    match ev {
      case FetchAt(va) => FetchExtends(m, va, ty, s);
      case LoadAt(va, size) => LoadExtends(m, va, size, io, ty, s);
      case StoreAt(va, size, value) => StoreExtends(m, va, size, value, ty, s);
      case ZeroAt(va) => DcbzExtends(m, va, ty, s);
      case MemoryEdit(_, _) => SameSlots(m, Access(m, ev, io).0, ty, s);
      case _ =>
    }
  }

  /** Every event extends the history of every set by its touches. */
  lemma StepExtends(m: Machine, ev: Event, io: Devices, ty: TlbType, s: nat)
    requires WellFormed(m) && Possible(m, ev) && s < SETS
    ensures Extends(m, Step(m, ev, io), EventTouches(m, ev, io), ty, s)
  {
    hide WellFormed, Access, Control, Extends, ContextSync;
    var ts := EventTouches(m, ev, io);
    if IsAccess(ev) {
      AccessExtends(m, ev, io, ty, s);
      var (m1, faulted) := Access(m, ev, io);
      if faulted {
        SyncExtends(m1, ty, s);
        EndedWellFormed(m1, faulted);
        SameSlots(ContextSync(m1), TakeException(m1), ty, s);
        ExtendsTwice(m, m1, ContextSync(m1), ts, [], ty, s);
        ExtendsTwice(m, ContextSync(m1), TakeException(m1), ts + [], [], ty, s);
        assert ts + [] + [] == ts;
      }
    } else {
      ControlExtends(m, ev, ty, s);
    }
  }

  lemma {:induction false} RunExtends(m: Machine, evs: seq<Event>, io: Devices, ty: TlbType, s: nat)
    requires WellFormed(m) && AllowedRun(m, evs, io) && s < SETS
    ensures Extends(m, Run(m, evs, io), RunTouches(m, evs, io), ty, s)
    decreases |evs|
  {
    hide WellFormed, Step, Extends, Possible, Allowed, EventTouches;
    if evs == [] {
      SameSlots(m, m, ty, s);
    } else {
      var m1 := Step(m, evs[0], io);
      StepExtends(m, evs[0], io, ty, s);
      RunExtends(m1, evs[1..], io, ty, s);
      ExtendsTwice(m, m1, Run(m, evs, io), EventTouches(m, evs[0], io), RunTouches(m1, evs[1..], io), ty, s);
    }
  }

  /** In every reachable state the bits of each set are the ones its touches left. */
  lemma ReachableRecorded(w: World, msr: Msr, evs: seq<Event>, io: Devices, ty: TlbType, s: nat)
    requires ColdWorld(w) && AllowedRun(PowerUp(w, msr), evs, io) && s < SETS
    ensures var m0 := PowerUp(w, msr);
            Keeps(Run(m0, evs, io), ty, s, HistoryOf(RunTouches(m0, evs, io), ty, s))
  {
    var m0 := PowerUp(w, msr);
    assert Keeps(m0, ty, s, []);
    hide WellFormed, Run, AllowedRun, RunTouches, PowerUp, Keeps;
    RunExtends(m0, evs, io, ty, s);
    var h := HistoryOf(RunTouches(m0, evs, io), ty, s);
    assert [] + h == h;
  }

  /** Whenever a refill finds its set full, it replaces the less recently used way of the
      less recently used pair: over every run from power-up. */
  lemma VictimIsOldest(w: World, msr: Msr, evs: seq<Event>, io: Devices, ty: TlbType, s: nat)
    requires ColdWorld(w) && AllowedRun(PowerUp(w, msr), evs, io) && s < SETS
    requires var slots := TlbOf(Run(PowerUp(w, msr), evs, io), ty).slots; |slots| == SLOTS && AllValid(slots, s)
    ensures var slots := TlbOf(Run(PowerUp(w, msr), evs, io), ty).slots;
            var h := HistoryOf(RunTouches(PowerUp(w, msr), evs, io), ty, s);
            var v := VictimWay(slots, s);
            && LastTouch(h, v) < LastTouch(h, Sibling(v))
            && (forall k: nat :: k < 4 && k / 2 != v / 2 ==> PairTouch(h, v) < PairTouch(h, k))
            && h != [] && h[|h| - 1] != v
  {
    hide Run, AllowedRun, RunTouches, PowerUp, LastTouch, PairTouch, VictimWay, TlbOk, ColdWorld, Recorded, AllValid;
    ReachableRecorded(w, msr, evs, io, ty, s);
    ReachableTlb(w, msr, evs, io, ty);
    var t := TlbOf(Run(PowerUp(w, msr), evs, io), ty);
    VictimIsOldestBy(t, s, HistoryOf(RunTouches(PowerUp(w, msr), evs, io), ty, s));
  }
}
