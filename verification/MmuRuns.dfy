/** Whole runs of the MMU: any interleaving of accesses, context changes, table
    edits, flushes and synchronizations, from power-up on. */
module MmuRuns {
  import opened Bits
  import opened Address
  import opened Translation
  import opened Reference
  import opened SoftTlb
  import opened SoftTlbProofs
  import opened Mmu
  import opened MmuProofs
  import opened MmuAccess
  import opened MmuContext
  import opened MmuRefinement
  import opened Mmu603
  import opened MemoryAccess
  import opened MemoryStale

  datatype Event =
    | FetchAt(va: u32)
    | LoadAt(va: u32, size: nat)
    | StoreAt(va: u32, size: nat, value: nat)
    | ZeroAt(va: u32)
    | SetIbat(bat: nat, upper: u32, lower: u32)
    | SetDbat(bat: nat, upper: u32, lower: u32)
    | SetSr(segment: nat, sr: u32)
    | SetSdr1(sdr1: u32)
    | SetMsr(msr: Msr)
    | Sync
    | TlbInvalidate(ea: u32)
    | TlbInvalidateAll   // tlb_flush_all_pat
    | TlbLoad(ty: TlbType, ea: u32, way: nat, cmp: u32, rpa: u32)
    | MemoryEdit(host: nat, bytes: seq<byte>)   // a device or the debugger writes memory

  /** What instruction encodings and the processor model make possible. */
  predicate Possible(m: Machine, ev: Event) {
    match ev
    case LoadAt(_, size) => AccessSize(size)
    case StoreAt(_, size, _) => AccessSize(size)
    case SetIbat(bat, _, _) => bat < 4
    case SetDbat(bat, _, _) => bat < 4
    case SetSr(segment, _) => segment < 16
    case TlbLoad(_, _, way, _, _) => m.w.is603 && way < 2
    case _ => true
  }

  /** A faulting access ends in the exception handler. */
  function Ended(m: Machine, faulted: bool): Machine
    requires WellFormed(m)
  {
    if faulted then TakeException(m) else m
  }

  /** The accesses and memory edits. */
  function Access(m: Machine, ev: Event, io: Devices): (r: (Machine, bool))
    requires WellFormed(m) && Possible(m, ev)
  {
    match ev
    case FetchAt(va) => (Fetch(m, va).0, Fetch(m, va).1.Raised?)
    case LoadAt(va, size) => (Load(m, va, size, io).0, Load(m, va, size, io).1.LoadFault?)
    case StoreAt(va, size, value) => (Store(m, va, size, value).0, Store(m, va, size, value).1.StoreFault?)
    case ZeroAt(va) => (Dcbz(m, va).0, Dcbz(m, va).1.StoreFault?)
    case MemoryEdit(host, bytes) => (WithMemory(m, Poke(m.w.mem, host, bytes)), false)
    case _ => (m, false)
  }

  predicate IsAccess(ev: Event) {
    ev.FetchAt? || ev.LoadAt? || ev.StoreAt? || ev.ZeroAt? || ev.MemoryEdit?
  }

  /** The context changes, flushes and synchronizations. */
  function Control(m: Machine, ev: Event): Machine
    requires WellFormed(m) && Possible(m, ev)
  {
    match ev
    case SetIbat(bat, upper, lower) => WriteIbat(m, bat, upper, lower)
    case SetDbat(bat, upper, lower) => WriteDbat(m, bat, upper, lower)
    case SetSr(segment, sr) => WriteSr(m, segment, sr)
    case SetSdr1(sdr1) => WriteSdr1(m, sdr1)
    case SetMsr(msr) => m.(msr := msr)
    case Sync => ContextSync(m)
    case TlbInvalidate(ea) => Tlbie(m, ea)
    case TlbInvalidateAll => FlushPages(m)
    case TlbLoad(ty, ea, way, cmp, rpa) => Load603(m, ty, ea, way, cmp, rpa)
    case _ => m
  }

  /** Whether page translations are stale after an event. */
  ghost predicate StaleAfter(m: Machine, ev: Event, stale: bool)
    requires WellFormed(m) && Possible(m, ev)
  {
    match ev
    case StoreAt(va, size, value) => StaleStore(m, va, size, value, stale)
    case ZeroAt(va) => StaleDcbz(m, va, stale)
    case MemoryEdit(host, bytes) => stale || !Quiet(m.w, Poke(m.w.mem, host, bytes))
    case TlbInvalidate(_) => false
    case TlbInvalidateAll => false
    case _ => stale
  }

  /** What system software is assumed to respect: on a 601 it does not hide a segment
      with live cached block translations; on a 603 each VSID keeps to one segment. */
  ghost predicate Allowed(m: Machine, ev: Event)
    requires WellFormed(m) && Possible(m, ev)
  {
    match ev
    case SetSr(segment, sr) => SrSafe(m, segment, sr) && (m.w.is603 ==> SegmentRule(m.w.(sr := m.w.sr[segment := sr])))
    case TlbLoad(_, ea, _, cmp, _) => LoadAllowed(m.w, ea, cmp)
    case _ => true
  }

  /** The invariant of every reachable state. */
  ghost predicate Reachable(m: Machine, stale: bool) {
    MachineOk(m, stale) && (m.w.is603 ==> SegmentRule(m.w) && NoTwins(m.w))
  }

  // ---------- Power-up ----------

  const EMPTY := Entry(INVALID_TAG, NoSource, false, false, false, 0, Memory(0, 0), 0)

  function EmptyTlb(): (t: Tlb)
    ensures |t.slots| == SLOTS && t.tracked == [] && t.pending == NOTHING
  {
    Tlb(seq(SLOTS, _ => EMPTY), [], NOTHING)
  }

  /** ppc_mmu_init clears the 603's entries. */
  predicate ColdWorld(w: World) {
    ValidWorld(w) && forall i: nat :: i < 128 ==> !w.tlb603[i].valid
  }

  /** The empty machine before ppc_mmu_init loads the BATs. */
  function Blank(w: World, msr: Msr): (m: Machine)
    requires ValidWorld(w)
    ensures WellFormed(m) && m.w == w && m.msr == msr
  {
    hide EmptyTlb;
    Machine(w, EmptyTlb(), EmptyTlb(), msr, [])
  }

  /** ppc_mmu_init loads every BAT, which schedules the invalidation of both sides. */
  function PowerUp(w: World, msr: Msr): (m: Machine)
    requires ColdWorld(w)
    ensures WellFormed(m) && m.w == w && m.msr == msr
    ensures m.itlb.pending == TRANSLATION && m.dtlb.pending == TRANSLATION && m.actions == [ITLB, DTLB]
  {
    hide EmptyTlb, ValidWorld;
    Schedule(Schedule(Blank(w, msr), ITLB, TRANSLATION), DTLB, TRANSLATION)
  }

  lemma EmptyOk(t: Tlb, oracle: Oracle, ty: TlbType, size: nat)
    requires t == EmptyTlb().(pending := TRANSLATION)
    ensures TlbOk(t) && Coherent(t, oracle, false) && Sound(t, ty, size)
  {
    forall s: nat | s < SETS
      ensures SetOk(t.slots, s)
    {
      assert forall i: nat :: i < SLOTS ==> t.slots[i] == EMPTY;
    }
  }

  lemma PowerUpOk(w: World, msr: Msr)
    requires ColdWorld(w)
    ensures Reachable(PowerUp(w, msr), false)
  {
    hide TlbOk, Coherent, Sound, EmptyTlb, OracleFor;
    var m := PowerUp(w, msr);
    EmptyOk(m.itlb, OracleFor(w, ITLB), ITLB, |w.mem|);
    EmptyOk(m.dtlb, OracleFor(w, DTLB), DTLB, |w.mem|);
  }

  // ---------- One event ----------

  lemma AccessOk(m: Machine, ev: Event, io: Devices, stale: bool)
    requires MachineOk(m, stale) && WellFormed(m) && Possible(m, ev) && IsAccess(ev)
    ensures MachineOk(Access(m, ev, io).0, StaleAfter(m, ev, stale)) && Kin(m, Access(m, ev, io).0)
  {
    hide MachineOk, WellFormed, Fetch, Load, Store, Dcbz, Poke, Quiet, StaleStore, StaleDcbz, Preserves;
    OkWellFormed(m, stale);
    match ev {
      case FetchAt(va) => FetchOk(m, va, stale);
      case LoadAt(va, size) => LoadOk(m, va, size, io, stale);
      case StoreAt(va, size, value) => StoreOk(m, va, size, value, stale);
      case ZeroAt(va) => DcbzOk(m, va, stale);
      case MemoryEdit(host, bytes) => PokeOk(m, Poke(m.w.mem, host, bytes), stale);
      case _ =>
    }
  }

  lemma ControlOk(m: Machine, ev: Event, stale: bool)
    requires MachineOk(m, stale) && WellFormed(m) && Possible(m, ev) && Allowed(m, ev) && !IsAccess(ev)
    requires m.w.is603 ==> SegmentRule(m.w)
    ensures MachineOk(Control(m, ev), StaleAfter(m, ev, stale))
  {
    hide MachineOk, WellFormed, WriteIbat, WriteDbat, WriteSr, WriteSdr1, ContextSync, Tlbie, FlushPages, Load603, SrSafe, SegmentRule, LoadAllowed;
    match ev {
      case SetIbat(bat, upper, lower) => WriteIbatOk(m, bat, upper, lower, stale);
      case SetDbat(bat, upper, lower) => WriteDbatOk(m, bat, upper, lower, stale);
      case SetSr(segment, sr) => WriteSrOk(m, segment, sr, stale);
      case SetSdr1(sdr1) => WriteSdr1Ok(m, sdr1, stale);
      case SetMsr(msr) => SetMsrOk(m, msr, stale);
      case Sync => ContextSyncOk(m, stale);
      case TlbInvalidate(ea) => TlbieOk(m, ea, stale);
      case TlbInvalidateAll => FlushPagesOk(m, stale);
      case TlbLoad(ty, ea, way, cmp, rpa) => Load603Ok(m, ty, ea, way, cmp, rpa, stale);
      case _ =>
    }
  }

  // ---------- Structure ----------

  lemma FetchWellFormed(m: Machine, va: u32)
    requires WellFormed(m)
    ensures WellFormed(Fetch(m, va).0)
  {
    hide LookupOrRefill, ValidWorld, PageTag, SetFor;
  }

  lemma {:induction false} LoadBytesWellFormed(m: Machine, va: u32, n: nat, acc: nat, io: Devices)
    requires WellFormed(m)
    ensures WellFormed(LoadBytes(m, va, n, acc, io).0)
    decreases n
  {
    hide WellFormed, Read;
    if n > 0 {
      ReadWellFormed(m, va);
      var (m1, b) := LoadByte(m, va, io);
      if b.Value? {
        LoadBytesWellFormed(m1, Advance(va, 1), n - 1, acc * 256 + b.v, io);
      }
    }
  }

  lemma LoadWellFormed(m: Machine, va: u32, n: nat, io: Devices)
    requires WellFormed(m) && AccessSize(n)
    ensures WellFormed(Load(m, va, n, io).0)
  {
    hide WellFormed, Read, LoadBytes;
    ReadWellFormed(m, va);
    LoadBytesWellFormed(Read(m, va).0, va, n, 0, io);
  }

  lemma {:induction false} ZeroBlockWellFormed(m: Machine, va: u32, count: nat)
    requires WellFormed(m)
    ensures WellFormed(ZeroBlock(m, va, count).0)
    decreases count
  {
    hide WellFormed, Store;
    if count > 0 {
      StoreWellFormed(m, va, 8, 0);
      var (m1, first) := Store(m, va, 8, 0);
      if first.Done? {
        ZeroBlockWellFormed(m1, Advance(va, 8), count - 1);
      }
    }
  }

  lemma DcbzWellFormed(m: Machine, va: u32)
    requires WellFormed(m)
    ensures WellFormed(Dcbz(m, va).0)
  {
    assert |m.dtlb.slots| == SLOTS;
    ZeroBlockWellFormed(m, va, 4);
    CheckDeviceWellFormed(m, 5 * SetAt(m, DTLB, va), va);
    hide ValidWorld, ZeroBlock, CheckDevice, LookupOrRefill, WellFormed, SetFor, PageTag;
    var s := SetAt(m, DTLB, va);
    var (m1, second) := LookupOrRefill(m, DTLB, va, true);
    ZeroBlockWellFormed(m1, va, 4);
    if second.InWay? {
      CheckDeviceWellFormed(m1, 5 * s + 1 + second.way, va);
    }
  }

  lemma CheckDeviceWellFormed(m: Machine, i: nat, va: u32)
    requires WellFormed(m) && i < SLOTS
    ensures WellFormed(CheckDevice(m, i, va).0)
  {
    hide ValidWorld, Prepare;
  }

  lemma AccessWellFormed(m: Machine, ev: Event, io: Devices)
    requires WellFormed(m) && Possible(m, ev)
    ensures WellFormed(Access(m, ev, io).0)
  {
    hide ValidWorld, Fetch, Load, Store, Dcbz, Poke;
    match ev {
      case FetchAt(va) => FetchWellFormed(m, va);
      case LoadAt(va, size) => LoadWellFormed(m, va, size, io);
      case StoreAt(va, size, value) => StoreWellFormed(m, va, size, value);
      case ZeroAt(va) => DcbzWellFormed(m, va);
      case MemoryEdit(host, bytes) => MemoryWellFormed(m, Poke(m.w.mem, host, bytes));
      case _ =>
    }
  }

  lemma MemoryWellFormed(m: Machine, mem: Memory)
    requires WellFormed(m) && |mem| == |m.w.mem|
    ensures WellFormed(WithMemory(m, mem))
  {
  }

  lemma InvalidateWellFormed(t: Tlb, sources: Sources)
    requires |t.slots| == SLOTS && forall i :: i in t.tracked ==> i < SLOTS
    ensures |Invalidate(t, sources).slots| == SLOTS && forall i :: i in Invalidate(t, sources).tracked ==> i < SLOTS
  {
    RetainedSubset(t.slots, t.tracked, sources);
  }

  lemma FlushPagesWellFormed(m: Machine)
    requires WellFormed(m)
    ensures WellFormed(FlushPages(m))
  {
    hide ValidWorld, Invalidate;
    InvalidateWellFormed(m.itlb, PAGES);
    InvalidateWellFormed(m.dtlb, PAGES);
  }

  lemma Load603WellFormed(m: Machine, ty: TlbType, ea: u32, way: nat, cmp: u32, rpa: u32)
    requires WellFormed(m) && way < 2
    ensures WellFormed(Load603(m, ty, ea, way, cmp, rpa))
  {
    LoadWorld(m, ty, ea, way, cmp, rpa);
    hide ValidWorld, FlushSet, PageTag;
  }

  lemma RegistersWellFormed(m: Machine, n: nat, a: u32, b: u32)
    requires WellFormed(m)
    ensures n < 4 ==> WellFormed(WriteIbat(m, n, a, b)) && WellFormed(WriteDbat(m, n, a, b))
    ensures n < 16 ==> WellFormed(WriteSr(m, n, a))
    ensures WellFormed(WriteSdr1(m, a))
  {
    if n < 4 {
      BatUpdateValid(m, n, a, b);
    }
    assert n < 16 ==> ValidWorld(m.w.(sr := m.w.sr[n := a]));
    assert ValidWorld(m.w.(sdr1 := a));
    hide ValidWorld, PpcBatEntry, Bat601Entry;
  }

  lemma ControlWellFormed(m: Machine, ev: Event)
    requires WellFormed(m) && Possible(m, ev)
    ensures WellFormed(Control(m, ev))
  {
    hide WellFormed, WriteIbat, WriteDbat, WriteSr, WriteSdr1, ContextSync, FlushPages, Load603, InvalidateSet603;
    match ev {
      case SetIbat(bat, upper, lower) => RegistersWellFormed(m, bat, upper, lower);
      case SetDbat(bat, upper, lower) => RegistersWellFormed(m, bat, upper, lower);
      case SetSr(segment, sr) => RegistersWellFormed(m, segment, sr, 0);
      case SetSdr1(sdr1) => RegistersWellFormed(m, 0, sdr1, 0);
      case SetMsr(msr) => MsrWellFormed(m, msr);
      case TlbInvalidate(ea) => TlbieWellFormed(m, ea);
      case TlbInvalidateAll => FlushPagesWellFormed(m);
      case TlbLoad(ty, ea, way, cmp, rpa) => Load603WellFormed(m, ty, ea, way, cmp, rpa);
      case _ =>
    }
  }

  lemma MsrWellFormed(m: Machine, msr: Msr)
    requires WellFormed(m)
    ensures WellFormed(m.(msr := msr))
  {
  }

  lemma TlbieWellFormed(m: Machine, ea: u32)
    requires WellFormed(m)
    ensures WellFormed(Tlbie(m, ea))
  {
    hide ValidWorld, FlushPages, InvalidateSet603;
    FlushPagesWellFormed(m);
    if m.w.is603 {
      FlushPagesWellFormed(m.(w := InvalidateSet603(m.w, ea)));
    }
  }

  // ---------- What initialisation leaves ----------

  /** The last |pairs| instruction BATs loaded in order. */
  function LoadIbats(m: Machine, pairs: seq<(u32, u32)>): (r: Machine)
    requires WellFormed(m) && |pairs| <= 4
    ensures WellFormed(r)
    decreases |pairs|
  {
    hide WellFormed, WriteIbat;
    if pairs == [] then m
    else
      RegistersWellFormed(m, 4 - |pairs|, pairs[0].0, pairs[0].1);
      LoadIbats(WriteIbat(m, 4 - |pairs|, pairs[0].0, pairs[0].1), pairs[1..])
  }

  function LoadDbats(m: Machine, pairs: seq<(u32, u32)>): (r: Machine)
    requires WellFormed(m) && |pairs| <= 4
    ensures WellFormed(r)
    decreases |pairs|
  {
    hide WellFormed, WriteDbat;
    if pairs == [] then m
    else
      RegistersWellFormed(m, 4 - |pairs|, pairs[0].0, pairs[0].1);
      LoadDbats(WriteDbat(m, 4 - |pairs|, pairs[0].0, pairs[0].1), pairs[1..])
  }

  /** A side whose invalidation is scheduled already. */
  predicate Pending(m: Machine, ty: TlbType) {
    TlbOf(m, ty).pending == TRANSLATION
  }

  lemma {:induction false} IbatsPend(m: Machine, pairs: seq<(u32, u32)>)
    requires WellFormed(m) && |pairs| <= 4 && Pending(m, ITLB) && (m.w.is601 ==> Pending(m, DTLB))
    ensures var r := LoadIbats(m, pairs);
            r == m.(w := r.w) && r.w.tlb603 == m.w.tlb603 && r.w.is601 == m.w.is601
    decreases |pairs|
  {
    hide ValidWorld, PpcBatEntry, Bat601Entry;
    if pairs != [] {
      RegistersWellFormed(m, 4 - |pairs|, pairs[0].0, pairs[0].1);
      IbatsPend(WriteIbat(m, 4 - |pairs|, pairs[0].0, pairs[0].1), pairs[1..]);
    }
  }

  lemma {:induction false} DbatsPend(m: Machine, pairs: seq<(u32, u32)>)
    requires WellFormed(m) && |pairs| <= 4 && Pending(m, DTLB)
    ensures var r := LoadDbats(m, pairs);
            r == m.(w := r.w) && r.w.tlb603 == m.w.tlb603
    decreases |pairs|
  {
    hide ValidWorld, PpcBatEntry, Bat601Entry;
    if pairs != [] {
      RegistersWellFormed(m, 4 - |pairs|, pairs[0].0, pairs[0].1);
      DbatsPend(WriteDbat(m, 4 - |pairs|, pairs[0].0, pairs[0].1), pairs[1..]);
    }
  }

  /** Loading all BATs, as ppc_mmu_init does, leaves the power-up state: each side is
      scheduled once. */
  lemma InitLoads(w: World, msr: Msr, ibats: seq<(u32, u32)>, dbats: seq<(u32, u32)>)
    requires ColdWorld(w) && |ibats| == 4 && |dbats| == 4
    ensures var m := LoadDbats(LoadIbats(Blank(w, msr), ibats), dbats);
            ColdWorld(m.w) && m == PowerUp(m.w, msr)
  {
    hide ValidWorld, PpcBatEntry, Bat601Entry, EmptyTlb;
    var m0 := Blank(w, msr);
    RegistersWellFormed(m0, 0, ibats[0].0, ibats[0].1);
    var m1 := WriteIbat(m0, 0, ibats[0].0, ibats[0].1);
    IbatsPend(m1, ibats[1..]);
    var m2 := LoadIbats(m0, ibats);
    RegistersWellFormed(m2, 0, dbats[0].0, dbats[0].1);
    var m3 := WriteDbat(m2, 0, dbats[0].0, dbats[0].1);
    DbatsPend(m3, dbats[1..]);
  }

  // ---------- Runs ----------

  function Step(m: Machine, ev: Event, io: Devices): (r: Machine)
    requires WellFormed(m) && Possible(m, ev)
    ensures WellFormed(r)
  {
    hide WellFormed, Access, Control, ContextSync;
    if IsAccess(ev) then
      AccessWellFormed(m, ev, io);
      EndedWellFormed(Access(m, ev, io).0, Access(m, ev, io).1);
      Ended(Access(m, ev, io).0, Access(m, ev, io).1)
    else
      ControlWellFormed(m, ev);
      Control(m, ev)
  }

  lemma EndedWellFormed(m: Machine, faulted: bool)
    requires WellFormed(m)
    ensures WellFormed(Ended(m, faulted)) && Ended(m, faulted).w == m.w
  {
    hide ContextSync, WellFormed;
    if faulted {
      MsrWellFormed(ContextSync(m), Msr(false, false, false));
    }
  }

  /** A run whose events are possible, and respect the software rules, when they happen. */
  ghost predicate AllowedRun(m: Machine, evs: seq<Event>, io: Devices)
    requires WellFormed(m)
    decreases |evs|
  {
    evs != [] ==> Possible(m, evs[0]) && Allowed(m, evs[0]) && AllowedRun(Step(m, evs[0], io), evs[1..], io)
  }

  ghost function Run(m: Machine, evs: seq<Event>, io: Devices): (r: Machine)
    requires WellFormed(m) && AllowedRun(m, evs, io)
    ensures WellFormed(r)
    decreases |evs|
  {
    if evs == [] then m else Run(Step(m, evs[0], io), evs[1..], io)
  }

  ghost predicate StaleRun(m: Machine, evs: seq<Event>, io: Devices, stale: bool)
    requires WellFormed(m) && AllowedRun(m, evs, io)
    decreases |evs|
  {
    if evs == [] then stale else StaleRun(Step(m, evs[0], io), evs[1..], io, StaleAfter(m, evs[0], stale))
  }

  lemma AccessRule(m: Machine, m': Machine)
    requires ValidWorld(m.w) && ValidWorld(m'.w) && Kin(m, m') && SegmentRule(m.w) && NoTwins(m.w)
    ensures SegmentRule(m'.w) && NoTwins(m'.w)
  {
  }

  lemma TlbieRule(w: World, ea: u32)
    requires ValidWorld(w) && SegmentRule(w) && NoTwins(w)
    ensures SegmentRule(InvalidateSet603(w, ea)) && NoTwins(InvalidateSet603(w, ea))
  {
    var w' := InvalidateSet603(w, ea);
    assert w'.sr == w.sr;
    assert forall i: nat :: i < 128 ==> w'.tlb603[i] == w.tlb603[i] || w'.tlb603[i] == Disabled(w.tlb603[i]);
    forall ty: TlbType, a: u32
      ensures !Twins(w'.tlb603[Slot603(ty, a, 0)], w'.tlb603[Slot603(ty, a, 1)])
    {
      assert !Twins(w.tlb603[Slot603(ty, a, 0)], w.tlb603[Slot603(ty, a, 1)]);
    }
  }

  /** Every context change keeps the 603's entries in order. */
  lemma ControlRule(m: Machine, ev: Event, stale: bool)
    requires Reachable(m, stale) && m.w.is603 && WellFormed(m) && Possible(m, ev) && Allowed(m, ev) && !IsAccess(ev)
    ensures WellFormed(Control(m, ev)) && SegmentRule(Control(m, ev).w) && NoTwins(Control(m, ev).w)
  {
    ControlWellFormed(m, ev);
    hide MachineOk, WellFormed, ContextSync, Load603, SegmentRule, NoTwins, InvalidateSet603, Invalidate, LoadAllowed, PpcBatEntry, Bat601Entry, SrSafe;
    OkWellFormed(m, stale);
    assert ValidWorld(Control(m, ev).w) by { WorldOf(Control(m, ev)); }
    hide ValidWorld;
    match ev {
      case SetIbat(bat, upper, lower) => SameRule(m.w, Control(m, ev).w);
      case SetDbat(bat, upper, lower) => SameRule(m.w, Control(m, ev).w);
      case SetSr(segment, sr) => SameTwins(m.w, m.w.(sr := m.w.sr[segment := sr]));
      case SetSdr1(sdr1) => SameRule(m.w, Control(m, ev).w);
      case TlbInvalidate(ea) => TlbieRule(m.w, ea);
      case TlbLoad(ty, ea, way, cmp, rpa) => LoadKeepsRule(m, ty, ea, way, cmp, rpa);
      case _ =>
    }
  }

  lemma SameTwins(w: World, w': World)
    requires ValidWorld(w) && ValidWorld(w') && w'.tlb603 == w.tlb603 && NoTwins(w)
    ensures NoTwins(w')
  {
  }

  lemma SameRule(w: World, w': World)
    requires ValidWorld(w) && ValidWorld(w') && w'.sr == w.sr && w'.tlb603 == w.tlb603
    requires SegmentRule(w) && NoTwins(w)
    ensures SegmentRule(w') && NoTwins(w')
  {
  }

  lemma WorldOf(m: Machine)
    requires WellFormed(m)
    ensures ValidWorld(m.w)
  {
  }

  /** One event keeps the invariant. */
  lemma StepOk(m: Machine, ev: Event, io: Devices, stale: bool)
    requires Reachable(m, stale) && WellFormed(m) && Possible(m, ev) && Allowed(m, ev)
    ensures Reachable(Step(m, ev, io), StaleAfter(m, ev, stale)) && Step(m, ev, io).w.is603 == m.w.is603
  {
    hide MachineOk, WellFormed, SegmentRule, NoTwins, Access, Control, StaleAfter, Possible, Allowed, TakeException;
    OkWellFormed(m, stale);
    var stale' := StaleAfter(m, ev, stale);
    if IsAccess(ev) {
      AccessOk(m, ev, io, stale);
      var (m1, faulted) := Access(m, ev, io);
      AccessWellFormed(m, ev, io);
      OkWellFormed(m1, stale');
      EndedWellFormed(m1, faulted);
      TakeExceptionOk(m1, stale');
      if m.w.is603 {
        AccessRule(m, m1);
      }
    } else {
      ControlOk(m, ev, stale);
      Model603(m, ev);
      if m.w.is603 {
        ControlRule(m, ev, stale);
      }
    }
  }

  lemma Model603(m: Machine, ev: Event)
    requires WellFormed(m) && Possible(m, ev) && !IsAccess(ev)
    ensures Control(m, ev).w.is603 == m.w.is603
  {
    hide WellFormed, ContextSync, Invalidate, PpcBatEntry, Bat601Entry, FlushPage;
  }

  /** The invariant holds throughout every allowed run. */
  lemma {:induction false} RunOk(m: Machine, evs: seq<Event>, io: Devices, stale: bool)
    requires Reachable(m, stale) && WellFormed(m) && AllowedRun(m, evs, io)
    ensures Reachable(Run(m, evs, io), StaleRun(m, evs, io, stale)) && Run(m, evs, io).w.is603 == m.w.is603
    decreases |evs|
  {
    hide Reachable, WellFormed, Step, StaleAfter, Possible, Allowed;
    if evs != [] {
      StepOk(m, evs[0], io, stale);
      RunOk(Step(m, evs[0], io), evs[1..], io, StaleAfter(m, evs[0], stale));
    }
  }

  /** The TLBs are transparent. Power up, run anything: unless a page table edit
      awaits its flush or a context change its synchronization, every fetch, load
      and store reaches the byte, the device register or the exception that
      translating afresh gives. */
  lemma Transparent(w: World, msr: Msr, evs: seq<Event>, io: Devices, va: u32)
    requires ColdWorld(w) && AllowedRun(PowerUp(w, msr), evs, io)
    requires !StaleRun(PowerUp(w, msr), evs, io, false)
    ensures var m := Run(PowerUp(w, msr), evs, io);
            && (Settled(m, ITLB) ==> Fetch(m, va).1 == Ideal(m.w, ITLB, CurrentMode(m.msr, ITLB), va, false))
            && (Settled(m, DTLB) ==> Read(m, va).1 == Ideal(m.w, DTLB, CurrentMode(m.msr, DTLB), va, false))
            && (Settled(m, DTLB) ==> Write(m, va).1 == Ideal(m.w, DTLB, CurrentMode(m.msr, DTLB), va, true))
  {
    hide WellFormed, MachineOk, SegmentRule, NoTwins, ColdWorld, AllowedRun, Run, StaleRun, PowerUp, Settled, Fetch, Read, Write, Ideal;
    PowerUpOk(w, msr);
    RunOk(PowerUp(w, msr), evs, io, false);
    var m := Run(PowerUp(w, msr), evs, io);
    assert ValidWorld(m.w) by { WorldOf(m); }
    hide ValidWorld;
    if Settled(m, ITLB) {
      FetchRefines(m, va);
    }
    if Settled(m, DTLB) {
      ReadRefines(m, va);
      WriteRefines(m, va);
    }
  }

  /** Context synchronization and exceptions settle every pending change. */
  lemma SyncSettles(m: Machine, stale: bool, ty: TlbType)
    requires MachineOk(m, stale) && WellFormed(m)
    ensures Settled(ContextSync(m), ty) && Settled(TakeException(m), ty)
  {
    hide MachineOk, ContextSync;
    ContextSyncOk(m, stale);
  }

  /** In every reachable state the tracking list is no longer than the slots, holds
      exactly the flagged ones, and each set is in order. */
  lemma ReachableTlb(w: World, msr: Msr, evs: seq<Event>, io: Devices, ty: TlbType)
    requires ColdWorld(w) && AllowedRun(PowerUp(w, msr), evs, io)
    ensures var t := TlbOf(Run(PowerUp(w, msr), evs, io), ty); TlbOk(t) && |t.tracked| <= SLOTS
  {
    PowerUpOk(w, msr);
    RunOk(PowerUp(w, msr), evs, io, false);
    var m := Run(PowerUp(w, msr), evs, io);
    assert SideOk(m, ty, StaleRun(PowerUp(w, msr), evs, io, false));
    hide TlbOk, Coherent, Sound, ColdWorld, AllowedRun, Run, StaleRun, PowerUp;
    TrackedBound(TlbOf(m, ty));
  }

  /** On a 603 every live cached page translation of every reachable state is backed
      by a valid hardware entry, and no hardware set holds a page twice. */
  lemma ReachableBacked(w: World, msr: Msr, evs: seq<Event>, io: Devices, ty: TlbType, i: nat)
    requires ColdWorld(w) && w.is603 && AllowedRun(PowerUp(w, msr), evs, io) && i < SLOTS
    ensures var m := Run(PowerUp(w, msr), evs, io);
            var stale := StaleRun(PowerUp(w, msr), evs, io, false);
            |TlbOf(m, ty).slots| == SLOTS && NoTwins(m.w) &&
            var e := TlbOf(m, ty).slots[i];
            Live(e, TlbOf(m, ty).pending, stale) && e.source == FromPat && !DirectStore(SegmentOf(m.w, e.tag)) ==>
              Way603(m.w, ty, e.tag) < 2 &&
              var b := m.w.tlb603[Slot603(ty, e.tag, Way603(m.w, ty, e.tag))];
              Match603(b, Vsid(SegmentOf(m.w, e.tag)), e.tag) && e.physTag == PageTag(b.pteLo) &&
              (e.changed ==> Changed(b.pteLo))
  {
    hide WellFormed, MachineOk, SegmentRule, NoTwins, ColdWorld, AllowedRun, Run, StaleRun, PowerUp, Live, Slot603, Match603, Way603;
    PowerUpOk(w, msr);
    RunOk(PowerUp(w, msr), evs, io, false);
    var m := Run(PowerUp(w, msr), evs, io);
    var stale := StaleRun(PowerUp(w, msr), evs, io, false);
    OkWellFormed(m, stale);
    var e := TlbOf(m, ty).slots[i];
    if Live(e, TlbOf(m, ty).pending, stale) && e.source == FromPat && !DirectStore(SegmentOf(m.w, e.tag)) {
      Backed(m, ty, i, stale);
    }
  }
}
