/** The MMU of cpu/ppc/ppcmmu.cpp as a state machine on values: both software
    TLBs, the registers and memory the reference translation reads, and every
    operation that fills, hits, updates or invalidates a TLB entry. */
module Mmu {
  import opened Bits
  import opened Address
  import opened Translation
  import opened Reference
  import opened SoftTlb

  /** MSR[IR], MSR[DR] and MSR[PR]. */
  datatype Msr = Msr(ir: bool, dr: bool, pr: bool)

  /** `actions` is the list of context synchronization callbacks. */
  datatype Machine = Machine(w: World, itlb: Tlb, dtlb: Tlb, msr: Msr, actions: seq<TlbType>)

  function ModeFor(translate: bool, pr: bool): Mode {
    if !translate then Real else if pr then User else Super
  }

  /** The TLB arrays that mmu_change_mode selects. */
  function CurrentMode(msr: Msr, ty: TlbType): Mode {
    ModeFor(if ty == ITLB then msr.ir else msr.dr, msr.pr)
  }

  function TlbOf(m: Machine, ty: TlbType): Tlb {
    if ty == ITLB then m.itlb else m.dtlb
  }

  function WithTlb(m: Machine, ty: TlbType, t: Tlb): Machine {
    if ty == ITLB then m.(itlb := t) else m.(dtlb := t)
  }

  function SetAt(m: Machine, ty: TlbType, va: u32): (s: nat)
    ensures s < SETS
  {
    SetFor(CurrentMode(m.msr, ty), va)
  }

  /** Enough structure for every operation to be defined. */
  predicate WellFormed(m: Machine) {
    && ValidWorld(m.w)
    && |m.itlb.slots| == SLOTS && |m.dtlb.slots| == SLOTS
    && (forall i :: i in m.itlb.tracked ==> i < SLOTS)
    && (forall i :: i in m.dtlb.tracked ==> i < SLOTS)
  }

  // ---------- Secondary lookup and refill ----------

  /** How an access ends. */
  datatype Outcome =
    | Hit(target: Target)     // host byte or device byte to access
    | NoMemory                // nothing is mapped at the physical address
    | Raised(fault: Fault)
    | Crashed                 // the emulator aborts

  datatype Second = InWay(way: nat) | Missed(end: Outcome)

  /** The machine with a page installed in one of its TLBs. */
  function Installed(m: Machine, ty: TlbType, s: nat, tag: u32, fill: Fill, changed: bool): (r: Machine)
    requires WellFormed(m) && s < SETS
    ensures WellFormed(r) && r.msr == m.msr && r.w == m.w
  {
    WithTlb(m, ty, Install(TlbOf(m, ty), s, tag, fill, changed))
  }

  /** itlb2_refill and dtlb2_refill. */
  function RefillMiss(m: Machine, ty: TlbType, va: u32, write: bool): (r: (Machine, Second))
    requires WellFormed(m)
    ensures WellFormed(r.0) && r.0.msr == m.msr
    ensures if r.1.InWay? then r.1.way < 4 else !r.1.end.Hit?
  {
    var t, s, mode := TlbOf(m, ty), SetAt(m, ty, va), CurrentMode(m.msr, ty);
    var m1 := m.(w := TranslateEffect(m.w, ty, mode, va, write));
    match Refill(m.w, ty, mode, va, write)
    case Filled(fill, changed) =>
      (Installed(m1, ty, s, PageTag(va), fill, changed), InWay(VictimWay(t.slots, s)))
    case Unmapped => (m1, Missed(NoMemory))
    case Failed(f) => (m1, Missed(Raised(f)))
    case Aborted => (m1, Missed(Crashed))
  }

  /** Look a page up in the secondary level and refill it on a miss. */
  function LookupOrRefill(m: Machine, ty: TlbType, va: u32, write: bool): (r: (Machine, Second))
    requires WellFormed(m)
    ensures WellFormed(r.0) && r.0.msr == m.msr
    ensures if r.1.InWay? then r.1.way < 4 else !r.1.end.Hit?
  {
    var t, s := TlbOf(m, ty), SetAt(m, ty, va);
    var way := FindWay(t.slots, s, PageTag(va));
    if way < 4 then (WithTlb(m, ty, t.(slots := TouchWay(t.slots, s, way))), InWay(way))
    else RefillMiss(m, ty, va, write)
  }

  /** The host address the fast path computes. It adds the host offset without
      asking what kind of entry it hit; a device entry has no such offset. */
  function FastPath(b: Backing, va: u32, write: bool): Target {
    match b
    case Memory(offR, offW) => HostByte((if write then offW else offR) + va)
    case Device(_, _) => HostByte(-1)
  }

  // ---------- Instruction fetch and data read ----------

  /** mmu_translate_imem. */
  function Fetch(m: Machine, va: u32): (r: (Machine, Outcome))
    requires WellFormed(m)
  {
    var s := SetAt(m, ITLB, va);
    if m.itlb.slots[5 * s].tag == PageTag(va) then (m, Hit(FastPath(m.itlb.slots[5 * s].backing, va, false)))
    else
      var (m1, second) := LookupOrRefill(m, ITLB, va, false);
      if second.Missed? then (m1, second.end)
      else
        var t := Promote(m1.itlb, s, second.way);
        (m1.(itlb := t), Hit(FastPath(t.slots[5 * s].backing, va, false)))
  }

  /** The address part of mmu_read_vmem. */
  function Read(m: Machine, va: u32): (r: (Machine, Outcome))
    requires WellFormed(m)
  {
    var s := SetAt(m, DTLB, va);
    if m.dtlb.slots[5 * s].tag == PageTag(va) then (m, Hit(FastPath(m.dtlb.slots[5 * s].backing, va, false)))
    else
      var (m1, second) := LookupOrRefill(m, DTLB, va, false);
      if second.Missed? then (m1, second.end)
      else
        var e := m1.dtlb.slots[5 * s + 1 + second.way];
        if e.backing.Memory? then
          var t := Promote(m1.dtlb, s, second.way);
          (m1.(dtlb := t), Hit(FastPath(t.slots[5 * s].backing, va, false)))
        else (m1, Hit(HitTarget(e.backing, va, false)))
  }

  // ---------- Data write ----------

  datatype Prepared = Ready | MarkChanged | Refuse(end: Outcome)

  /** prepare_dtlb_write on an entry: its verdict and the world it leaves. */
  function Prepare(m: Machine, e: Entry, va: u32): (r: (World, Prepared))
    requires WellFormed(m)
    ensures ValidWorld(r.0)
  {
    if !e.writable then (m.w, Refuse(Raised(Dsi(0x0A00_0000, va))))
    else if e.changed then (m.w, Ready)
    else
      var w' := WalkEffect(m.w, DTLB, va, m.msr.pr, true);
      match PageWalk(m.w, DTLB, va, m.msr.pr, true)
      case Page(_, _, _, _) => (w', MarkChanged)
      case Denied(f) => (w', Refuse(Raised(f)))
      case Halt => (w', Refuse(Crashed))
  }

  /** The store path on a primary hit. */
  function WriteHit(m: Machine, va: u32): (r: (Machine, Outcome))
    requires WellFormed(m)
  {
    var s := SetAt(m, DTLB, va);
    var p := m.dtlb.slots[5 * s];
    var (w', verdict) := Prepare(m, p, va);
    match verdict
    case Refuse(end) => (m.(w := w'), end)
    case Ready => (m.(w := w'), Hit(FastPath(p.backing, va, true)))
    case MarkChanged => (m.(w := w', dtlb := MarkBoth(m.dtlb, s)), Hit(FastPath(p.backing, va, true)))
  }

  /** The address part of mmu_write_vmem. */
  function Write(m: Machine, va: u32): (r: (Machine, Outcome))
    requires WellFormed(m)
  {
    var s := SetAt(m, DTLB, va);
    if m.dtlb.slots[5 * s].tag == PageTag(va) then WriteHit(m, va)
    else
      var (m1, second) := LookupOrRefill(m, DTLB, va, true);
      if second.Missed? then (m1, second.end) else FinishWrite(m1, second.way, va)
  }

  /** The store path once a secondary way holds the page. */
  function FinishWrite(m: Machine, way: nat, va: u32): (r: (Machine, Outcome))
    requires WellFormed(m) && way < 4
  {
    var s := SetAt(m, DTLB, va);
    var i := 5 * s + 1 + way;
    var (w', verdict) := Prepare(m, m.dtlb.slots[i], va);
    if verdict.Refuse? then (m.(w := w'), verdict.end)
    else
      var t := if verdict.Ready? then m.dtlb else m.dtlb.(slots := MarkSlot(m.dtlb.slots, i));
      if t.slots[i].backing.Memory? then
        var t' := Promote(t, s, way);
        (m.(w := w', dtlb := t'), Hit(FastPath(t'.slots[5 * s].backing, va, true)))
      else (m.(w := w', dtlb := t), Hit(HitTarget(t.slots[i].backing, va, true)))
  }

  // ---------- Context changes ----------

  /** schedule_tlb_invalidation. */
  function Schedule(m: Machine, ty: TlbType, sources: Sources): Machine {
    var t := TlbOf(m, ty);
    var m1 := if t.pending == NOTHING then m.(actions := m.actions + [ty]) else m;
    WithTlb(m1, ty, t.(pending := Merge(t.pending, sources)))
  }

  /** do_ctx_sync: run the registered actions, last one first, until none is left. */
  function ContextSync(m: Machine): (r: Machine)
    requires WellFormed(m)
    ensures WellFormed(r) && r.actions == [] && r.w == m.w && r.msr == m.msr
    decreases |m.actions|
  {
    if m.actions == [] then m
    else
      var ty := m.actions[|m.actions| - 1];
      var m1 := WithTlb(m, ty, Synchronize(TlbOf(m, ty)));
      SynchronizeBounded(TlbOf(m, ty));
      ContextSync(m1.(actions := m.actions[..|m.actions| - 1]))
  }

  lemma {:induction false} RetainedSubset(slots: seq<Entry>, tracked: seq<nat>, sources: Sources)
    requires forall i :: i in tracked ==> i < |slots|
    ensures forall i :: i in Retained(slots, tracked, sources) ==> i in tracked
  {
    if tracked != [] {
      assert tracked[0] in tracked && forall i :: i in tracked[1..] ==> i in tracked;
      RetainedSubset(slots, tracked[1..], sources);
    }
  }

  lemma SynchronizeBounded(t: Tlb)
    requires |t.slots| == SLOTS && forall i :: i in t.tracked ==> i < SLOTS
    ensures |Synchronize(t).slots| == SLOTS && forall i :: i in Synchronize(t).tracked ==> i < SLOTS
  {
    RetainedSubset(t.slots, t.tracked, t.pending);
  }

  /** The entry a pair of block address registers describes (not on the 601). */
  function PpcBatEntry(upper: u32, lower: u32): BatEntry {
    var mask := Not32(upper / 4 % 2048 * 131072 + 131071);
    Powers();
    Width(upper, mask, 32);
    Width(lower, mask, 32);
    BatEntry(false, upper % 4, lower % 4, And(lower, mask), mask, And(upper, mask))
  }

  /** The unified 601 entry; a clear valid bit only disables the old one. */
  function Bat601Entry(old_: BatEntry, upper: u32, lower: u32): BatEntry {
    var mask := Not32(lower % 64 * 131072 + 131071);
    Powers();
    Width(upper, mask, 32);
    Width(lower, mask, 32);
    if lower / 64 % 2 == 1 then
      BatEntry(true, upper / 4 % 4, upper % 4, And(lower, mask), mask, And(upper, mask))
    else old_.(valid := false)
  }

  /** ibat_update for register pair n. */
  function WriteIbat(m: Machine, n: nat, upper: u32, lower: u32): Machine
    requires WellFormed(m) && n < 4
  {
    if m.w.is601 then
      var ientry := Bat601Entry(m.w.ibat[n], upper, lower);
      var dentry := if ientry.valid then ientry else m.w.dbat[n].(valid := false);
      var w := m.w.(ibat := m.w.ibat[n := ientry], dbat := m.w.dbat[n := dentry]);
      Schedule(Schedule(m.(w := w), ITLB, TRANSLATION), DTLB, TRANSLATION)
    else
      Schedule(m.(w := m.w.(ibat := m.w.ibat[n := PpcBatEntry(upper, lower)])), ITLB, TRANSLATION)
  }

  /** dbat_update for register pair n; the 601 has no separate data BATs. */
  function WriteDbat(m: Machine, n: nat, upper: u32, lower: u32): Machine
    requires WellFormed(m) && n < 4
  {
    if m.w.is601 then m
    else Schedule(m.(w := m.w.(dbat := m.w.dbat[n := PpcBatEntry(upper, lower)])), DTLB, TRANSLATION)
  }

  /** mmu_pat_ctx_changed. */
  function PageContextChanged(m: Machine): Machine {
    Schedule(Schedule(m, ITLB, PAGES), DTLB, PAGES)
  }

  /** mtsr and mtsrin: an unchanged value changes nothing. */
  function WriteSr(m: Machine, n: nat, value: u32): Machine
    requires WellFormed(m) && n < 16
  {
    if m.w.sr[n] == value then m else PageContextChanged(m.(w := m.w.(sr := m.w.sr[n := value])))
  }

  function WriteSdr1(m: Machine, value: u32): Machine {
    if m.w.sdr1 == value then m else PageContextChanged(m.(w := m.w.(sdr1 := value)))
  }

  /** tlb_flush_all_pat. */
  function FlushPages(m: Machine): Machine
    requires WellFormed(m)
  {
    m.(itlb := Invalidate(m.itlb, PAGES), dtlb := Invalidate(m.dtlb, PAGES))
  }

  /** tlbie: on a 603 it empties the indexed set of both hardware TLBs first. */
  function Tlbie(m: Machine, ea: u32): Machine
    requires WellFormed(m)
  {
    FlushPages(if m.w.is603 then m.(w := InvalidateSet603(m.w, ea)) else m)
  }

  function Disabled(e: Tlb603Entry): Tlb603Entry {
    e.(valid := false)
  }

  /** mmu_603_tlb_invalidate_set. */
  function InvalidateSet603(w: World, ea: u32): (w': World)
    requires ValidWorld(w)
    ensures ValidWorld(w')
  {
    var a, b := Slot603(ITLB, ea, 0), Slot603(DTLB, ea, 0);
    w.(tlb603 := w.tlb603[a := Disabled(w.tlb603[a])][a + 1 := Disabled(w.tlb603[a + 1])]
                         [b := Disabled(w.tlb603[b])][b + 1 := Disabled(w.tlb603[b + 1])])
  }

  /** mmu_603_tlb_load (tlbld, tlbli) into a way, from the compare and RPA registers. */
  function Load603(m: Machine, ty: TlbType, ea: u32, way: nat, cmp: u32, rpa: u32): Machine
    requires WellFormed(m) && way < 2
  {
    var i, j := Slot603(ty, ea, way), Slot603(ty, ea, 1 - way);
    var old_ := m.w.tlb603[i];
    var t1 := if old_.valid then FlushPage(TlbOf(m, ty), old_.eaTag) else TlbOf(m, ty);
    var entry := Tlb603Entry(cmp >= 0x8000_0000, cmp / 128 % 0x100_0000, PageTag(ea), rpa);
    var other := m.w.tlb603[j];
    var twin := other.valid && other.vsid == entry.vsid && PageIndex(other.eaTag) == PageIndex(entry.eaTag);
    var w := m.w.(tlb603 := m.w.tlb603[i := entry][j := if twin then Disabled(other) else other],
                  lru603 := m.w.lru603[Lru603(ty, ea) := 1 - way]);
    WithTlb(m.(w := w), ty, FlushPage(t1, entry.eaTag))
  }

  /** Taking an exception synchronizes the context and turns translation off. */
  function TakeException(m: Machine): Machine
    requires WellFormed(m)
  {
    ContextSync(m).(msr := Msr(false, false, false))
  }
}
