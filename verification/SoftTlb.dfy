/** One software TLB (instruction or data) of cpu/ppc/ppcmmu.cpp as a value: a
    direct-mapped primary level and a four-way secondary level for each of the
    three translation contexts, the list of slots that hold translated entries,
    and the sources awaiting invalidation. */
module SoftTlb {
  import opened Bits
  import opened Address
  import opened Translation

  /** A TLB slot. `changed` is PTE_SET_C, `tracked` is TLBE_CTX_TRACKED. */
  datatype Entry = Entry(
    tag: u32, source: Source, writable: bool, changed: bool, tracked: bool,
    lru: nat, backing: Backing, physTag: u32)

  const SETS: nat := 12288
  const SLOTS: nat := 61440

  /** The TLBE_FROM_* sources a context change invalidates. */
  datatype Sources = Sources(bat: bool, pat: bool)

  const NOTHING := Sources(false, false)
  const TRANSLATION := Sources(true, true)
  const PAGES := Sources(false, true)

  /** Slot 5s is the primary entry of set s; slots 5s+1 to 5s+4 are its secondary ways. */
  datatype Tlb = Tlb(slots: seq<Entry>, tracked: seq<nat>, pending: Sources)

  predicate Covers(s: Sources, source: Source) {
    match source case NoSource => false case FromBat => s.bat case FromPat => s.pat
  }

  predicate Valid(e: Entry) {
    e.tag != INVALID_TAG
  }

  function ModeOf(s: nat): Mode {
    if s < 4096 then Real else if s < 8192 then Super else User
  }

  /** The set that serves an address in a translation context. */
  function SetFor(mode: Mode, va: u32): (s: nat)
    ensures s < SETS && ModeOf(s) == mode && s % 4096 == SetIndex(va)
  {
    (match mode case Real => 0 case Super => 4096 case User => 8192) + SetIndex(va)
  }

  // ---------- Tree-based replacement ----------

  /** New lru_bits of a way when `way` is touched. */
  function Touched(way: nat, k: nat, old_: nat): nat {
    if (way < 2) == (k < 2) then (if k == way then 3 else 2) else old_ % 2
  }

  function TouchWay(slots: seq<Entry>, s: nat, way: nat): (r: seq<Entry>)
    requires |slots| == SLOTS && s < SETS && way < 4
    ensures |r| == SLOTS
  {
    slots[5 * s + 1 := slots[5 * s + 1].(lru := Touched(way, 0, slots[5 * s + 1].lru))]
         [5 * s + 2 := slots[5 * s + 2].(lru := Touched(way, 1, slots[5 * s + 2].lru))]
         [5 * s + 3 := slots[5 * s + 3].(lru := Touched(way, 2, slots[5 * s + 3].lru))]
         [5 * s + 4 := slots[5 * s + 4].(lru := Touched(way, 3, slots[5 * s + 4].lru))]
  }

  /** The way a refill replaces: the first invalid one, else the one whose bits are 0. */
  function VictimWay(slots: seq<Entry>, s: nat): (way: nat)
    requires |slots| == SLOTS && s < SETS
    ensures way < 4
  {
    if !Valid(slots[5 * s + 1]) then 0
    else if !Valid(slots[5 * s + 2]) then 1
    else if !Valid(slots[5 * s + 3]) then 2
    else if !Valid(slots[5 * s + 4]) then 3
    else if slots[5 * s + 1].lru == 0 then 0
    else if slots[5 * s + 2].lru == 0 then 1
    else if slots[5 * s + 3].lru == 0 then 2
    else 3
  }

  // ---------- Lookup, refill, promotion ----------

  /** The secondary way that holds a tag, or 4. */
  function FindWay(slots: seq<Entry>, s: nat, tag: u32): (way: nat)
    requires |slots| == SLOTS && s < SETS
    ensures way <= 4
    ensures way < 4 ==> slots[5 * s + 1 + way].tag == tag
    ensures way == 4 ==> slots[5 * s + 1].tag != tag && slots[5 * s + 2].tag != tag &&
                         slots[5 * s + 3].tag != tag && slots[5 * s + 4].tag != tag
  {
    if slots[5 * s + 1].tag == tag then 0
    else if slots[5 * s + 2].tag == tag then 1
    else if slots[5 * s + 3].tag == tag then 2
    else if slots[5 * s + 4].tag == tag then 3
    else 4
  }

  /** track_translated_entry. */
  function Track(t: Tlb, i: nat): (r: Tlb)
    requires i < |t.slots|
    ensures |r.slots| == |t.slots| && r.pending == t.pending
  {
    if t.slots[i].source == NoSource || t.slots[i].tracked then t
    else t.(slots := t.slots[i := t.slots[i].(tracked := true)], tracked := t.tracked + [i])
  }

  function FilledEntry(e: Entry, tag: u32, fill: Fill, changed: bool): Entry {
    e.(tag := tag, source := fill.source, writable := fill.writable, changed := changed,
       backing := fill.backing, physTag := fill.physTag)
  }

  /** The tail of both refill routines: choose a way, touch it, store the entry, track it. */
  function Install(t: Tlb, s: nat, tag: u32, fill: Fill, changed: bool): (r: Tlb)
    requires |t.slots| == SLOTS && s < SETS
    ensures |r.slots| == SLOTS
  {
    var way := VictimWay(t.slots, s);
    var slots := TouchWay(t.slots, s, way);
    var i := 5 * s + 1 + way;
    Track(t.(slots := slots[i := FilledEntry(slots[i], tag, fill, changed)]), i)
  }

  /** promote_tlb_entry: copy a secondary way into the primary slot of its set. */
  function Promote(t: Tlb, s: nat, way: nat): (r: Tlb)
    requires |t.slots| == SLOTS && s < SETS && way < 4
    ensures |r.slots| == SLOTS
  {
    var e := t.slots[5 * s + 1 + way].(tracked := t.slots[5 * s].tracked);
    Track(t.(slots := t.slots[5 * s := e]), 5 * s)
  }

  /** Set PTE_SET_C in one slot. */
  function MarkSlot(slots: seq<Entry>, i: nat): (r: seq<Entry>)
    requires i < |slots|
    ensures |r| == |slots|
  {
    slots[i := slots[i].(changed := true)]
  }

  /** A store that updated the PTE through the primary entry mirrors PTE_SET_C
      into the secondary way of the same page, if there is one. */
  function MarkBoth(t: Tlb, s: nat): (r: Tlb)
    requires |t.slots| == SLOTS && s < SETS
    ensures |r.slots| == SLOTS
  {
    var slots := MarkSlot(t.slots, 5 * s);
    var way := FindWay(slots, s, slots[5 * s].tag);
    if way == 4 then t.(slots := slots)
    else t.(slots := MarkSlot(TouchWay(slots, s, way), 5 * s + 1 + way))
  }

  // ---------- Invalidation ----------

  /** What tlb_invalidate_tracked_entries does to one tracked entry. */
  function Invalidated(e: Entry, sources: Sources): Entry {
    if Covers(sources, e.source) then e.(tag := INVALID_TAG, tracked := false)
    else if e.source == NoSource then e.(tracked := false)
    else e
  }

  function Retained(slots: seq<Entry>, tracked: seq<nat>, sources: Sources): seq<nat>
    requires forall i :: i in tracked ==> i < |slots|
  {
    if tracked == [] then []
    else
      assert tracked[0] in tracked && forall i :: i in tracked[1..] ==> i in tracked;
      var e := slots[tracked[0]];
      (if e.source != NoSource && !Covers(sources, e.source) then [tracked[0]] else []) +
      Retained(slots, tracked[1..], sources)
  }

  function Invalidate(t: Tlb, sources: Sources): (r: Tlb)
    requires forall i :: i in t.tracked ==> i < |t.slots|
    ensures |r.slots| == |t.slots|
  {
    t.(slots := seq(|t.slots|, i requires 0 <= i < |t.slots| =>
                  if i in t.tracked then Invalidated(t.slots[i], sources) else t.slots[i]),
       tracked := Retained(t.slots, t.tracked, sources))
  }

  function Merge(a: Sources, b: Sources): Sources {
    Sources(a.bat || b.bat, a.pat || b.pat)
  }

  /** The deferred invalidation that a context synchronization runs. */
  function Synchronize(t: Tlb): Tlb
    requires forall i :: i in t.tracked ==> i < |t.slots|
  {
    if t.pending == NOTHING then t else Invalidate(t, t.pending).(pending := NOTHING)
  }

  /** Drop the page translations of one tag from a set. */
  function FlushSet(slots: seq<Entry>, s: nat, tag: u32): (r: seq<Entry>)
    requires |slots| == SLOTS && s < SETS
    ensures |r| == SLOTS
  {
    seq(SLOTS, i requires 0 <= i < SLOTS =>
      if 5 * s <= i < 5 * s + 5 && slots[i].tag == tag && slots[i].source == FromPat
      then slots[i].(tag := INVALID_TAG) else slots[i])
  }

  /** tlb_flush_pat_page: both translated contexts, both levels. */
  function FlushPage(t: Tlb, ea: u32): (r: Tlb)
    requires |t.slots| == SLOTS
    ensures |r.slots| == SLOTS
  {
    t.(slots := FlushSet(FlushSet(t.slots, SetFor(Super, ea), PageTag(ea)), SetFor(User, ea), PageTag(ea)))
  }

  // ---------- Invariants ----------

  /** The fields a lookup relies on agree: everything but lru and tracked. */
  predicate SameTranslation(e: Entry, e': Entry) {
    e' == e.(tracked := e'.tracked, lru := e'.lru)
  }

  predicate EntryOk(e: Entry, s: nat) {
    && (Valid(e) ==> PageTag(e.tag) == e.tag && SetIndex(e.tag) == s % 4096)
    && (Valid(e) && ModeOf(s) != Real ==> e.source != NoSource)
    && (ModeOf(s) == Real ==> e.source == NoSource)
  }

  predicate Distinct(e: Entry, e': Entry) {
    Valid(e) ==> e.tag != e'.tag
  }

  predicate Agrees(primary: Entry, e: Entry) {
    Valid(primary) && e.tag == primary.tag ==> SameTranslation(primary, e)
  }

  datatype PairState = Untouched | Older | Recent | Broken

  /** The state of one branch of the replacement tree. */
  function StateOf(a: nat, b: nat): PairState {
    if a == 0 && b == 0 then Untouched
    else if (a == 0 && b == 1) || (a == 1 && b == 0) then Older
    else if (a == 2 && b == 3) || (a == 3 && b == 2) then Recent
    else Broken
  }

  /** At most one branch is recent, and an older branch has a recent sibling. */
  predicate TreeOk(x: PairState, y: PairState) {
    x != Broken && y != Broken && (x == Older ==> y == Recent) && (y == Older ==> x == Recent) &&
    !(x == Recent && y == Recent)
  }

  predicate LruOk(a: Entry, b: Entry, c: Entry, d: Entry) {
    var x, y := StateOf(a.lru, b.lru), StateOf(c.lru, d.lru);
    TreeOk(x, y) && (Valid(a) || Valid(b) ==> x != Untouched) && (Valid(c) || Valid(d) ==> y != Untouched)
  }

  /** A set: a primary entry that is host memory, four ways with distinct tags,
      and agreement between the levels. */
  predicate SetShape(s: nat, p: Entry, a: Entry, b: Entry, c: Entry, d: Entry) {
    && EntryOk(p, s) && EntryOk(a, s) && EntryOk(b, s) && EntryOk(c, s) && EntryOk(d, s)
    && (Valid(p) ==> p.backing.Memory?)
    && Distinct(a, b) && Distinct(a, c) && Distinct(a, d) && Distinct(b, c) && Distinct(b, d) && Distinct(c, d)
    && Agrees(p, a) && Agrees(p, b) && Agrees(p, c) && Agrees(p, d)
    && LruOk(a, b, c, d)
  }

  predicate SetOk(slots: seq<Entry>, s: nat)
    requires |slots| == SLOTS && s < SETS
  {
    SetShape(s, slots[5 * s], slots[5 * s + 1], slots[5 * s + 2], slots[5 * s + 3], slots[5 * s + 4])
  }

  ghost predicate Sets(slots: seq<Entry>)
    requires |slots| == SLOTS
  {
    forall s: nat :: s < SETS ==> SetOk(slots, s)
  }

  ghost predicate NoRepeats(l: seq<nat>) {
    forall i: nat, j: nat :: i < j < |l| ==> l[i] != l[j]
  }

  /** The list holds exactly the slots whose flag is set, each once, and no
      valid translated slot is missing from it. */
  ghost predicate Tracking(t: Tlb) {
    && NoRepeats(t.tracked)
    && (forall i :: i in t.tracked ==> i < |t.slots| && t.slots[i].tracked && t.slots[i].source != NoSource)
    && (forall i: nat :: i < |t.slots| && t.slots[i].tracked ==> i in t.tracked)
    && (forall i: nat :: i < |t.slots| && Valid(t.slots[i]) && t.slots[i].source != NoSource ==> t.slots[i].tracked)
  }

  ghost predicate TlbOk(t: Tlb) {
    |t.slots| == SLOTS && Sets(t.slots) && Tracking(t)
  }

  /** What a fresh translation gives for each page of each context. */
  type Oracle = (Mode, u32) -> FillResult

  predicate EntryCoherent(e: Entry, want: FillResult) {
    want.Filled? && want.fill == Fill(e.source, e.writable, e.backing, e.physTag) && (e.changed ==> want.changed)
  }

  /** An entry a lookup may hit whose source is not awaiting invalidation; `stale`
      says the page table was edited since the last flush of page translations. */
  predicate Live(e: Entry, pending: Sources, stale: bool) {
    Valid(e) && !Covers(pending, e.source) && (e.source == FromPat ==> !stale)
  }

  /** Every live entry is what a fresh translation would store. */
  ghost predicate Coherent(t: Tlb, oracle: Oracle, stale: bool) {
    forall i: nat :: i < |t.slots| && Live(t.slots[i], t.pending, stale) ==>
      EntryCoherent(t.slots[i], oracle(ModeOf(i / 5), t.slots[i].tag))
  }
}
