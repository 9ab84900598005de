/** Context changes, flushes and synchronization keep the invariant. */
module MmuContext {
  import opened Bits
  import opened Address
  import opened Translation
  import opened Reference
  import opened SoftTlb
  import opened SoftTlbProofs
  import opened Mmu
  import opened MmuProofs

  // ---------- Which translations a change can touch ----------

  /** Two worlds with the same address map translate real addresses alike. */
  lemma RealKept(w: World, w': World, ty: TlbType, va: u32)
    requires ValidWorld(w) && ValidWorld(w') && w'.regions == w.regions && w'.dummyPage == w.dummyPage
    ensures Refill(w', ty, Real, va, false) == Refill(w, ty, Real, va, false)
  {
  }

  lemma SourceOf(w: World, ty: TlbType, mode: Mode, va: u32)
    requires ValidWorld(w) && Refill(w, ty, mode, va, false).Filled?
    ensures match Refill(w, ty, mode, va, false).fill.source
            case NoSource => mode == Real
            case FromBat => mode != Real && BlockTranslate(w, ty, mode == User, va).BatHit?
            case FromPat => mode != Real && BlockTranslate(w, ty, mode == User, va).BatMiss?
  {
    hide BlockTranslate, PageWalk, BackingOf;
  }

  /** A block translation survives everything that leaves its own lookup alone. */
  lemma BlockKept(w: World, w': World, ty: TlbType, mode: Mode, va: u32)
    requires ValidWorld(w) && ValidWorld(w') && w'.regions == w.regions && w'.dummyPage == w.dummyPage
    requires mode != Real && BlockTranslate(w, ty, mode == User, va).BatHit?
    requires BlockTranslate(w', ty, mode == User, va) == BlockTranslate(w, ty, mode == User, va)
    ensures Refill(w', ty, mode, va, false) == Refill(w, ty, mode, va, false)
  {
    hide BlockTranslate, PageWalk, ValidWorld, FillOf;
    assert Translate(w', ty, mode, va, false) == Translate(w, ty, mode, va, false);
    FillIgnores(w, w', ty, va, Translate(w, ty, mode, va, false));
    hide Translate;
  }

  /** The region lookup reads the address map alone. */
  lemma FillIgnores(w: World, w': World, ty: TlbType, va: u32, x: Xlat)
    requires w'.regions == w.regions && w'.dummyPage == w.dummyPage
    ensures FillOf(w', ty, va, x) == FillOf(w, ty, va, x)
  {
  }

  /** What of the translation state a change leaves alone. */
  predicate SameMap(w: World, w': World) {
    w'.regions == w.regions && w'.dummyPage == w.dummyPage && |w'.mem| == |w.mem|
  }

  /** A side stays in order under a new world and a larger pending set when every
      entry that stays live keeps its translation. */
  lemma SideChange(m: Machine, m': Machine, ty: TlbType, stale: bool, stale': bool)
    requires ValidWorld(m.w) && ValidWorld(m'.w) && SideOk(m, ty, stale) && (stale ==> stale')
    requires |m'.w.mem| == |m.w.mem|
    requires var t, t' := TlbOf(m, ty), TlbOf(m', ty);
             t' == t.(pending := t'.pending) &&
             (forall source :: Covers(t.pending, source) ==> Covers(t'.pending, source)) &&
             (t'.pending != NOTHING ==> ty in m'.actions)
    requires forall i: nat :: i < SLOTS && Live(TlbOf(m, ty).slots[i], TlbOf(m', ty).pending, stale') ==>
               Kept(Refill(m.w, ty, ModeOf(i / 5), TlbOf(m, ty).slots[i].tag, false),
                    Refill(m'.w, ty, ModeOf(i / 5), TlbOf(m, ty).slots[i].tag, false))
    ensures SideOk(m', ty, stale')
  {
    hide ValidWorld, Refill, Sets, Tracking, EntrySound;
    var t, t' := TlbOf(m, ty), TlbOf(m', ty);
    var o, o' := OracleFor(m.w, ty), OracleFor(m'.w, ty);
    forall i: nat | i < SLOTS && Live(t.slots[i], t'.pending, stale')
      ensures Kept(o(ModeOf(i / 5), t.slots[i].tag), o'(ModeOf(i / 5), t.slots[i].tag))
    {
    }
    ContextChange(t, t'.pending, o, o', stale, stale');
  }

  /** The fresh translation behind a live entry, with the source its slot implies. */
  lemma LiveSource(m: Machine, ty: TlbType, i: nat, stale: bool)
    requires ValidWorld(m.w) && SideOk(m, ty, stale) && i < SLOTS
    requires Live(TlbOf(m, ty).slots[i], TlbOf(m, ty).pending, stale)
    ensures var e := TlbOf(m, ty).slots[i];
            Refill(m.w, ty, ModeOf(i / 5), e.tag, false).Filled? &&
            Refill(m.w, ty, ModeOf(i / 5), e.tag, false).fill.source == e.source
    ensures TlbOf(m, ty).slots[i].source == NoSource <==> ModeOf(i / 5) == Real
  {
    hide Refill, Sets, Tracking, Sound;
    var t := TlbOf(m, ty);
    assert EntryCoherent(t.slots[i], OracleFor(m.w, ty)(ModeOf(i / 5), t.slots[i].tag));
    PageHome(t, i);
  }

  // ---------- Block address registers ----------

  lemma PpcEntryValid(upper: u32, lower: u32)
    ensures ValidBat(PpcBatEntry(upper, lower))
  {
    var mask := Not32(upper / 4 % 2048 * 131072 + 131071);
    MaskedRegister(upper, mask);
    MaskedRegister(lower, mask);
  }

  lemma Entry601Valid(old_: BatEntry, upper: u32, lower: u32)
    requires ValidBat(old_)
    ensures ValidBat(Bat601Entry(old_, upper, lower))
  {
    var mask := Not32(lower % 64 * 131072 + 131071);
    MaskedRegister(upper, mask);
    MaskedRegister(lower, mask);
  }

  lemma MaskedRegister(value: u32, mask: u32)
    requires mask % 131072 == 0
    ensures And(value, mask) % 131072 == 0
  {
    MaskParts(value, mask);
    AndNone(value % 131072);
  }

  /** With both sources pending only real addresses stay live, and those no
      register can redirect. */
  lemma AllPendingSide(m: Machine, m': Machine, ty: TlbType, stale: bool)
    requires ValidWorld(m.w) && ValidWorld(m'.w) && SideOk(m, ty, stale) && SameMap(m.w, m'.w)
    requires TlbOf(m', ty) == TlbOf(m, ty).(pending := TRANSLATION) && ty in m'.actions
    ensures SideOk(m', ty, stale)
  {
    var t := TlbOf(m, ty);
    forall i: nat | i < SLOTS && Live(t.slots[i], TRANSLATION, stale)
      ensures Kept(Refill(m.w, ty, ModeOf(i / 5), t.slots[i].tag, false),
                   Refill(m'.w, ty, ModeOf(i / 5), t.slots[i].tag, false))
    {
      hide Refill;
      LiveSource(m, ty, i, stale);
      RealKept(m.w, m'.w, ty, t.slots[i].tag);
    }
    hide Refill, TlbOk, Coherent, Sound, ValidWorld;
    SideChange(m, m', ty, stale, stale);
  }

  lemma SideSize(m: Machine, ty: TlbType, stale: bool)
    requires ValidWorld(m.w) && SideOk(m, ty, stale)
    ensures |TlbOf(m, ty).slots| == SLOTS
  {
  }

  /** A change that no translation of this side reads. */
  lemma UnreadSide(m: Machine, m': Machine, ty: TlbType, stale: bool)
    requires ValidWorld(m.w) && ValidWorld(m'.w) && SideOk(m, ty, stale) && Preserves(m.w, m'.w, ty)
    requires |m'.w.mem| == |m.w.mem| && TlbOf(m', ty) == TlbOf(m, ty)
    requires ty in m.actions ==> ty in m'.actions
    ensures SideOk(m', ty, stale)
  {
    hide Refill, TlbOk, Coherent, Sound, ValidWorld;
    var t := TlbOf(m, ty);
    assert |t.slots| == SLOTS by { SideSize(m, ty, stale); }
    forall i: nat | i < SLOTS
      ensures Kept(Refill(m.w, ty, ModeOf(i / 5), t.slots[i].tag, false),
                   Refill(m'.w, ty, ModeOf(i / 5), t.slots[i].tag, false))
    {
    }
    SideChange(m, m', ty, stale, stale);
  }

  /** Outside the 601, data translation ignores instruction BATs and conversely. */
  lemma OtherBats(w: World, w': World, ty: TlbType)
    requires ValidWorld(w) && ValidWorld(w') && !w.is601
    requires ty == DTLB ==> w' == w.(ibat := w'.ibat)
    requires ty == ITLB ==> w' == w.(dbat := w'.dbat)
    ensures Preserves(w, w', ty)
  {
    forall mode: Mode, va: u32
      ensures Kept(Refill(w, ty, mode, va, false), Refill(w', ty, mode, va, false))
    {
      assert BlockTranslate(w', ty, mode == User, va) == BlockTranslate(w, ty, mode == User, va);
      WalkIgnoresBats(w, w', ty, va, mode == User);
      RefillKept(w, w', ty, mode, va);
    }
  }

  lemma WalkIgnoresBats(w: World, w': World, ty: TlbType, la: u32, pr: bool)
    requires ValidWorld(w) && ValidWorld(w') && w' == w.(ibat := w'.ibat, dbat := w'.dbat)
    ensures PageWalk(w, ty, la, pr, false).Page? ==> PageWalk(w', ty, la, pr, false) == PageWalk(w, ty, la, pr, false)
  {
    hide Walk603, HashedWalk, ValidWorld;
    assert SegmentOf(w', la) == SegmentOf(w, la);
    if Walk603(w, ty, la, pr, false).Page? {
      Kept603(w, w', ty, la, pr);
    }
    HashedIgnoresBats(w, w', ty, la, pr);
  }

  lemma HashedIgnoresBats(w: World, w': World, ty: TlbType, la: u32, pr: bool)
    requires ValidWorld(w) && ValidWorld(w') && w' == w.(ibat := w'.ibat, dbat := w'.dbat)
    ensures HashedWalk(w', ty, la, pr, false) == HashedWalk(w, ty, la, pr, false)
  {
    FindIgnoresBats(w, w', la);
    hide FindPte, ReadWord, ValidWorld;
    assert SegmentOf(w', la) == SegmentOf(w, la);
  }

  lemma FindIgnoresBats(w: World, w': World, la: u32)
    requires ValidWorld(w) && ValidWorld(w') && w' == w.(ibat := w'.ibat, dbat := w'.dbat)
    ensures FindPte(w', la) == FindPte(w, la)
  {
    hide ReadWord;
    assert SegmentOf(w', la) == SegmentOf(w, la);
    forall hash: u32, word: u32
      ensures SearchGroup(w', hash, word) == SearchGroup(w, hash, word)
    {
      assert PtegHost(w', hash) == PtegHost(w, hash);
    }
  }

  /** Scheduling both sources makes them both pending, with their action registered. */
  lemma ScheduleAll(m: Machine, ty: TlbType)
    requires TlbOf(m, ty).pending != NOTHING ==> ty in m.actions
    ensures var m' := Schedule(m, ty, TRANSLATION);
            TlbOf(m', ty) == TlbOf(m, ty).(pending := TRANSLATION) && ty in m'.actions &&
            (forall o :: o in m.actions ==> o in m'.actions) && m'.w == m.w && m'.msr == m.msr &&
            (forall o: TlbType :: o != ty ==> TlbOf(m', o) == TlbOf(m, o))
  {
  }

  lemma ActionsKnown(m: Machine, ty: TlbType, stale: bool)
    requires MachineOk(m, stale)
    ensures TlbOf(m, ty).pending != NOTHING ==> ty in m.actions
  {
  }

  lemma BatUpdateValid(m: Machine, n: nat, upper: u32, lower: u32)
    requires WellFormed(m) && n < 4
    ensures ValidWorld(WriteIbat(m, n, upper, lower).w) && ValidWorld(WriteDbat(m, n, upper, lower).w)
  {
    PpcEntryValid(upper, lower);
    Entry601Valid(m.w.ibat[n], upper, lower);
    assert m.w.dbat[n] in m.w.dbat;
    hide PpcBatEntry, Bat601Entry, ValidBat;
  }

  /** A new block address entry invalidates every translation it could shadow. */
  lemma WriteIbatOk(m: Machine, n: nat, upper: u32, lower: u32, stale: bool)
    requires MachineOk(m, stale) && n < 4
    ensures WellFormed(m) && MachineOk(WriteIbat(m, n, upper, lower), stale)
  {
    OkWellFormed(m, stale);
    BatUpdateValid(m, n, upper, lower);
    ActionsKnown(m, ITLB, stale);
    ActionsKnown(m, DTLB, stale);
    var m' := WriteIbat(m, n, upper, lower);
    var m1 := m.(w := m'.w);
    ScheduleAll(m1, ITLB);
    hide SideOk, WellFormed, ValidWorld, PpcBatEntry, Bat601Entry, Preserves;
    AllPendingSide(m, Schedule(m1, ITLB, TRANSLATION), ITLB, stale);
    if m.w.is601 {
      ScheduleAll(Schedule(m1, ITLB, TRANSLATION), DTLB);
      AllPendingSide(m, m', DTLB, stale);
      AllPendingSide(m, m', ITLB, stale);
    } else {
      OtherBats(m.w, m'.w, DTLB);
      UnreadSide(m, m', DTLB, stale);
    }
  }

  lemma WriteDbatOk(m: Machine, n: nat, upper: u32, lower: u32, stale: bool)
    requires MachineOk(m, stale) && n < 4
    ensures WellFormed(m) && MachineOk(WriteDbat(m, n, upper, lower), stale)
  {
    OkWellFormed(m, stale);
    BatUpdateValid(m, n, upper, lower);
    ActionsKnown(m, DTLB, stale);
    var m' := WriteDbat(m, n, upper, lower);
    ScheduleAll(m.(w := m'.w), DTLB);
    hide SideOk, WellFormed, ValidWorld, PpcBatEntry, Preserves;
    if !m.w.is601 {
      AllPendingSide(m, m', DTLB, stale);
      OtherBats(m.w, m'.w, ITLB);
      UnreadSide(m, m', ITLB, stale);
    }
  }

  // ---------- Segment registers and SDR1 ----------

  /** With page translations pending, only real and block translations stay live. */
  lemma PagesPendingSide(m: Machine, m': Machine, ty: TlbType, stale: bool)
    requires ValidWorld(m.w) && ValidWorld(m'.w) && SideOk(m, ty, stale) && SameMap(m.w, m'.w)
    requires TlbOf(m', ty) == TlbOf(m, ty).(pending := Merge(TlbOf(m, ty).pending, PAGES)) && ty in m'.actions
    requires forall i: nat :: i < SLOTS && LiveBlock(m, ty, i) ==>
               var mode, tag := ModeOf(i / 5), TlbOf(m, ty).slots[i].tag;
               BlockTranslate(m.w, ty, mode == User, tag).BatHit? ==>
                 BlockTranslate(m'.w, ty, mode == User, tag) == BlockTranslate(m.w, ty, mode == User, tag)
    ensures SideOk(m', ty, stale)
  {
    assert |TlbOf(m, ty).slots| == SLOTS by { SideSize(m, ty, stale); }
    hide Refill, ValidWorld, BlockTranslate, SideOk;
    var t := TlbOf(m, ty);
    forall i: nat | i < SLOTS && Live(t.slots[i], Merge(t.pending, PAGES), stale)
      ensures Kept(Refill(m.w, ty, ModeOf(i / 5), t.slots[i].tag, false),
                   Refill(m'.w, ty, ModeOf(i / 5), t.slots[i].tag, false))
    {
      LiveSource(m, ty, i, stale);
      SourceOf(m.w, ty, ModeOf(i / 5), t.slots[i].tag);
      if t.slots[i].source == NoSource {
        RealKept(m.w, m'.w, ty, t.slots[i].tag);
      } else {
        assert LiveBlock(m, ty, i);
        BlockKept(m.w, m'.w, ty, ModeOf(i / 5), t.slots[i].tag);
      }
    }
    SideChange(m, m', ty, stale, stale);
  }

  /** A cached block translation that is not awaiting invalidation. */
  predicate LiveBlock(m: Machine, ty: TlbType, i: nat) {
    var t := TlbOf(m, ty);
    i < |t.slots| && Valid(t.slots[i]) && t.slots[i].source == FromBat && !t.pending.bat
  }

  /** On a 601 a direct-store segment hides the BATs, but a segment register write
      schedules page translations only. The write is safe exactly when it does not
      hide a segment that still has a live cached block translation. */
  ghost predicate SrSafe(m: Machine, n: nat, value: u32) {
    m.w.is601 && DirectStore(value) ==>
      forall ty: TlbType, i: nat :: LiveBlock(m, ty, i) ==> Segment(TlbOf(m, ty).slots[i].tag) != n
  }

  lemma SchedulePages(m: Machine, ty: TlbType)
    requires TlbOf(m, ty).pending != NOTHING ==> ty in m.actions
    ensures var m' := Schedule(m, ty, PAGES);
            TlbOf(m', ty) == TlbOf(m, ty).(pending := Merge(TlbOf(m, ty).pending, PAGES)) && ty in m'.actions &&
            (forall o :: o in m.actions ==> o in m'.actions) && m'.w == m.w && m'.msr == m.msr &&
            (forall o: TlbType :: o != ty ==> TlbOf(m', o) == TlbOf(m, o))
  {
  }

  lemma PagesScheduled(m: Machine, w': World, stale: bool)
    requires MachineOk(m, stale)
    ensures var m' := PageContextChanged(m.(w := w'));
            && m'.w == w' && m'.msr == m.msr && ITLB in m'.actions && DTLB in m'.actions
            && m'.itlb == m.itlb.(pending := Merge(m.itlb.pending, PAGES))
            && m'.dtlb == m.dtlb.(pending := Merge(m.dtlb.pending, PAGES))
  {
    ActionsKnown(m, ITLB, stale);
    ActionsKnown(m, DTLB, stale);
    hide MachineOk;
    var m1 := m.(w := w');
    SchedulePages(m1, ITLB);
    SchedulePages(Schedule(m1, ITLB, PAGES), DTLB);
  }

  lemma SdrBlocks(w: World, w': World, ty: TlbType, pr: bool, la: u32)
    requires ValidWorld(w) && ValidWorld(w') && w' == w.(sdr1 := w'.sdr1)
    ensures BlockTranslate(w', ty, pr, la) == BlockTranslate(w, ty, pr, la)
  {
    assert SegmentOf(w', la) == SegmentOf(w, la);
  }

  lemma WriteSdr1Ok(m: Machine, value: u32, stale: bool)
    requires MachineOk(m, stale)
    ensures MachineOk(WriteSdr1(m, value), stale)
  {
    OkWellFormed(m, stale);
    var w' := m.w.(sdr1 := value);
    assert ValidWorld(w');
    PagesScheduled(m, w', stale);
    forall ty: TlbType, pr: bool, la: u32
      ensures BlockTranslate(w', ty, pr, la) == BlockTranslate(m.w, ty, pr, la)
    {
      SdrBlocks(m.w, w', ty, pr, la);
    }
    hide SideOk, ValidWorld, BlockTranslate, PageContextChanged;
    if m.w.sdr1 != value {
      PagesPendingSide(m, WriteSdr1(m, value), ITLB, stale);
      PagesPendingSide(m, WriteSdr1(m, value), DTLB, stale);
    }
  }

  lemma SrBlocks(w: World, w': World, n: nat, ty: TlbType, pr: bool, la: u32)
    requires ValidWorld(w) && ValidWorld(w') && n < 16 && w' == w.(sr := w.sr[n := w'.sr[n]])
    requires BlockTranslate(w, ty, pr, la).BatHit?
    requires w.is601 && DirectStore(w'.sr[n]) ==> Segment(la) != n
    ensures BlockTranslate(w', ty, pr, la) == BlockTranslate(w, ty, pr, la)
  {
  }

  lemma WriteSrOk(m: Machine, n: nat, value: u32, stale: bool)
    requires MachineOk(m, stale) && n < 16 && SrSafe(m, n, value)
    ensures WellFormed(m) && MachineOk(WriteSr(m, n, value), stale)
  {
    OkWellFormed(m, stale);
    var w' := m.w.(sr := m.w.sr[n := value]);
    assert ValidWorld(w');
    PagesScheduled(m, w', stale);
    if m.w.sr[n] != value {
      WriteSrSide(m, n, value, ITLB, stale);
      WriteSrSide(m, n, value, DTLB, stale);
    }
  }

  lemma WriteSrSide(m: Machine, n: nat, value: u32, ty: TlbType, stale: bool)
    requires MachineOk(m, stale) && n < 16 && SrSafe(m, n, value) && WellFormed(m) && m.w.sr[n] != value
    requires ValidWorld(m.w.(sr := m.w.sr[n := value]))
    ensures SideOk(WriteSr(m, n, value), ty, stale)
  {
    var w' := m.w.(sr := m.w.sr[n := value]);
    PagesScheduled(m, w', stale);
    assert SideOk(m, ty, stale) && |TlbOf(m, ty).slots| == SLOTS;
    hide SideOk, ValidWorld, BlockTranslate, PageContextChanged, WellFormed, MachineOk;
    forall i: nat | i < SLOTS && LiveBlock(m, ty, i) && BlockTranslate(m.w, ty, ModeOf(i / 5) == User, TlbOf(m, ty).slots[i].tag).BatHit?
      ensures var pr, tag := ModeOf(i / 5) == User, TlbOf(m, ty).slots[i].tag;
              BlockTranslate(w', ty, pr, tag) == BlockTranslate(m.w, ty, pr, tag)
    {
      SrBlocks(m.w, w', n, ty, ModeOf(i / 5) == User, TlbOf(m, ty).slots[i].tag);
    }
    PagesPendingSide(m, WriteSr(m, n, value), ty, stale);
  }

  /** An unsafe segment register write really does break coherence: the hidden
      block translation stays cached, but a fresh translation no longer makes it. */
  lemma UnsafeSrBreaks(m: Machine, n: nat, value: u32, stale: bool)
    requires MachineOk(m, stale) && n < 16 && !SrSafe(m, n, value)
    ensures WellFormed(m) && !MachineOk(WriteSr(m, n, value), stale)
  {
    OkWellFormed(m, stale);
    var ty: TlbType, i: nat :| LiveBlock(m, ty, i) && Segment(TlbOf(m, ty).slots[i].tag) == n;
    var w' := m.w.(sr := m.w.sr[n := value]);
    assert ValidWorld(w');
    PagesScheduled(m, w', stale);
    var m' := WriteSr(m, n, value);
    assert SideOk(m, ty, stale) && |TlbOf(m, ty).slots| == SLOTS;
    hide ValidWorld, WellFormed, PageContextChanged, TlbOk, Coherent, Sound, Refill, BlockTranslate;
    LiveSource(m, ty, i, stale);
    SourceOf(m.w, ty, ModeOf(i / 5), TlbOf(m, ty).slots[i].tag);
    assert m.w.sr[n] != value by { HiddenBlock(m.w, ty, ModeOf(i / 5) == User, TlbOf(m, ty).slots[i].tag); }
    if MachineOk(m', stale) {
      assert TlbOf(m', ty).slots == TlbOf(m, ty).slots && !TlbOf(m', ty).pending.bat;
      LiveSource(m', ty, i, stale);
      SourceOf(w', ty, ModeOf(i / 5), TlbOf(m, ty).slots[i].tag);
      HiddenBlock(w', ty, ModeOf(i / 5) == User, TlbOf(m, ty).slots[i].tag);
    }
  }

  lemma HiddenBlock(w: World, ty: TlbType, pr: bool, la: u32)
    requires ValidWorld(w) && w.is601
    ensures DirectStore(w.sr[Segment(la)]) ==> BlockTranslate(w, ty, pr, la).BatMiss?
  {
  }

  /** The exact condition under which a segment register write is coherent. */
  lemma WriteSrIff(m: Machine, n: nat, value: u32, stale: bool)
    requires MachineOk(m, stale) && n < 16
    ensures WellFormed(m) && (MachineOk(WriteSr(m, n, value), stale) <==> SrSafe(m, n, value))
  {
    hide MachineOk, SrSafe;
    OkWellFormed(m, stale);
    if SrSafe(m, n, value) {
      WriteSrOk(m, n, value, stale);
    } else {
      UnsafeSrBreaks(m, n, value, stale);
    }
  }

  /** What the guest can see of it: no block address register maps an address of the segment. */
  ghost predicate NoBlockIn(w: World, n: nat)
    requires ValidWorld(w)
  {
    forall ty: TlbType, pr: bool, la: u32 :: Segment(la) == n ==> !BlockTranslate(w, ty, pr, la).BatHit?
  }

  /** Software that sets T only over segments without block translations is safe. */
  lemma GuestSafe(m: Machine, n: nat, value: u32, stale: bool)
    requires MachineOk(m, stale) && n < 16 && NoBlockIn(m.w, n)
    ensures SrSafe(m, n, value) && MachineOk(WriteSr(m, n, value), stale)
  {
    hide ValidWorld, SideOk, BlockTranslate, Refill, WriteSr;
    forall ty: TlbType, i: nat | LiveBlock(m, ty, i)
      ensures Segment(TlbOf(m, ty).slots[i].tag) != n
    {
      var e := TlbOf(m, ty).slots[i];
      assert |TlbOf(m, ty).slots| == SLOTS by { SideSize(m, ty, stale); }
      LiveSource(m, ty, i, stale);
      SourceOf(m.w, ty, ModeOf(i / 5), e.tag);
    }
    WriteSrOk(m, n, value, stale);
  }

  // ---------- Flushes ----------

  lemma FlushSide(m: Machine, m': Machine, ty: TlbType, stale: bool)
    requires ValidWorld(m.w) && ValidWorld(m'.w) && SideOk(m, ty, stale) && SameMap(m.w, m'.w)
    requires WellFormed(m) && TlbOf(m', ty) == Invalidate(TlbOf(m, ty), PAGES) && m'.actions == m.actions
    requires forall pr: bool, va: u32 :: BlockTranslate(m.w, ty, pr, va).BatHit? ==>
               BlockTranslate(m'.w, ty, pr, va) == BlockTranslate(m.w, ty, pr, va)
    ensures SideOk(m', ty, false)
  {
    var t, t' := TlbOf(m, ty), TlbOf(m', ty);
    InvalidateOk(t, PAGES);
    FlushSound(t, ty, |m.w.mem|);
    hide Refill, BlockTranslate, Sets, Tracking, EntrySound, ValidWorld;
    forall i: nat | i < SLOTS && Live(t'.slots[i], t'.pending, false)
      ensures EntryCoherent(t'.slots[i], OracleFor(m'.w, ty)(ModeOf(i / 5), t'.slots[i].tag))
    {
      LiveSource(m, ty, i, stale);
      SourceOf(m.w, ty, ModeOf(i / 5), t.slots[i].tag);
      if t.slots[i].source == NoSource {
        RealKept(m.w, m'.w, ty, t.slots[i].tag);
      } else {
        BlockKept(m.w, m'.w, ty, ModeOf(i / 5), t.slots[i].tag);
      }
      assert EntryCoherent(t.slots[i], OracleFor(m.w, ty)(ModeOf(i / 5), t.slots[i].tag));
    }
  }

  lemma FlushSound(t: Tlb, ty: TlbType, size: nat)
    requires TlbOk(t) && Sound(t, ty, size)
    ensures Sound(Invalidate(t, PAGES), ty, size)
  {
    InvalidateOk(t, PAGES);
    hide Sets, Tracking, Invalidate;
  }

  /** After tlb_flush_all_pat no earlier page table edit matters any more. */
  lemma FlushPagesOk(m: Machine, stale: bool)
    requires MachineOk(m, stale)
    ensures WellFormed(m) && MachineOk(FlushPages(m), false)
  {
    OkWellFormed(m, stale);
    hide SideOk, ValidWorld, WellFormed, Invalidate, BlockTranslate;
    FlushSide(m, FlushPages(m), ITLB, stale);
    FlushSide(m, FlushPages(m), DTLB, stale);
  }

  lemma Tlb603Blocks(w: World, w': World, ty: TlbType, pr: bool, la: u32)
    requires ValidWorld(w) && ValidWorld(w') && w' == w.(tlb603 := w'.tlb603, lru603 := w'.lru603)
    ensures BlockTranslate(w', ty, pr, la) == BlockTranslate(w, ty, pr, la)
  {
    assert SegmentOf(w', la) == SegmentOf(w, la);
  }

  /** tlbie drops the 603's entries and every cached page translation together. */
  lemma TlbieOk(m: Machine, ea: u32, stale: bool)
    requires MachineOk(m, stale)
    ensures WellFormed(m) && MachineOk(Tlbie(m, ea), false)
  {
    OkWellFormed(m, stale);
    if m.w.is603 {
      var w' := InvalidateSet603(m.w, ea);
      forall ty: TlbType, pr: bool, la: u32
        ensures BlockTranslate(w', ty, pr, la) == BlockTranslate(m.w, ty, pr, la)
      {
        Tlb603Blocks(m.w, w', ty, pr, la);
      }
      hide SideOk, ValidWorld, WellFormed, Invalidate, BlockTranslate;
      FlushSide(m, Tlbie(m, ea), ITLB, stale);
      FlushSide(m, Tlbie(m, ea), DTLB, stale);
    } else {
      FlushPagesOk(m, stale);
    }
  }

  /** What tlbie drops: every cached page translation and nothing else. */
  lemma TlbieDrops(m: Machine, ea: u32, ty: TlbType, stale: bool)
    requires MachineOk(m, stale)
    ensures WellFormed(m)
    ensures var t, t' := TlbOf(m, ty), TlbOf(Tlbie(m, ea), ty);
            && |t.slots| == |t'.slots| == SLOTS
            && (forall i: nat :: i < SLOTS ==> (Valid(t'.slots[i]) <==> Valid(t.slots[i]) && t.slots[i].source != FromPat))
            && (forall i: nat :: i < SLOTS && Valid(t'.slots[i]) ==> t'.slots[i] == t.slots[i])
  {
    OkWellFormed(m, stale);
    assert SideOk(m, ty, stale);
    hide TlbOk, Coherent, Sound, ValidWorld, Invalidate, InvalidateSet603, MachineOk;
    InvalidateOk(TlbOf(m, ty), PAGES);
  }

  /** On a 603 it also disables both ways of the indexed set on both sides, so that the
      address misses there; elsewhere the hardware state is as it was. */
  lemma Tlbie603(m: Machine, ea: u32, ty: TlbType)
    requires WellFormed(m)
    ensures ValidWorld(Tlbie(m, ea).w)
    ensures !m.w.is603 ==> Tlbie(m, ea).w == m.w
    ensures m.w.is603 ==>
              && Tlbie(m, ea).w == m.w.(tlb603 := Tlbie(m, ea).w.tlb603)
              && (forall i: nat :: i < 128 ==>
                    Tlbie(m, ea).w.tlb603[i] == if i % 64 / 2 == Set603(ea) then Disabled(m.w.tlb603[i]) else m.w.tlb603[i])
              && Way603(Tlbie(m, ea).w, ty, ea) == 2
  {
    assert ValidWorld(m.w);
    hide Invalidate, WellFormed;
    if m.w.is603 {
      DisabledSet(m.w, ea);
      DisabledMisses(InvalidateSet603(m.w, ea), ty, ea);
    }
    hide InvalidateSet603, ValidWorld, Way603;
  }

  lemma DisabledMisses(w: World, ty: TlbType, ea: u32)
    requires ValidWorld(w) && forall i: nat :: i < 128 && i % 64 / 2 == Set603(ea) ==> !w.tlb603[i].valid
    ensures Way603(w, ty, ea) == 2
  {
    hide Set603, PageIndex, Vsid, SegmentOf;
    assert !w.tlb603[Slot603(ty, ea, 0)].valid && !w.tlb603[Slot603(ty, ea, 1)].valid;
  }

  lemma DisabledSet(w: World, ea: u32)
    requires ValidWorld(w)
    ensures var w' := InvalidateSet603(w, ea);
            && w' == w.(tlb603 := w'.tlb603)
            && forall i: nat :: i < 128 ==> w'.tlb603[i] == if i % 64 / 2 == Set603(ea) then Disabled(w.tlb603[i]) else w.tlb603[i]
  {
    hide Set603, ValidWorld;
    var a := 2 * Set603(ea);
    assert Slot603(ITLB, ea, 0) == a && Slot603(DTLB, ea, 0) == a + 64;
    assert |w.tlb603| == 128 by { EntryCount(w); }
    InSet(Set603(ea));
  }

  /** The slots of one hardware set. */
  lemma InSet(set_: nat)
    requires set_ < 32
    ensures forall i: nat :: i < 128 ==>
              (i % 64 / 2 == set_ <==> i == 2 * set_ || i == 2 * set_ + 1 || i == 2 * set_ + 64 || i == 2 * set_ + 65)
  {
  }

  lemma EntryCount(w: World)
    requires ValidWorld(w)
    ensures |w.tlb603| == 128
  {
  }

  // ---------- Memory written from outside the walk ----------

  /** A memory change either keeps every page table entry or makes page
      translations stale until the next flush; nothing else depends on it. */
  lemma MemoryWriteOk(m: Machine, w': World, stale: bool, stale': bool)
    requires MachineOk(m, stale) && (stale ==> stale')
    requires ValidWorld(w') && w' == m.w.(mem := w'.mem) && |w'.mem| == |m.w.mem|
    requires stale' || (Preserves(m.w, w', ITLB) && Preserves(m.w, w', DTLB))
    ensures MachineOk(m.(w := w'), stale')
  {
    if !stale' {
      hide MachineOk;
      OkWellFormed(m, stale);
      WorldStep(m, w', stale);
    } else {
      StaleSide(m, w', ITLB, stale);
      StaleSide(m, w', DTLB, stale);
    }
  }

  lemma MemoryBlocks(w: World, w': World, ty: TlbType, pr: bool, la: u32)
    requires ValidWorld(w) && ValidWorld(w') && w' == w.(mem := w'.mem)
    ensures BlockTranslate(w', ty, pr, la) == BlockTranslate(w, ty, pr, la)
  {
    assert SegmentOf(w', la) == SegmentOf(w, la);
  }

  lemma StaleSide(m: Machine, w': World, ty: TlbType, stale: bool)
    requires ValidWorld(m.w) && SideOk(m, ty, stale)
    requires ValidWorld(w') && w' == m.w.(mem := w'.mem) && |w'.mem| == |m.w.mem|
    ensures SideOk(m.(w := w'), ty, true)
  {
    var t := TlbOf(m, ty);
    SideSize(m, ty, stale);
    hide Refill, SideOk, ValidWorld, BlockTranslate;
    forall i: nat | i < SLOTS && Live(t.slots[i], t.pending, true)
      ensures Kept(Refill(m.w, ty, ModeOf(i / 5), t.slots[i].tag, false),
                   Refill(w', ty, ModeOf(i / 5), t.slots[i].tag, false))
    {
      LiveSource(m, ty, i, stale);
      SourceOf(m.w, ty, ModeOf(i / 5), t.slots[i].tag);
      if t.slots[i].source == NoSource {
        RealKept(m.w, w', ty, t.slots[i].tag);
      } else {
        MemoryBlocks(m.w, w', ty, ModeOf(i / 5) == User, t.slots[i].tag);
        BlockKept(m.w, w', ty, ModeOf(i / 5), t.slots[i].tag);
      }
    }
    assert t.pending != NOTHING ==> ty in m.actions by { SideActions(m, ty, stale); }
    SideChange(m, m.(w := w'), ty, stale, true);
  }

  lemma SideActions(m: Machine, ty: TlbType, stale: bool)
    requires ValidWorld(m.w) && SideOk(m, ty, stale)
    ensures TlbOf(m, ty).pending != NOTHING ==> ty in m.actions
  {
  }

  // ---------- Synchronization ----------

  lemma SynchronizeSide(m: Machine, ty: TlbType, stale: bool)
    requires MachineOk(m, stale)
    ensures MachineOk(WithTlb(m, ty, Synchronize(TlbOf(m, ty))), stale)
    ensures Synchronize(TlbOf(m, ty)).pending == NOTHING
  {
    var t := TlbOf(m, ty);
    SynchronizeOk(t, OracleFor(m.w, ty), stale);
    InvalidateOk(t, t.pending);
    assert Sound(Synchronize(t), ty, |m.w.mem|) by {
      hide Sets, Tracking, Invalidate;
    }
    hide TlbOk, Coherent, Sound, Synchronize, ValidWorld;
    WithTlbOk(m, ty, Synchronize(t), stale);
  }

  /** Running all actions leaves nothing pending: every scheduled source is gone. */
  lemma {:induction false} ContextSyncOk(m: Machine, stale: bool)
    requires MachineOk(m, stale)
    ensures WellFormed(m) && MachineOk(ContextSync(m), stale)
    ensures ContextSync(m).actions == [] && ContextSync(m).itlb.pending == NOTHING
    ensures ContextSync(m).dtlb.pending == NOTHING && ContextSync(m).w == m.w && ContextSync(m).msr == m.msr
    decreases |m.actions|
  {
    OkWellFormed(m, stale);
    if m.actions == [] {
      ActionsKnown(m, ITLB, stale);
      ActionsKnown(m, DTLB, stale);
    } else {
      var ty := m.actions[|m.actions| - 1];
      var m1 := WithTlb(m, ty, Synchronize(TlbOf(m, ty)));
      SynchronizeSide(m, ty, stale);
      SynchronizeBounded(TlbOf(m, ty));
      DropAction(m1, ty, stale);
      hide Synchronize, MachineOk;
      ContextSyncOk(m1.(actions := m.actions[..|m.actions| - 1]), stale);
    }
  }

  /** From one TLB to another: the entries of the pending sources are gone, every
      other valid entry is as it was. */
  ghost predicate KillsExactly(t: Tlb, sources: Sources, t': Tlb) {
    |t'.slots| == |t.slots| &&
    (forall i: nat :: i < |t.slots| ==>
       (Valid(t'.slots[i]) <==> Valid(t.slots[i]) && !Covers(sources, t.slots[i].source))) &&
    (forall i: nat :: i < |t.slots| && Valid(t'.slots[i]) ==> t'.slots[i] == t.slots[i])
  }

  lemma SynchronizeKills(t: Tlb)
    requires TlbOk(t)
    ensures KillsExactly(t, t.pending, Synchronize(t))
  {
    InvalidateOk(t, t.pending);
    hide Sets, Tracking, Invalidate;
  }

  lemma KillsTwice(t: Tlb, sources: Sources, t1: Tlb, t2: Tlb)
    requires KillsExactly(t, sources, t1) && KillsExactly(t1, NOTHING, t2)
    ensures KillsExactly(t, sources, t2)
  {
  }

  /** One round of the synchronization loop. */
  lemma SyncRound(m: Machine, stale: bool)
    requires MachineOk(m, stale) && WellFormed(m) && m.actions != []
    ensures var last := m.actions[|m.actions| - 1];
            var t := TlbOf(m, last);
            var m' := WithTlb(m, last, Synchronize(t)).(actions := m.actions[..|m.actions| - 1]);
            && MachineOk(m', stale) && WellFormed(m') && ContextSync(m) == ContextSync(m')
            && Synchronize(t).pending == NOTHING && KillsExactly(t, t.pending, Synchronize(t))
  {
    var last := m.actions[|m.actions| - 1];
    var t := TlbOf(m, last);
    assert TlbOk(t) by { assert SideOk(m, last, stale); }
    hide Synchronize, MachineOk, TlbOk, KillsExactly, ValidWorld;
    SynchronizeKills(t);
    SynchronizeSide(m, last, stale);
    SynchronizeBounded(t);
    DropAction(WithTlb(m, last, Synchronize(t)), last, stale);
  }

  /** However many changes were scheduled and in whatever order their actions run, one
      synchronization kills exactly the entries of the scheduled sources. */
  lemma {:induction false} ContextSyncKills(m: Machine, stale: bool, ty: TlbType)
    requires MachineOk(m, stale) && WellFormed(m)
    ensures KillsExactly(TlbOf(m, ty), TlbOf(m, ty).pending, TlbOf(ContextSync(m), ty))
    decreases |m.actions|
  {
    if m.actions == [] {
      ActionsKnown(m, ty, stale);
    } else {
      hide Synchronize, MachineOk, WellFormed, KillsExactly, ContextSync;
      var last := m.actions[|m.actions| - 1];
      var t1 := Synchronize(TlbOf(m, last));
      var m' := WithTlb(m, last, t1).(actions := m.actions[..|m.actions| - 1]);
      SyncRound(m, stale);
      ContextSyncKills(m', stale, ty);
      if ty == last {
        KillsTwice(TlbOf(m, ty), TlbOf(m, ty).pending, t1, TlbOf(ContextSync(m'), ty));
      }
    }
  }

  lemma DropAction(m: Machine, ty: TlbType, stale: bool)
    requires MachineOk(m, stale) && m.actions != [] && m.actions[|m.actions| - 1] == ty
    requires TlbOf(m, ty).pending == NOTHING
    ensures MachineOk(m.(actions := m.actions[..|m.actions| - 1]), stale)
  {
    hide TlbOk, Coherent, Sound, ValidWorld, OracleFor;
    var rest := m.actions[..|m.actions| - 1];
    assert m.actions == rest + [ty];
    assert ITLB in m.actions && ITLB != ty ==> ITLB in rest;
    assert DTLB in m.actions && DTLB != ty ==> DTLB in rest;
  }

  lemma SetMsrOk(m: Machine, msr: Msr, stale: bool)
    requires MachineOk(m, stale)
    ensures MachineOk(m.(msr := msr), stale)
  {
    hide TlbOk, Coherent, Sound, ValidWorld, OracleFor;
  }

  lemma TakeExceptionOk(m: Machine, stale: bool)
    requires MachineOk(m, stale)
    ensures WellFormed(m) && MachineOk(TakeException(m), stale)
    ensures TakeException(m).itlb.pending == NOTHING && TakeException(m).dtlb.pending == NOTHING
    ensures !TakeException(m).msr.ir && !TakeException(m).msr.dr && !TakeException(m).msr.pr
    ensures TakeException(m).w == m.w && TakeException(m).actions == []
  {
    hide MachineOk, ContextSync;
    ContextSyncOk(m, stale);
    SetMsrOk(ContextSync(m), Msr(false, false, false), stale);
  }
}
