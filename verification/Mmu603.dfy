/** The 603's software-loaded TLBs behind the software TLB: loading an entry
    flushes exactly enough cached translations. */
module Mmu603 {
  import opened Bits
  import opened Address
  import opened Translation
  import opened Reference
  import opened SoftTlb
  import opened SoftTlbProofs
  import opened Mmu
  import opened MmuProofs
  import opened MmuContext

  /** Operating systems give each VSID one segment: a valid entry whose VSID an
      ordinary segment uses was loaded for that segment. */
  ghost predicate SegmentRule(w: World)
    requires ValidWorld(w)
  {
    forall n: nat, i: nat ::
      n < 16 && i < 128 && !DirectStore(w.sr[n]) && w.tlb603[i].valid && w.tlb603[i].vsid == Vsid(w.sr[n]) ==>
        Segment(w.tlb603[i].eaTag) == n
  }

  predicate Twins(a: Tlb603Entry, b: Tlb603Entry) {
    a.valid && b.valid && a.vsid == b.vsid && PageIndex(a.eaTag) == PageIndex(b.eaTag)
  }

  /** No set holds two valid entries for one page. */
  ghost predicate NoTwins(w: World)
    requires ValidWorld(w)
  {
    forall ty: TlbType, ea: u32 :: !Twins(w.tlb603[Slot603(ty, ea, 0)], w.tlb603[Slot603(ty, ea, 1)])
  }

  /** The entry a load builds from the compare and RPA registers. */
  function LoadedEntry(ea: u32, cmp: u32, rpa: u32): Tlb603Entry {
    Tlb603Entry(cmp >= 0x8000_0000, cmp / 128 % 0x100_0000, PageTag(ea), rpa)
  }

  lemma LoadWorld(m: Machine, ty: TlbType, ea: u32, way: nat, cmp: u32, rpa: u32)
    requires WellFormed(m) && way < 2
    ensures var w' := Load603(m, ty, ea, way, cmp, rpa).w;
            && ValidWorld(w') && w' == m.w.(tlb603 := w'.tlb603, lru603 := w'.lru603)
            && w'.tlb603[Slot603(ty, ea, way)] == LoadedEntry(ea, cmp, rpa)
            && (forall k: nat :: k < 128 && k != Slot603(ty, ea, way) && k != Slot603(ty, ea, 1 - way) ==>
                  w'.tlb603[k] == m.w.tlb603[k])
            && (w'.tlb603[Slot603(ty, ea, 1 - way)] == m.w.tlb603[Slot603(ty, ea, 1 - way)] ||
                (!w'.tlb603[Slot603(ty, ea, 1 - way)].valid &&
                 Twins(LoadedEntry(ea, cmp, rpa).(valid := true), m.w.tlb603[Slot603(ty, ea, 1 - way)])))
            && !Twins(LoadedEntry(ea, cmp, rpa), w'.tlb603[Slot603(ty, ea, 1 - way)])
  {
    hide FlushPage, PageTag;
  }

  lemma SamePageFromParts(a: u32, b: u32)
    requires Segment(a) == Segment(b) && PageIndex(a) == PageIndex(b)
    ensures PageNumber(a) == PageNumber(b) && PageTag(a) == PageTag(b) && Set603(a) == Set603(b)
  {
    SegmentParts(a);
    SegmentParts(b);
  }

  lemma SegmentParts(a: u32)
    ensures PageNumber(a) == Segment(a) * 65536 + PageIndex(a)
  {
    assert a / 0x1000_0000 == a / 4096 / 65536;
  }

  /** A load is made under the VSID of its own segment: no other one uses it. */
  ghost predicate LoadAllowed(w: World, ea: u32, cmp: u32)
    requires ValidWorld(w)
  {
    forall n: nat :: n < 16 && !DirectStore(w.sr[n]) && Vsid(w.sr[n]) == cmp / 128 % 0x100_0000 ==> Segment(ea) == n
  }

  lemma LoadKeepsRule(m: Machine, ty: TlbType, ea: u32, way: nat, cmp: u32, rpa: u32)
    requires WellFormed(m) && way < 2 && LoadAllowed(m.w, ea, cmp)
    requires SegmentRule(m.w) && NoTwins(m.w)
    ensures ValidWorld(Load603(m, ty, ea, way, cmp, rpa).w)
    ensures SegmentRule(Load603(m, ty, ea, way, cmp, rpa).w) && NoTwins(Load603(m, ty, ea, way, cmp, rpa).w)
  {
    LoadWorld(m, ty, ea, way, cmp, rpa);
    assert Segment(PageTag(ea)) == Segment(ea) by {
      Geometry(ea);
      PageUniform(ea, PageTag(ea));
    }
    hide Load603, WellFormed, ValidWorld, PageTag, Segment;
    var w' := Load603(m, ty, ea, way, cmp, rpa).w;
    forall o: TlbType, a: u32
      ensures !Twins(w'.tlb603[Slot603(o, a, 0)], w'.tlb603[Slot603(o, a, 1)])
    {
      assert !Twins(m.w.tlb603[Slot603(o, a, 0)], m.w.tlb603[Slot603(o, a, 1)]);
    }
  }

  /** A page whose cached translations were not flushed still finds its own entry. */
  lemma LoadKeepsWay(m: Machine, ty: TlbType, ea: u32, way: nat, cmp: u32, rpa: u32, o: TlbType, la: u32)
    requires WellFormed(m) && way < 2 && LoadAllowed(m.w, ea, cmp) && SegmentRule(m.w)
    requires !DirectStore(SegmentOf(m.w, la)) && Way603(m.w, o, la) < 2
    requires o == ty ==> PageTag(la) != PageTag(ea)
    requires o == ty && m.w.tlb603[Slot603(ty, ea, way)].valid ==>
               PageTag(la) != PageTag(m.w.tlb603[Slot603(ty, ea, way)].eaTag)
    ensures var w' := Load603(m, ty, ea, way, cmp, rpa).w;
            ValidWorld(w') && Way603(w', o, la) == Way603(m.w, o, la) &&
            w'.tlb603[Slot603(o, la, Way603(m.w, o, la))] == m.w.tlb603[Slot603(o, la, Way603(m.w, o, la))]
  {
    LoadWorld(m, ty, ea, way, cmp, rpa);
    hide Load603, WellFormed, PageTag, PageIndex, Segment, DirectStore;
    var w, w' := m.w, Load603(m, ty, ea, way, cmp, rpa).w;
    assert SegmentOf(w', la) == SegmentOf(w, la);
    var vsid := Vsid(SegmentOf(w, la));
    var k := Way603(w, o, la);
    var hit := w.tlb603[Slot603(o, la, k)];
    assert Segment(hit.eaTag) == Segment(la);
    SamePageFromParts(hit.eaTag, la);
    if o == ty && Set603(la) == Set603(ea) {
      assert k != way;
      assert Twins(LoadedEntry(ea, cmp, rpa).(valid := true), hit) ==> PageTag(la) == PageTag(ea) by {
        if Twins(LoadedEntry(ea, cmp, rpa).(valid := true), hit) {
          TagParts(ea);
          SamePageFromParts(ea, la);
        }
      }
    }
  }

  lemma TagParts(ea: u32)
    ensures PageIndex(PageTag(ea)) == PageIndex(ea) && Segment(PageTag(ea)) == Segment(ea)
  {
    Geometry(ea);
    PageUniform(ea, PageTag(ea));
  }

  lemma LoadKeepsRefill(m: Machine, ty: TlbType, ea: u32, way: nat, cmp: u32, rpa: u32,
                        o: TlbType, mode: Mode, la: u32)
    requires WellFormed(m) && m.w.is603 && way < 2 && LoadAllowed(m.w, ea, cmp) && SegmentRule(m.w)
    requires Refill(m.w, o, mode, la, false).Filled?
    requires o == ty && Refill(m.w, o, mode, la, false).fill.source == FromPat ==>
               PageTag(la) != PageTag(ea) &&
               (m.w.tlb603[Slot603(ty, ea, way)].valid ==> PageTag(la) != PageTag(m.w.tlb603[Slot603(ty, ea, way)].eaTag))
    ensures ValidWorld(Load603(m, ty, ea, way, cmp, rpa).w)
    ensures Kept(Refill(m.w, o, mode, la, false), Refill(Load603(m, ty, ea, way, cmp, rpa).w, o, mode, la, false))
  {
    LoadWorld(m, ty, ea, way, cmp, rpa);
    hide Load603, WellFormed, Refill, PageTag, BlockTranslate;
    var w, w' := m.w, Load603(m, ty, ea, way, cmp, rpa).w;
    var pr := mode == User;
    SourceOf(w, o, mode, la);
    if mode == Real {
      RealKept(w, w', o, la);
    } else {
      Tlb603Blocks(w, w', o, pr, la);
      if BlockTranslate(w, o, pr, la).BatHit? {
        BlockKept(w, w', o, mode, la);
      } else {
        LoadKeepsWalk(m, ty, ea, way, cmp, rpa, o, la, pr);
        hide PageWalk;
        RefillKept(w, w', o, mode, la);
      }
    }
  }

  lemma LoadKeepsWalk(m: Machine, ty: TlbType, ea: u32, way: nat, cmp: u32, rpa: u32,
                      o: TlbType, la: u32, pr: bool)
    requires WellFormed(m) && m.w.is603 && way < 2 && LoadAllowed(m.w, ea, cmp) && SegmentRule(m.w)
    requires o == ty ==> PageTag(la) != PageTag(ea)
    requires o == ty && m.w.tlb603[Slot603(ty, ea, way)].valid ==>
               PageTag(la) != PageTag(m.w.tlb603[Slot603(ty, ea, way)].eaTag)
    ensures ValidWorld(Load603(m, ty, ea, way, cmp, rpa).w)
    ensures PageWalk(m.w, o, la, pr, false).Page? ==>
              PageWalk(Load603(m, ty, ea, way, cmp, rpa).w, o, la, pr, false) == PageWalk(m.w, o, la, pr, false)
  {
    LoadWorld(m, ty, ea, way, cmp, rpa);
    hide Load603, WellFormed, PageTag, ValidWorld, HashedWalk;
    var w, w' := m.w, Load603(m, ty, ea, way, cmp, rpa).w;
    assert SegmentOf(w', la) == SegmentOf(w, la);
    if !DirectStore(SegmentOf(w, la)) && Way603(w, o, la) < 2 {
      LoadKeepsWay(m, ty, ea, way, cmp, rpa, o, la);
      hide Way603, Slot603;
    }
  }

  // ---------- Flushing one page ----------

  lemma FlushPageSound(t: Tlb, ea: u32, ty: TlbType, size: nat)
    requires TlbOk(t) && Sound(t, ty, size)
    ensures Sound(FlushPage(t, ea), ty, size)
  {
    FlushPageOk(t, ea);
    hide Sets, Tracking, FlushPage;
  }

  /** Which entries a load leaves: those of no flushed page, untouched. */
  lemma LoadedTlb(m: Machine, ty: TlbType, ea: u32, way: nat, cmp: u32, rpa: u32)
    requires WellFormed(m) && way < 2 && TlbOk(TlbOf(m, ty))
    ensures var t, t' := TlbOf(m, ty), TlbOf(Load603(m, ty, ea, way, cmp, rpa), ty);
            var old_ := m.w.tlb603[Slot603(ty, ea, way)];
            && TlbOk(t') && t'.pending == t.pending && t'.tracked == t.tracked
            && (forall size :: Sound(t, ty, size) ==> Sound(t', ty, size))
            && (forall i: nat :: i < SLOTS && Valid(t'.slots[i]) ==>
                  t'.slots[i] == t.slots[i] &&
                  (t.slots[i].source == FromPat ==>
                     t.slots[i].tag != PageTag(ea) && (old_.valid ==> t.slots[i].tag != PageTag(old_.eaTag))))
  {
    var t := TlbOf(m, ty);
    var old_ := m.w.tlb603[Slot603(ty, ea, way)];
    var t1 := if old_.valid then FlushPage(t, old_.eaTag) else t;
    FlushPageOk(t, old_.eaTag);
    FlushPageOk(t1, PageTag(ea));
    Geometry(ea);
    forall size | Sound(t, ty, size)
      ensures Sound(FlushPage(t1, PageTag(ea)), ty, size)
    {
      FlushPageSound(t, old_.eaTag, ty, size);
      FlushPageSound(t1, PageTag(ea), ty, size);
    }
    hide Sets, Tracking, PageTag, WellFormed, Sound;
  }

  lemma LoadSide(m: Machine, ty: TlbType, ea: u32, way: nat, cmp: u32, rpa: u32, stale: bool, o: TlbType)
    requires MachineOk(m, stale) && m.w.is603 && way < 2 && LoadAllowed(m.w, ea, cmp) && SegmentRule(m.w)
    ensures WellFormed(m) && ValidWorld(Load603(m, ty, ea, way, cmp, rpa).w)
    ensures SideOk(Load603(m, ty, ea, way, cmp, rpa), o, stale)
  {
    OkWellFormed(m, stale);
    LoadWorld(m, ty, ea, way, cmp, rpa);
    var m' := Load603(m, ty, ea, way, cmp, rpa);
    var t, t' := TlbOf(m, o), TlbOf(m', o);
    assert SideOk(m, o, stale);
    if o == ty {
      LoadedTlb(m, ty, ea, way, cmp, rpa);
    }
    hide Load603, WellFormed, Refill, PageTag, Sets, Tracking, EntrySound, SegmentRule;
    forall i: nat | i < SLOTS && Live(t'.slots[i], t'.pending, stale)
      ensures EntryCoherent(t'.slots[i], OracleFor(m'.w, o)(ModeOf(i / 5), t'.slots[i].tag))
    {
      assert EntryCoherent(t.slots[i], OracleFor(m.w, o)(ModeOf(i / 5), t.slots[i].tag));
      PageHomeTag(t, i);
      LoadKeepsRefill(m, ty, ea, way, cmp, rpa, o, ModeOf(i / 5), t.slots[i].tag);
    }
  }

  lemma PageHomeTag(t: Tlb, i: nat)
    requires TlbOk(t) && i < SLOTS && Valid(t.slots[i])
    ensures PageTag(t.slots[i].tag) == t.slots[i].tag
  {
    assert SetOk(t.slots, i / 5);
    assert EntryOk(t.slots[i], i / 5);
  }

  /** tlbld and tlbli keep every cached translation backed. */
  lemma Load603Ok(m: Machine, ty: TlbType, ea: u32, way: nat, cmp: u32, rpa: u32, stale: bool)
    requires MachineOk(m, stale) && m.w.is603 && way < 2 && LoadAllowed(m.w, ea, cmp) && SegmentRule(m.w)
    ensures WellFormed(m) && MachineOk(Load603(m, ty, ea, way, cmp, rpa), stale)
  {
    LoadSide(m, ty, ea, way, cmp, rpa, stale, ITLB);
    LoadSide(m, ty, ea, way, cmp, rpa, stale, DTLB);
    hide SideOk, Load603, WellFormed, ValidWorld;
  }

  // ---------- Backing ----------

  /** Every live cached page translation of an ordinary segment on a 603 is backed
      by a matching valid entry of the 603's own TLB with the same page frame and
      protection. */
  lemma Backed(m: Machine, ty: TlbType, i: nat, stale: bool)
    requires MachineOk(m, stale) && m.w.is603 && i < SLOTS
    requires Live(TlbOf(m, ty).slots[i], TlbOf(m, ty).pending, stale) && TlbOf(m, ty).slots[i].source == FromPat
    requires !DirectStore(SegmentOf(m.w, TlbOf(m, ty).slots[i].tag))
    ensures var e := TlbOf(m, ty).slots[i];
            var way := Way603(m.w, ty, e.tag);
            way < 2 &&
            var b := m.w.tlb603[Slot603(ty, e.tag, way)];
            && Match603(b, Vsid(SegmentOf(m.w, e.tag)), e.tag)
            && e.physTag == PageTag(b.pteLo)
            && (ty == DTLB ==> (e.writable <==> !Refused(Key(SegmentOf(m.w, e.tag), ModeOf(i / 5) == User), ProtBits(b.pteLo), true)))
            && (e.changed ==> Changed(b.pteLo))
  {
    var e := TlbOf(m, ty).slots[i];
    LiveSource(m, ty, i, stale);
    assert EntryCoherent(e, OracleFor(m.w, ty)(ModeOf(i / 5), e.tag));
    SourceOf(m.w, ty, ModeOf(i / 5), e.tag);
    hide MachineOk, Live, BlockTranslate;
    BackedRefill(m.w, ty, ModeOf(i / 5), e.tag);
  }

  lemma BackedRefill(w: World, ty: TlbType, mode: Mode, la: u32)
    requires ValidWorld(w) && w.is603 && Refill(w, ty, mode, la, false).Filled?
    requires Refill(w, ty, mode, la, false).fill.source == FromPat && !DirectStore(SegmentOf(w, la))
    ensures var f := Refill(w, ty, mode, la, false);
            var way := Way603(w, ty, la);
            way < 2 &&
            var b := w.tlb603[Slot603(ty, la, way)];
            && Match603(b, Vsid(SegmentOf(w, la)), la)
            && f.fill.physTag == PageTag(b.pteLo)
            && (ty == DTLB ==> (f.fill.writable <==> !Refused(Key(SegmentOf(w, la), mode == User), ProtBits(b.pteLo), true)))
            && (f.changed ==> Changed(b.pteLo))
  {
    SourceOf(w, ty, mode, la);
    var way := Way603(w, ty, la);
    if way < 2 {
      var b := w.tlb603[Slot603(ty, la, way)];
      PhysUniform(b.pteLo, la);
      SamePage(PagePhys(b.pteLo, la), b.pteLo);
    }
    hide BlockTranslate, BackingOf, Slot603, PageIndex, PageTag, PageOffset, PageNumber, PagePhys, Changed;
  }

  // ---------- The miss handler's contract ----------

  /** The registers a miss leaves are those the hashed page table search needs: the
      compare word and both group addresses of the missing page. */
  lemma MissRegisters(w: World, ty: TlbType, la: u32, key: bool, write: bool, way: nat)
    requires ValidWorld(w)
    ensures var f := Miss603(w, ty, la, key, write, way);
            var vsid := Vsid(SegmentOf(w, la));
            var hash := PrimaryHash(vsid, PageIndex(la));
            && f.ea == la && f.cmp == MatchWord(vsid, PageIndex(la), false)
            && f.hash1 == PtegPhys(w.sdr1, hash) && f.hash2 == PtegPhys(w.sdr1, Not32(hash))
  {
    hide PtegPhys, Xor;
    SameHashBits(SegmentOf(w, la));
  }

  lemma SameHashBits(sr: u32)
    ensures Vsid(sr) % 0x8_0000 == sr % 0x8_0000
  {
  }

  /** A miss, answered by loading the entry with the registers it left, is over: the
      page is found again, through the loaded second word, in the way the miss named. */
  lemma MissThenLoad(m: Machine, ty: TlbType, la: u32, pr: bool, write: bool, rpa: u32)
    requires WellFormed(m) && (ty == ITLB ==> !write)
    requires var r := Walk603(m.w, ty, la, pr, write); r.Denied? && r.fault.TlbMiss?
    ensures var f := Walk603(m.w, ty, la, pr, write).fault;
            && f.way < 2
            && var w' := Load603(m, ty, f.ea, f.way, f.cmp, rpa).w;
            && ValidWorld(w') && Way603(w', ty, la) == f.way && w'.tlb603[Slot603(ty, la, f.way)].pteLo == rpa
  {
    var f := Walk603(m.w, ty, la, pr, write).fault;
    MissNames(m.w, ty, la, pr, write);
    hide Walk603;
    LoadWorld(m, ty, la, f.way, f.cmp, rpa);
    TagParts(la);
    MissFields(Vsid(SegmentOf(m.w, la)), PageIndex(la));
    hide Load603, WellFormed, PageTag, PageIndex, Slot603;
    var w' := Load603(m, ty, la, f.way, f.cmp, rpa).w;
    assert SegmentOf(w', la) == SegmentOf(m.w, la);
    assert Match603(w'.tlb603[Slot603(ty, la, f.way)], Vsid(SegmentOf(w', la)), la);
  }

  /** What a 603 miss reports. */
  lemma MissNames(w: World, ty: TlbType, la: u32, pr: bool, write: bool)
    requires ValidWorld(w) && (ty == ITLB ==> !write)
    requires var r := Walk603(w, ty, la, pr, write); r.Denied? && r.fault.TlbMiss?
    ensures var f := Walk603(w, ty, la, pr, write).fault;
            f.way < 2 && f.ea == la && f.cmp == 0x8000_0000 + Vsid(SegmentOf(w, la)) * 128 + PageIndex(la) / 1024
    ensures Walk603(w, ty, la, pr, write).fault.kind == if ty == ITLB then InstrMiss else if write then StoreMiss else LoadMiss
  {
    hide Way603, Victim603, PtegPhys, PrimaryHash, PageIndex, Vsid;
  }

  lemma MissFields(vsid: u32, index: u32)
    requires vsid < 0x100_0000 && index < 0x1_0000
    ensures var cmp := 0x8000_0000 + vsid * 128 + index / 1024;
            cmp >= 0x8000_0000 && cmp / 128 % 0x100_0000 == vsid
  {
  }

  /** With both ways valid a miss never replaces the way that translated last. */
  lemma VictimNotRecent(w: World, ty: TlbType, la: u32, va: u32, pr: bool, write: bool)
    requires ValidWorld(w) && w.is603 && Set603(va) == Set603(la) && Way603(w, ty, la) < 2
    requires !DirectStore(SegmentOf(w, la)) && !(NoExecute(SegmentOf(w, la)) && ty == ITLB)
    requires w.tlb603[Slot603(ty, la, 0)].valid && w.tlb603[Slot603(ty, la, 1)].valid
    ensures Victim603(WalkEffect(w, ty, la, pr, write), ty, va) != Way603(w, ty, la)
  {
    hide Way603, HashedWalk;
  }

  /** What tlbld and tlbli leave: the named way holds the page with the loaded words, and the
      other way is the one due next. */
  lemma LoadedNotNext(m: Machine, ty: TlbType, ea: u32, way: nat, cmp: u32, rpa: u32)
    requires WellFormed(m) && way < 2
    ensures ValidWorld(Load603(m, ty, ea, way, cmp, rpa).w)
    ensures var w := Load603(m, ty, ea, way, cmp, rpa).w;
            var e, other := w.tlb603[Slot603(ty, ea, way)], w.tlb603[Slot603(ty, ea, 1 - way)];
            && (e.valid <==> cmp >= 0x8000_0000) && e.vsid == cmp / 128 % 0x100_0000
            && e.eaTag / 4096 == ea / 4096 && e.pteLo == rpa
            && (e.valid && other.valid ==> Victim603(w, ty, ea) == 1 - way)
  {
    LoadWorld(m, ty, ea, way, cmp, rpa);
    assert |m.w.tlb603| == 128 && |m.w.lru603| == 64;
    hide WellFormed, ValidWorld, FlushPage;
    Geometry(ea);
  }
}
