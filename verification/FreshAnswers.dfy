/** What a fresh translation answers, exceptions included, survives every access: the R, C
    and replacement updates of the walks, and all stores outside the page table. */
module FreshAnswers {
  import opened Bits
  import opened Address
  import opened Translation
  import opened Reference
  import opened SoftTlb
  import opened Mmu
  import opened MmuProofs
  import opened MmuRefinement
  import opened Permissions
  import opened MemoryRoundTrip
  import opened MemoryStale

  /** From w to w' the page table entry of va keeps its meaning, and on a 603 a miss at va
      would name the same way. */
  predicate Steady(w: World, w': World, va: u32)
    requires ValidWorld(w) && ValidWorld(w')
  {
    && w' == w.(mem := w'.mem, lru603 := w'.lru603) && |w'.mem| == |w.mem|
    && (!w.is603 ==>
          FindPte(w', va) == FindPte(w, va) &&
          (FindPte(w, va).Found? ==>
             SameEntry(ReadWord(w.mem, FindPte(w, va).pte + 4), ReadWord(w'.mem, FindPte(w, va).pte + 4))))
    && (w.is603 ==> Way603(w, DTLB, va) < 2 || w'.lru603[Lru603(DTLB, va)] == w.lru603[Lru603(DTLB, va)])
  }

  lemma SteadySame(w: World, va: u32)
    requires ValidWorld(w)
    ensures Steady(w, w, va)
  {
    hide FindPte, Way603, Lru603, ReadWord, ValidWorld;
  }

  lemma SteadyTwice(a: World, b: World, c: World, va: u32)
    requires ValidWorld(a) && ValidWorld(b) && ValidWorld(c) && Steady(a, b, va) && Steady(b, c, va)
    ensures Steady(a, c, va)
  {
    assert Way603(b, DTLB, va) == Way603(a, DTLB, va) by { SameWay(a, b, va); }
    hide FindPte, Way603, Lru603, ReadWord, ValidWorld, Changed;
  }

  lemma SameWay(w: World, w': World, va: u32)
    requires ValidWorld(w) && ValidWorld(w') && w'.tlb603 == w.tlb603 && w'.sr == w.sr
    ensures Way603(w', DTLB, va) == Way603(w, DTLB, va)
  {
  }

  lemma SteadyHashed(w: World, w': World, va: u32, pr: bool, write: bool)
    requires ValidWorld(w) && ValidWorld(w') && Steady(w, w', va) && !w.is603
    ensures var k, k' := HashedWalk(w, DTLB, va, pr, write), HashedWalk(w', DTLB, va, pr, write);
            if k.Page? then k'.Page? && k' == k.(changed := k'.changed) else k' == k
  {
    assert SegmentOf(w', va) == SegmentOf(w, va);
    hide FindPte, ReadWord, ValidWorld, SegmentOf, Key, Refused, PagePhys, ProtBits, Changed, Way603;
    if FindPte(w, va).Found? {
      SameEntrySamePage(ReadWord(w.mem, FindPte(w, va).pte + 4), ReadWord(w'.mem, FindPte(w, va).pte + 4), va);
    }
  }

  lemma Steady603(w: World, w': World, va: u32, pr: bool, write: bool)
    requires ValidWorld(w) && ValidWorld(w') && Steady(w, w', va) && w.is603
    ensures Walk603(w', DTLB, va, pr, write) == Walk603(w, DTLB, va, pr, write)
  {
    SameWay(w, w', va);
    assert SegmentOf(w', va) == SegmentOf(w, va);
    hide ValidWorld, SegmentOf, Key, Refused, PagePhys, ProtBits, Changed, Way603, FindPte, PrimaryHash, PtegPhys;
    if Way603(w, DTLB, va) == 2 {
      SameVictim(w, w', va);
    }
    hide Victim603;
  }

  lemma SameVictim(w: World, w': World, va: u32)
    requires ValidWorld(w) && ValidWorld(w') && w'.tlb603 == w.tlb603
    requires w'.lru603[Lru603(DTLB, va)] == w.lru603[Lru603(DTLB, va)]
    ensures Victim603(w', DTLB, va) == Victim603(w, DTLB, va)
  {
  }

  lemma SteadyBlocks(w: World, w': World, va: u32, pr: bool)
    requires ValidWorld(w) && ValidWorld(w') && w' == w.(mem := w'.mem, lru603 := w'.lru603)
    ensures BlockTranslate(w', DTLB, pr, va) == BlockTranslate(w, DTLB, pr, va) && SegmentOf(w', va) == SegmentOf(w, va)
  {
  }

  lemma SteadyWalk(w: World, w': World, va: u32, pr: bool, write: bool)
    requires ValidWorld(w) && ValidWorld(w') && Steady(w, w', va)
    ensures var k, k' := PageWalk(w, DTLB, va, pr, write), PageWalk(w', DTLB, va, pr, write);
            if k.Page? then k'.Page? && k' == k.(changed := k'.changed) else k' == k
  {
    hide ValidWorld, SegmentOf, Walk603, HashedWalk, Steady, BlockTranslate;
    SteadyModel(w, w', va);
    SteadyBlocks(w, w', va, pr);
    if w.is603 {
      Steady603(w, w', va, pr, write);
    } else {
      SteadyHashed(w, w', va, pr, write);
    }
  }

  lemma SteadyModel(w: World, w': World, va: u32)
    requires ValidWorld(w) && ValidWorld(w') && Steady(w, w', va)
    ensures w' == w.(mem := w'.mem, lru603 := w'.lru603)
  {
  }

  lemma SteadyTranslate(w: World, w': World, mode: Mode, va: u32, write: bool)
    requires ValidWorld(w) && ValidWorld(w') && Steady(w, w', va)
    ensures var x, x' := Translate(w, DTLB, mode, va, write), Translate(w', DTLB, mode, va, write);
            if x.Xlat? then x'.Xlat? && x' == x.(changed := x'.changed) else x' == x
  {
    hide ValidWorld, PageWalk, BlockTranslate, SegmentOf, Steady;
    SteadyModel(w, w', va);
    SteadyBlocks(w, w', va, mode == User);
    SteadyWalk(w, w', va, mode == User, write);
  }

  /** Nothing that stays steady changes the answer of a data access. */
  lemma SteadyAnswer(w: World, w': World, mode: Mode, va: u32, write: bool)
    requires ValidWorld(w) && ValidWorld(w') && Steady(w, w', va)
    ensures Ideal(w', DTLB, mode, va, write) == Ideal(w, DTLB, mode, va, write)
  {
    hide ValidWorld, Translate, Ideal, Steady;
    SteadyModel(w, w', va);
    SteadyTranslate(w, w', mode, va, write);
    IdealAnswer(w, DTLB, mode, va, write);
    IdealAnswer(w', DTLB, mode, va, write);
  }

  // ---------- What stays steady ----------

  /** Two addresses that no data walk of the one disturbs at the other. */
  predicate Apart(va: u32, va': u32) {
    PageNumber(va) == PageNumber(va') || Set603(va) != Set603(va')
  }

  /** The updates of a walk. */
  lemma WalkSteady(w: World, va: u32, pr: bool, write: bool, va': u32)
    requires ValidWorld(w) && Apart(va, va')
    ensures Steady(w, WalkEffect(w, DTLB, va, pr, write), va')
  {
    var w' := WalkEffect(w, DTLB, va, pr, write);
    if w.is603 {
      WalkSteady603(w, va, pr, write, va');
    } else {
      if w'.mem == w.mem {
        assert w' == w;
        SteadySame(w, va');
      } else {
        SetRCKeepsTable(w, w', FindPte(w, va).pte, write);
        FindKept(w, w', va');
      }
    }
  }

  lemma WalkSteady603(w: World, va: u32, pr: bool, write: bool, va': u32)
    requires ValidWorld(w) && w.is603 && Apart(va, va')
    ensures Steady(w, WalkEffect(w, DTLB, va, pr, write), va')
  {
    if PageNumber(va) == PageNumber(va') {
      PageUniform(va, va');
      assert Way603(w, DTLB, va) == Way603(w, DTLB, va');
    }
    hide FindPte, Way603, ReadWord, SetRC, HashedWalk;
  }

  /** A write of memory outside the table. */
  lemma QuietSteady(w: World, mem: Memory, va: u32)
    requires ValidWorld(w) && Quiet(w, mem)
    ensures ValidWorld(w.(mem := mem)) && Steady(w, w.(mem := mem), va)
  {
    hide ValidWorld, FindPte, Way603, Lru603, ReadWord, Quiet, TableKept, Preserves, SameEntry;
    QuietPreserves(w, mem, DTLB);
    QuietSize(w, mem);
    if !w.is603 {
      QuietTable(w, mem);
      FindKept(w, w.(mem := mem), va);
    }
  }

  lemma QuietSize(w: World, mem: Memory)
    requires ValidWorld(w) && Quiet(w, mem)
    ensures |mem| == |w.mem|
  {
  }

  /** The host bytes outside the table hold the same in both worlds. */
  ghost predicate MemAgrees(w0: World, mem0: Memory, mem: Memory)
    requires ValidWorld(w0)
  {
    |mem| == |mem0| && forall h: nat :: h < |mem0| && Spared(w0, h) ==> mem[h] == mem0[h]
  }

  lemma WalkSpares(w: World, va: u32, pr: bool, write: bool, h: nat)
    requires ValidWorld(w) && h < |w.mem| && Spared(w, h)
    ensures WalkEffect(w, DTLB, va, pr, write).mem[h] == w.mem[h]
  {
    var w' := WalkEffect(w, DTLB, va, pr, write);
    if w'.mem != w.mem {
      PteInGroup(w, va);
      MarkOwn(w.mem, FindPte(w, va).pte, write, h);
      hide SetRC, FindPte, PtegHost;
    }
  }

  lemma MarkOwn(mem: Memory, pte: nat, write: bool, h: nat)
    requires pte + 8 <= |mem| && h < |mem|
    ensures SetRC(mem, pte, write)[h] != mem[h] ==> pte <= h < pte + 8
  {
  }

  // ---------- Every access keeps the answers ----------

  /** A load leaves the world as it was or with the updates of one walk. */
  lemma ReadWorld(m: Machine, va: u32)
    requires WellFormed(m) && ValidWorld(m.w)
    ensures Read(m, va).0.w == m.w || Read(m, va).0.w == WalkEffect(m.w, DTLB, va, m.msr.pr, false)
  {
    hide WellFormed, ValidWorld, PageTag, SetFor, FindWay, Refill, Install, VictimWay, Promote, WalkEffect, BlockTranslate;
  }

  /** So does the address path of a store. */
  lemma WriteWorld(m: Machine, va: u32, stale: bool)
    requires MachineOk(m, stale)
    ensures WellFormed(m) && ValidWorld(m.w)
    ensures Write(m, va).0.w == m.w || Write(m, va).0.w == WalkEffect(m.w, DTLB, va, m.msr.pr, true)
  {
    hide MachineOk, WellFormed, ValidWorld, PageTag, SetFor, RefillMiss, FindWay, Prepare, MarkBoth, Promote, MarkSlot, TouchWay, WalkEffect, BlockTranslate;
    OkWellFormed(m, stale);
    var s := SetAt(m, DTLB, va);
    var way := FindWay(m.dtlb.slots, s, PageTag(va));
    if m.dtlb.slots[5 * s].tag == PageTag(va) {
      PrepareWorld(m, m.dtlb.slots[5 * s], va);
    } else if way < 4 {
      var m1 := LookupOrRefill(m, DTLB, va, true).0;
      PrepareWorld(m1, m1.dtlb.slots[5 * s + 1 + way], va);
    } else {
      RefilledReady(m, va, stale);
      RefillWorld(m, va);
    }
  }

  lemma PrepareWorld(m: Machine, e: Entry, va: u32)
    requires WellFormed(m) && ValidWorld(m.w)
    ensures Prepare(m, e, va).0 == m.w || Prepare(m, e, va).0 == WalkEffect(m.w, DTLB, va, m.msr.pr, true)
  {
    hide WalkEffect, PageWalk, WellFormed, ValidWorld;
  }

  lemma RefillWorld(m: Machine, va: u32)
    requires ValidWorld(m.w)
    ensures var w := TranslateEffect(m.w, DTLB, CurrentMode(m.msr, DTLB), va, true);
            w == m.w || w == WalkEffect(m.w, DTLB, va, m.msr.pr, true)
  {
    hide WalkEffect, BlockTranslate, ValidWorld;
  }
}
