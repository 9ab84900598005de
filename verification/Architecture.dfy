/** The block and page table address arithmetic against what the PowerPC
    Programming Environments Manual says it means: section 7.4 for blocks, section
    7.6 for page table entry groups. */
module Architecture {
  import opened Bits
  import opened Translation
  import opened Mmu

  /** The length of a block whose length field is 2^k - 1. */
  function BlockSize(k: nat): nat {
    Pow2(17 + k)
  }

  lemma BlockSizes(k: nat)
    requires k <= 11
    ensures BlockSize(k) == 131072 * Pow2(k) && Pow2(k) <= 2048 && BlockSize(k) < W
  {
    Powers();
    PowSum(17, k);
    PowMono(k, 11);
    assert Pow2(11) == 2048 by { PowSum(1, 10); }
  }

  lemma {:induction false} PowMono(a: nat, b: nat)
    requires a <= b
    ensures Pow2(a) <= Pow2(b)
    decreases b - a
  {
    if a < b {
      PowMono(a + 1, b);
    }
  }

  /** The mask of a block whose length field is 2^k - 1. */
  lemma BlockMask(k: nat, mask: u32)
    requires k <= 11 && mask + (Pow2(k) - 1) * 131072 + 131071 == 0xFFFF_FFFF
    ensures mask == (Pow2(32 - (17 + k)) - 1) * BlockSize(k) && Not32(mask) == BlockSize(k) - 1
  {
    BlockSizes(k);
    PowSplit(17 + k);
    TopMask(BlockSize(k), Pow2(32 - (17 + k)));
  }

  lemma TopMask(p: nat, q: nat)
    requires p * q == W && p > 0 && q > 0
    ensures W - p == (q - 1) * p
  {
  }

  /** A block entry matches exactly the addresses of its block, and maps them onto the
      physical block with their offset unchanged. */
  ghost predicate MapsBlock(e: BatEntry, size: nat, upper: u32, lower: u32) {
    size > 0 &&
    forall la: u32 ::
      (BlockMatch(e, la) <==> la / size == upper / size) &&
      BlockPhys(e, la) == lower / size * size + la % size
  }

  lemma EntryMapsBlock(e: BatEntry, k: nat, upper: u32, lower: u32)
    requires k <= 11 && e.hiMask + (Pow2(k) - 1) * 131072 + 131071 == 0xFFFF_FFFF
    requires e.bepi == And(upper, e.hiMask) && e.physHi == And(lower, e.hiMask)
    ensures MapsBlock(e, BlockSize(k), upper, lower)
  {
    hide And, Or, Pow2;
    var n, size := 17 + k, BlockSize(k);
    BlockMask(k, e.hiMask);
    MaskHigh(upper, n, e.hiMask);
    MaskHigh(lower, n, e.hiMask);
    forall la: u32
      ensures (BlockMatch(e, la) <==> la / size == upper / size) && BlockPhys(e, la) == lower / size * size + la % size
    {
      MaskHigh(la, n, e.hiMask);
      MaskLow(la, n);
      DivMod(la, size);
      OrApart(lower / size, la % size, n);
      SameMultiple(la / size, upper / size, size);
    }
  }

  lemma SameMultiple(a: nat, b: nat, p: nat)
    requires p > 0
    ensures a * p == b * p <==> a == b
  {
    if a < b {
      assert a * p + p <= b * p by { TimesMono(a + 1, b, p); }
    } else if b < a {
      assert b * p + p <= a * p by { TimesMono(b + 1, a, p); }
    }
  }

  /** A register pair with a well-formed length field sets up the block it describes. */
  lemma PpcPairMapsBlock(upper: u32, lower: u32, k: nat)
    requires k <= 11 && upper / 4 % 2048 == Pow2(k) - 1
    ensures MapsBlock(PpcBatEntry(upper, lower), BlockSize(k), upper, lower)
    ensures PpcBatEntry(upper, lower).access == upper % 4 && PpcBatEntry(upper, lower).prot == lower % 4
  {
    hide And, Or, Pow2, BlockMatch, BlockPhys;
    EntryMapsBlock(PpcBatEntry(upper, lower), k, upper, lower);
  }

  /** The same for a valid 601 pair, whose blocks are at most 8 MB. */
  lemma Pair601MapsBlock(old_: BatEntry, upper: u32, lower: u32, k: nat)
    requires k <= 6 && lower % 64 == Pow2(k) - 1 && lower / 64 % 2 == 1
    ensures MapsBlock(Bat601Entry(old_, upper, lower), BlockSize(k), upper, lower)
    ensures Bat601Entry(old_, upper, lower).valid
  {
    hide And, Or, Pow2, BlockMatch, BlockPhys;
    EntryMapsBlock(Bat601Entry(old_, upper, lower), k, upper, lower);
  }

  // ---------- Which block answers ----------

  /** An entry answers if its block holds the address and its Vs bit, or for a user
      access its Vp bit, is set. */
  predicate Answers(e: BatEntry, pr: bool, la: u32) {
    (if pr then e.access % 2 == 1 else e.access / 2 % 2 == 1) && BlockMatch(e, la)
  }

  ghost predicate FirstBlock(bats: seq<BatEntry>, pr: bool, la: u32, i: nat) {
    i < |bats| && Answers(bats[i], pr, la) && forall j: nat :: j < i ==> !Answers(bats[j], pr, la)
  }

  /** Block translation answers with the first enabled matching entry, and misses
      exactly when there is none. */
  lemma {:induction false} BlockSearch(bats: seq<BatEntry>, pr: bool, la: u32)
    ensures match PpcBat(bats, pr, la)
            case BatHit(prot, phys) =>
              exists i: nat :: FirstBlock(bats, pr, la, i) && prot == bats[i].prot && phys == BlockPhys(bats[i], la)
            case BatMiss => forall i: nat :: i < |bats| ==> !Answers(bats[i], pr, la)
    decreases |bats|
  {
    hide BlockMatch, BlockPhys;
    if bats != [] {
      if Answers(bats[0], pr, la) {
        assert FirstBlock(bats, pr, la, 0);
      } else {
        BlockSearch(bats[1..], pr, la);
        if PpcBat(bats[1..], pr, la).BatHit? {
          var i: nat :| FirstBlock(bats[1..], pr, la, i) && PpcBat(bats, pr, la).prot == bats[1..][i].prot &&
                        PpcBat(bats, pr, la).phys == BlockPhys(bats[1..][i], la);
          assert FirstBlock(bats, pr, la, i + 1);
        }
      }
    }
  }

  /** An earlier entry that does not answer leaves the search to the later ones. */
  lemma {:induction false} EarlierSilent(bats: seq<BatEntry>, pr: bool, la: u32, n: nat)
    requires n < |bats| && Answers(bats[n], pr, la) && forall j: nat :: j < n ==> !Answers(bats[j], pr, la)
    ensures PpcBat(bats, pr, la) == BatHit(bats[n].prot, BlockPhys(bats[n], la))
    decreases n
  {
    hide BlockMatch, BlockPhys;
    if n > 0 {
      assert !Answers(bats[0], pr, la);
      EarlierSilent(bats[1..], pr, la, n - 1);
    }
  }

  /** On the 601 every valid entry answers. */
  lemma {:induction false} EarlierSilent601(bats: seq<BatEntry>, pr: bool, la: u32, n: nat)
    requires n < |bats| && bats[n].valid && BlockMatch(bats[n], la)
    requires forall j: nat :: j < n ==> !(bats[j].valid && BlockMatch(bats[j], la))
    ensures Bat601(bats, pr, la) == BatHit(Prot601(bats[n], pr), BlockPhys(bats[n], la))
    decreases n
  {
    hide BlockMatch, BlockPhys, Prot601;
    if n > 0 {
      assert !(bats[0].valid && BlockMatch(bats[0], la));
      EarlierSilent601(bats[1..], pr, la, n - 1);
    }
  }

  lemma {:induction false} AllSilent601(bats: seq<BatEntry>, pr: bool, la: u32)
    requires forall j: nat :: j < |bats| ==> !(bats[j].valid && BlockMatch(bats[j], la))
    ensures Bat601(bats, pr, la) == BatMiss
    decreases |bats|
  {
    hide BlockMatch, BlockPhys, Prot601;
    if bats != [] {
      assert !(bats[0].valid && BlockMatch(bats[0], la));
      AllSilent601(bats[1..], pr, la);
    }
  }

  // ---------- Page table entry groups ----------

  /** With a mask of k ones and a table aligned to its size, group addresses run
      through the table in units of 64 bytes, by the low 10 + k bits of the hash. */
  lemma GroupAddress(sdr1: u32, hash: u32, k: nat)
    requires k <= 9 && sdr1 % 512 == Pow2(k) - 1 && sdr1 / 65536 % Pow2(k) == 0
    ensures PtegPhys(sdr1, hash) == sdr1 / 65536 * 65536 + hash % Pow2(10 + k) * 64
    ensures hash % Pow2(10 + k) * 64 < Pow2(k) * 65536
  {
    hide And, Or, Pow2;
    var p := Pow2(k);
    PowMono(k, 9);
    assert Pow2(9) == 512 && Pow2(10) == 1024 by { TenBits(); }
    PowSum(10, k);
    MaskLow(hash / 1024 % 512, k);
    AndSwap(hash / 1024 % 512, Pow2(k) - 1);
    ModMod(hash / 1024, k);
    DivMod(sdr1 / 65536, p);
    DivMod(hash / 1024, p);
    OrApart(sdr1 / 65536 / p, hash / 1024 % p, k);
    HashBits(hash, p);
  }

  lemma TenBits()
    ensures Pow2(9) == 512 && Pow2(10) == 1024
  {
    Powers();
  }

  lemma ModMod(x: nat, k: nat)
    requires k <= 9
    ensures x % 512 % Pow2(k) == x % Pow2(k)
  {
    PowSum(9 - k, k);
    TenBits();
    var p, q := Pow2(k), Pow2(9 - k);
    Nested(x, p, q);
  }

  lemma Nested(x: nat, p: nat, q: nat)
    requires p > 0 && q > 0 && p * q == 512
    ensures x % 512 % p == x % p
  {
    DivMod(x, 512);
    DivMod(x % 512, p);
    var a, b := x / 512, x % 512;
    assert x == (a * q + b / p) * p + b % p by {
      assert a * 512 == a * q * p;
    }
    QuotientUnique(x, p, a * q + b / p, b % p);
  }

  lemma HashBits(hash: nat, p: nat)
    requires p > 0
    ensures hash % (1024 * p) == hash / 1024 % p * 1024 + hash % 1024
    ensures hash % (1024 * p) < 1024 * p
  {
    DivMod(hash, 1024);
    DivMod(hash / 1024, p);
    var a, b := hash / 1024, hash % 1024;
    assert a % p * 1024 + b < p * 1024 by { TimesMono(a % p + 1, p, 1024); }
    assert hash == a / p * (1024 * p) + (a % p * 1024 + b);
    QuotientUnique(hash, 1024 * p, a / p, a % p * 1024 + b);
  }
}
