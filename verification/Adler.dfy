/** The two Adler-32 routines of machines/machinefactory.cpp against RFC 1950,
    section 8.2. */
module Adler {
  import opened Bits

  type u64 = x: int | 0 <= x < 0x1_0000_0000_0000_0000

  const BASE: nat := 65521
  const NMAX: nat := 0x16AB_F600

  /** The first sum after some bytes, from a start value. */
  function SumA(a: nat, s: seq<byte>): nat {
    if s == [] then a else SumA(a, s[..|s| - 1]) + s[|s| - 1]
  }

  /** The second sum: the first sum's values after each byte, added up. */
  function SumB(a: nat, b: nat, s: seq<byte>): nat {
    if s == [] then b else SumB(a, b, s[..|s| - 1]) + SumA(a, s)
  }

  /** The checksum as RFC 1950 defines it. */
  function Checksum(s: seq<byte>): u32 {
    SumB(1, 0, s) % BASE * 65536 + SumA(1, s) % BASE
  }

  lemma NextByte(s: seq<byte>, i: nat)
    requires i < |s|
    ensures SumA(1, s[..i + 1]) == SumA(1, s[..i]) + s[i]
    ensures SumB(1, 0, s[..i + 1]) == SumB(1, 0, s[..i]) + SumA(1, s[..i + 1])
  {
    assert s[..i + 1][..i] == s[..i];
  }

  lemma ModAdd(x: int, y: int, x': int, y': int)
    requires x % BASE == x' % BASE && y % BASE == y' % BASE
    ensures (x + y) % BASE == (x' + y') % BASE
  {
    assert x - x' == (x / BASE - x' / BASE) * BASE;
    assert y - y' == (y / BASE - y' / BASE) * BASE;
    var k := x / BASE - x' / BASE + y / BASE - y' / BASE;
    assert x + y == k * BASE + (x' + y');
    SameRemainder(x' + y', k);
  }

  lemma SameRemainder(z: int, k: int)
    ensures (k * BASE + z) % BASE == z % BASE
  {
    QuotientUnique(k * BASE + z, BASE, k + z / BASE, z % BASE);
  }

  method Adler32Slow(buf: seq<byte>) returns (r: u32)
    ensures r == Checksum(buf)
  {
    var sum1, sum2 := 1, 0;
    var i := 0;
    while i < |buf|
      invariant 0 <= i <= |buf|
      invariant sum1 == SumA(1, buf[..i]) % BASE && sum2 == SumB(1, 0, buf[..i]) % BASE
    {
      NextByte(buf, i);
      ModAdd(sum1, buf[i], SumA(1, buf[..i]), buf[i]);
      sum1 := (sum1 + buf[i]) % BASE;
      ModAdd(sum2, sum1, SumB(1, 0, buf[..i]), SumA(1, buf[..i + 1]));
      sum2 := (sum2 + sum1) % BASE;
      i := i + 1;
    }
    assert buf[..i] == buf;
    r := sum1 + 65536 * sum2;
  }

  // ---------- Deferred reduction ----------

  /** Twice the largest second sum after n bytes from reduced sums. */
  function Limit(n: nat): nat {
    131040 + 131040 * n + 255 * (n * (n + 1))
  }

  /** Both sums are right modulo 65521, and bounded by the bytes since they were last
      reduced. */
  ghost predicate Tracks(buf: seq<byte>, i: nat, sum1: int, sum2: int, n: nat) {
    && i <= |buf|
    && sum1 % BASE == SumA(1, buf[..i]) % BASE && sum2 % BASE == SumB(1, 0, buf[..i]) % BASE
    && 0 <= sum1 <= 65520 + 255 * n && 0 <= 2 * sum2 <= Limit(n)
  }

  lemma LimitStep(n: nat)
    ensures Limit(n + 1) == Limit(n) + 2 * (65520 + 255 * (n + 1))
  {
    assert (n + 1) * (n + 2) == n * (n + 1) + 2 * (n + 1);
  }

  lemma {:induction false} LimitGrows(n: nat, m: nat)
    requires n <= m
    ensures Limit(n) <= Limit(m)
    decreases m - n
  {
    if n < m {
      LimitStep(n);
      LimitGrows(n + 1, m);
    }
  }

  /** From reduced sums, the unreduced sums stay within the limit, and n bytes 0xFF from
      the largest reduced sums reach it. */
  lemma {:induction false} LimitExact(a: nat, b: nat, s: seq<byte>)
    requires a < BASE && b < BASE
    ensures SumA(a, s) <= 65520 + 255 * |s| && 2 * SumB(a, b, s) <= Limit(|s|)
    ensures a == b == 65520 && (forall i: nat :: i < |s| ==> s[i] == 255) ==>
              SumA(a, s) == 65520 + 255 * |s| && 2 * SumB(a, b, s) == Limit(|s|)
    decreases |s|
  {
    if s != [] {
      LimitExact(a, b, s[..|s| - 1]);
      LimitStep(|s| - 1);
    }
  }

  lemma LimitsAt()
    ensures Limit(NMAX) < 2 * 0x1_0000_0000_0000_0000 <= Limit(NMAX + 56)
  {
  }

  /** The chunk length is tight: no NMAX bytes overflow 64 bits from any reduced sums,
      but NMAX + 56 bytes can. */
  lemma ChunkTight() returns (s: seq<byte>)
    ensures forall a: nat, b: nat, t: seq<byte> :: a < BASE && b < BASE && |t| <= NMAX ==>
              SumB(a, b, t) < 0x1_0000_0000_0000_0000
    ensures |s| == NMAX + 56 && SumB(65520, 65520, s) >= 0x1_0000_0000_0000_0000
  {
    LimitsAt();
    hide SumA, SumB, Limit;
    forall a: nat, b: nat, t: seq<byte> | a < BASE && b < BASE && |t| <= NMAX
      ensures SumB(a, b, t) < 0x1_0000_0000_0000_0000
    {
      LimitExact(a, b, t);
      NoOverflow(|t|);
    }
    s := seq(NMAX + 56, _ => 255);
    LimitExact(65520, 65520, s);
  }

  lemma NoOverflow(n: nat)
    requires n <= NMAX
    ensures Limit(n) < 2 * 0x1_0000_0000_0000_0000
  {
    LimitGrows(n, NMAX);
    LimitsAt();
  }

  /** DO1 to DO16: every addition stays within 64 bits. */
  method Do1(buf: seq<byte>, i: nat, sum1: u64, sum2: u64, ghost n: nat) returns (s1: u64, s2: u64)
    requires i < |buf| && n < NMAX && Tracks(buf, i, sum1, sum2, n)
    ensures Tracks(buf, i + 1, s1, s2, n + 1)
  {
    NextByte(buf, i);
    LimitStep(n);
    NoOverflow(n + 1);
    ModAdd(sum1, buf[i], SumA(1, buf[..i]), buf[i]);
    s1 := sum1 + buf[i];
    ModAdd(sum2, s1, SumB(1, 0, buf[..i]), SumA(1, buf[..i + 1]));
    s2 := sum2 + s1;
  }

  method Do2(buf: seq<byte>, i: nat, sum1: u64, sum2: u64, ghost n: nat) returns (s1: u64, s2: u64)
    requires i + 2 <= |buf| && n + 2 <= NMAX && Tracks(buf, i, sum1, sum2, n)
    ensures Tracks(buf, i + 2, s1, s2, n + 2)
  {
    hide Tracks;
    s1, s2 := Do1(buf, i, sum1, sum2, n);
    s1, s2 := Do1(buf, i + 1, s1, s2, n + 1);
  }

  method Do4(buf: seq<byte>, i: nat, sum1: u64, sum2: u64, ghost n: nat) returns (s1: u64, s2: u64)
    requires i + 4 <= |buf| && n + 4 <= NMAX && Tracks(buf, i, sum1, sum2, n)
    ensures Tracks(buf, i + 4, s1, s2, n + 4)
  {
    hide Tracks;
    s1, s2 := Do2(buf, i, sum1, sum2, n);
    s1, s2 := Do2(buf, i + 2, s1, s2, n + 2);
  }

  method Do8(buf: seq<byte>, i: nat, sum1: u64, sum2: u64, ghost n: nat) returns (s1: u64, s2: u64)
    requires i + 8 <= |buf| && n + 8 <= NMAX && Tracks(buf, i, sum1, sum2, n)
    ensures Tracks(buf, i + 8, s1, s2, n + 8)
  {
    hide Tracks;
    s1, s2 := Do4(buf, i, sum1, sum2, n);
    s1, s2 := Do4(buf, i + 4, s1, s2, n + 4);
  }

  method Do16(buf: seq<byte>, i: nat, sum1: u64, sum2: u64, ghost n: nat) returns (s1: u64, s2: u64)
    requires i + 16 <= |buf| && n + 16 <= NMAX && Tracks(buf, i, sum1, sum2, n)
    ensures Tracks(buf, i + 16, s1, s2, n + 16)
  {
    hide Tracks;
    s1, s2 := Do8(buf, i, sum1, sum2, n);
    s1, s2 := Do8(buf, i + 8, s1, s2, n + 8);
  }

  lemma Reduced(buf: seq<byte>, i: nat, sum1: u64, sum2: u64, n: nat)
    requires Tracks(buf, i, sum1, sum2, n)
    ensures Tracks(buf, i, sum1 % BASE, sum2 % BASE, 0)
  {
  }

  /** One chunk of NMAX bytes in rounds of 16. */
  method Chunk(buf: seq<byte>, i: nat, sum1: u64, sum2: u64) returns (s1: u64, s2: u64)
    requires i + NMAX <= |buf| && Tracks(buf, i, sum1, sum2, 0)
    ensures Tracks(buf, i + NMAX, s1, s2, NMAX)
  {
    hide Tracks;
    s1, s2 := sum1, sum2;
    var n := NMAX / 16;
    while n > 0
      invariant 0 <= n <= NMAX / 16
      invariant Tracks(buf, i + NMAX - 16 * n, s1, s2, NMAX - 16 * n)
    {
      s1, s2 := Do16(buf, i + NMAX - 16 * n, s1, s2, NMAX - 16 * n);
      n := n - 1;
    }
  }

  /** The fast routine: sums reduced once per chunk. */
  method Adler32(buf: seq<byte>) returns (r: u32)
    ensures r == Checksum(buf)
  {
    var sum1: u64, sum2: u64 := 1, 0;
    var i, len := 0, |buf|;
    assert buf[..0] == [];
    assert Tracks(buf, 0, 1, 0, 0);
    hide Tracks;
    while len >= NMAX
      invariant i + len == |buf| && 0 <= len && 0 <= i
      invariant Tracks(buf, i, sum1, sum2, 0)
    {
      len := len - NMAX;
      sum1, sum2 := Chunk(buf, i, sum1, sum2);
      i := i + NMAX;
      Reduced(buf, i, sum1, sum2, NMAX);
      sum1 := sum1 % BASE;
      sum2 := sum2 % BASE;
    }
    ghost var start := i;
    while len >= 16
      invariant i + len == |buf| && 0 <= len && start <= i && |buf| - start < NMAX
      invariant Tracks(buf, i, sum1, sum2, i - start)
    {
      len := len - 16;
      sum1, sum2 := Do16(buf, i, sum1, sum2, i - start);
      i := i + 16;
    }
    while len > 0
      invariant i + len == |buf| && 0 <= len && start <= i && |buf| - start < NMAX
      invariant Tracks(buf, i, sum1, sum2, i - start)
    {
      len := len - 1;
      sum1, sum2 := Do1(buf, i, sum1, sum2, i - start);
      i := i + 1;
    }
    FinalSums(buf, sum1, sum2, i - start);
    r := Or(sum1 % BASE, sum2 % BASE * 65536);
  }

  lemma FinalSums(buf: seq<byte>, sum1: u64, sum2: u64, n: nat)
    requires Tracks(buf, |buf|, sum1, sum2, n)
    ensures Or(sum1 % BASE, sum2 % BASE * 65536) == Checksum(buf)
  {
    assert buf[..|buf|] == buf;
    SixteenBits();
    OrApart(sum2 % BASE, sum1 % BASE, 16);
  }

  lemma SixteenBits()
    ensures Pow2(16) == 65536
  {
    assert Pow2(8) == 256;
  }
}
