/** The wide products of core/mathutils.h, with every operation on a fixed width. */
module WideProduct {
  import opened Bits

  type u64 = x: int | 0 <= x < 0x1_0000_0000_0000_0000

  const W32: int := 0x1_0000_0000
  const W64: int := 0x1_0000_0000_0000_0000

  function Add64(a: int, b: int): u64 {
    (a + b) % W64
  }

  function Mul64(a: int, b: int): u64 {
    a * b % W64
  }

  function Shl64(a: u64, n: nat): u64
    requires n == 32
  {
    a * W32 % W64
  }

  function Carry(sum: u64, part: u64): int {
    if sum < part then 1 else 0
  }

  /** _u32xu64 with a 32-bit high part. */
  function Mul32High32(a: u32, b: u64): (u32, u64) {
    var p0 := Mul64(b % W32, a);
    var p1 := Mul64(b / W32, a);
    var lo := Add64(p0, Shl64(p1, 32));
    ((p1 / W32 + Carry(lo, p0)) % W32, lo)
  }

  /** _u32xu64 with a 32-bit low part. */
  function Mul32Low32(a: u32, b: u64): (u64, u32) {
    var p0 := Mul64(b % W32, a);
    var p1 := Mul64(b / W32, a);
    (Add64(p0 / W32, p1), p0 % W32)
  }

  /** _u64xu64. */
  function Mul64x64(a: u64, b: u64): (u64, u64) {
    var (p0h, p0l) := Mul32High32(b % W32, a);
    var (p1h, p1l) := Mul32Low32(b / W32, a);
    var lo := Add64(p0l, Shl64(p1l, 32));
    (Add64(Add64(p0h, p1h), Carry(lo, p0l)), lo)
  }

  lemma ProductBound(x: nat, y: nat, m: nat, n: nat)
    requires x < m && y < n
    ensures x * y <= (m - 1) * (n - 1)
  {
    assert x * y <= (m - 1) * y by { TimesMono(x, m - 1, y); }
    assert (m - 1) * y <= (m - 1) * (n - 1) by { TimesMono(y, n - 1, m - 1); }
  }

  /** Adding on 64 bits: the carry is lost exactly when the sum wraps, and then the
      result is below either summand. */
  lemma CarryOut(a: u64, b: u64)
    ensures a + b == Carry(Add64(a, b), a) * W64 + Add64(a, b)
  {
  }

  /** The partial products of a 32-bit and a 64-bit factor. */
  lemma Partial(a: u32, b: u64)
    ensures Mul64(b % W32, a) == b % W32 * a && Mul64(b / W32, a) == b / W32 * a
    ensures b % W32 * a <= (W32 - 1) * (W32 - 1) && b / W32 * a <= (W32 - 1) * (W32 - 1)
    ensures a * b == b / W32 * a * W32 + b % W32 * a
  {
    ProductBound(b % W32, a, W32, W32);
    ProductBound(b / W32, a, W32, W32);
    Distribute(a, b / W32, b % W32, W32);
    assert b == b / W32 * W32 + b % W32;
  }

  lemma Distribute(a: int, q: int, r: int, w: int)
    ensures a * (q * w + r) == q * a * w + r * a
  {
  }

  lemma ShiftedLow(p: u64)
    ensures Shl64(p, 32) == p % W32 * W32
  {
    assert p * W32 == p / W32 * W64 + p % W32 * W32;
  }

  lemma HighFits(p0: u64, p1: u64, lo: u64, carry: int)
    requires p0 <= (W32 - 1) * (W32 - 1) && p1 <= (W32 - 1) * (W32 - 1)
    requires p0 + p1 % W32 * W32 == carry * W64 + lo && 0 <= carry <= 1
    ensures 0 <= p1 / W32 + carry < W32 && (p1 / W32 + carry) * W64 + lo == p1 * W32 + p0
  {
  }

  lemma HighSum(p0: u64, p1: u64)
    requires p0 <= (W32 - 1) * (W32 - 1) && p1 <= (W32 - 1) * (W32 - 1)
    ensures var lo := Add64(p0, Shl64(p1, 32));
            (p1 / W32 + Carry(lo, p0)) % W32 * W64 + lo == p1 * W32 + p0
  {
    CarryOut(p0, Shl64(p1, 32));
    ShiftedLow(p1);
    hide Add64, Shl64;
    var lo := Add64(p0, Shl64(p1, 32));
    HighFits(p0, p1, lo, Carry(lo, p0));
  }

  /** No carry is lost in the first form. */
  lemma Mul32High32Exact(a: u32, b: u64)
    ensures var (hi, lo) := Mul32High32(a, b); hi * W64 + lo == a * b
  {
    hide Add64, Shl64, Carry, Mul64;
    Partial(a, b);
    HighSum(Mul64(b % W32, a), Mul64(b / W32, a));
  }

  /** No carry is lost in the second form. */
  lemma Mul32Low32Exact(a: u32, b: u64)
    ensures var (hi, lo) := Mul32Low32(a, b); hi * W32 + lo == a * b
  {
    Partial(a, b);
  }

  lemma SumFits(p0h: u32, p0l: u64, p1h: u64, p1l: u32, lo: u64, carry: int, total: int)
    requires 0 <= total < W64 * W64 && total == (p1h * W32 + p1l) * W32 + p0h * W64 + p0l
    requires p0l + p1l * W32 == carry * W64 + lo && 0 <= carry <= 1
    ensures p0h + p1h + carry < W64 && (p0h + p1h + carry) * W64 + lo == total
  {
  }

  lemma FullSum(p0h: u32, p0l: u64, p1h: u64, p1l: u32, total: int)
    requires 0 <= total < W64 * W64 && total == (p1h * W32 + p1l) * W32 + p0h * W64 + p0l
    ensures var lo := Add64(p0l, Shl64(p1l, 32));
            Add64(Add64(p0h, p1h), Carry(lo, p0l)) * W64 + lo == total
  {
    CarryOut(p0l, Shl64(p1l, 32));
    ShiftedLow(p1l);
    var lo := Add64(p0l, Shl64(p1l, 32));
    hide Shl64;
    SumFits(p0h, p0l, p1h, p1l, lo, Carry(lo, p0l), total);
    SumsFit(p0h, p1h, Carry(lo, p0l));
    hide Add64;
  }

  /** The 64 by 64 multiply returns the exact 128-bit product. */
  lemma Mul64x64Exact(a: u64, b: u64)
    ensures var (hi, lo) := Mul64x64(a, b); hi * W64 + lo == a * b
  {
    hide Mul32High32, Mul32Low32, Add64, Shl64, Carry;
    Mul32High32Exact(b % W32, a);
    Mul32Low32Exact(b / W32, a);
    FullProduct(a, b);
    var (p0h, p0l) := Mul32High32(b % W32, a);
    var (p1h, p1l) := Mul32Low32(b / W32, a);
    FullSum(p0h, p0l, p1h, p1l, a * b);
  }

  lemma SumsFit(x: u32, y: u64, carry: int)
    requires 0 <= carry <= 1 && x + y + carry < W64
    ensures Add64(Add64(x, y), carry) == x + y + carry
  {
  }

  lemma FullProduct(a: u64, b: u64)
    ensures 0 <= a * b < W64 * W64
    ensures a * b == b / W32 * a * W32 + b % W32 * a
  {
    ProductBound(a, b, W64, W64);
    Distribute(a, b / W32, b % W32, W32);
    assert b == b / W32 * W32 + b % W32;
  }
}
