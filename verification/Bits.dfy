/** Machine words as bounded integers, with the bitwise operations the
    translation and the POWER shifts need. */
module Bits {
  type byte = x: int | 0 <= x < 0x100
  type u32 = x: int | 0 <= x < 0x1_0000_0000

  function And(a: nat, b: nat): nat {
    if a == 0 || b == 0 then 0 else (if a % 2 == 1 && b % 2 == 1 then 1 else 0) + 2 * And(a / 2, b / 2)
  }

  function Or(a: nat, b: nat): nat
    decreases a + b
  {
    if a == 0 then b else if b == 0 then a
    else (if a % 2 + b % 2 > 0 then 1 else 0) + 2 * Or(a / 2, b / 2)
  }

  function Xor(a: nat, b: nat): nat
    decreases a + b
  {
    if a == 0 then b else if b == 0 then a
    else (if a % 2 == b % 2 then 0 else 1) + 2 * Xor(a / 2, b / 2)
  }

  function Pow2(k: nat): (p: nat)
    ensures p > 0
  {
    if k == 0 then 1 else 2 * Pow2(k - 1)
  }

  /** ~x on 32 bits. */
  function Not32(x: u32): u32 {
    0xFFFF_FFFF - x
  }

  /** A number from its lowest bit and the rest. */
  lemma LowestBit(bit: nat, rest: nat)
    requires bit < 2
    ensures (bit + 2 * rest) % 2 == bit && (bit + 2 * rest) / 2 == rest
  {
  }

  lemma {:induction false} OrStep(a: nat, b: nat)
    ensures Or(a, b) % 2 == (if a % 2 + b % 2 > 0 then 1 else 0)
    ensures Or(a, b) / 2 == Or(a / 2, b / 2)
  {
    if a != 0 && b != 0 {
      LowestBit(if a % 2 + b % 2 > 0 then 1 else 0, Or(a / 2, b / 2));
    }
  }

  lemma {:induction false} AndStep(a: nat, b: nat)
    ensures And(a, b) % 2 == (if a % 2 == 1 && b % 2 == 1 then 1 else 0)
    ensures And(a, b) / 2 == And(a / 2, b / 2)
  {
    if a != 0 && b != 0 {
      LowestBit(if a % 2 == 1 && b % 2 == 1 then 1 else 0, And(a / 2, b / 2));
    }
  }

  lemma {:induction false} XorStep(a: nat, b: nat)
    ensures Xor(a, b) % 2 == (if a % 2 == b % 2 then 0 else 1)
    ensures Xor(a, b) / 2 == Xor(a / 2, b / 2)
  {
    if a != 0 && b != 0 {
      LowestBit(if a % 2 == b % 2 then 0 else 1, Xor(a / 2, b / 2));
    }
  }

  /** The operations keep within a width. */
  lemma {:induction false} Width(a: nat, b: nat, k: nat)
    requires a < Pow2(k) && b < Pow2(k)
    ensures Or(a, b) < Pow2(k) && And(a, b) < Pow2(k) && Xor(a, b) < Pow2(k)
  {
    if k > 0 {
      Width(a / 2, b / 2, k - 1);
      OrStep(a, b);
      AndStep(a, b);
      XorStep(a, b);
    }
  }

  /** The bits from k up, and the k bits below. */
  function High(a: nat, k: nat): nat {
    if k == 0 then a else High(a / 2, k - 1)
  }

  function Low(a: nat, k: nat): nat {
    if k == 0 then 0 else a % 2 + 2 * Low(a / 2, k - 1)
  }

  lemma {:induction false} Parts(a: nat, k: nat)
    ensures High(a, k) == a / Pow2(k) && Low(a, k) == a % Pow2(k)
  {
    if k > 0 {
      Parts(a / 2, k - 1);
      Halve(a, Pow2(k - 1));
    }
  }

  lemma Halve(a: nat, p: nat)
    requires p > 0
    ensures a / (2 * p) == (a / 2) / p && a % (2 * p) == 2 * ((a / 2) % p) + a % 2
  {
    var q, r := a / 2 / p, a / 2 % p;
    assert a == q * (2 * p) + (2 * r + a % 2);
    QuotientUnique(a, 2 * p, q, 2 * r + a % 2);
  }

  lemma QuotientUnique(a: int, d: int, q: int, r: int)
    requires d > 0 && 0 <= r < d && a == q * d + r
    ensures a / d == q && a % d == r
  {
    var q', r' := a / d, a % d;
    assert q' * d + r' == q * d + r;
    assert (q' - q) * d == r - r';
    if q' > q {
      Product(q' - q, d);
    } else if q' < q {
      Product(q - q', d);
    }
  }

  lemma Product(x: int, d: int)
    requires x >= 1 && d > 0
    ensures x * d >= d
  {
  }

  lemma Powers()
    ensures Pow2(10) == 1024 && Pow2(17) == 131072 && Pow2(32) == 0x1_0000_0000
  {
    assert Pow2(5) == 32;
    assert Pow2(15) == 32768;
    assert Pow2(20) == 1048576;
    assert Pow2(25) == 33554432;
    assert Pow2(30) == 1073741824;
  }

  // The bitwise operations act on the high and the low bits separately.

  lemma LowHalves(a: nat, k: nat)
    requires k > 0
    ensures Low(a, k) % 2 == a % 2 && Low(a, k) / 2 == Low(a / 2, k - 1)
    ensures Low(a, k) == a % 2 + 2 * Low(a / 2, k - 1) && High(a, k) == High(a / 2, k - 1)
  {
    LowestBit(a % 2, Low(a / 2, k - 1));
  }

  lemma {:induction false} AndParts(a: nat, b: nat, k: nat)
    ensures High(And(a, b), k) == And(High(a, k), High(b, k))
    ensures Low(And(a, b), k) == And(Low(a, k), Low(b, k))
  {
    if k == 0 {
      assert And(0, 0) == 0;
    } else {
      hide And, Low, High;
      AndStep(a, b);
      AndParts(a / 2, b / 2, k - 1);
      AndStep(Low(a, k), Low(b, k));
      LowHalves(a, k);
      LowHalves(b, k);
      LowHalves(And(a, b), k);
    }
  }

  lemma {:induction false} OrParts(a: nat, b: nat, k: nat)
    ensures High(Or(a, b), k) == Or(High(a, k), High(b, k))
    ensures Low(Or(a, b), k) == Or(Low(a, k), Low(b, k))
  {
    if k == 0 {
      assert Or(0, 0) == 0;
    } else {
      hide Or, Low, High;
      OrStep(a, b);
      OrParts(a / 2, b / 2, k - 1);
      OrStep(Low(a, k), Low(b, k));
      LowHalves(a, k);
      LowHalves(b, k);
      LowHalves(Or(a, b), k);
    }
  }

  lemma Rebuild(x: nat, y: nat)
    requires x % 2 == y % 2 && x / 2 == y / 2
    ensures x == y
  {
  }

  lemma {:induction false} AndOnes(a: nat, k: nat)
    requires a < Pow2(k)
    ensures And(a, Pow2(k) - 1) == a
  {
    if k > 0 {
      hide And;
      var rest := Pow2(k - 1) - 1;
      assert Pow2(k) - 1 == 1 + 2 * rest;
      LowestBit(1, rest);
      AndStep(a, Pow2(k) - 1);
      AndOnes(a / 2, k - 1);
      Rebuild(And(a, Pow2(k) - 1), a);
    }
  }

  lemma {:induction false} AndSwap(a: nat, b: nat)
    ensures And(a, b) == And(b, a)
  {
    if a != 0 && b != 0 {
      AndSwap(a / 2, b / 2);
    }
  }

  /** Equal low bits of two exclusive ors with a common operand come from equal low bits. */
  lemma {:induction false} XorCancel(a: nat, b: nat, b': nat, k: nat)
    requires Low(Xor(a, b), k) == Low(Xor(a, b'), k)
    ensures Low(b, k) == Low(b', k)
  {
    if k > 0 {
      hide Xor, Low, High;
      XorStep(a, b);
      XorStep(a, b');
      LowHalves(Xor(a, b), k);
      LowHalves(Xor(a, b'), k);
      LowHalves(b, k);
      LowHalves(b', k);
      XorCancel(a / 2, b / 2, b' / 2, k - 1);
    } else {
      assert Low(b, 0) == Low(b', 0);
    }
  }

  // ---------- Words split at a bit ----------

  const W: int := 0x1_0000_0000

  lemma {:induction false} PowSum(a: nat, b: nat)
    ensures Pow2(a + b) == Pow2(a) * Pow2(b)
  {
    if a > 0 {
      hide Pow2;
      PowSum(a - 1, b);
      PowStep(a);
      PowStep(a + b);
      TimesAssoc(2, Pow2(a - 1), Pow2(b));
    } else {
      assert Pow2(0) == 1;
    }
  }

  lemma PowStep(k: nat)
    requires k > 0
    ensures Pow2(k) == 2 * Pow2(k - 1)
  {
  }

  lemma TimesAssoc(a: int, b: int, c: int)
    ensures a * b * c == a * (b * c)
  {
  }

  lemma PowSplit(n: nat)
    requires n <= 32
    ensures Pow2(n) * Pow2(32 - n) == W && 1 <= Pow2(n) <= W && (n < 32 ==> Pow2(n) < W)
  {
    Powers();
    PowSum(n, 32 - n);
    Exceeds(Pow2(n), Pow2(32 - n));
    if n < 32 {
      assert Pow2(32 - n) == 2 * Pow2(31 - n);
      Exceeds(Pow2(n), 2 * Pow2(31 - n));
    }
  }

  lemma Exceeds(a: int, b: int)
    requires a >= 1 && b >= 1
    ensures a * b >= a && (b >= 2 ==> a * b > a)
  {
  }

  lemma Recompose(v: nat, n: nat)
    ensures v == High(v, n) * Pow2(n) + Low(v, n) && Low(v, n) < Pow2(n)
  {
    Parts(v, n);
    DivMod(v, Pow2(n));
  }

  lemma DivMod(v: nat, p: nat)
    requires p > 0
    ensures v == v / p * p + v % p && 0 <= v % p < p && v / p >= 0
  {
  }

  /** The high and low parts of a word given by its parts. */
  lemma Composed(high: nat, low: nat, n: nat)
    requires low < Pow2(n)
    ensures High(high * Pow2(n) + low, n) == high && Low(high * Pow2(n) + low, n) == low
  {
    Parts(high * Pow2(n) + low, n);
    QuotientUnique(high * Pow2(n) + low, Pow2(n), high, low);
  }

  /** Words whose set bits lie apart combine by addition. */
  lemma OrApart(high: nat, low: nat, n: nat)
    requires low < Pow2(n)
    ensures Or(high * Pow2(n), low) == high * Pow2(n) + low && Or(low, high * Pow2(n)) == high * Pow2(n) + low
  {
    hide Or, High, Low, Pow2;
    var x := high * Pow2(n);
    Composed(high, 0, n);
    Composed(0, low, n);
    OrParts(x, low, n);
    OrParts(low, x, n);
    Recompose(Or(x, low), n);
    Recompose(Or(low, x), n);
    OrZero(high, low);
  }

  lemma OrZero(a: nat, b: nat)
    ensures Or(a, 0) == a && Or(0, a) == a && Or(b, 0) == b && Or(0, b) == b
  {
  }

  /** Masking with the bits from n up, and with the n bits below. */
  lemma MaskHigh(x: u32, n: nat, mask: nat)
    requires n < 32 && mask == (Pow2(32 - n) - 1) * Pow2(n)
    ensures And(x, mask) == x / Pow2(n) * Pow2(n)
  {
    hide And, High, Low, Pow2;
    Composed(Pow2(32 - n) - 1, 0, n);
    AndParts(x, mask, n);
    Parts(x, n);
    Recompose(And(x, mask), n);
    HighBits(x, n);
    AndOnes(x / Pow2(n), 32 - n);
    AndNone(x % Pow2(n));
  }

  lemma AndNone(x: nat)
    ensures And(x, 0) == 0 && And(0, x) == 0
  {
  }

  lemma Shorter(x: nat, p: nat, q: nat)
    requires p > 0 && x < p * q
    ensures x / p < q
  {
    DivMod(x, p);
    if x / p >= q {
      TimesMono(q, x / p, p);
    }
  }

  lemma HighBits(x: u32, n: nat)
    requires n <= 32
    ensures x / Pow2(n) < Pow2(32 - n)
  {
    PowSplit(n);
    Shorter(x, Pow2(n), Pow2(32 - n));
  }

  lemma TimesMono(a: nat, b: nat, c: nat)
    requires a <= b
    ensures a * c <= b * c
  {
  }

  lemma MaskLow(x: u32, n: nat)
    requires n <= 32
    ensures And(x, Pow2(n) - 1) == x % Pow2(n)
  {
    hide And, High, Low, Pow2;
    Composed(0, Pow2(n) - 1, n);
    AndParts(x, Pow2(n) - 1, n);
    Parts(x, n);
    Recompose(And(x, Pow2(n) - 1), n);
    AndNone(x / Pow2(n));
    DivMod(x, Pow2(n));
    AndOnes(x % Pow2(n), n);
  }
}
