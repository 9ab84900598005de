/** The POWER shifts through MQ of cpu/ppc/poweropcodes.cpp, and the long shifts
    that programs compose from them. */
module MqShift {
  import opened Bits

  function Shl(x: u32, n: nat): u32
    requires n < 32
  {
    x * Pow2(n) % W
  }

  function Shr(x: u32, n: nat): (r: u32)
    requires n < 32
    ensures r == x / Pow2(n)
  {
    ShiftShrinks(x, Pow2(n));
    x / Pow2(n)
  }

  lemma ShiftShrinks(x: nat, p: nat)
    requires p > 0
    ensures 0 <= x / p <= x
  {
    var q := x / p;
    assert x == q * p + x % p;
    if q >= 1 {
      Exceeds(q, p);
    }
  }

  function Or32(a: u32, b: u32): u32 {
    Powers();
    Width(a, b, 32);
    Or(a, b)
  }

  function And32(a: u32, b: u32): u32 {
    Powers();
    Width(a, b, 32);
    And(a, b)
  }

  function Rotl(x: u32, n: nat): u32
    requires n < 32
  {
    if n == 0 then x else Or32(Shl(x, n), Shr(x, 32 - n))
  }

  function Rotr(x: u32, n: nat): u32
    requires n < 32
  {
    if n == 0 then x else Or32(Shr(x, n), Shl(x, 32 - n))
  }

  /** power_rot_mask. */
  function RotMask(mb: nat, me: nat): u32
    requires mb < 32 && me < 32
  {
    var m1, m2 := Shr(0xFFFF_FFFF, mb), Shl(0xFFFF_FFFF, 31 - me);
    if mb <= me then And32(m2, m1) else Or32(m1, m2)
  }

  /** Bits of r under the mask, bits of mq elsewhere. */
  function Merge(r: u32, mq: u32, mask: u32): u32 {
    Or32(And32(r, mask), And32(mq, Not32(mask)))
  }

  // ---------- The opcodes ----------

  function ShiftLeft(d: u32, n: nat): (u32, u32)
    requires n < 32
  {
    (Shl(d, n), Rotl(d, n))
  }

  function ShiftLeftExtended(d: u32, n: nat, mq: u32): (u32, u32)
    requires n < 32
  {
    var r := Rotl(d, n);
    (Merge(r, mq, RotMask(0, 31 - n)), r)
  }

  function ShiftRight(d: u32, n: nat): (u32, u32)
    requires n < 32
  {
    (Shr(d, n), Rotr(d, n))
  }

  function ShiftRightExtended(d: u32, n: nat, mq: u32): (u32, u32)
    requires n < 32
  {
    var r := Rotr(d, n);
    (Merge(r, mq, RotMask(n, 31)), r)
  }

  /** sreq builds its result from a shift instead of a rotation. */
  function ShiftRightExtendedReg(d: u32, n: nat, mq: u32): (u32, u32)
    requires n < 32
  {
    (Or32(Shr(d, n), And32(mq, Not32(Shr(0xFFFF_FFFF, n)))), Rotr(d, n))
  }

  predicate Negative(d: u32) {
    d >= 0x8000_0000
  }

  /** An arithmetic right shift of a 32-bit two's complement word. */
  function Sra(d: u32, n: nat): u32
    requires n < 32
  {
    if Negative(d) then (d - W) / Pow2(n) % W else Shr(d, n)
  }

  /** The result, MQ and XER[CA]. */
  function ShiftRightAlgebraic(d: u32, n: nat): (u32, u32, bool)
    requires n < 32
  {
    (Sra(d, n), Rotr(d, n), Negative(d) && And32(d, Pow2Below(n)) != 0)
  }

  function Pow2Below(n: nat): (m: u32)
    requires n < 32
    ensures m == Pow2(n) - 1
  {
    PowSplit(n);
    Pow2(n) - 1
  }

  // ---------- What rotations and merges are ----------

  /** A left shift keeps the low bits; a rotation brings the high ones round. */
  lemma ShlParts(x: u32, n: nat)
    requires n < 32
    ensures Shl(x, n) == x % Pow2(32 - n) * Pow2(n)
    ensures x * Pow2(n) == x / Pow2(32 - n) * W + Shl(x, n)
  {
    PowSplit(n);
    ShiftSplit(x, Pow2(n), Pow2(32 - n));
  }

  lemma ShiftSplit(x: nat, p: nat, q: nat)
    requires p > 0 && q > 0 && p * q == W
    ensures x * p % W == x % q * p && x * p == x / q * W + x % q * p
  {
    DivMod(x, q);
    Distribute(x / q, q, x % q, p);
    TimesMono(x % q, q - 1, p);
    QuotientUnique(x * p, W, x / q, x % q * p);
  }

  lemma Distribute(a: nat, q: nat, r: nat, p: nat)
    ensures (a * q + r) * p == a * (p * q) + r * p
  {
  }

  lemma NoShift(x: u32)
    ensures Pow2(0) == 1 && Pow2(32) == W && x % W == x && x / W == 0 && x / 1 == x && x % 1 == 0
  {
    Powers();
  }

  lemma RotlParts(x: u32, n: nat)
    requires n < 32
    ensures Rotl(x, n) == x % Pow2(32 - n) * Pow2(n) + x / Pow2(32 - n) && x / Pow2(32 - n) < Pow2(n)
  {
    hide Pow2, Or, Shl, Shr;
    HighBits(x, 32 - n);
    if n == 0 {
      NoShift(x);
    } else {
      ShlParts(x, n);
      OrApart(x % Pow2(32 - n), x / Pow2(32 - n), n);
    }
  }

  lemma RotrParts(x: u32, n: nat)
    requires n < 32
    ensures Rotr(x, n) == x % Pow2(n) * Pow2(32 - n) + x / Pow2(n) && x / Pow2(n) < Pow2(32 - n)
  {
    hide Pow2, Or, Shl, Shr;
    HighBits(x, n);
    if n == 0 {
      NoShift(x);
    } else {
      ShlParts(x, 32 - n);
      OrApart(x % Pow2(n), x / Pow2(n), 32 - n);
    }
  }

  /** The two masks the shifts ask for. */
  lemma Masks(n: nat)
    requires n < 32
    ensures RotMask(0, 31 - n) == W - Pow2(n) == (Pow2(32 - n) - 1) * Pow2(n)
    ensures RotMask(n, 31) == Pow2(32 - n) - 1 && Shr(0xFFFF_FFFF, n) == Pow2(32 - n) - 1
    ensures W - Pow2(32 - n) == (Pow2(n) - 1) * Pow2(32 - n)
  {
    hide Pow2, And, Or;
    var p, q := Pow2(n), Pow2(32 - n);
    PowSplit(n);
    PowSplit(32 - n);
    NoShift(0);
    AllOnes(p, q);
    Minus(p, q);
    AndOnesBoth(W - p, q - 1);
  }

  lemma AllOnes(p: nat, q: nat)
    requires p > 0 && q > 0 && p * q == W
    ensures (W - 1) * p % W == W - p && (W - 1) / p == q - 1 && (W - 1) * 1 % W == W - 1
  {
    assert (W - 1) * p == (p - 1) * W + (W - p);
    QuotientUnique((W - 1) * p, W, p - 1, W - p);
    assert W - 1 == (q - 1) * p + (p - 1);
    QuotientUnique(W - 1, p, q - 1, p - 1);
  }

  lemma Minus(p: nat, q: nat)
    requires p * q == W
    ensures W - p == (q - 1) * p && W - q == (p - 1) * q
  {
  }

  lemma AndOnesBoth(a: nat, b: nat)
    requires a < W && b < W
    ensures And(a, 0xFFFF_FFFF) == a && And(0xFFFF_FFFF, b) == b
  {
    Powers();
    AndOnes(a, 32);
    AndOnes(b, 32);
    AndSwap(0xFFFF_FFFF, b);
  }

  /** The bits from n up of one word over the n low bits of another. */
  lemma MergeHigh(r: u32, mq: u32, n: nat)
    requires n < 32
    ensures Merge(r, mq, RotMask(0, 31 - n)) == r / Pow2(n) * Pow2(n) + mq % Pow2(n)
  {
    hide And, Or, RotMask, Pow2;
    Masks(n);
    MaskHigh(r, n, RotMask(0, 31 - n));
    MaskLow(mq, n);
    DivMod(mq, Pow2(n));
    OrApart(r / Pow2(n), mq % Pow2(n), n);
  }

  /** The n low bits of one word over the higher bits of another, n at least 1. */
  lemma MergeLow(r: u32, mq: u32, n: nat)
    requires n < 32
    ensures Merge(r, mq, RotMask(n, 31)) == mq / Pow2(32 - n) * Pow2(32 - n) + r % Pow2(32 - n)
    ensures Or32(r, And32(mq, Not32(Shr(0xFFFF_FFFF, n)))) == mq / Pow2(32 - n) * Pow2(32 - n) + r || r >= Pow2(32 - n)
  {
    hide And, Or, RotMask, Pow2, Shr;
    Masks(n);
    MaskLow(r, 32 - n);
    DivMod(r, Pow2(32 - n));
    HighMask(mq, n);
    OrApart(mq / Pow2(32 - n), r % Pow2(32 - n), 32 - n);
    if r < Pow2(32 - n) {
      OrApart(mq / Pow2(32 - n), r, 32 - n);
    }
  }

  lemma HighMask(mq: u32, n: nat)
    requires n < 32
    ensures W - Pow2(32 - n) >= 0 && And(mq, W - Pow2(32 - n)) == mq / Pow2(32 - n) * Pow2(32 - n)
  {
    hide And, RotMask, Shr, Pow2;
    PowSplit(32 - n);
    if n == 0 {
      Powers();
      AndNone(mq);
    } else {
      Masks(n);
      MaskHigh(mq, 32 - n, W - Pow2(32 - n));
    }
  }

  // ---------- Long shifts to the left ----------

  /** W to the k. */
  function PowW(k: nat): (p: nat)
    ensures p > 0
  {
    if k == 0 then 1 else W * PowW(k - 1)
  }

  /** A number from its words, lowest first. */
  function ValueLow(w: seq<u32>): nat {
    if w == [] then 0 else w[0] + W * ValueLow(w[1..])
  }

  /** slliq (or sleq) over the words from low to high. */
  function LeftChain(w: seq<u32>, n: nat, mq: u32): (seq<u32>, u32)
    requires n < 32
  {
    if w == [] then ([], mq)
    else
      var (a, mq1) := ShiftLeftExtended(w[0], n, mq);
      var (rest, end) := LeftChain(w[1..], n, mq1);
      ([a] + rest, end)
  }

  /** sliq (or sle) on the lowest word, then slliq upwards. */
  function LongShiftLeft(w: seq<u32>, n: nat): seq<u32>
    requires n < 32 && w != []
  {
    var (a, mq) := ShiftLeft(w[0], n);
    [a] + LeftChain(w[1..], n, mq).0
  }

  lemma LeftStep(d: u32, n: nat, mq: u32)
    requires n < 32
    ensures var (a, mq1) := ShiftLeftExtended(d, n, mq);
            a + W * (mq1 % Pow2(n)) == d * Pow2(n) + mq % Pow2(n)
  {
    RotlParts(d, n);
    ShlParts(d, n);
    MergeHigh(Rotl(d, n), mq, n);
    QuotientUnique(Rotl(d, n), Pow2(n), d % Pow2(32 - n), d / Pow2(32 - n));
  }

  lemma {:induction false} LeftChainValue(w: seq<u32>, n: nat, mq: u32)
    requires n < 32
    ensures var (r, end) := LeftChain(w, n, mq);
            |r| == |w| && ValueLow(r) + PowW(|w|) * (end % Pow2(n)) == ValueLow(w) * Pow2(n) + mq % Pow2(n)
    decreases |w|
  {
    hide ShiftLeftExtended, Pow2;
    if w != [] {
      var (a, mq1) := ShiftLeftExtended(w[0], n, mq);
      LeftStep(w[0], n, mq);
      LeftChainValue(w[1..], n, mq1);
      var (rest, end) := LeftChain(w[1..], n, mq1);
      assert ([a] + rest)[1..] == rest;
      WordStep(a, ValueLow(rest), PowW(|w| - 1), end % Pow2(n), w[0], ValueLow(w[1..]), Pow2(n), mq1 % Pow2(n), mq % Pow2(n));
    }
  }

  lemma WordStep(a: nat, rest: nat, pw: nat, end: nat, d: nat, more: nat, p: nat, c1: nat, c: nat)
    requires a + W * c1 == d * p + c && rest + pw * end == more * p + c1
    ensures a + W * rest + W * pw * end == (d + W * more) * p + c
  {
    assert W * (rest + pw * end) == W * (more * p + c1);
    assert W * pw * end == W * (pw * end);
    assert (d + W * more) * p == d * p + W * (more * p);
  }

  lemma {:induction false} ValueBound(w: seq<u32>)
    ensures ValueLow(w) < PowW(|w|)
    decreases |w|
  {
    if w != [] {
      ValueBound(w[1..]);
    }
  }

  /** The composed left shift is the shift of the long number, for any length. */
  lemma LongShiftLeftExact(w: seq<u32>, n: nat)
    requires n < 32 && w != []
    ensures |LongShiftLeft(w, n)| == |w|
    ensures ValueLow(LongShiftLeft(w, n)) == ValueLow(w) * Pow2(n) % PowW(|w|)
  {
    hide ShiftLeft, ShiftLeftExtended, Pow2, ValueLow, PowW;
    FirstLeft(w[0], n);
    LeftChainValue(w, n, 0);
    var (r, end) := LeftChain(w, n, 0);
    assert LongShiftLeft(w, n) == r;
    hide LeftChain, LongShiftLeft;
    ValueBound(r);
    QuotientUnique(0, Pow2(n), 0, 0);
    QuotientUnique(ValueLow(w) * Pow2(n), PowW(|w|), end % Pow2(n), ValueLow(r));
  }

  /** sliq is slliq with an empty MQ. */
  lemma FirstLeft(d: u32, n: nat)
    requires n < 32
    ensures ShiftLeft(d, n) == ShiftLeftExtended(d, n, 0)
  {
    RotlParts(d, n);
    ShlParts(d, n);
    MergeHigh(Rotl(d, n), 0, n);
    DivMod(0, Pow2(n));
    QuotientUnique(Rotl(d, n), Pow2(n), d % Pow2(32 - n), d / Pow2(32 - n));
  }

  // ---------- Long shifts to the right ----------

  /** A number from its words, highest first. */
  function ValueHigh(w: seq<u32>): nat {
    if w == [] then 0 else w[0] * PowW(|w| - 1) + ValueHigh(w[1..])
  }

  /** srliq over the words from high to low; with `reg` the sreq form. */
  function RightChain(w: seq<u32>, n: nat, mq: u32, reg: bool): (seq<u32>, u32)
    requires n < 32
  {
    if w == [] then ([], mq)
    else
      var (a, mq1) := if reg then ShiftRightExtendedReg(w[0], n, mq) else ShiftRightExtended(w[0], n, mq);
      var (rest, end) := RightChain(w[1..], n, mq1, reg);
      ([a] + rest, end)
  }

  /** sriq (or sre) on the highest word, then srliq (or sreq) downwards. */
  function LongShiftRight(w: seq<u32>, n: nat, reg: bool): seq<u32>
    requires n < 32 && w != []
  {
    var (a, mq) := ShiftRight(w[0], n);
    [a] + RightChain(w[1..], n, mq, reg).0
  }

  /** sraiq on the highest word, then srliq downwards. */
  function LongShiftRightAlgebraic(w: seq<u32>, n: nat): seq<u32>
    requires n < 32 && w != []
  {
    var (a, mq, ca) := ShiftRightAlgebraic(w[0], n);
    [a] + RightChain(w[1..], n, mq, false).0
  }

  /** Both extended forms agree. */
  lemma RightStep(d: u32, n: nat, mq: u32)
    requires n < 32
    ensures ShiftRightExtendedReg(d, n, mq) == ShiftRightExtended(d, n, mq)
    ensures var (a, mq1) := ShiftRightExtended(d, n, mq);
            a == mq / Pow2(32 - n) * Pow2(32 - n) + d / Pow2(n) && mq1 / Pow2(32 - n) == d % Pow2(n)
  {
    hide And, Or, Pow2, RotMask, Rotr, Shr;
    RotrParts(d, n);
    QuotientUnique(Rotr(d, n), Pow2(32 - n), d % Pow2(n), d / Pow2(n));
    MergeLow(Rotr(d, n), mq, n);
    MergeLow(Shr(d, n), mq, n);
  }

  /** The n bits that MQ hands down: those the word above shifted out. */
  function HandedDown(mq: u32, n: nat): (c: nat)
    requires n < 32
    ensures c < Pow2(n)
  {
    HighBits(mq, 32 - n);
    DivMod(mq, Pow2(32 - n));
    mq / Pow2(32 - n)
  }

  /** What one word's step does to the number: quotient down, remainder on. */
  lemma RightWord(d: u32, n: nat, mq: u32)
    requires n < 32
    ensures ShiftRightExtendedReg(d, n, mq) == ShiftRightExtended(d, n, mq)
    ensures var (a, mq1) := ShiftRightExtended(d, n, mq);
            exists high: nat :: a == HandedDown(mq, n) * Pow2(32 - n) + high && d == high * Pow2(n) + HandedDown(mq1, n)
  {
    hide ShiftRightExtended, ShiftRightExtendedReg, Pow2;
    RightStep(d, n, mq);
    DivMod(d, Pow2(n));
    var (a, mq1) := ShiftRightExtended(d, n, mq);
    assert a == HandedDown(mq, n) * Pow2(32 - n) + d / Pow2(n) && d == d / Pow2(n) * Pow2(n) + HandedDown(mq1, n);
  }

  lemma {:induction false} RightChainValue(w: seq<u32>, n: nat, mq: u32, reg: bool)
    requires n < 32
    ensures var (r, end) := RightChain(w, n, mq, reg);
            && |r| == |w|
            && ValueHigh(r) * Pow2(n) + HandedDown(end, n) == HandedDown(mq, n) * PowW(|w|) + ValueHigh(w)
    decreases |w|
  {
    hide ShiftRightExtended, ShiftRightExtendedReg, Pow2, ValueHigh, PowW, HandedDown;
    if w == [] {
      NoWords();
    } else {
      var (a, mq1) := ShiftRightExtended(w[0], n, mq);
      RightWord(w[0], n, mq);
      var high: nat :| a == HandedDown(mq, n) * Pow2(32 - n) + high && w[0] == high * Pow2(n) + HandedDown(mq1, n);
      RightChainValue(w[1..], n, mq1, reg);
      var (rest, end) := RightChain(w[1..], n, mq1, reg);
      assert RightChain(w, n, mq, reg) == ([a] + rest, end);
      FirstWord(a, rest);
      FirstWord(w[0], w[1..]);
      assert w == [w[0]] + w[1..];
      PowSplit(n);
      hide RightChain;
      DownStep(a, ValueHigh(rest), PowW(|w| - 1), HandedDown(end, n), w[0], high, ValueHigh(w[1..]),
               Pow2(n), Pow2(32 - n), HandedDown(mq1, n), HandedDown(mq, n));
    }
  }

  lemma NoWords()
    ensures ValueHigh([]) == 0 && PowW(0) == 1
  {
  }

  lemma FirstWord(a: u32, rest: seq<u32>)
    ensures ValueHigh([a] + rest) == a * PowW(|rest|) + ValueHigh(rest) && PowW(|rest| + 1) == W * PowW(|rest|)
  {
    assert ([a] + rest)[1..] == rest;
  }

  lemma DownStep(a: nat, rest: nat, pw: nat, end: nat, d: nat, high: nat, more: nat, p: nat, q: nat, c1: nat, c: nat)
    requires p * q == W && a == c * q + high && d == high * p + c1 && rest * p + end == c1 * pw + more
    ensures (a * pw + rest) * p + end == c * (W * pw) + (d * pw + more)
  {
    assert (a * pw + rest) * p == a * pw * p + rest * p;
    assert a * pw * p == a * p * pw by { Associate(a, pw, p); }
    assert a * p == c * W + high * p by { Factor(a, c, q, high, p); }
    assert (c * W + high * p) * pw == c * W * pw + high * p * pw;
    assert d * pw == high * p * pw + c1 * pw;
    assert c * (W * pw) == c * W * pw by { Associate(c, W, pw); }
  }

  lemma Associate(x: int, y: int, z: int)
    ensures x * y * z == x * z * y && x * (y * z) == x * y * z
  {
  }

  lemma Factor(a: nat, c: nat, q: nat, high: nat, p: nat)
    requires p * q == W && a == c * q + high
    ensures a * p == c * W + high * p
  {
    assert c * q * p == c * (p * q);
  }

  /** sriq is srliq with an empty MQ. */
  lemma FirstRight(d: u32, n: nat)
    requires n < 32
    ensures ShiftRight(d, n) == ShiftRightExtended(d, n, 0)
  {
    hide And, Or, Pow2, RotMask, Rotr;
    RightStep(d, n, 0);
    QuotientUnique(0, Pow2(32 - n), 0, 0);
  }

  lemma RightForms(w: seq<u32>, n: nat, reg: bool)
    requires n < 32 && w != []
    ensures LongShiftRight(w, n, reg) == RightChain(w, n, 0, reg).0
  {
    hide ShiftRightExtended, ShiftRightExtendedReg, ShiftRight;
    FirstRight(w[0], n);
    RightStep(w[0], n, 0);
  }

  /** The composed right shift is the shift of the long number, for any length. */
  lemma LongShiftRightExact(w: seq<u32>, n: nat, reg: bool)
    requires n < 32 && w != []
    ensures |LongShiftRight(w, n, reg)| == |w|
    ensures ValueHigh(LongShiftRight(w, n, reg)) == ValueHigh(w) / Pow2(n)
  {
    hide ShiftRight, ShiftRightExtended, Pow2, ValueHigh, PowW, RightChain, LongShiftRight;
    RightForms(w, n, reg);
    RightChainValue(w, n, 0, reg);
    QuotientUnique(0, Pow2(32 - n), 0, 0);
    var (r, end) := RightChain(w, n, 0, reg);
    QuotientUnique(ValueHigh(w), Pow2(n), ValueHigh(r), HandedDown(end, n));
  }

  /** The two's complement reading. */
  function Signed(w: seq<u32>): int {
    if w != [] && Negative(w[0]) then ValueHigh(w) - PowW(|w|) else ValueHigh(w)
  }

  lemma SraWord(d: u32, n: nat)
    requires n < 32
    ensures Sra(d, n) == d / Pow2(n) + (if Negative(d) then W - Pow2(32 - n) else 0)
    ensures Negative(Sra(d, n)) == Negative(d)
  {
    PowSplit(n);
    DivMod(d, Pow2(n));
    hide Pow2;
    var p, q := Pow2(n), Pow2(32 - n);
    if Negative(d) {
      SignedQuotient(d, p, q);
    } else {
      Quotient(d, p);
    }
  }

  lemma Quotient(d: nat, p: nat)
    requires p > 0
    ensures d / p <= d
  {
    ShiftShrinks(d, p);
  }

  lemma SignedQuotient(d: nat, p: nat, q: nat)
    requires p > 0 && q > 0 && p * q == W && 0x8000_0000 <= d < W
    ensures (d - W) / p == d / p - q && (d - W) / p % W == d / p + W - q && d / p + W - q >= 0x8000_0000
    ensures d / p < q
  {
    DivMod(d, p);
    Shorter(d, p, q);
    assert (d / p - q) * p == d / p * p - W;
    QuotientUnique(d - W, p, d / p - q, d % p);
    if p == 1 {
      assert q == W;
    } else {
      assert 2 * q <= p * q by { TimesMono(2, p, q); }
    }
  }

  /** Started with sraiq the composed shift is the arithmetic shift of the long
      number: division by the power of two, rounded down. */
  lemma LongShiftRightAlgebraicExact(w: seq<u32>, n: nat)
    requires n < 32 && w != []
    ensures |LongShiftRightAlgebraic(w, n)| == |w|
    ensures Signed(LongShiftRightAlgebraic(w, n)) == Signed(w) / Pow2(n)
  {
    hide Pow2, Sra, Rotr, RightChain, ValueHigh, PowW, And, Or, Shr;
    var logical := LongShiftRight(w, n, false);
    var r := LongShiftRightAlgebraic(w, n);
    LongShiftRightExact(w, n, false);
    SraWord(w[0], n);
    SignBit(w[0], n);
    PowSplit(n);
    assert r[1..] == logical[1..] && r == [r[0]] + r[1..] && logical == [logical[0]] + logical[1..];
    FirstWord(r[0], r[1..]);
    FirstWord(logical[0], logical[1..]);
    hide LongShiftRight, LongShiftRightAlgebraic;
    if Negative(w[0]) {
      SignExtend(r[0], logical[0], ValueHigh(r[1..]), PowW(|w| - 1), Pow2(32 - n));
      LongQuotient(ValueHigh(w), Pow2(n), Pow2(32 - n), PowW(|w| - 1));
    }
  }

  /** A shifted word that was not negative is not negative. */
  lemma SignBit(d: u32, n: nat)
    requires n < 32
    ensures Shr(d, n) == d / Pow2(n) <= d
  {
    ShiftShrinks(d, Pow2(n));
  }

  lemma SignExtend(a: nat, high: nat, rest: nat, pw: nat, q: nat)
    requires a == high + W - q
    ensures a * pw + rest - W * pw == high * pw + rest - q * pw
  {
  }

  lemma LongQuotient(v: nat, p: nat, q: nat, pw: nat)
    requires p > 0 && p * q == W
    ensures (v - W * pw) / p == v / p - q * pw
  {
    DivMod(v, p);
    assert (v / p - q * pw) * p == v / p * p - q * pw * p;
    assert q * pw * p == p * q * pw by { Associate(q, pw, p); }
    QuotientUnique(v - W * pw, p, v / p - q * pw, v % p);
  }

  // ---------- The handlers ----------

  /** CR0 describes the result as a signed number: below zero, above, equal; then XER[SO]. */
  function Cr0(a: u32, so: bool): (c: nat)
    ensures c < 16 && (c >= 8 <==> Negative(a)) && (c / 2 % 2 == 1 <==> a == 0) && (c % 2 == 1 <==> so)
    ensures c / 4 % 2 == 1 <==> a != 0 && !Negative(a)
  {
    (if Negative(a) then 8 else if a == 0 then 2 else 4) + if so then 1 else 0
  }

  /** The processor state the handlers write besides their result register. */
  class MqUnit {
    var mq: u32
    var ca: bool
    /** XER[SO], which the handlers only read. */
    var so: bool
    var cr0: nat

    constructor ()
    {
      mq, ca, so, cr0 := 0, false, false, 0;
    }

    /** ppc_changecrf0, for the record forms. */
    method Record(rec: bool, a: u32)
      modifies `cr0
      ensures cr0 == if rec then Cr0(a, so) else old(cr0)
    {
      if rec {
        cr0 := (if a == 0 then 2 else if Negative(a) then 8 else 4) + if so then 1 else 0;
      }
    }

    method Sliq(d: u32, sh: nat, rec: bool) returns (a: u32)
      requires sh < 32
      modifies `mq, `cr0
      ensures (a, mq) == ShiftLeft(d, sh)
      ensures cr0 == if rec then Cr0(a, so) else old(cr0)
    {
      a := Shl(d, sh);
      mq := Rotl(d, sh);
      Record(rec, a);
    }

    method Slliq(d: u32, sh: nat, rec: bool) returns (a: u32)
      requires sh < 32
      modifies `mq, `cr0
      ensures (a, mq) == ShiftLeftExtended(d, sh, old(mq))
      ensures cr0 == if rec then Cr0(a, so) else old(cr0)
    {
      var r := Rotl(d, sh);
      var mask := RotMask(0, 31 - sh);
      a := Or32(And32(r, mask), And32(mq, Not32(mask)));
      mq := r;
      Record(rec, a);
    }

    method Sle(d: u32, b: u32, rec: bool) returns (a: u32)
      modifies `mq, `cr0
      ensures (a, mq) == ShiftLeft(d, b % 32)
      ensures cr0 == if rec then Cr0(a, so) else old(cr0)
    {
      a := Sliq(d, b % 32, rec);
    }

    method Sleq(d: u32, b: u32, rec: bool) returns (a: u32)
      modifies `mq, `cr0
      ensures (a, mq) == ShiftLeftExtended(d, b % 32, old(mq))
      ensures cr0 == if rec then Cr0(a, so) else old(cr0)
    {
      a := Slliq(d, b % 32, rec);
    }

    method Sriq(d: u32, sh: nat, rec: bool) returns (a: u32)
      requires sh < 32
      modifies `mq, `cr0
      ensures (a, mq) == ShiftRight(d, sh)
      ensures cr0 == if rec then Cr0(a, so) else old(cr0)
    {
      a := Shr(d, sh);
      mq := Rotr(d, sh);
      Record(rec, a);
    }

    method Srliq(d: u32, sh: nat, rec: bool) returns (a: u32)
      requires sh < 32
      modifies `mq, `cr0
      ensures (a, mq) == ShiftRightExtended(d, sh, old(mq))
      ensures cr0 == if rec then Cr0(a, so) else old(cr0)
    {
      var r := Rotr(d, sh);
      var mask := RotMask(sh, 31);
      a := Or32(And32(r, mask), And32(mq, Not32(mask)));
      mq := r;
      Record(rec, a);
    }

    method Sre(d: u32, b: u32, rec: bool) returns (a: u32)
      modifies `mq, `cr0
      ensures (a, mq) == ShiftRight(d, b % 32)
      ensures cr0 == if rec then Cr0(a, so) else old(cr0)
    {
      a := Sriq(d, b % 32, rec);
    }

    method Sreq(d: u32, b: u32, rec: bool) returns (a: u32)
      modifies `mq, `cr0
      ensures (a, mq) == ShiftRightExtended(d, b % 32, old(mq))
      ensures cr0 == if rec then Cr0(a, so) else old(cr0)
    {
      hide And, Or, Pow2, RotMask, Rotr, Shr, ShiftRightExtended;
      var n := b % 32;
      RightStep(d, n, mq);
      var mask := Shr(0xFFFF_FFFF, n);
      a := Or32(Shr(d, n), And32(mq, Not32(mask)));
      mq := Rotr(d, n);
      Record(rec, a);
    }

    method Sraiq(d: u32, sh: nat, rec: bool) returns (a: u32)
      requires sh < 32
      modifies this
      ensures (a, mq, ca) == ShiftRightAlgebraic(d, sh) && so == old(so)
      ensures cr0 == if rec then Cr0(a, so) else old(cr0)
    {
      a := Sra(d, sh);
      mq := Rotr(d, sh);
      ca := Negative(d) && And32(d, Pow2Below(sh)) != 0;
      Record(rec, a);
    }
  }

  /** XER[CA] of sraiq says that a negative word lost ones, so that the quotient was
      rounded down. */
  lemma CarryMeansRounded(d: u32, n: nat)
    requires n < 32
    ensures ShiftRightAlgebraic(d, n).2 <==> Negative(d) && d % Pow2(n) != 0
  {
    hide And, Sra, Rotr, Pow2;
    MaskLow(d, n);
  }
}
