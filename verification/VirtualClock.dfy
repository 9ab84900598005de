/** The virtual clock and event polling of cpu/ppc/ppcexec.cpp, not in real-time
    mode: the instruction counter is the clock, deadlines become cycle counts, the
    speed may change at run time, and sleep skips ahead. */
module VirtualClock {
  import opened Bits

  datatype Clock = Clock(icycles: nat, offset: nat, period: nat, factor: nat, base: nat)

  const POLL_INTERVAL: nat := 500000

  predicate ClockOk(c: Clock) {
    c.period > 0
  }

  /** get_virt_time_ns. */
  function Now(c: Clock): nat {
    c.offset + c.icycles * c.period
  }

  /** set_virt_time_ns: whole periods go to the counter, the rest to the offset. */
  function SetTime(c: Clock, time: nat): Clock
    requires ClockOk(c)
  {
    c.(icycles := time / c.period, offset := time % c.period)
  }

  /** update_icnt_period: a factor of 4 is the machine's own speed. */
  function PeriodFor(base: nat, factor: nat): (p: nat)
    ensures p >= 1
  {
    if base * Pow2(factor) / 16 > 1 then base * Pow2(factor) / 16 else 1
  }

  /** increment_icnt_factor. */
  function IncrementFactor(c: Clock): (r: Clock)
    requires ClockOk(c)
  {
    var factor := if c.factor < 31 then c.factor + 1 else c.factor;
    SetTime(c.(factor := factor, period := PeriodFor(c.base, factor)), Now(c))
  }

  /** decrement_icnt_factor. */
  function DecrementFactor(c: Clock): (r: Clock)
    requires ClockOk(c)
  {
    if c.factor > 0 then
      SetTime(c.(factor := c.factor - 1, period := PeriodFor(c.base, c.factor - 1)), Now(c))
    else c
  }

  /** Setting the time is exact under any period. */
  lemma SetTimeExact(c: Clock, time: nat)
    requires ClockOk(c)
    ensures Now(SetTime(c, time)) == time
  {
    assert time == time / c.period * c.period + time % c.period;
  }

  /** Virtual time is continuous across every speed change. */
  lemma SpeedContinuous(c: Clock)
    requires ClockOk(c)
    ensures ClockOk(IncrementFactor(c)) && Now(IncrementFactor(c)) == Now(c)
    ensures ClockOk(DecrementFactor(c)) && Now(DecrementFactor(c)) == Now(c)
  {
    var up := if c.factor < 31 then c.factor + 1 else c.factor;
    SetTimeExact(c.(factor := up, period := PeriodFor(c.base, up)), Now(c));
    if c.factor > 0 {
      SetTimeExact(c.(factor := c.factor - 1, period := PeriodFor(c.base, c.factor - 1)), Now(c));
    }
  }

  /** The speed a clock runs at: its factor is in range and its period is the machine's own
      one times two to the factor, over 16, rounded down but never to zero. */
  predicate SpeedOk(c: Clock) {
    c.factor <= 31 && c.period >= 1 &&
    c.base * Pow2(c.factor) < 16 * (c.period + 1) && (c.period > 1 ==> 16 * c.period <= c.base * Pow2(c.factor))
  }

  lemma PeriodExact(base: nat, factor: nat)
    ensures var p, scaled := PeriodFor(base, factor), base * Pow2(factor);
            scaled < 16 * (p + 1) && (p > 1 ==> 16 * p <= scaled)
  {
    DivMod(base * Pow2(factor), 16);
    hide Pow2;
  }

  /** At factor 4 a machine runs at its own period. */
  lemma OwnSpeed(c: Clock)
    requires SpeedOk(c) && c.factor == 4 && c.base >= 1
    ensures c.period == c.base
  {
    assert Pow2(4) == 16;
    hide Pow2;
  }

  /** The increment key raises the factor by one, up to 31, and never shrinks the period; the
      decrement key lowers it by one, down to 0, and never grows the period. Each doubling
      step of the factor doubles the period, up to the rounding. */
  lemma KeysMove(c: Clock)
    requires SpeedOk(c)
    ensures var up := IncrementFactor(c);
            && SpeedOk(up) && up.base == c.base && up.factor == (if c.factor == 31 then 31 else c.factor + 1)
            && c.period <= up.period
            && (c.factor < 31 && c.period > 1 ==> 2 * c.period <= up.period <= 2 * c.period + 1)
    ensures var down := DecrementFactor(c);
            && SpeedOk(down) && down.base == c.base && down.factor == (if c.factor == 0 then 0 else c.factor - 1)
            && down.period <= c.period
            && (c.factor > 0 && c.period > 1 ==> down.period == c.period / 2)
  {
    hide Pow2;
    var f := c.factor;
    PeriodExact(c.base, f);
    if f < 31 {
      PeriodExact(c.base, f + 1);
      Scaled(c.base, f);
    } else {
      PeriodExact(c.base, f);
    }
    if f > 0 {
      PeriodExact(c.base, f - 1);
      Scaled(c.base, f - 1);
    }
  }

  lemma Scaled(base: nat, factor: nat)
    ensures base * Pow2(factor + 1) == 2 * (base * Pow2(factor))
  {
  }

  /** The cycle count that reaches a deadline, as process_events computes it. */
  function CyclesTo(c: Clock, next: nat): nat
    requires ClockOk(c)
  {
    (next - if next < c.offset then next else c.offset) / c.period + 1
  }

  /** The count lands past the deadline by at most one period, and a deadline still
      to come needs at least one more cycle. */
  lemma CyclesLand(c: Clock, next: nat)
    requires ClockOk(c) && next > Now(c)
    ensures var landed := Now(c.(icycles := CyclesTo(c, next))); next < landed <= next + c.period
    ensures CyclesTo(c, next) > c.icycles
    ensures c.offset + (CyclesTo(c, next) - 1) * c.period <= next
  {
    var p, d := c.period, next - c.offset;
    var n := d / p;
    assert next >= c.offset by { Product0(c.icycles, p); }
    assert d == n * p + d % p;
    if n < c.icycles {
      TimesMono(n + 1, c.icycles, p);
    }
  }

  lemma Product0(a: nat, b: nat)
    ensures a * b >= 0
  {
  }
}
