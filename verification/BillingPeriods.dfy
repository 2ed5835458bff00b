/** How the payment processors count billing cycles, and the period windows that their invoices name. */
module BillingPeriods {
  import opened BillingTrigger

  /** The zero value of a time, far before the epoch. */
  const ZERO_TIME: int := -62_135_596_800 * SECOND

  function Seconds(t: int): int {
    t / SECOND
  }

  // ---------------------------------------------------------------------
  // How the processors count periods.

  /** A period starts at a multiple of its length since the zero time. */
  function TruncatedTo(t: int, period: int): int
    requires period > 0
  {
    t - (t - ZERO_TIME) % period
  }

  function CyclesElapsed(last: int, now: int, period: int, count: int): int
    requires period > 0
  {
    CyclesIn(Saturate64(now - last), period, count)
  }

  function CyclesIn(elapsed: int, period: int, count: int): int
    requires period > 0
  {
    Truncated(Truncated(elapsed, period), PeriodCount(count))
  }

  /** First whole period at or after the last invoice. */
  function PeriodStart(last: int, period: int): int
    requires period > 0
  {
    var t := TruncatedTo(last, period);
    if t < last then t + period else t
  }

  function PeriodEnd(last: int, now: int, period: int, count: int): int
    requires period > 0
  {
    PeriodStart(last, period) + period * (CyclesElapsed(last, now, period, count) * PeriodCount(count))
  }

  function Cycle(period: int, count: int): int {
    period * PeriodCount(count)
  }

  lemma DivMulBound(a: int, b: int)
    requires b > 0
    ensures a / b * b <= a < a / b * b + b
  {
  }

  lemma MulMonotone(a: int, b: int, p: int)
    requires a <= b && p >= 0
    ensures a * p <= b * p
  {
  }

  lemma CommutedProduct(a: int, n: int, b: int)
    ensures a * (n * b) == n * (a * b)
    ensures n * (a * b) == n * a * b
    ensures n * b * a == n * (a * b)
  {
  }

  /** Dividing twice bounds like dividing by the product. */
  lemma DivTwice(e: int, q: int, n: int, p: int, c: int)
    requires p > 0 && q * p <= e < q * p + p && n * c <= q < n * c + c
    ensures n * (p * c) <= e < (n + 1) * (p * c)
  {
    MulMonotone(n * c, q, p);
    CommutedProduct(p, n, c);
    MulMonotone(q + 1, n * c + c, p);
    CommutedProduct(p, n + 1, c);
    assert (n + 1) * c == n * c + c;
    assert (q + 1) * p == q * p + p;
  }

  /** The counted cycles fit into the elapsed time, and one more would not. */
  lemma CyclesFit(e: nat, period: int, count: int)
    requires period > 0
    ensures var n := CyclesIn(e, period, count);
            n >= 0 && n * Cycle(period, count) <= e < (n + 1) * Cycle(period, count)
  {
    var c := PeriodCount(count);
    var q := e / period;
    DivMulBound(e, period);
    DivMulBound(q, c);
    DivTwice(e, q, q / c, period, c);
  }

  lemma NoCyclesBefore(e: int, period: int, count: int)
    requires period > 0 && e < 0
    ensures CyclesIn(e, period, count) <= 0
  {
    assert (-e) / period >= 0;
    var q := Truncated(e, period);
    assert q <= 0;
    assert (-q) / PeriodCount(count) >= 0;
  }

  lemma ElapsedCycleIsPast(last: int, now: int, period: int, count: int)
    requires period > 0 && CyclesElapsed(last, now, period, count) >= 1
    ensures last + Cycle(period, count) <= now
  {
    var e := Saturate64(now - last);
    if e < 0 {
      NoCyclesBefore(e, period, count);
    } else {
      CyclesFit(e, period, count);
      MulAtLeast(CyclesIn(e, period, count), Cycle(period, count));
    }
  }

  lemma MulAtLeast(n: int, c: int)
    requires n >= 1 && c >= 0
    ensures n * c >= c
  {
  }

  /** And the other way round, for cycles within 64 bits. */
  lemma FullCycleElapsed(last: int, now: int, period: int, count: int)
    requires period > 0 && Cycle(period, count) < TWO63 && last + Cycle(period, count) <= now
    ensures CyclesElapsed(last, now, period, count) >= 1
  {
    var e, c := Saturate64(now - last), Cycle(period, count);
    MulAtLeast(PeriodCount(count), period);
    assert e >= c > 0;
    CyclesFit(e, period, count);
    var n := CyclesIn(e, period, count);
    assert n == 0 ==> (n + 1) * c == c;
  }

  // ---------------------------------------------------------------------
  // The period windows that periodic and fixed rental invoices name.

  lemma PeriodStartIsNextMultiple(t: int, period: int)
    requires period > 0
    ensures (PeriodStart(t, period) - ZERO_TIME) % period == 0
    ensures t <= PeriodStart(t, period) < t + period
  {
    var x := t - ZERO_TIME;
    assert x - x % period == x / period * period;
    MultipleOf(x / period, period);
    MultipleOf(x / period + 1, period);
    assert (x / period + 1) * period == x / period * period + period;
  }

  lemma MultipleOf(k: int, m: int)
    requires m > 0
    ensures k * m % m == 0
  {
    FloorIs(k * m, m, k);
  }

  lemma MultiplesApart(a: int, b: int, period: int)
    requires period > 0 && a % period == 0 && b % period == 0 && a < b
    ensures a + period <= b
  {
    var i, j := a / period, b / period;
    assert a == i * period && b == j * period;
    assert j <= i ==> j * period <= i * period;
    assert (i + 1) * period == i * period + period;
    assert i + 1 <= j ==> (i + 1) * period <= j * period;
  }

  lemma WholeSecondsBelow(last: int, x: int, now: int)
    requires last % SECOND == 0 && x % SECOND == 0 && last + x <= now
    ensures last + x <= Seconds(now) * SECOND
  {
  }

  lemma ProductIsWhole(n: int, cycle: int)
    requires cycle % SECOND == 0
    ensures n * cycle % SECOND == 0
  {
    var q := cycle / SECOND;
    assert cycle == q * SECOND;
    CommutedProduct(q, n, SECOND);
    MultipleOf(n * q, SECOND);
  }

  lemma CycleIsWhole(period: int, count: int)
    requires period % SECOND == 0
    ensures Cycle(period, count) % SECOND == 0
  {
    ProductIsWhole(PeriodCount(count), period);
  }

  lemma EndBySavedSecond(n: int, cycle: int, last: int, now: int)
    requires cycle % SECOND == 0 && last % SECOND == 0 && n * cycle <= now - last
    ensures last + n * cycle <= Seconds(now) * SECOND
  {
    ProductIsWhole(n, cycle);
    WholeSecondsBelow(last, n * cycle, now);
  }

  lemma CyclesEndBySavedSecond(last: int, now: int, period: int, count: int)
    requires period > 0 && period % SECOND == 0 && last % SECOND == 0 && last <= now
    ensures last + CyclesElapsed(last, now, period, count) * Cycle(period, count) <= Seconds(now) * SECOND
  {
    var e := Saturate64(now - last);
    CyclesFit(e, period, count);
    CycleIsWhole(period, count);
    EndBySavedSecond(CyclesIn(e, period, count), Cycle(period, count), last, now);
  }

  lemma WindowEndsInTime(last: int, now: int, period: int, count: int)
    requires period > 0 && period % SECOND == 0 && last % SECOND == 0 && last <= now
    ensures (PeriodEnd(last, now, period, count) - ZERO_TIME) % period == 0
    ensures PeriodEnd(last, now, period, count) < Seconds(now) * SECOND + period
  {
    var n := CyclesElapsed(last, now, period, count);
    CyclesEndBySavedSecond(last, now, period, count);
    PeriodStartIsNextMultiple(last, period);
    CommutedProduct(period, n, PeriodCount(count));
    MultiplePlus(PeriodStart(last, period) - ZERO_TIME, n * PeriodCount(count), period);
  }

  /** The period windows that two consecutive regular invoices name never overlap: the next one starts at
      or after the end of the previous. There is a gap between them exactly when the earlier invoice was
      made, to the second, after the end of the window it names. */
  lemma PeriodWindowsGapIff(last: int, now: int, period: int, count: int)
    requires period > 0 && period % SECOND == 0 && last % SECOND == 0 && last <= now
    ensures var next := PeriodStart(Seconds(now) * SECOND, period);
            var end := PeriodEnd(last, now, period, count);
            end <= next && (end < next <==> end < Seconds(now) * SECOND)
  {
    var saved := Seconds(now) * SECOND;
    var next, end := PeriodStart(saved, period), PeriodEnd(last, now, period, count);
    WindowEndsInTime(last, now, period, count);
    PeriodStartIsNextMultiple(saved, period);
    if next < end {
      MultiplesApart(next - ZERO_TIME, end - ZERO_TIME, period);
    }
    if end < next {
      MultiplesApart(end - ZERO_TIME, next - ZERO_TIME, period);
    }
  }

  lemma MultiplePlus(a: int, k: int, m: int)
    requires m > 0 && a % m == 0
    ensures (a + m * k) % m == 0
  {
    assert a == a / m * m;
    assert a + m * k == (a / m + k) * m;
    MultipleOf(a / m + k, m);
  }
}
