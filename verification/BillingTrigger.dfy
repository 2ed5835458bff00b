/** When a contract is billed: the trigger that aims at period boundaries, and the check interval derived
    from the billing cycle. Times and durations are nanoseconds. */
module BillingTrigger {
  import opened Envelopes

  const SECOND: int := 1_000_000_000
  const MINUTE: int := 60 * SECOND
  const HOUR: int := 60 * MINUTE
  const DAY: int := 24 * HOUR

  /** How often the scheduler looks at its triggers. */
  const POLL: int := 30 * SECOND

  // ---------------------------------------------------------------------
  // 64-bit durations.

  const TWO63: int := 0x8000_0000_0000_0000

  predicate FitsInt64(x: int) {
    -TWO63 <= x < TWO63
  }

  /** Multiplication of durations wraps around. */
  function Wrap64(x: int): int {
    (x + TWO63) % (2 * TWO63) - TWO63
  }

  /** The difference of two times saturates. */
  function Saturate64(x: int): int {
    if x >= TWO63 then TWO63 - 1 else if x < -TWO63 then -TWO63 else x
  }

  /** Division of durations truncates toward zero. */
  function Truncated(a: int, b: int): int
    requires b != 0
  {
    if (a >= 0) == (b > 0) then (if b > 0 then a / b else (-a) / (-b))
    else if b > 0 then -((-a) / b) else -(a / (-b))
  }

  lemma TruncatedPositive(a: int, b: int)
    requires b > 0
    ensures var q := Truncated(a, b);
            if a >= 0 then q * b <= a < q * b + b else q * b - b < a <= q * b
  {
    if a < 0 {
      var n := (-a) / b;
      assert n * b <= -a < n * b + b;
      assert (-n) * b == -(n * b);
    }
  }

  /** Division truncates toward zero for every sign: what is left over is smaller than the divisor, and on
      the same side of zero as the dividend. */
  lemma TruncatedIs(a: int, b: int)
    requires b != 0
    ensures var rest := a - Truncated(a, b) * b;
            && -Abs(b) < rest < Abs(b)
            && (a >= 0 ==> rest >= 0) && (a <= 0 ==> rest <= 0)
  {
    if b > 0 {
      TruncatedPositive(a, b);
    } else {
      TruncatedPositive(-a, -b);
      TruncatedNegated(a, b);
      var q := Truncated(a, b);
      assert q * (-b) == -(q * b);
    }
  }

  lemma TruncatedNegated(a: int, b: int)
    requires b != 0
    ensures Truncated(-a, -b) == Truncated(a, b)
  {
  }

  function Abs(x: int): int {
    if x < 0 then -x else x
  }

  /** What 64 bits make of an integer: products keep their value modulo 2^64, differences the nearest
      value. */
  lemma SixtyFourBits(x: int)
    ensures -0x8000_0000_0000_0000 <= Wrap64(x) < 0x8000_0000_0000_0000
    ensures (x - Wrap64(x)) % 0x1_0000_0000_0000_0000 == 0
    ensures -0x8000_0000_0000_0000 <= Saturate64(x) < 0x8000_0000_0000_0000
    ensures x < Saturate64(x) ==> Saturate64(x) == -0x8000_0000_0000_0000
    ensures x > Saturate64(x) ==> Saturate64(x) == 0x7FFF_FFFF_FFFF_FFFF
  {
    var m := 2 * TWO63;
    var y := x + TWO63;
    assert x - Wrap64(x) == y - y % m == y / m * m;
    MultipleIsWhole(y / m);
  }

  lemma MultipleIsWhole(k: int)
    ensures k * (2 * TWO63) % (2 * TWO63) == 0
  {
  }

  // ---------------------------------------------------------------------
  // Billing cycle and check interval.

  function ParsePeriod(period: string): Option<int> {
    match period
    case "minute" => Some(MINUTE)
    case "hour" => Some(HOUR)
    case "day" => Some(DAY)
    case "week" => Some(7 * DAY)
    case "month" => Some(30 * DAY)
    case _ => None
  }

  function PeriodDuration(period: string): int {
    var d := ParsePeriod(period);
    if d.Some? then d.value else HOUR
  }

  function PeriodCount(count: int): int {
    if count <= 0 then 1 else count
  }

  function BillingCycle(period: string, count: int): int {
    Wrap64(PeriodDuration(period) * PeriodCount(count))
  }

  function CheckInterval(cycle: int): int {
    var base := Truncated(cycle, 10);
    var raised := if base < 30 * SECOND then 30 * SECOND else base;
    var half := Truncated(cycle, 2);
    var cap := if half > DAY then DAY else half;
    if raised > cap then cap else raised
  }

  /** The units in terms of each other; any other word counts as an hour. */
  lemma PeriodsAre(period: string)
    ensures ParsePeriod("minute") == Some(60_000_000_000) && ParsePeriod("hour") == Some(60 * 60_000_000_000)
    ensures ParsePeriod("day") == Some(24 * ParsePeriod("hour").value)
    ensures ParsePeriod("week") == Some(7 * ParsePeriod("day").value)
    ensures ParsePeriod("month") == Some(30 * ParsePeriod("day").value)
    ensures ParsePeriod(period).Some? <==> period in ["minute", "hour", "day", "week", "month"]
    ensures PeriodDuration(period) == if ParsePeriod(period).Some? then ParsePeriod(period).value else 3_600_000_000_000
  {
  }

  /** The check interval is a tenth of the cycle, at least 30 seconds and at most a day; for cycles below a
      minute it is half the cycle. */
  lemma CheckIntervalIs(cycle: int)
    requires cycle >= 0
    ensures var i := CheckInterval(cycle);
            if cycle < 60_000_000_000 then 2 * i <= cycle <= 2 * i + 1
            else if cycle < 300_000_000_000 then i == 30_000_000_000
            else if cycle < 864_000_000_000_000 then 10 * i <= cycle <= 10 * i + 9
            else i == 86_400_000_000_000
  {
  }

  /** A period times a count that fits 64 bits gives a cycle of that length, at least a minute. */
  lemma CycleIsAtLeastAMinute(period: string, count: int)
    requires FitsInt64(PeriodDuration(period) * PeriodCount(count))
    ensures BillingCycle(period, count) == PeriodDuration(period) * PeriodCount(count) >= MINUTE
    ensures PeriodCount(count) == if count >= 1 then count else 1
  {
    var d, n := PeriodDuration(period), PeriodCount(count);
    assert d >= MINUTE && n >= 1;
    assert d * n >= d * 1;
  }

  /** The cycle is the product exactly when the product fits; 2^47 months wrap to a cycle of zero, by
      which calculateNextCheck would then divide. */
  lemma CycleWrapsIffTooLong(period: string, count: int)
    ensures BillingCycle(period, count) == PeriodDuration(period) * PeriodCount(count)
            <==> FitsInt64(PeriodDuration(period) * PeriodCount(count))
    ensures BillingCycle("month", 0x8000_0000_0000) == 0
  {
    assert PeriodDuration("month") * 0x8000_0000_0000 == 19775390625 * (2 * TWO63);
  }

  /** From a minute up, the interval and one poll fit into one cycle; it lies between 30 seconds and
      a day. */
  lemma IntervalLeavesRoom(cycle: int)
    requires cycle >= MINUTE
    ensures 30 * SECOND <= CheckInterval(cycle) <= DAY
    ensures CheckInterval(cycle) + POLL <= cycle
  {
  }

  // ---------------------------------------------------------------------
  // The trigger.

  /** `last` is None while no invoice time is known. */
  datatype Trigger = Trigger(cycle: int, interval: int, last: Option<int>, startedAt: int, nextCheck: int)

  function Max(a: int, b: int): int {
    if a < b then b else a
  }

  /** The next period boundary as the source computes it. */
  function Goal(last: int, cycle: int, now: int): int
    requires cycle != 0
  {
    last + Wrap64((Truncated(Saturate64(now - last), cycle) + 1) * cycle)
  }

  /** A cycle of zero is divided by once an invoice time is known. */
  function NextCheck(t: Trigger, now: int): int
    requires t.last.Some? ==> t.cycle != 0
  {
    Max(match t.last case None => t.startedAt + t.cycle case Some(last) => Goal(last, t.cycle, now),
        now + t.interval)
  }

  predicate IsReady(t: Trigger, at: int) {
    t.nextCheck <= at
  }

  function Restarted(t: Trigger, now: int): Trigger
    requires t.last.Some? ==> t.cycle != 0
  {
    var t1 := t.(startedAt := now);
    t1.(nextCheck := NextCheck(t1, now))
  }

  function Invoiced(t: Trigger, invoice: int, now: int): Trigger
    requires t.cycle != 0
  {
    var t1 := t.(last := Some(invoice));
    t1.(nextCheck := NextCheck(t1, if invoice > now then now else invoice))
  }

  class BillingCycleTrigger {
    const billingCycle: int
    const checkInterval: int
    var lastInvoiceAt: Option<int>
    var nextCheck: int
    var startedAt: int

    ghost function View(): Trigger
      reads this
    {
      Trigger(billingCycle, checkInterval, lastInvoiceAt, startedAt, nextCheck)
    }

    constructor (cycle: int, last: Option<int>, interval: int, now: int)
      requires last.Some? ==> cycle != 0
      ensures View() == Restarted(Trigger(cycle, interval, last, now, nextCheck), now)
    {
      billingCycle, checkInterval, lastInvoiceAt, startedAt, nextCheck := cycle, interval, last, now, now;
      new;
      nextCheck := Calculate(now);
    }

    method Calculate(now: int) returns (r: int)
      requires lastInvoiceAt.Some? ==> billingCycle != 0
      ensures r == NextCheck(View(), now)
    {
      if lastInvoiceAt.None? {
        var nextInvoice := startedAt + billingCycle;
        var minCheck := now + checkInterval;
        if nextInvoice < minCheck {
          return minCheck;
        }
        return nextInvoice;
      }
      var elapsed := Saturate64(now - lastInvoiceAt.value);
      var periodsElapsed := Truncated(elapsed, billingCycle);
      var boundary := lastInvoiceAt.value + Wrap64((periodsElapsed + 1) * billingCycle);
      var minNextCheck := now + checkInterval;
      if boundary < minNextCheck {
        return minNextCheck;
      }
      return boundary;
    }

    method Ready(at: int) returns (ready: bool)
      ensures ready <==> IsReady(View(), at)
    {
      return at > nextCheck || at == nextCheck;
    }

    method MarkTriggered(at: int)
      requires lastInvoiceAt.Some? ==> billingCycle != 0
      modifies this
      ensures View() == Restarted(old(View()), at)
    {
      startedAt := at;
      nextCheck := Calculate(at);
    }

    method UpdateLastInvoiceAt(invoice: int, now: int)
      requires billingCycle != 0
      modifies this
      ensures View() == Invoiced(old(View()), invoice, now)
    {
      lastInvoiceAt := Some(invoice);
      if invoice > now {
        nextCheck := Calculate(now);
      } else {
        nextCheck := Calculate(invoice);
      }
    }
  }

  // ---------------------------------------------------------------------
  // Period boundaries.

  /** Start of the k-th period counted from the last invoice. */
  function Boundary(last: int, cycle: int, k: nat): int {
    if k == 0 then last else Boundary(last, cycle, k - 1) + cycle
  }

  lemma {:induction false} BoundaryIsMultiple(last: int, cycle: int, k: nat)
    ensures Boundary(last, cycle, k) == last + k * cycle
  {
    if k > 0 {
      BoundaryIsMultiple(last, cycle, k - 1);
      assert k * cycle == (k - 1) * cycle + cycle;
    }
  }

  lemma {:induction false} BoundariesIncrease(last: int, cycle: int, j: nat, k: nat)
    requires cycle > 0 && j <= k
    ensures Boundary(last, cycle, j) <= Boundary(last, cycle, k)
    decreases k - j
  {
    if j < k {
      BoundariesIncrease(last, cycle, j, k - 1);
    }
  }

  lemma FloorIs(x: int, c: int, k: int)
    requires c > 0 && k * c <= x < (k + 1) * c
    ensures x / c == k
  {
    var q := x / c;
    assert x == q * c + x % c;
    assert q < k ==> (q + 1) * c <= k * c;
    assert q > k ==> q * c >= (k + 1) * c;
  }

  lemma GoalIs(last: int, cycle: int, now: int, n: int)
    requires cycle != 0 && FitsInt64(now - last) && FitsInt64((n + 1) * cycle)
    requires Truncated(now - last, cycle) == n
    ensures Goal(last, cycle, now) == last + (n + 1) * cycle
  {
  }

  /** In a period at or after the last invoice, and within 64-bit range, the trigger aims at the next
      boundary but waits at least the check interval. */
  lemma NextCheckInPeriod(t: Trigger, now: int, k: nat)
    requires t.cycle > 0 && t.last.Some?
    requires Boundary(t.last.value, t.cycle, k) <= now < Boundary(t.last.value, t.cycle, k + 1)
    requires now - t.last.value + t.cycle < TWO63
    ensures NextCheck(t, now) == Max(Boundary(t.last.value, t.cycle, k + 1), now + t.interval)
  {
    BoundaryIsMultiple(t.last.value, t.cycle, k);
    BoundaryIsMultiple(t.last.value, t.cycle, k + 1);
    FloorIs(now - t.last.value, t.cycle, k);
    assert k * t.cycle >= 0;
    GoalIs(t.last.value, t.cycle, now, k);
  }

  lemma TruncatedBelowZero(a: int, c: int, k: int)
    requires a >= 0 && c > 0 && k * c <= -a < (k + 1) * c
    ensures Truncated(-a, c) == if k * c == -a then k else k + 1
  {
    assert (-k) * c == -(k * c) && (-k - 1) * c == -((k + 1) * c) && (-k + 1) * c == -(k * c) + c;
    if k * c == -a {
      FloorIs(a, c, -k);
    } else {
      FloorIs(a, c, -k - 1);
    }
  }

  /** For times before the last invoice the truncating division matters: unless such a time is itself
      a boundary, the trigger aims past the next boundary, at the one after it. */
  lemma FutureInvoiceSkipsBoundary(t: Trigger, now: int, k: int)
    requires t.cycle > 0 && t.last.Some? && now < t.last.value
    requires t.last.value + k * t.cycle <= now < t.last.value + (k + 1) * t.cycle
    requires t.last.value - now + t.cycle < TWO63 && t.interval <= t.cycle
    ensures NextCheck(t, now) ==
            t.last.value + (if now == t.last.value + k * t.cycle then k + 1 else k + 2) * t.cycle
  {
    var last, c := t.last.value, t.cycle;
    TruncatedBelowZero(last - now, c, k);
    assert (k + 1) * c == k * c + c && (k + 2) * c == k * c + 2 * c;
    GoalIs(last, c, now, if now == last + k * c then k else k + 1);
  }

  /** An update to an invoice time in the future does so too: it computes the next check from now. */
  lemma FutureUpdateSkipsBoundary(t: Trigger, invoice: int, now: int, k: int)
    requires t.cycle > 0 && now < invoice && t.interval <= t.cycle
    requires invoice + k * t.cycle <= now < invoice + (k + 1) * t.cycle && invoice - now + t.cycle < TWO63
    ensures Invoiced(t, invoice, now).last == Some(invoice)
    ensures Invoiced(t, invoice, now).nextCheck ==
            invoice + (if now == invoice + k * t.cycle then k + 1 else k + 2) * t.cycle
  {
    FutureInvoiceSkipsBoundary(t.(last := Some(invoice)), now, k);
  }

  /** Without a known invoice time, a trigger that is marked is ready again exactly a cycle later. */
  lemma ReadyACycleAfterMark(t: Trigger, mark: int, at: int)
    requires t.last.None? && t.interval <= t.cycle
    ensures Restarted(t, mark).last.None? && Restarted(t, mark).startedAt == mark
    ensures IsReady(Restarted(t, mark), at) <==> at >= mark + t.cycle
  {
  }

  /** After an invoice that is not in the future, the next check is one full cycle after it. */
  lemma CheckOneCycleAfterInvoice(t: Trigger, invoice: int, now: int)
    requires 0 < t.interval <= t.cycle && invoice <= now && FitsInt64(t.cycle)
    ensures Invoiced(t, invoice, now).nextCheck == invoice + t.cycle
  {
  }
}
