/** The period windows that periodic and rental invoices name, over whole runs. */
module NamedPeriods {
  import opened Envelopes
  import opened Contracts
  import opened BillingTrigger
  import opened BillingPeriods
  import opened BillingHost
  import opened BillingRuns
  import opened RentalCharges

  function Period(terms: Terms): int
    requires ParsePeriod(terms.period).Some?
  {
    ParsePeriod(terms.period).value
  }

  /** A regular invoice names whole periods from the first one after the cursor, a pro-rated invoice the
      time from the cursor to the termination. */
  function NamedStart(terms: Terms, inv: Invoice): int
    requires ParsePeriod(terms.period).Some?
  {
    if FullCycles(terms, inv.from, inv.until) then PeriodStart(inv.from, Period(terms)) else inv.from
  }

  function NamedEnd(terms: Terms, inv: Invoice): int
    requires ParsePeriod(terms.period).Some?
  {
    if FullCycles(terms, inv.from, inv.until) then PeriodEnd(inv.from, inv.until, Period(terms), terms.count)
    else inv.until
  }

  /** From the cursor to the next period. */
  function Offset(terms: Terms, inv: Invoice): int
    requires ParsePeriod(terms.period).Some?
  {
    PeriodStart(inv.from, Period(terms)) - inv.from
  }

  /** From the end of the last full cycle after the cursor to the stored second; a rental invoice loses this
      time. */
  function Lateness(terms: Terms, inv: Invoice): int
    requires ParsePeriod(terms.period).Some?
  {
    Lost(terms, inv)
  }

  lemma NamedEndIs(terms: Terms, inv: Invoice)
    requires ParsePeriod(terms.period).Some? && FullCycles(terms, inv.from, inv.until)
    ensures NamedEnd(terms, inv) == Seconds(inv.until) * SECOND + Offset(terms, inv) - Lateness(terms, inv)
  {
    CommutedProduct(Period(terms), CyclesElapsed(inv.from, inv.until, Period(terms), terms.count),
                    PeriodCount(terms.count));
  }

  /** There is a gap between the named periods exactly when the earlier invoice was late by more than its
      cursor was before a period, and an overlap exactly when it was late by less and the later invoice is
      pro-rated. */
  ghost predicate MeetsUnless(terms: Terms, a: Invoice, b: Invoice)
    requires ParsePeriod(terms.period).Some?
  {
    var end, start := NamedEnd(terms, a), NamedStart(terms, b);
    && (end < start <==> Offset(terms, a) < Lateness(terms, a))
    && (start < end <==> !FullCycles(terms, b.from, b.until) && Lateness(terms, a) < Offset(terms, a))
  }

  lemma ConsecutiveMeetIff(terms: Terms, a: Invoice, b: Invoice)
    requires ParsePeriod(terms.period).Some? && FullCycles(terms, a.from, a.until)
    requires a.from % SECOND == 0 && b.from == Seconds(a.until) * SECOND
    ensures MeetsUnless(terms, a, b)
  {
    PeriodsAreWholeSeconds(terms.period);
    NamedEndIs(terms, a);
    ElapsedCycleIsPast(a.from, a.until, Period(terms), terms.count);
    MulAtLeast(PeriodCount(terms.count), Period(terms));
    PeriodWindowsGapIff(a.from, a.until, Period(terms), terms.count);
  }

  lemma InvoicesMeet(l: Ledger, base: int, model: Model, i: nat, a: Invoice, b: Invoice)
    requires Accounted(l, base, model) && i + 1 < |l.spans|
    requires a in l.spans[i].invoices && b in l.spans[i + 1].invoices
    ensures a.from % SECOND == 0 && b.from == Seconds(a.until) * SECOND
  {
    TilesMeet(l.spans, base, l.cursor.value, i);
    assert Matches(l.spans[i], model) && Matches(l.spans[i + 1], model);
  }

  /** Over every proper run of the periodic or rental model, a regular invoice and the next one: if that is
      regular too, the periods they name never overlap, and leave a gap exactly when the earlier one was
      late by more than its cursor was before a period; if it is pro-rated, they overlap, meet or leave a
      gap exactly as the lateness is less than, equal to or more than that. */
  lemma NamedPeriodsMeetIff(terms: Terms, ticks: seq<Tick>, i: nat, a: Invoice, b: Invoice)
    requires CanProRate(terms) && Ordinary(terms) && ParsePeriod(terms.period).Some? && Proper(terms, ticks)
    requires var spans := Run(EMPTY_LEDGER, terms, ticks).spans;
             i + 1 < |spans| && a in spans[i].invoices && b in spans[i + 1].invoices
    requires FullCycles(terms, a.from, a.until)
    ensures MeetsUnless(terms, a, b)
  {
    RunTilesFromStart(terms, ticks, |ticks|);
    assert ticks[..|ticks|] == ticks;
    InvoicesMeet(Run(EMPTY_LEDGER, terms, ticks), Seconds(terms.start), terms.model, i, a, b);
    ConsecutiveMeetIff(terms, a, b);
  }

  // ---------------------------------------------------------------------
  // A run in which they overlap.

  /** By the minute, from half a minute after the epoch. */
  const FROM_HALF_A_MINUTE: Terms := BY_THE_MINUTE.(start := 30 * SECOND)

  lemma OneMinuteLater(l: Ledger)
    requires l.cursor == Some(30)
    ensures var tick := Billed(91 * SECOND, true);
            && Sound(l, FROM_HALF_A_MINUTE, tick)
            && AfterTick(l, FROM_HALF_A_MINUTE, tick) ==
               Ledger(Some(91), l.spans + [Span(30, 91, false, [Invoice(30 * SECOND, 91 * SECOND, None)])],
                      l.forwarded + [Invoice(30 * SECOND, 91 * SECOND, None)])
  {
    assert CyclesElapsed(30 * SECOND, 91 * SECOND, MINUTE, 1) == 1;
    TickCases(l, FROM_HALF_A_MINUTE, Billed(91 * SECOND, true));
  }

  lemma TerminatedLater(l: Ledger)
    requires l.cursor == Some(91)
    ensures var tick := Repetition(105 * SECOND);
            && Sound(l, FROM_HALF_A_MINUTE, tick)
            && AfterTick(l, FROM_HALF_A_MINUTE, tick) ==
               Ledger(Some(105), l.spans + [Span(91, 105, false, [Invoice(91 * SECOND, 105 * SECOND, None)])],
                      l.forwarded + [Invoice(91 * SECOND, 105 * SECOND, None)])
  {
    var tick := Repetition(105 * SECOND);
    assert WindowEnd(tick) == 105 * SECOND;
    assert CyclesElapsed(91 * SECOND, 105 * SECOND, MINUTE, 1) == 0;
    TickCases(l, FROM_HALF_A_MINUTE, tick);
  }

  lemma TheyName(a: Invoice, b: Invoice)
    requires a == Invoice(30 * SECOND, 91 * SECOND, None) && b == Invoice(91 * SECOND, 105 * SECOND, None)
    ensures var terms := FROM_HALF_A_MINUTE;
            && NamedStart(terms, a) == 60 * SECOND && NamedEnd(terms, a) == 120 * SECOND
            && NamedStart(terms, b) == 91 * SECOND && NamedEnd(terms, b) == 105 * SECOND
  {
    assert CyclesElapsed(a.from, a.until, MINUTE, 1) == 1;
    assert CyclesElapsed(b.from, b.until, MINUTE, 1) == 0;
  }

  /** A run whose regular invoice names the second 60 to the second 120, and whose pro-rated final invoice
      names the second 91 to the second 105. */
  lemma FinalPeriodOverlaps()
    ensures var terms := FROM_HALF_A_MINUTE;
            var ticks := [Billed(91 * SECOND, true), Billed(91 * SECOND, true), Repetition(105 * SECOND)];
            && Rental(terms) && Proper(terms, ticks)
            && var invoices := Run(EMPTY_LEDGER, terms, ticks).forwarded;
            && |invoices| == 2
            && NamedStart(terms, invoices[0]) == 60 * SECOND && NamedEnd(terms, invoices[0]) == 120 * SECOND
            && NamedStart(terms, invoices[1]) == 91 * SECOND && NamedEnd(terms, invoices[1]) == 105 * SECOND
  {
    var terms := FROM_HALF_A_MINUTE;
    var a, b := Invoice(30 * SECOND, 91 * SECOND, None), Invoice(91 * SECOND, 105 * SECOND, None);
    var l1, l2 := Ledger(Some(30), [], []), Ledger(Some(91), [Span(30, 91, false, [a])], [a]);
    OneMinuteLater(l1);
    TerminatedLater(l2);
    assert [] + [a] == [a] && [a] + [b] == [a, b] && l1.spans + [Span(30, 91, false, [a])] == l2.spans;
    ThreeTicks(terms, Billed(91 * SECOND, true), Billed(91 * SECOND, true), Repetition(105 * SECOND), l1, l2);
    TheyName(a, b);
  }
}
