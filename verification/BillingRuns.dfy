/** What billing keeps over whole runs of ticks, from an empty ledger. */
module BillingRuns {
  import opened Envelopes
  import opened Contracts
  import opened BillingTrigger
  import opened BillingPeriods
  import opened BillingHost

  // ---------------------------------------------------------------------
  // Runs.

  function Run(l: Ledger, terms: Terms, ticks: seq<Tick>): Ledger
  {
    if ticks == [] then l else AfterTick(Run(l, terms, ticks[..|ticks| - 1]), terms, ticks[|ticks| - 1])
  }

  lemma RunStep(l: Ledger, terms: Terms, ticks: seq<Tick>, i: nat)
    requires i < |ticks|
    ensures Run(l, terms, ticks[..i + 1]) == AfterTick(Run(l, terms, ticks[..i]), terms, ticks[i])
  {
    assert ticks[..i + 1][..i] == ticks[..i];
  }

  predicate OnTerminated(tick: Tick) {
    tick.contract.Some? && tick.contract.value.state == Terminated
  }

  /** The end of the window that the tick asks the processor about. */
  function WindowEnd(tick: Tick): int {
    if OnTerminated(tick) then EndTime(tick.contract.value, tick.now) else tick.now
  }

  /** What every processor checks before it answers: usage, or that there were no deployments, only
      after a full cycle; that the period has not elapsed only before; usage in the form of its model;
      and, for the periodic model, a readable fee and time unit and at least one deployment. */
  ghost predicate Sound(l: Ledger, terms: Terms, tick: Tick) {
    && (tick.outcome.Usage? || tick.outcome.NoDeployments? ==>
          ParsePeriod(terms.period).Some? && CyclesAt(l, terms, WindowEnd(tick)) >= 1)
    && (tick.outcome.PeriodNotElapsed? ==>
          ParsePeriod(terms.period).Some? && CyclesAt(l, terms, WindowEnd(tick)) < 1)
    && WellMade(terms, tick.outcome) && WellMade(terms, tick.proRated)
  }

  function CyclesAt(l: Ledger, terms: Terms, until: int): int
    requires ParsePeriod(terms.period).Some?
  {
    CyclesElapsed(StoredTime(l), until, ParsePeriod(terms.period).value, terms.count)
  }

  predicate WellMade(terms: Terms, usage: Outcome) {
    usage.Usage? ==>
      usage.fits && (terms.model == Periodic ==> terms.feeParses && terms.unitKnown && usage.deployments != [])
  }

  /** Every tick is sound, and none bills a terminated contract before a cursor was stored. */
  ghost predicate Proper(terms: Terms, ticks: seq<Tick>) {
    forall i | 0 <= i < |ticks| ::
      var l := Run(EMPTY_LEDGER, terms, ticks[..i]);
      Sound(l, terms, ticks[i]) && (l.cursor.None? ==> !OnTerminated(ticks[i]))
  }

  /** The cycle fits 64 bits, and the start date does not read as a missing cursor. */
  predicate Ordinary(terms: Terms) {
    FitsInt64(PeriodDuration(terms.period) * PeriodCount(terms.count)) && Seconds(terms.start) >= 1
  }

  // ---------------------------------------------------------------------
  // What one tick does.

  /** What a tick that sends something sends, if the tick sends anything. */
  function Sending(l: Ledger, terms: Terms, tick: Tick): Option<Outcome> {
    if !Bills(terms, tick) || !tick.readable then None
    else if OnTerminated(tick) then
      if StoredTime(l) == ZERO_TIME || WindowEnd(tick) <= StoredTime(l) then None
      else if tick.outcome.Usage? then Some(tick.outcome)
      else if tick.outcome.PeriodNotElapsed? && CanProRate(terms) && tick.proRated.Usage? then Some(tick.proRated)
      else None
    else if Over(terms, tick.contract.value, tick) || Uninitialised(l) || !tick.outcome.Usage? then None
    else Some(tick.outcome)
  }

  /** Whether the tick skips a cycle. */
  predicate Skips(l: Ledger, terms: Terms, tick: Tick) {
    && Bills(terms, tick) && tick.readable && !OnTerminated(tick) && !Over(terms, tick.contract.value, tick)
    && !Uninitialised(l) && tick.outcome.NoDeployments? && terms.model == Periodic
    && ParsePeriod(terms.period).Some? && tick.saves
  }

  function SkippedTo(l: Ledger, terms: Terms): int {
    Seconds(StoredTime(l) + BillingCycle(terms.period, terms.count))
  }

  /** Whether the tick stores the start date. */
  predicate Opens(l: Ledger, terms: Terms, tick: Tick) {
    && Bills(terms, tick) && tick.readable && !OnTerminated(tick) && !Over(terms, tick.contract.value, tick)
    && Uninitialised(l) && tick.saves
  }

  /** A tick sends, skips, opens the ledger or does nothing. */
  lemma TickCases(l: Ledger, terms: Terms, tick: Tick)
    ensures WellSent(l, terms, tick)
    ensures AfterTick(l, terms, tick) ==
            if Sending(l, terms, tick).Some? then
              Sent(l, terms, Sending(l, terms, tick).value, WindowEnd(tick), tick)
            else if Skips(l, terms, tick) then Moved(l, SkippedTo(l, terms), true, [])
            else if Opens(l, terms, tick) then l.(cursor := Some(Seconds(terms.start)))
            else l
  {
  }

  predicate WellSent(l: Ledger, terms: Terms, tick: Tick) {
    Sending(l, terms, tick).Some? ==> Sending(l, terms, tick).value.Usage?
  }

  /** A sound tick sends only for a window that ends after the cursor. */
  lemma SendsForward(l: Ledger, terms: Terms, tick: Tick)
    requires Sound(l, terms, tick) && Sending(l, terms, tick).Some?
    ensures StoredTime(l) < WindowEnd(tick)
  {
    if !OnTerminated(tick) {
      var period := ParsePeriod(terms.period).value;
      ElapsedCycleIsPast(StoredTime(l), tick.now, period, terms.count);
      MulAtLeast(PeriodCount(terms.count), period);
    }
  }

  // ---------------------------------------------------------------------
  // When a tick bills at all.

  predicate NoneTerminates(log: seq<Transition>, from: nat, until: nat)
    requires until <= |log|
  {
    forall j | from <= j < until :: log[j].into != Terminated
  }

  lemma {:induction false} TerminationFound(log: seq<Transition>, n: nat, i: nat)
    requires i < n <= |log| && log[i].into == Terminated && NoneTerminates(log, i + 1, n)
    ensures TerminationTime(log, n) == log[i].at
  {
    if i + 1 < n {
      TerminationFound(log, n - 1, i);
    }
  }

  lemma {:induction false} NoTermination(log: seq<Transition>, n: nat)
    requires n <= |log| && NoneTerminates(log, 0, n)
    ensures TerminationTime(log, n) == ZERO_TIME
  {
    if n > 0 {
      NoTermination(log, n - 1);
    }
  }

  /** The final invoice ends at the latest logged termination; when none is logged, or at the zero time, it
      ends now. */
  lemma FinalInvoiceEndsAt(progress: Progress, now: int, i: nat)
    requires i <= |progress.log| && NoneTerminates(progress.log, i, |progress.log|)
    requires i > 0 ==> progress.log[i - 1].into == Terminated
    ensures EndTime(progress, now) ==
            if i == 0 || progress.log[i - 1].at == -62_135_596_800_000_000_000 then now else progress.log[i - 1].at
  {
    if i > 0 {
      TerminationFound(progress.log, |progress.log|, i - 1);
    } else {
      NoTermination(progress.log, |progress.log|);
    }
  }

  /** Nothing is billed without a contract, for a contract without billing or without an automatic
      processor, while the store cannot be read, and, unless it is terminated, once the contract is
      completed or past its end date. */
  ghost predicate Unbilled(terms: Terms, tick: Tick) {
    || tick.contract == None || terms.disabled || tick.processor != Automatic || !tick.readable
    || (&& tick.contract.value.state != Terminated
        && (tick.contract.value.state == Completed || tick.checkedAt > terms.end))
  }

  /** Over every run of such ticks nothing is forwarded, and the cursor stays. */
  lemma {:induction false} UnbilledRunsAreQuiet(l: Ledger, terms: Terms, ticks: seq<Tick>)
    requires forall i | 0 <= i < |ticks| :: Unbilled(terms, ticks[i])
    ensures Run(l, terms, ticks) == l
  {
    if ticks != [] {
      UnbilledRunsAreQuiet(l, terms, ticks[..|ticks| - 1]);
      assert Unbilled(terms, ticks[|ticks| - 1]);
    }
  }

  /** Billing stops exactly for a contract that is found and is without billing or automatic processor,
      terminated, completed or past its end date; a missing contract or an unreadable store lets it go on. */
  lemma StopsIff(terms: Terms, tick: Tick)
    ensures Stops(terms, tick) <==>
            && tick.contract != None
            && (|| terms.disabled || tick.processor != Automatic
                || tick.contract.value.state in {Terminated, Completed} || tick.checkedAt > terms.end)
  {
  }

  /** Whether usage reaches the payment validator: it has the form of its model, and a delivery works. */
  ghost predicate Reaches(terms: Terms, usage: Outcome, tick: Tick) {
    && usage.Usage? && usage.fits
    && match terms.model
       case Periodic =>
         terms.feeParses && terms.unitKnown && exists i: nat :: i < |usage.deployments| && tick.delivers(i)
       case FixedRental => tick.delivers(0)
       case PayPerUse => tick.delivers(0)
       case Unsupported => false
  }

  /** What a tick that bills has to send: usage up to now of a contract with a cursor; or, of a terminated
      one, usage up to its termination, if that is after the cursor, in parts of a cycle only for periodic
      and rental contracts. */
  ghost predicate HasToSend(l: Ledger, terms: Terms, tick: Tick)
    requires tick.contract.Some?
  {
    if tick.contract.value.state == Terminated then
      && StoredTime(l) != ZERO_TIME && WindowEnd(tick) > StoredTime(l)
      && (|| Reaches(terms, tick.outcome, tick)
          || (&& tick.outcome == PeriodNotElapsed && terms.model in {Periodic, FixedRental}
              && Reaches(terms, tick.proRated, tick)))
    else
      StoredTime(l) != ZERO_TIME && StoredTime(l) != 0 && Reaches(terms, tick.outcome, tick)
  }

  lemma {:induction false} SomeDelivered(ds: seq<string>, n: nat, from: int, until: int, delivers: nat -> bool)
    requires n <= |ds|
    ensures Delivered(ds, n, from, until, delivers) != [] <==> exists i: nat :: i < n && delivers(i)
  {
    if n > 0 {
      SomeDelivered(ds, n - 1, from, until, delivers);
    }
  }

  lemma SentForwardsIff(l: Ledger, terms: Terms, usage: Outcome, until: int, tick: Tick)
    requires usage.Usage?
    ensures l.forwarded <= Sent(l, terms, usage, until, tick).forwarded
    ensures Sent(l, terms, usage, until, tick).forwarded != l.forwarded <==> Reaches(terms, usage, tick)
  {
    SomeDelivered(usage.deployments, |usage.deployments|, StoredTime(l), until, tick.delivers);
    var invoices := Invoices(terms, usage, StoredTime(l), until, tick.delivers);
    assert invoices != [] <==> Reaches(terms, usage, tick);
  }

  /** A tick forwards an invoice exactly when it bills and has something to send that reaches the payment
      validator. */
  lemma ForwardsIff(l: Ledger, terms: Terms, tick: Tick)
    ensures AfterTick(l, terms, tick).forwarded != l.forwarded <==>
            !Unbilled(terms, tick) && HasToSend(l, terms, tick)
  {
    TickCases(l, terms, tick);
    var sending := Sending(l, terms, tick);
    if sending.Some? {
      SentForwardsIff(l, terms, sending.value, WindowEnd(tick), tick);
    }
  }

  // ---------------------------------------------------------------------
  // The spans tile the time that was billed.

  /** The spans follow each other without gap or overlap from `from` to `until`. */
  ghost predicate Tiles(spans: seq<Span>, from: int, until: int)
    decreases |spans|
  {
    if spans == [] then from == until
    else
      var last := spans[|spans| - 1];
      last.from <= last.until == until && Tiles(spans[..|spans| - 1], from, last.from)
  }

  /** An invoice belongs to a span if it starts with it and ends within its last second. */
  ghost predicate Belongs(inv: Invoice, span: Span) {
    inv.from == span.from * SECOND && Seconds(inv.until) == span.until
  }

  function Flat(spans: seq<Span>): seq<Invoice>
  {
    if spans == [] then [] else Flat(spans[..|spans| - 1]) + spans[|spans| - 1].invoices
  }

  /** Invoices belong to their span, skipped spans have none, and outside the periodic model every span
      has exactly one. */
  ghost predicate Matches(span: Span, model: Model) {
    && (forall inv | inv in span.invoices :: Belongs(inv, span) && !span.skipped)
    && (model != Periodic ==> |span.invoices| == 1)
  }

  ghost predicate AllMatch(spans: seq<Span>, model: Model) {
    forall i | 0 <= i < |spans| :: Matches(spans[i], model)
  }

  ghost predicate Accounted(l: Ledger, base: int, model: Model) {
    && l.cursor.Some? && l.cursor.value >= base >= 1
    && Tiles(l.spans, base, l.cursor.value)
    && AllMatch(l.spans, model)
  }

  /** Nothing was stored yet, or everything since the start date is accounted for. */
  ghost predicate Orderly(l: Ledger, terms: Terms) {
    l == EMPTY_LEDGER || Accounted(l, Seconds(terms.start), terms.model)
  }

  lemma TilesExtended(spans: seq<Span>, span: Span, from: int)
    requires Tiles(spans, from, span.from) && span.from <= span.until
    ensures Tiles(spans + [span], from, span.until)
  {
    assert (spans + [span])[..|spans|] == spans;
  }

  lemma MovedAccounted(l: Ledger, base: int, model: Model, second: int, skipped: bool, invoices: seq<Invoice>)
    requires Accounted(l, base, model) && l.cursor.value <= second
    requires Matches(Span(l.cursor.value, second, skipped, invoices), model)
    ensures Accounted(Moved(l, second, skipped, invoices), base, model)
  {
    assert Seconds(StoredTime(l)) == l.cursor.value;
    TilesExtended(l.spans, Span(l.cursor.value, second, skipped, invoices), base);
  }

  lemma {:induction false} DeliveredBelongs(ds: seq<string>, n: nat, from: int, until: int, delivers: nat -> bool)
    requires n <= |ds|
    ensures forall inv | inv in Delivered(ds, n, from, until, delivers) :: inv.from == from && inv.until == until
  {
    if n > 0 {
      DeliveredBelongs(ds, n - 1, from, until, delivers);
    }
  }

  lemma InvoicesBelong(terms: Terms, usage: Outcome, from: int, until: int, delivers: nat -> bool)
    requires usage.Usage?
    ensures forall inv | inv in Invoices(terms, usage, from, until, delivers) :: inv.from == from && inv.until == until
  {
    DeliveredBelongs(usage.deployments, |usage.deployments|, from, until, delivers);
  }

  lemma SentAccounted(l: Ledger, base: int, terms: Terms, usage: Outcome, until: int, tick: Tick)
    requires Accounted(l, base, terms.model) && usage.Usage? && StoredTime(l) <= until
    ensures Accounted(Sent(l, terms, usage, until, tick), base, terms.model)
    ensures Sent(l, terms, usage, until, tick).cursor.value >= l.cursor.value
  {
    var invoices := Invoices(terms, usage, StoredTime(l), until, tick.delivers);
    InvoicesBelong(terms, usage, StoredTime(l), until, tick.delivers);
    var l1 := l.(forwarded := l.forwarded + invoices);
    if SendSaves(terms, usage, tick.delivers) && tick.saves {
      MovedAccounted(l1, base, terms.model, Seconds(until), false, invoices);
    }
  }

  /** Skipping moves the cursor by exactly one cycle. */
  lemma SkipIsOneCycle(l: Ledger, terms: Terms)
    requires Ordinary(terms) && l.cursor.Some?
    ensures SkippedTo(l, terms) == l.cursor.value + BillingCycle(terms.period, terms.count) / SECOND
    ensures BillingCycle(terms.period, terms.count) / SECOND >= 60
  {
    CycleIsAtLeastAMinute(terms.period, terms.count);
  }

  predicate CursorGrows(l: Ledger, l': Ledger) {
    l.cursor.Some? ==> l'.cursor.Some? && l.cursor.value <= l'.cursor.value
  }

  lemma TickAccounted(l: Ledger, terms: Terms, tick: Tick)
    requires Accounted(l, Seconds(terms.start), terms.model) && Ordinary(terms) && Sound(l, terms, tick)
    ensures var l' := AfterTick(l, terms, tick);
            Accounted(l', Seconds(terms.start), terms.model) && CursorGrows(l, l')
  {
    TickCases(l, terms, tick);
    var sending := Sending(l, terms, tick);
    if sending.Some? {
      SendsForward(l, terms, tick);
      SentAccounted(l, Seconds(terms.start), terms, sending.value, WindowEnd(tick), tick);
    } else if Skips(l, terms, tick) {
      SkipIsOneCycle(l, terms);
      MovedAccounted(l, Seconds(terms.start), terms.model, SkippedTo(l, terms), true, []);
    } else {
      assert !Opens(l, terms, tick);
    }
  }

  lemma TickOrderly(l: Ledger, terms: Terms, tick: Tick)
    requires Orderly(l, terms) && Ordinary(terms) && Sound(l, terms, tick)
    requires l.cursor.None? ==> !OnTerminated(tick)
    ensures Orderly(AfterTick(l, terms, tick), terms) && CursorGrows(l, AfterTick(l, terms, tick))
  {
    if l == EMPTY_LEDGER {
      TickCases(l, terms, tick);
    } else {
      TickAccounted(l, terms, tick);
    }
  }

  /** Over every proper run from an empty ledger, either nothing was stored yet, or the time from the
      start date to the cursor is tiled by invoiced and skipped spans, without gap or overlap. Each
      invoice starts with its span and ends in the last second of it; outside the periodic model every
      span has exactly one. */
  lemma {:induction false} RunTilesFromStart(terms: Terms, ticks: seq<Tick>, n: nat)
    requires n <= |ticks| && Ordinary(terms) && Proper(terms, ticks)
    ensures Orderly(Run(EMPTY_LEDGER, terms, ticks[..n]), terms)
  {
    if n > 0 {
      RunTilesFromStart(terms, ticks, n - 1);
      RunStep(EMPTY_LEDGER, terms, ticks, n - 1);
      TickOrderly(Run(EMPTY_LEDGER, terms, ticks[..n - 1]), terms, ticks[n - 1]);
    }
  }

  /** Over every proper run from an empty ledger the cursor, once stored, never decreases. */
  lemma {:induction false} CursorNeverDecreases(terms: Terms, ticks: seq<Tick>, i: nat, j: nat)
    requires i <= j <= |ticks| && Ordinary(terms) && Proper(terms, ticks)
    ensures CursorGrows(Run(EMPTY_LEDGER, terms, ticks[..i]), Run(EMPTY_LEDGER, terms, ticks[..j]))
  {
    if i < j {
      CursorNeverDecreases(terms, ticks, i, j - 1);
      RunTilesFromStart(terms, ticks, j - 1);
      RunStep(EMPTY_LEDGER, terms, ticks, j - 1);
      TickOrderly(Run(EMPTY_LEDGER, terms, ticks[..j - 1]), terms, ticks[j - 1]);
    }
  }

  lemma FlatSnoc(spans: seq<Span>, span: Span)
    ensures Flat(spans + [span]) == Flat(spans) + span.invoices
  {
    assert (spans + [span])[..|spans|] == spans;
  }

  lemma TickIsFlat(l: Ledger, terms: Terms, tick: Tick)
    requires tick.saves && l.forwarded == Flat(l.spans)
    ensures AfterTick(l, terms, tick).forwarded == Flat(AfterTick(l, terms, tick).spans)
  {
    TickCases(l, terms, tick);
    var sending := Sending(l, terms, tick);
    if sending.Some? {
      SentIsFlat(l, terms, sending.value, WindowEnd(tick), tick);
    } else if Skips(l, terms, tick) {
      FlatSnoc(l.spans, Span(Seconds(StoredTime(l)), SkippedTo(l, terms), true, []));
    }
  }

  lemma SentIsFlat(l: Ledger, terms: Terms, usage: Outcome, until: int, tick: Tick)
    requires usage.Usage? && tick.saves && l.forwarded == Flat(l.spans)
    ensures var l' := Sent(l, terms, usage, until, tick); l'.forwarded == Flat(l'.spans)
  {
    var invoices := Invoices(terms, usage, StoredTime(l), until, tick.delivers);
    if SendSaves(terms, usage, tick.delivers) {
      FlatSnoc(l.spans, Span(Seconds(StoredTime(l)), Seconds(until), false, invoices));
    } else {
      assert invoices == [];
    }
  }

  /** When the store accepts every write, the forwarded invoices are exactly those the spans account
      for: none is forwarded twice and none is forgotten. */
  lemma {:induction false} ForwardedIsAccounted(l: Ledger, terms: Terms, ticks: seq<Tick>)
    requires l.forwarded == Flat(l.spans) && forall i | 0 <= i < |ticks| :: ticks[i].saves
    ensures Run(l, terms, ticks).forwarded == Flat(Run(l, terms, ticks).spans)
  {
    if ticks != [] {
      ForwardedIsAccounted(l, terms, ticks[..|ticks| - 1]);
      TickIsFlat(Run(l, terms, ticks[..|ticks| - 1]), terms, ticks[|ticks| - 1]);
    }
  }

  /** Consecutive usage windows overlap by exactly the part of a second that the store cuts off. */
  lemma WindowsOverlapBySubsecond(l: Ledger, base: int, model: Model, i: nat, a: Invoice, b: Invoice)
    requires Accounted(l, base, model) && i + 1 < |l.spans|
    requires a in l.spans[i].invoices && b in l.spans[i + 1].invoices
    ensures a.until - b.from == a.until % SECOND
    ensures a.until <= b.from <==> a.until % SECOND == 0
  {
    TilesMeet(l.spans, base, l.cursor.value, i);
    assert Matches(l.spans[i], model) && Matches(l.spans[i + 1], model);
  }

  lemma {:induction false} TilesMeet(spans: seq<Span>, from: int, until: int, i: nat)
    requires Tiles(spans, from, until) && i + 1 < |spans|
    ensures spans[i].until == spans[i + 1].from
    decreases |spans|
  {
    var front := spans[..|spans| - 1];
    if i + 2 < |spans| {
      TilesMeet(front, from, spans[|spans| - 1].from, i);
    } else {
      assert front[|front| - 1] == spans[i];
    }
  }

  // ---------------------------------------------------------------------
  // Failed deliveries.

  /** Outside the periodic model a tick whose delivery fails changes nothing, whatever else happens. */
  lemma FailedForwardKeepsLedger(l: Ledger, terms: Terms, tick: Tick)
    requires terms.model != Periodic && !tick.delivers(0) && !Uninitialised(l)
    ensures AfterTick(l, terms, tick) == l
  {
    TickCases(l, terms, tick);
    if Sending(l, terms, tick).Some? {
      assert Sent(l, terms, Sending(l, terms, tick).value, WindowEnd(tick), tick) == l;
    }
  }

  lemma {:induction false} DeliveredIff(
    ds: seq<string>, n: nat, from: int, until: int, delivers: nat -> bool, d: string)
    requires n <= |ds|
    ensures Invoice(from, until, Some(d)) in Delivered(ds, n, from, until, delivers) <==>
            exists i: nat :: i < n && ds[i] == d && delivers(i)
  {
    if n > 0 {
      DeliveredIff(ds, n - 1, from, until, delivers, d);
    }
  }

  lemma {:induction false} AllDeliveredIff(ds: seq<string>, n: nat, from: int, until: int, delivers: nat -> bool)
    requires n <= |ds|
    ensures |Delivered(ds, n, from, until, delivers)| <= n
    ensures |Delivered(ds, n, from, until, delivers)| == n <==> forall i: nat | i < n :: delivers(i)
  {
    if n > 0 {
      AllDeliveredIff(ds, n - 1, from, until, delivers);
    }
  }

  /** The invoices of a run only grow, and those that later ticks add start at or after the cursor. */
  ghost predicate Extends(l: Ledger, l': Ledger) {
    && l.forwarded <= l'.forwarded && CursorGrows(l, l')
    && (l.cursor.Some? ==>
          forall i | |l.forwarded| <= i < |l'.forwarded| :: l'.forwarded[i].from >= l.cursor.value * SECOND)
  }

  lemma ExtendsTransitive(a: Ledger, b: Ledger, c: Ledger)
    requires Extends(a, b) && Extends(b, c)
    ensures Extends(a, c)
  {
  }

  lemma TickExtends(l: Ledger, terms: Terms, tick: Tick)
    requires Orderly(l, terms) && Ordinary(terms) && Sound(l, terms, tick)
    requires l.cursor.None? ==> !OnTerminated(tick)
    ensures Extends(l, AfterTick(l, terms, tick))
  {
    TickOrderly(l, terms, tick);
    TickCases(l, terms, tick);
    var sending := Sending(l, terms, tick);
    if sending.Some? {
      var invoices := Invoices(terms, sending.value, StoredTime(l), WindowEnd(tick), tick.delivers);
      InvoicesBelong(terms, sending.value, StoredTime(l), WindowEnd(tick), tick.delivers);
      assert AfterTick(l, terms, tick).forwarded == l.forwarded + invoices;
    }
  }

  lemma {:induction false} RunExtends(terms: Terms, ticks: seq<Tick>, i: nat, j: nat)
    requires i <= j <= |ticks| && Ordinary(terms) && Proper(terms, ticks)
    ensures Extends(Run(EMPTY_LEDGER, terms, ticks[..i]), Run(EMPTY_LEDGER, terms, ticks[..j]))
  {
    if i < j {
      RunExtends(terms, ticks, i, j - 1);
      RunTilesFromStart(terms, ticks, j - 1);
      RunStep(EMPTY_LEDGER, terms, ticks, j - 1);
      var before := Run(EMPTY_LEDGER, terms, ticks[..j - 1]);
      TickExtends(before, terms, ticks[j - 1]);
      ExtendsTransitive(Run(EMPTY_LEDGER, terms, ticks[..i]), before, Run(EMPTY_LEDGER, terms, ticks[..j]));
    }
  }

  /** Tick `i` of the run sends periodic usage and stores a later cursor. */
  ghost predicate SettlesPeriod(terms: Terms, ticks: seq<Tick>, i: nat)
    requires i < |ticks|
  {
    var l := Run(EMPTY_LEDGER, terms, ticks[..i]);
    && terms.model == Periodic && ticks[i].saves && Sending(l, terms, ticks[i]).Some?
    && l.cursor.Some? && Seconds(WindowEnd(ticks[i])) > l.cursor.value
  }

  /** Over every proper run of the periodic model, a period is billed once and for all: the span of a
      tick has an invoice for every reported deployment exactly when no delivery of that tick failed,
      and an invoice for a deployment and that period is forwarded, by this tick or ever after, exactly
      when a delivery for it worked in this tick. */
  lemma UndeliveredIsLost(terms: Terms, ticks: seq<Tick>, i: nat, n: nat, d: string)
    requires i < n <= |ticks| && Ordinary(terms) && Proper(terms, ticks) && SettlesPeriod(terms, ticks, i)
    ensures var l, tick := Run(EMPTY_LEDGER, terms, ticks[..i]), ticks[i];
            var ds := Sending(l, terms, tick).value.deployments;
            var spans := Run(EMPTY_LEDGER, terms, ticks[..i + 1]).spans;
            var later := Run(EMPTY_LEDGER, terms, ticks[..n]).forwarded;
            && |spans| == |l.spans| + 1
            && (|spans[|l.spans|].invoices| == |ds| <==> forall j: nat | j < |ds| :: tick.delivers(j))
            && |l.forwarded| <= |later|
            && (Invoice(StoredTime(l), WindowEnd(tick), Some(d)) in later[|l.forwarded|..] <==>
                exists j: nat :: j < |ds| && ds[j] == d && tick.delivers(j))
  {
    var l, tick := Run(EMPTY_LEDGER, terms, ticks[..i]), ticks[i];
    var usage := Sending(l, terms, tick).value;
    var next, last := Run(EMPTY_LEDGER, terms, ticks[..i + 1]), Run(EMPTY_LEDGER, terms, ticks[..n]);
    RunStep(EMPTY_LEDGER, terms, ticks, i);
    PeriodSettled(l, terms, tick, usage);
    var invoices := Delivered(usage.deployments, |usage.deployments|, StoredTime(l), WindowEnd(tick), tick.delivers);
    AllDeliveredIff(usage.deployments, |usage.deployments|, StoredTime(l), WindowEnd(tick), tick.delivers);
    DeliveredIff(usage.deployments, |usage.deployments|, StoredTime(l), WindowEnd(tick), tick.delivers, d);
    RunExtends(terms, ticks, i + 1, n);
    OnlyThen(l.forwarded, invoices, last.forwarded, Invoice(StoredTime(l), WindowEnd(tick), Some(d)),
             next.cursor.value * SECOND);
  }

  lemma PeriodSettled(l: Ledger, terms: Terms, tick: Tick, usage: Outcome)
    requires Sound(l, terms, tick) && terms.model == Periodic && tick.saves && Sending(l, terms, tick) == Some(usage)
    ensures WellSent(l, terms, tick) && usage.Usage?
    ensures var l' := AfterTick(l, terms, tick);
            var invoices :=
              Delivered(usage.deployments, |usage.deployments|, StoredTime(l), WindowEnd(tick), tick.delivers);
            && l'.forwarded == l.forwarded + invoices && l'.cursor == Some(Seconds(WindowEnd(tick)))
            && |l'.spans| == |l.spans| + 1 && l'.spans[|l.spans|].invoices == invoices
  {
    TickCases(l, terms, tick);
  }

  /** What starts before the cursor is among the invoices of the tick, or nowhere. */
  lemma OnlyThen(before: seq<Invoice>, invoices: seq<Invoice>, last: seq<Invoice>, inv: Invoice, cursor: int)
    requires before + invoices <= last && inv.from < cursor
    requires forall i | |before + invoices| <= i < |last| :: last[i].from >= cursor
    ensures inv in last[|before|..] <==> inv in invoices
  {
    var rest := last[|before|..];
    assert forall i | 0 <= i < |invoices| :: rest[i] == invoices[i];
    assert forall i | |invoices| <= i < |rest| :: rest[i] == last[|before| + i] && rest[i].from >= cursor;
  }

  // ---------------------------------------------------------------------
  // The first tick and the last invoice.

  /** The ledger once the first regular tick has stored the start date. */
  function Opened(terms: Terms): Ledger {
    Ledger(Some(Seconds(terms.start)), [], [])
  }

  /** The first billing tick opens the ledger at the start date exactly when the contract is not yet
      terminated. Otherwise the missing cursor reads as the epoch, and an invoice that is sent covers
      everything since 1970. */
  lemma FirstTickOpensAtStartIff(terms: Terms, tick: Tick)
    requires Bills(terms, tick) && tick.readable && tick.saves
    requires !OnTerminated(tick) ==> !Over(terms, tick.contract.value, tick)
    ensures AfterTick(EMPTY_LEDGER, terms, tick) == Opened(terms) <==> !OnTerminated(tick)
    ensures OnTerminated(tick) ==> forall inv | inv in AfterTick(EMPTY_LEDGER, terms, tick).forwarded :: inv.from == 0
  {
    TickCases(EMPTY_LEDGER, terms, tick);
    var sending := Sending(EMPTY_LEDGER, terms, tick);
    if sending.Some? {
      InvoicesBelong(terms, sending.value, 0, WindowEnd(tick), tick.delivers);
    }
  }

  /** A tick on a contract whose log says it was terminated at `at`. */
  ghost predicate TerminatedAt(tick: Tick, at: int) {
    && OnTerminated(tick)
    && at != ZERO_TIME && TerminationTime(tick.contract.value.log, |tick.contract.value.log|) == at
  }

  /** No tick after the final invoice forwards anything. */
  ghost predicate FinalIsFinal(l: Ledger, terms: Terms, at: int) {
    forall tick | TerminatedAt(tick, at) && Sound(l, terms, tick) :: AfterTick(l, terms, tick).forwarded == l.forwarded
  }

  lemma LessThanACycle(l: Ledger, terms: Terms, at: int)
    requires ParsePeriod(terms.period).Some? && 0 <= at - StoredTime(l) < SECOND
    ensures CyclesAt(l, terms, at) < 1
  {
    var p := ParsePeriod(terms.period).value;
    if CyclesAt(l, terms, at) >= 1 {
      ElapsedCycleIsPast(StoredTime(l), at, p, terms.count);
      MulAtLeast(PeriodCount(terms.count), p);
    }
  }

  /** A tick that repeats the final invoice for the second the store cut off. */
  function Repetition(at: int): Tick {
    Tick(at, at, Some(Progress(Terminated, [Transition(Accepted, Terminated, at, "")])), Automatic,
         PeriodNotElapsed, Usage(true, ["d"]), (n: nat) => true, true, true)
  }

  /** Whether a terminated contract with these terms can be billed for part of a cycle. */
  predicate ProRates(terms: Terms) {
    && !terms.disabled && CanProRate(terms) && ParsePeriod(terms.period).Some?
    && (terms.model == Periodic ==> terms.feeParses && terms.unitKnown)
  }

  /** Once the final invoice at a logged termination time was stored, further ticks forward nothing
      exactly when that time is a whole second, or the contract cannot be pro-rated. The store keeps
      whole seconds only, so a fraction is billed again whenever billing runs again. */
  lemma FinalInvoiceIsFinalIff(l: Ledger, terms: Terms, at: int)
    requires l.cursor == Some(Seconds(at)) && StoredTime(l) != ZERO_TIME && at != ZERO_TIME
    ensures FinalIsFinal(l, terms, at) <==> at % SECOND == 0 || !ProRates(terms)
  {
    if at % SECOND != 0 && ProRates(terms) {
      RepetitionForwards(l, terms, at);
    } else {
      forall tick | TerminatedAt(tick, at) && Sound(l, terms, tick)
        ensures AfterTick(l, terms, tick).forwarded == l.forwarded
      {
        NothingLeft(l, terms, at, tick);
      }
    }
  }

  lemma NothingLeft(l: Ledger, terms: Terms, at: int, tick: Tick)
    requires l.cursor == Some(Seconds(at)) && (at % SECOND == 0 || !ProRates(terms))
    requires TerminatedAt(tick, at) && (at % SECOND != 0 ==> Sound(l, terms, tick))
    ensures AfterTick(l, terms, tick) == l
  {
    TickCases(l, terms, tick);
    assert WindowEnd(tick) == at;
    if ParsePeriod(terms.period).Some? {
      LessThanACycle(l, terms, at);
    }
  }

  lemma RepetitionForwards(l: Ledger, terms: Terms, at: int)
    requires ProRates(terms)
    requires l.cursor == Some(Seconds(at)) && StoredTime(l) != ZERO_TIME && at != ZERO_TIME && at % SECOND != 0
    ensures TerminatedAt(Repetition(at), at) && Sound(l, terms, Repetition(at))
    ensures AfterTick(l, terms, Repetition(at)).forwarded != l.forwarded
  {
    var tick := Repetition(at);
    assert WindowEnd(tick) == at;
    LessThanACycle(l, terms, at);
    TickCases(l, terms, tick);
    assert Delivered(["d"], 0, StoredTime(l), at, tick.delivers) == [];
    assert |Invoices(terms, tick.proRated, StoredTime(l), at, tick.delivers)| == 1;
  }

  /** Then the whole rest of the run is quiet. */
  lemma {:induction false} QuietAfterFinalInvoice(l: Ledger, terms: Terms, at: int, ticks: seq<Tick>)
    requires l.cursor == Some(Seconds(at)) && (at % SECOND == 0 || !ProRates(terms))
    requires forall i | 0 <= i < |ticks| ::
               TerminatedAt(ticks[i], at) && (at % SECOND != 0 ==> Sound(l, terms, ticks[i]))
    ensures Run(l, terms, ticks) == l
  {
    if ticks != [] {
      QuietAfterFinalInvoice(l, terms, at, ticks[..|ticks| - 1]);
      NothingLeft(l, terms, at, ticks[|ticks| - 1]);
    }
  }
}
