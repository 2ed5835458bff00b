/** What a fixed-rental contract is charged for, invoice by invoice, over whole runs. */
module RentalCharges {
  import opened Envelopes
  import opened Contracts
  import opened BillingTrigger
  import opened BillingPeriods
  import opened BillingHost
  import opened BillingRuns

  /** The time an invoice charges for: its full cycles, or the whole window when it is pro-rated because
      no cycle is full. The rent is proportional to it. */
  function Charge(terms: Terms, inv: Invoice): int
    requires ParsePeriod(terms.period).Some?
  {
    var period := ParsePeriod(terms.period).value;
    var n := CyclesElapsed(inv.from, inv.until, period, terms.count);
    if n >= 1 then n * Cycle(period, terms.count) else Saturate64(inv.until - inv.from)
  }

  function Charged(terms: Terms, invoices: seq<Invoice>): int
    requires ParsePeriod(terms.period).Some?
  {
    if invoices == [] then 0
    else Charged(terms, invoices[..|invoices| - 1]) + Charge(terms, invoices[|invoices| - 1])
  }

  predicate FullCycles(terms: Terms, from: int, until: int) {
    ParsePeriod(terms.period).Some? && CyclesElapsed(from, until, ParsePeriod(terms.period).value, terms.count) >= 1
  }

  lemma PeriodsAreWholeSeconds(period: string)
    requires ParsePeriod(period).Some?
    ensures ParsePeriod(period).value > 0 && ParsePeriod(period).value % SECOND == 0
  {
  }

  /** An invoice as the billing tick makes it: from a whole second to a later time. */
  predicate Window(inv: Invoice) {
    inv.from < inv.until && inv.from % SECOND == 0
  }

  /** The charge is positive and fits into the window. It ends by the second that the store keeps exactly
      when it is for full cycles, or the window ends on a whole second. */
  lemma ChargeFitsWindow(terms: Terms, inv: Invoice)
    requires Ordinary(terms) && ParsePeriod(terms.period).Some? && Window(inv)
    ensures 0 < Charge(terms, inv) <= inv.until - inv.from
    ensures inv.from + Charge(terms, inv) <= Seconds(inv.until) * SECOND <==>
            FullCycles(terms, inv.from, inv.until) || inv.until % SECOND == 0
  {
    var period := ParsePeriod(terms.period).value;
    var e := Saturate64(inv.until - inv.from);
    var n := CyclesIn(e, period, terms.count);
    PeriodsAreWholeSeconds(terms.period);
    CyclesFit(e, period, terms.count);
    if n >= 1 {
      MulAtLeast(n, Cycle(period, terms.count));
      MulAtLeast(PeriodCount(terms.count), period);
      CycleIsWhole(period, terms.count);
      EndBySavedSecond(n, Cycle(period, terms.count), inv.from, inv.until);
    }
  }

  // ---------------------------------------------------------------------
  // Ticks of a rental contract.

  /** A contract with a fixed rent, and a period that can be billed. */
  predicate Rental(terms: Terms) {
    terms.model == FixedRental && Ordinary(terms) && ParsePeriod(terms.period).Some?
  }

  predicate Forwards(l: Ledger, terms: Terms, tick: Tick) {
    Sending(l, terms, tick).Some? && tick.delivers(0)
  }

  /** A tick after which the charged time is behind the stored cursor: the cursor is stored, and the
      invoice is for full cycles or ends on a whole second. */
  predicate Settled(l: Ledger, terms: Terms, tick: Tick) {
    tick.saves && (FullCycles(terms, StoredTime(l), WindowEnd(tick)) || WindowEnd(tick) % SECOND == 0)
  }

  lemma RentalTick(l: Ledger, terms: Terms, tick: Tick)
    requires Rental(terms) && Sound(l, terms, tick)
    ensures var l' := AfterTick(l, terms, tick);
            var inv := Invoice(StoredTime(l), WindowEnd(tick), None);
            if Forwards(l, terms, tick) then
              && Window(inv) && l'.forwarded == l.forwarded + [inv]
              && l'.cursor == if tick.saves then Some(Seconds(inv.until)) else l.cursor
            else l'.forwarded == l.forwarded && (!Uninitialised(l) ==> l'.cursor == l.cursor)
  {
    TickCases(l, terms, tick);
    if Sending(l, terms, tick).Some? {
      SendsForward(l, terms, tick);
    }
  }

  /** No charged time begins before what earlier invoices charged for has ended. */
  ghost predicate NoneTwice(terms: Terms, invoices: seq<Invoice>)
    requires ParsePeriod(terms.period).Some?
  {
    forall i, j | 0 <= i < j < |invoices| :: invoices[i].from + Charge(terms, invoices[i]) <= invoices[j].from
  }

  predicate AllWindows(invoices: seq<Invoice>, base: int) {
    forall i | 0 <= i < |invoices| :: Window(invoices[i]) && invoices[i].from >= base
  }

  /** All that was charged for is behind the cursor. */
  predicate Clear(l: Ledger, terms: Terms)
    requires ParsePeriod(terms.period).Some?
  {
    l.forwarded == [] ||
    var last := l.forwarded[|l.forwarded| - 1];
    last.from + Charge(terms, last) <= StoredTime(l)
  }

  /** What holds between the ticks of a rental run. */
  ghost predicate RentalState(l: Ledger, terms: Terms) {
    && Orderly(l, terms) && AllWindows(l.forwarded, Seconds(terms.start) * SECOND)
  }

  lemma RentalTickState(l: Ledger, terms: Terms, tick: Tick)
    requires Rental(terms) && RentalState(l, terms) && Sound(l, terms, tick) && (l.cursor.None? ==> !OnTerminated(tick))
    ensures RentalState(AfterTick(l, terms, tick), terms)
  {
    TickOrderly(l, terms, tick);
    RentalTick(l, terms, tick);
    if l.cursor.None? {
      assert !Forwards(l, terms, tick);
    }
  }

  lemma TickClears(l: Ledger, terms: Terms, tick: Tick)
    requires Rental(terms) && RentalState(l, terms) && Sound(l, terms, tick) && (l.cursor.None? ==> !OnTerminated(tick))
    ensures Clear(AfterTick(l, terms, tick), terms) <==>
            if Forwards(l, terms, tick) then Settled(l, terms, tick) else Clear(l, terms)
  {
    RentalTick(l, terms, tick);
    if Forwards(l, terms, tick) {
      ChargeFitsWindow(terms, Invoice(StoredTime(l), WindowEnd(tick), None));
    }
  }

  lemma AppendedOnce(terms: Terms, l: Ledger, inv: Invoice)
    requires Rental(terms) && RentalState(l, terms) && inv.from == StoredTime(l)
    ensures NoneTwice(terms, l.forwarded + [inv]) <==> NoneTwice(terms, l.forwarded) && Clear(l, terms)
  {
    var all := l.forwarded + [inv];
    assert forall i | 0 <= i < |l.forwarded| :: all[i] == l.forwarded[i];
    if l.forwarded != [] {
      var last := |l.forwarded| - 1;
      ChargeFitsWindow(terms, l.forwarded[last]);
      if NoneTwice(terms, all) {
        assert all[last].from + Charge(terms, all[last]) <= all[last + 1].from;
      }
    }
  }

  // ---------------------------------------------------------------------
  // Runs of a rental contract.

  ghost predicate ForwardsAt(terms: Terms, ticks: seq<Tick>, i: nat)
    requires i < |ticks|
  {
    Forwards(Run(EMPTY_LEDGER, terms, ticks[..i]), terms, ticks[i])
  }

  ghost predicate SettledAt(terms: Terms, ticks: seq<Tick>, i: nat)
    requires i < |ticks|
  {
    Settled(Run(EMPTY_LEDGER, terms, ticks[..i]), terms, ticks[i])
  }

  ghost predicate AllSettled(terms: Terms, ticks: seq<Tick>, n: nat)
    requires n <= |ticks|
  {
    forall i: nat | i < n && ForwardsAt(terms, ticks, i) :: SettledAt(terms, ticks, i)
  }

  /** Every tick that forwards an invoice, and is followed by another one that does, is settled. */
  ghost predicate SettledBeforeNext(terms: Terms, ticks: seq<Tick>, n: nat)
    requires n <= |ticks|
  {
    forall i: nat, j: nat | i < j < n && ForwardsAt(terms, ticks, i) && ForwardsAt(terms, ticks, j) ::
      SettledAt(terms, ticks, i)
  }

  lemma {:induction false} ReachableRentalState(terms: Terms, ticks: seq<Tick>, n: nat)
    requires n <= |ticks| && Rental(terms) && Proper(terms, ticks)
    ensures RentalState(Run(EMPTY_LEDGER, terms, ticks[..n]), terms)
  {
    if n > 0 {
      ReachableRentalState(terms, ticks, n - 1);
      RunStep(EMPTY_LEDGER, terms, ticks, n - 1);
      RentalTickState(Run(EMPTY_LEDGER, terms, ticks[..n - 1]), terms, ticks[n - 1]);
    }
  }

  lemma NextSettled(terms: Terms, ticks: seq<Tick>, n: nat)
    requires n < |ticks|
    ensures SettledBeforeNext(terms, ticks, n + 1) <==>
            SettledBeforeNext(terms, ticks, n) && (ForwardsAt(terms, ticks, n) ==> AllSettled(terms, ticks, n))
    ensures AllSettled(terms, ticks, n + 1) <==>
            AllSettled(terms, ticks, n) && (ForwardsAt(terms, ticks, n) ==> SettledAt(terms, ticks, n))
  {
  }

  lemma NextCharged(terms: Terms, ticks: seq<Tick>, n: nat)
    requires n < |ticks| && Rental(terms) && Proper(terms, ticks)
    ensures var l, l' := Run(EMPTY_LEDGER, terms, ticks[..n]), Run(EMPTY_LEDGER, terms, ticks[..n + 1]);
            && (NoneTwice(terms, l'.forwarded) <==>
                NoneTwice(terms, l.forwarded) && (ForwardsAt(terms, ticks, n) ==> Clear(l, terms)))
            && (Clear(l', terms) <==>
                if ForwardsAt(terms, ticks, n) then SettledAt(terms, ticks, n) else Clear(l, terms))
  {
    var l, tick := Run(EMPTY_LEDGER, terms, ticks[..n]), ticks[n];
    ReachableRentalState(terms, ticks, n);
    RunStep(EMPTY_LEDGER, terms, ticks, n);
    TickClears(l, terms, tick);
    RentalTick(l, terms, tick);
    AppendedOnce(terms, l, Invoice(StoredTime(l), WindowEnd(tick), None));
  }

  /** The two ways of seeing the first n ticks agree. */
  ghost predicate Agree(twiceFree: bool, settledBefore: bool, clear: bool, allSettled: bool) {
    twiceFree == settledBefore && (settledBefore ==> clear == allSettled)
  }

  ghost predicate AgreeAt(terms: Terms, ticks: seq<Tick>, n: nat)
    requires n <= |ticks| && ParsePeriod(terms.period).Some?
  {
    var l := Run(EMPTY_LEDGER, terms, ticks[..n]);
    Agree(NoneTwice(terms, l.forwarded), SettledBeforeNext(terms, ticks, n), Clear(l, terms),
          AllSettled(terms, ticks, n))
  }

  lemma AgreeNext(f: bool, s: bool, t: bool, sb: bool, c: bool, al: bool, t': bool, sb': bool, c': bool, al': bool)
    requires Agree(t, sb, c, al) && t' == (t && (f ==> c)) && sb' == (sb && (f ==> al))
    requires c' == (if f then s else c) && al' == (al && (f ==> s))
    ensures Agree(t', sb', c', al')
  {
  }

  lemma {:induction false} ChargedOnceUpTo(terms: Terms, ticks: seq<Tick>, n: nat)
    requires n <= |ticks| && Rental(terms) && Proper(terms, ticks)
    ensures AgreeAt(terms, ticks, n)
  {
    if n == 0 {
      assert Run(EMPTY_LEDGER, terms, ticks[..0]).forwarded == [];
    } else {
      var m := n - 1;
      ChargedOnceUpTo(terms, ticks, m);
      NextSettled(terms, ticks, m);
      NextCharged(terms, ticks, m);
      var l, l' := Run(EMPTY_LEDGER, terms, ticks[..m]), Run(EMPTY_LEDGER, terms, ticks[..n]);
      AgreeNext(ForwardsAt(terms, ticks, m), SettledAt(terms, ticks, m),
                NoneTwice(terms, l.forwarded), SettledBeforeNext(terms, ticks, m), Clear(l, terms),
                AllSettled(terms, ticks, m), NoneTwice(terms, l'.forwarded), SettledBeforeNext(terms, ticks, n),
                Clear(l', terms), AllSettled(terms, ticks, n));
    }
  }

  /** Over every proper run of a rental contract, no time is charged for twice exactly when every tick
      that forwards an invoice before another one does stores its cursor, and is for full cycles or up
      to a whole second. An unsaved write, or a termination time with a fraction of a second, charges
      again for time that was charged. */
  lemma NoTimeChargedTwiceIff(terms: Terms, ticks: seq<Tick>)
    requires Rental(terms) && Proper(terms, ticks)
    ensures NoneTwice(terms, Run(EMPTY_LEDGER, terms, ticks).forwarded) <==> SettledBeforeNext(terms, ticks, |ticks|)
  {
    ChargedOnceUpTo(terms, ticks, |ticks|);
    assert ticks[..|ticks|] == ticks;
  }

  lemma {:induction false} ChargedFitsTime(terms: Terms, invoices: seq<Invoice>, base: int)
    requires Rental(terms) && NoneTwice(terms, invoices) && AllWindows(invoices, base) && invoices != []
    ensures var last := invoices[|invoices| - 1];
            Charged(terms, invoices) <= last.from + Charge(terms, last) - base
  {
    var n := |invoices| - 1;
    var front := invoices[..n];
    if n == 0 {
      assert Charged(terms, front) == 0;
    } else {
      assert forall i | 0 <= i < n :: front[i] == invoices[i];
      ChargedFitsTime(terms, front, base);
      assert invoices[n - 1].from + Charge(terms, invoices[n - 1]) <= invoices[n].from;
    }
  }

  /** When every forwarding tick stores its cursor, and termination times are whole seconds, the rent
      charged over a whole run is for no more than the time from the start date to the end of the last
      invoice. */
  lemma RunNeverOvercharges(terms: Terms, ticks: seq<Tick>)
    requires Rental(terms) && Proper(terms, ticks)
    requires forall i | 0 <= i < |ticks| ::
               ticks[i].saves && (OnTerminated(ticks[i]) ==> WindowEnd(ticks[i]) % SECOND == 0)
    ensures var invoices := Run(EMPTY_LEDGER, terms, ticks).forwarded;
            invoices != [] ==>
              Charged(terms, invoices) <= invoices[|invoices| - 1].until - Seconds(terms.start) * SECOND
  {
    forall i: nat | i < |ticks| && ForwardsAt(terms, ticks, i)
      ensures SettledAt(terms, ticks, i)
    {
      assert Sound(Run(EMPTY_LEDGER, terms, ticks[..i]), terms, ticks[i]);
    }
    NoTimeChargedTwiceIff(terms, ticks);
    ReachableRentalState(terms, ticks, |ticks|);
    assert ticks[..|ticks|] == ticks;
    var invoices := Run(EMPTY_LEDGER, terms, ticks).forwarded;
    if invoices != [] {
      ChargedFitsTime(terms, invoices, Seconds(terms.start) * SECOND);
      ChargeFitsWindow(terms, invoices[|invoices| - 1]);
    }
  }

  // ---------------------------------------------------------------------
  // Rented time that is never charged for.

  /** From the end of the charged time to the stored second, where the next window starts. */
  function Lost(terms: Terms, inv: Invoice): int
    requires ParsePeriod(terms.period).Some?
  {
    Seconds(inv.until) * SECOND - inv.from - Charge(terms, inv)
  }

  function AllLost(terms: Terms, invoices: seq<Invoice>): int
    requires ParsePeriod(terms.period).Some?
  {
    if invoices == [] then 0
    else AllLost(terms, invoices[..|invoices| - 1]) + Lost(terms, invoices[|invoices| - 1])
  }

  function RentCycle(terms: Terms): int
    requires ParsePeriod(terms.period).Some?
  {
    Cycle(ParsePeriod(terms.period).value, terms.count)
  }

  /** The stored window is a multiple of the cycle, or the invoice is pro-rated. */
  predicate Exact(terms: Terms, inv: Invoice)
    requires Ordinary(terms) && ParsePeriod(terms.period).Some?
  {
    CycleIsAtLeastAMinute(terms.period, terms.count);
    FullCycles(terms, inv.from, inv.until) ==> (Seconds(inv.until) * SECOND - inv.from) % RentCycle(terms) == 0
  }

  /** A window within 64 bits, for full cycles or up to a whole second. */
  predicate Plain(terms: Terms, inv: Invoice) {
    && Window(inv) && inv.until - inv.from < TWO63
    && (FullCycles(terms, inv.from, inv.until) || inv.until % SECOND == 0)
  }

  lemma RemainderIs(w: int, c: int, n: int)
    requires c > 0 && n * c <= w < (n + 1) * c
    ensures w - n * c == w % c
  {
    FloorIs(w, c, n);
  }

  /** An invoice loses less than a cycle, and nothing exactly when it is exact. */
  lemma NothingLostIff(terms: Terms, inv: Invoice)
    requires Ordinary(terms) && ParsePeriod(terms.period).Some? && Plain(terms, inv)
    ensures 0 <= Lost(terms, inv) < RentCycle(terms)
    ensures Lost(terms, inv) == 0 <==> Exact(terms, inv)
  {
    CycleIsAtLeastAMinute(terms.period, terms.count);
    if FullCycles(terms, inv.from, inv.until) {
      var period := ParsePeriod(terms.period).value;
      var e, c := inv.until - inv.from, RentCycle(terms);
      var n := CyclesIn(e, period, terms.count);
      PeriodsAreWholeSeconds(terms.period);
      CyclesFit(e, period, terms.count);
      CycleIsWhole(period, terms.count);
      EndBySavedSecond(n, c, inv.from, inv.until);
      RemainderIs(Seconds(inv.until) * SECOND - inv.from, c, n);
    }
  }

  /** What was charged for and what was lost make up the time from the start date to the cursor. */
  ghost predicate Balances(l: Ledger, terms: Terms)
    requires ParsePeriod(terms.period).Some?
  {
    if l.cursor.None? then l.forwarded == []
    else Charged(terms, l.forwarded) + AllLost(terms, l.forwarded) == StoredTime(l) - Seconds(terms.start) * SECOND
  }

  lemma AppendedBalance(terms: Terms, invoices: seq<Invoice>, inv: Invoice)
    requires ParsePeriod(terms.period).Some?
    ensures Charged(terms, invoices + [inv]) + AllLost(terms, invoices + [inv]) ==
            Charged(terms, invoices) + AllLost(terms, invoices) + Seconds(inv.until) * SECOND - inv.from
  {
    assert (invoices + [inv])[..|invoices|] == invoices;
  }

  lemma TickBalances(l: Ledger, terms: Terms, tick: Tick)
    requires Rental(terms) && RentalState(l, terms) && Sound(l, terms, tick) && (l.cursor.None? ==> !OnTerminated(tick))
    requires tick.saves && Balances(l, terms)
    ensures Balances(AfterTick(l, terms, tick), terms)
  {
    RentalTick(l, terms, tick);
    if l.cursor.None? {
      TickCases(l, terms, tick);
    } else if Forwards(l, terms, tick) {
      AppendedBalance(terms, l.forwarded, Invoice(StoredTime(l), WindowEnd(tick), None));
    }
  }

  lemma {:induction false} RunBalances(terms: Terms, ticks: seq<Tick>, n: nat)
    requires n <= |ticks| && Rental(terms) && Proper(terms, ticks) && forall i | 0 <= i < |ticks| :: ticks[i].saves
    ensures Balances(Run(EMPTY_LEDGER, terms, ticks[..n]), terms)
  {
    if n > 0 {
      RunBalances(terms, ticks, n - 1);
      ReachableRentalState(terms, ticks, n - 1);
      RunStep(EMPTY_LEDGER, terms, ticks, n - 1);
      TickBalances(Run(EMPTY_LEDGER, terms, ticks[..n - 1]), terms, ticks[n - 1]);
    }
  }

  ghost predicate AllPlain(terms: Terms, invoices: seq<Invoice>) {
    forall i | 0 <= i < |invoices| :: Plain(terms, invoices[i])
  }

  ghost predicate AllExact(terms: Terms, invoices: seq<Invoice>)
    requires Ordinary(terms) && ParsePeriod(terms.period).Some?
  {
    forall i | 0 <= i < |invoices| :: Exact(terms, invoices[i])
  }

  lemma AllExactSnoc(terms: Terms, invoices: seq<Invoice>, inv: Invoice)
    requires Ordinary(terms) && ParsePeriod(terms.period).Some?
    ensures AllExact(terms, invoices + [inv]) <==> AllExact(terms, invoices) && Exact(terms, inv)
  {
    var all := invoices + [inv];
    assert all[|invoices|] == inv && forall i | 0 <= i < |invoices| :: all[i] == invoices[i];
  }

  /** Sums of non-negative losses, each bounded by `c`. */
  lemma LossesAdd(sum: int, n: nat, c: int, loss: int)
    requires 0 <= sum <= n * c && 0 <= loss < c
    ensures 0 <= sum + loss <= (n + 1) * c
    ensures sum + loss == 0 <==> sum == 0 && loss == 0
  {
    assert (n + 1) * c == n * c + c;
  }

  lemma {:induction false} AllLostIff(terms: Terms, invoices: seq<Invoice>)
    requires Rental(terms) && AllPlain(terms, invoices)
    ensures 0 <= AllLost(terms, invoices) <= |invoices| * RentCycle(terms)
    ensures AllLost(terms, invoices) == 0 <==> AllExact(terms, invoices)
  {
    if invoices != [] {
      var n := |invoices| - 1;
      var front, last := invoices[..n], invoices[n];
      assert forall i | 0 <= i < n :: front[i] == invoices[i];
      AllLostIff(terms, front);
      NothingLostIff(terms, last);
      LossesAdd(AllLost(terms, front), n, RentCycle(terms), Lost(terms, last));
      assert invoices == front + [last];
      AllExactSnoc(terms, front, last);
    }
  }

  lemma TickPlain(l: Ledger, terms: Terms, tick: Tick)
    requires Rental(terms) && Sound(l, terms, tick) && AllPlain(terms, l.forwarded)
    requires OnTerminated(tick) ==> WindowEnd(tick) % SECOND == 0
    requires WindowEnd(tick) - StoredTime(l) < TWO63
    ensures AllPlain(terms, AfterTick(l, terms, tick).forwarded)
  {
    RentalTick(l, terms, tick);
  }

  /** Every write is stored, termination times are whole seconds, and windows are within 64 bits. */
  ghost predicate Stored(terms: Terms, ticks: seq<Tick>) {
    forall i | 0 <= i < |ticks| ::
      && ticks[i].saves && (OnTerminated(ticks[i]) ==> WindowEnd(ticks[i]) % SECOND == 0)
      && WindowEnd(ticks[i]) - StoredTime(Run(EMPTY_LEDGER, terms, ticks[..i])) < TWO63
  }

  lemma {:induction false} RunPlain(terms: Terms, ticks: seq<Tick>, n: nat)
    requires n <= |ticks| && Rental(terms) && Proper(terms, ticks) && Stored(terms, ticks)
    ensures AllPlain(terms, Run(EMPTY_LEDGER, terms, ticks[..n]).forwarded)
  {
    if n > 0 {
      RunPlain(terms, ticks, n - 1);
      RunStep(EMPTY_LEDGER, terms, ticks, n - 1);
      TickPlain(Run(EMPTY_LEDGER, terms, ticks[..n - 1]), terms, ticks[n - 1]);
    }
  }

  /** Over every such run, the time from the start date to the cursor is what was charged for plus what was
      lost. Less than a cycle is lost for each invoice, and nothing exactly when the stored window of every
      regular invoice is a multiple of the cycle. */
  lemma RentedTimeIsChargedIff(terms: Terms, ticks: seq<Tick>)
    requires Rental(terms) && Proper(terms, ticks) && Stored(terms, ticks)
    ensures var l := Run(EMPTY_LEDGER, terms, ticks);
            l.cursor.Some? ==>
              var lost := StoredTime(l) - Seconds(terms.start) * SECOND - Charged(terms, l.forwarded);
              && 0 <= lost <= |l.forwarded| * RentCycle(terms)
              && (lost == 0 <==> AllExact(terms, l.forwarded))
  {
    RunBalances(terms, ticks, |ticks|);
    RunPlain(terms, ticks, |ticks|);
    assert ticks[..|ticks|] == ticks;
    AllLostIff(terms, Run(EMPTY_LEDGER, terms, ticks).forwarded);
  }

  // ---------------------------------------------------------------------
  // A contract that is terminated before its first tick.

  /** The first tick of a rental contract that was terminated a cycle or more after 1970. */
  function FirstAndFinal(at: int): Tick {
    Repetition(at).(outcome := Usage(true, []))
  }

  /** It is billed from 1970 on, whatever its start date. */
  lemma TerminatedFirstIsBilledFromEpoch(terms: Terms, at: int)
    requires Rental(terms) && !terms.disabled && at >= RentCycle(terms)
    ensures OnTerminated(FirstAndFinal(at)) && Sound(EMPTY_LEDGER, terms, FirstAndFinal(at))
    ensures AfterTick(EMPTY_LEDGER, terms, FirstAndFinal(at)).forwarded == [Invoice(0, at, None)]
  {
    var tick, period := FirstAndFinal(at), ParsePeriod(terms.period).value;
    CycleIsAtLeastAMinute(terms.period, terms.count);
    assert WindowEnd(tick) == at;
    FullCycleElapsed(0, at, period, terms.count);
    TickCases(EMPTY_LEDGER, terms, tick);
  }

  // ---------------------------------------------------------------------
  // A run that charges twice.

  function Billed(now: int, saves: bool): Tick {
    Tick(now, now, Some(Progress(Accepted, [])), Automatic, Usage(true, []), Nothing, (n: nat) => true, true, saves)
  }

  /** A rental contract by the minute that starts one second after the epoch. */
  const BY_THE_MINUTE: Terms :=
    Terms(FixedRental, "minute", 1, SECOND, 1000 * MINUTE, false, true, true)

  lemma TwoMinutes(inv: Invoice)
    requires inv.from == SECOND && inv.until == SECOND + MINUTE
    ensures FullCycles(BY_THE_MINUTE, inv.from, inv.until) && Charged(BY_THE_MINUTE, [inv, inv]) == 2 * MINUTE
  {
    assert CyclesElapsed(inv.from, inv.until, MINUTE, 1) == 1;
    assert [inv][..0] == [] && [inv, inv][..1] == [inv];
    assert Charged(BY_THE_MINUTE, [inv]) == MINUTE;
  }

  lemma ThreeTicks(terms: Terms, a: Tick, b: Tick, c: Tick, l1: Ledger, l2: Ledger)
    requires AfterTick(EMPTY_LEDGER, terms, a) == l1 && AfterTick(l1, terms, b) == l2
    requires Sound(EMPTY_LEDGER, terms, a) && !OnTerminated(a) && Sound(l1, terms, b) && Sound(l2, terms, c)
    requires l1.cursor.Some? && l2.cursor.Some?
    ensures Proper(terms, [a, b, c]) && Run(EMPTY_LEDGER, terms, [a, b, c]) == AfterTick(l2, terms, c)
  {
    var ticks := [a, b, c];
    RunStep(EMPTY_LEDGER, terms, ticks, 0);
    RunStep(EMPTY_LEDGER, terms, ticks, 1);
    RunStep(EMPTY_LEDGER, terms, ticks, 2);
    assert ticks[..0] == [] && ticks[..3] == ticks;
  }

  lemma FirstMinute(l: Ledger, saves: bool)
    requires l.cursor == Some(1)
    ensures var tick := Billed(SECOND + MINUTE, saves);
            var inv := Invoice(SECOND, SECOND + MINUTE, None);
            && Sound(l, BY_THE_MINUTE, tick)
            && AfterTick(l, BY_THE_MINUTE, tick).forwarded == l.forwarded + [inv]
            && (!saves ==> AfterTick(l, BY_THE_MINUTE, tick) == l.(forwarded := l.forwarded + [inv]))
  {
    TwoMinutes(Invoice(SECOND, SECOND + MINUTE, None));
    TickCases(l, BY_THE_MINUTE, Billed(SECOND + MINUTE, saves));
  }

  /** A run whose first invoice is forwarded while its cursor cannot be stored: the same minute is
      invoiced again, and two minutes are charged for in one. */
  lemma UnsavedWriteChargesTwice()
    ensures var end := SECOND + MINUTE;
            var ticks := [Billed(end, true).(outcome := Failed), Billed(end, false), Billed(end, true)];
            && Rental(BY_THE_MINUTE) && Proper(BY_THE_MINUTE, ticks)
            && var invoices := Run(EMPTY_LEDGER, BY_THE_MINUTE, ticks).forwarded;
            && Charged(BY_THE_MINUTE, invoices) == 2 * MINUTE
            && |invoices| == 2 && invoices[1].until - Seconds(BY_THE_MINUTE.start) * SECOND == MINUTE
  {
    var terms, end := BY_THE_MINUTE, SECOND + MINUTE;
    var inv := Invoice(SECOND, end, None);
    var l1, l2 := Ledger(Some(1), [], []), Ledger(Some(1), [], [inv]);
    FirstMinute(l1, false);
    FirstMinute(l2, true);
    TwoMinutes(inv);
    assert [] + [inv] == [inv] && [inv] + [inv] == [inv, inv];
    ThreeTicks(terms, Billed(end, true).(outcome := Failed), Billed(end, false), Billed(end, true), l1, l2);
  }
}
