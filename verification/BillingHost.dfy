/** Automatic billing of one contract: each tick reads the contract and the stored cursor (the time up
    to which usage was processed), asks the payment processor, forwards invoices and moves the cursor.
    Times are nanoseconds since the Unix epoch; the store keeps whole seconds. */
module BillingHost {
  import opened Envelopes
  import opened Contracts
  import opened BillingTrigger
  import opened BillingPeriods

  datatype Model = FixedRental | Periodic | PayPerUse | Unsupported

  /** The terms of a contract that billing depends on. PayPerUse stands for the four models that are
      invoiced by measured usage. */
  datatype Terms = Terms(
    model: Model, period: string, count: int, start: int, end: int,
    disabled: bool, feeParses: bool, unitKnown: bool)

  /** The changing part of the contract record. */
  datatype Progress = Progress(state: State, log: seq<Transition>)

  datatype Processor = Missing | ManualOnly | Automatic

  /** What a processor answers: usage (with the deployments a periodic invoice is split into), nothing,
      or one of its errors. `fits` says whether the data has the type the model expects. */
  datatype Outcome =
    | Usage(fits: bool, deployments: seq<string>)
    | Nothing
    | PeriodNotElapsed
    | NoDeployments
    | Failed

  /** Everything a tick learns from outside: the clock when the end date is checked and when billing
      starts, the stored contract, the processor's answers, which forward calls succeed, and whether
      the usage store can be read and written. */
  datatype Tick = Tick(
    checkedAt: int, now: int,
    contract: Option<Progress>,
    processor: Processor,
    outcome: Outcome,
    proRated: Outcome,
    delivers: nat -> bool,
    readable: bool,
    saves: bool)

  /** An invoice, by the window [from, until] that the tick asked about. The period that a periodic or rental
      invoice names is another one, see NamedPeriods. */
  datatype Invoice = Invoice(from: int, until: int, deployment: Option<string>)

  /** What one cursor move accounts for, in whole seconds: the invoices forwarded for it, or a skip. */
  datatype Span = Span(from: int, until: int, skipped: bool, invoices: seq<Invoice>)

  /** `cursor` is the stored second, None before anything was stored. `spans` records the cursor moves
      and `forwarded` the delivered invoices, in order. */
  datatype Ledger = Ledger(cursor: Option<int>, spans: seq<Span>, forwarded: seq<Invoice>)

  const EMPTY_LEDGER: Ledger := Ledger(None, [], [])

  /** A missing record reads as the epoch. */
  function StoredTime(l: Ledger): int {
    if l.cursor.Some? then l.cursor.value * SECOND else 0
  }

  // ---------------------------------------------------------------------
  // Sending.

  /** The deliveries among the first `n` deployments; the i-th forward call of the tick is for the i-th
      deployment. */
  function Delivered(deployments: seq<string>, n: nat, from: int, until: int, delivers: nat -> bool): seq<Invoice>
    requires n <= |deployments|
  {
    if n == 0 then []
    else
      Delivered(deployments, n - 1, from, until, delivers) +
      (if delivers(n - 1) then [Invoice(from, until, Some(deployments[n - 1]))] else [])
  }

  /** The invoices that reach the payment validator. */
  function Invoices(terms: Terms, usage: Outcome, from: int, until: int, delivers: nat -> bool): seq<Invoice>
    requires usage.Usage?
  {
    if !usage.fits then []
    else match terms.model
      case Periodic =>
        if terms.feeParses && terms.unitKnown
        then Delivered(usage.deployments, |usage.deployments|, from, until, delivers) else []
      case Unsupported => []
      case _ => if delivers(0) then [Invoice(from, until, None)] else []
  }

  /** Whether sending ends with the cursor being saved: a periodic invoice saves even if deliveries
      failed, the other models only after a successful delivery. */
  predicate SendSaves(terms: Terms, usage: Outcome, delivers: nat -> bool)
    requires usage.Usage?
  {
    usage.fits &&
    match terms.model
    case Periodic => terms.feeParses
    case Unsupported => false
    case _ => delivers(0)
  }

  function Moved(l: Ledger, second: int, skipped: bool, invoices: seq<Invoice>): Ledger {
    l.(cursor := Some(second), spans := l.spans + [Span(Seconds(StoredTime(l)), second, skipped, invoices)])
  }

  function Sent(l: Ledger, terms: Terms, usage: Outcome, until: int, tick: Tick): Ledger
    requires usage.Usage?
  {
    var invoices := Invoices(terms, usage, StoredTime(l), until, tick.delivers);
    var l1 := l.(forwarded := l.forwarded + invoices);
    if SendSaves(terms, usage, tick.delivers) && tick.saves then Moved(l1, Seconds(until), false, invoices) else l1
  }

  // ---------------------------------------------------------------------
  // One tick.

  /** Time of the latest logged termination among the first `n` transitions, or the zero time. */
  function TerminationTime(log: seq<Transition>, n: nat): int
    requires n <= |log|
  {
    if n == 0 then ZERO_TIME
    else if log[n - 1].into == Terminated then log[n - 1].at
    else TerminationTime(log, n - 1)
  }

  function EndTime(progress: Progress, now: int): int {
    var t := TerminationTime(progress.log, |progress.log|);
    if t == ZERO_TIME then now else t
  }

  predicate CanProRate(terms: Terms) {
    terms.model == Periodic || terms.model == FixedRental
  }

  function FinalTick(l: Ledger, terms: Terms, progress: Progress, tick: Tick): Ledger {
    var end := EndTime(progress, tick.now);
    if !tick.readable || StoredTime(l) == ZERO_TIME || end - StoredTime(l) <= 0 then
      l
    else
      match tick.outcome
      case Usage(_, _) => Sent(l, terms, tick.outcome, end, tick)
      case PeriodNotElapsed =>
        if CanProRate(terms) && tick.proRated.Usage? then Sent(l, terms, tick.proRated, end, tick) else l
      case _ => l
  }

  predicate Uninitialised(l: Ledger) {
    StoredTime(l) == ZERO_TIME || StoredTime(l) == 0
  }

  function RegularTick(l: Ledger, terms: Terms, tick: Tick): Ledger {
    if !tick.readable then
      l
    else if Uninitialised(l) then
      if tick.saves then l.(cursor := Some(Seconds(terms.start))) else l
    else
      match tick.outcome
      case Usage(_, _) => Sent(l, terms, tick.outcome, tick.now, tick)
      case NoDeployments =>
        if terms.model == Periodic && ParsePeriod(terms.period).Some? && tick.saves
        then Moved(l, Seconds(StoredTime(l) + BillingCycle(terms.period, terms.count)), true, [])
        else l
      case _ => l
  }

  predicate Bills(terms: Terms, tick: Tick) {
    tick.contract.Some? && !terms.disabled && tick.processor.Automatic?
  }

  predicate Over(terms: Terms, progress: Progress, tick: Tick) {
    progress.state == Completed || tick.checkedAt > terms.end
  }

  function AfterTick(l: Ledger, terms: Terms, tick: Tick): Ledger {
    if !Bills(terms, tick) then l
    else if tick.contract.value.state == Terminated then FinalTick(l, terms, tick.contract.value, tick)
    else if Over(terms, tick.contract.value, tick) then l
    else RegularTick(l, terms, tick)
  }

  /** Whether the routine reports that billing should stop. */
  predicate Stops(terms: Terms, tick: Tick) {
    tick.contract.Some? &&
    (terms.disabled || !tick.processor.Automatic? || tick.contract.value.state == Terminated ||
     Over(terms, tick.contract.value, tick))
  }

  // ---------------------------------------------------------------------
  // The contract actor's billing, as the source has it.

  class ContractActor {
    const terms: Terms
    var cursor: Option<int>
    ghost var spans: seq<Span>
    var forwarded: seq<Invoice>

    ghost function View(): Ledger
      reads this
    {
      Ledger(cursor, spans, forwarded)
    }

    constructor (terms: Terms)
      ensures View() == EMPTY_LEDGER && this.terms == terms
    {
      this.terms := terms;
      cursor, spans, forwarded := None, [], [];
    }

    method GetLastProcessedAt() returns (t: int)
      ensures t == StoredTime(View())
    {
      return if cursor.Some? then cursor.value * SECOND else 0;
    }

    /** Stores the second of `t`, which is what reading gives back, less than a second before `t`; the
        ghost arguments say what the move accounts for. */
    method SaveLastProcessedAt(t: int, ghost skipped: bool, ghost invoices: seq<Invoice>)
      modifies this
      ensures View() == Moved(old(View()), Seconds(t), skipped, invoices)
      ensures StoredTime(View()) == t - t % SECOND
    {
      spans := spans + [Span(Seconds(StoredTime(View())), Seconds(t), skipped, invoices)];
      cursor := Some(t / SECOND);
    }

    /** One invoice per deployment; failed deliveries are passed over. */
    method SendPeriodicInvoice(usage: Outcome, until: int, tick: Tick)
      requires usage.Usage? && usage.fits && terms.model == Periodic
      modifies this
      ensures View() == Sent(old(View()), terms, usage, until, tick)
    {
      if !terms.feeParses {
        return;
      }
      var from := GetLastProcessedAt();
      ghost var before := forwarded;
      var i := 0;
      while i < |usage.deployments|
        invariant i <= |usage.deployments| && cursor == old(cursor) && spans == old(spans)
        invariant forwarded ==
                  before + (if terms.unitKnown then Delivered(usage.deployments, i, from, until, tick.delivers) else [])
      {
        if terms.unitKnown {
          if tick.delivers(i) {
            forwarded := forwarded + [Invoice(from, until, Some(usage.deployments[i]))];
          }
        }
        i := i + 1;
      }
      if tick.saves {
        SaveLastProcessedAt(until, false, Invoices(terms, usage, from, until, tick.delivers));
      }
    }

    method SendInvoice(usage: Outcome, until: int, tick: Tick)
      requires usage.Usage?
      modifies this
      ensures View() == Sent(old(View()), terms, usage, until, tick)
    {
      if !usage.fits || terms.model == Unsupported {
        return;
      }
      if terms.model == Periodic {
        SendPeriodicInvoice(usage, until, tick);
        return;
      }
      if !tick.delivers(0) {
        return;
      }
      var from := GetLastProcessedAt();
      forwarded := forwarded + [Invoice(from, until, None)];
      if tick.saves {
        SaveLastProcessedAt(until, false, [Invoice(from, until, None)]);
      }
    }

    method FindTermination(log: seq<Transition>) returns (t: int)
      ensures t == TerminationTime(log, |log|)
    {
      var i := |log| - 1;
      while i >= 0
        invariant -1 <= i < |log|
        invariant TerminationTime(log, |log|) == TerminationTime(log, i + 1)
      {
        if log[i].into == Terminated {
          return log[i].at;
        }
        i := i - 1;
      }
      return ZERO_TIME;
    }

    method HandleTerminated(progress: Progress, tick: Tick)
      modifies this
      ensures View() == FinalTick(old(View()), terms, progress, tick)
    {
      if !tick.readable {
        return;
      }
      var last := GetLastProcessedAt();
      if last == ZERO_TIME {
        return;
      }
      var end := FindTermination(progress.log);
      if end == ZERO_TIME {
        end := tick.now;
      }
      if end - last <= 0 {
        return;
      }
      if tick.outcome.PeriodNotElapsed? {
        if CanProRate(terms) && tick.proRated.Usage? {
          SendInvoice(tick.proRated, end, tick);
        }
        return;
      }
      if tick.outcome.Usage? {
        SendInvoice(tick.outcome, end, tick);
      }
    }

    method CheckAndGenerateInvoice(tick: Tick) returns (stop: bool)
      modifies this
      ensures View() == AfterTick(old(View()), terms, tick)
      ensures stop <==> Stops(terms, tick)
    {
      if tick.contract.None? {
        return false;
      }
      if terms.disabled || tick.processor.Missing? || tick.processor.ManualOnly? {
        return true;
      }
      var progress := tick.contract.value;
      if progress.state == Terminated {
        HandleTerminated(progress, tick);
        return true;
      }
      if progress.state == Completed || tick.checkedAt > terms.end {
        return true;
      }
      stop := false;
      if !tick.readable {
        return;
      }
      var last := GetLastProcessedAt();
      if last == ZERO_TIME || last == 0 {
        if tick.saves {
          cursor := Some(terms.start / SECOND);
        }
        return;
      }
      match tick.outcome {
        case Usage(_, _) =>
          SendInvoice(tick.outcome, tick.now, tick);
        case NoDeployments =>
          if terms.model == Periodic {
            var period := ParsePeriod(terms.period);
            if period.Some? && tick.saves {
              var count := if terms.count <= 0 then 1 else terms.count;
              SaveLastProcessedAt(last + Wrap64(period.value * count), true, []);
            }
          }
        case _ =>
      }
    }
  }
}
