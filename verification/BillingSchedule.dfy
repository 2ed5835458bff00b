/** The scheduler with billing: after a billing run that ends without an error the trigger is set to the
    stored cursor. Which firings follow from that, and when each due time is served once. */
module BillingSchedule {
  import opened Envelopes
  import opened BillingTrigger
  import opened BillingPolls
  import opened BillingPeriods
  import opened BillingHost
  import opened BillingRuns

  // ---------------------------------------------------------------------
  // Polls and updates, in any order.

  /** A poll, or an update of the trigger by a billing run. `cursor` is the stored cursor, or the current
      time if it cannot be read. Billing runs on goroutines of its own, so polls may come in between. */
  datatype Event = Polled(poll: Poll) | Updated(cursor: int, now: int)

  /** A firing at `at` that was due since `due`. `since` is the latest of the previous mark and the updates
      after it, and `cursor` what the last of these updates brought. */
  datatype Firing = Firing(due: int, at: int, since: int, cursor: Option<int>)

  function Fired(t: Trigger, since: int, cursor: Option<int>, events: seq<Event>): seq<Firing>
    requires t.cycle != 0
    decreases |events|
  {
    if events == [] then []
    else match events[0]
      case Polled(p) =>
        if IsReady(t, p.at)
        then [Firing(t.nextCheck, p.at, since, cursor)] + Fired(Restarted(t, p.mark), p.mark, None, events[1..])
        else Fired(t, since, cursor, events[1..])
      case Updated(c, now) => Fired(Invoiced(t, c, now), Max(since, now), Some(c), events[1..])
  }

  /** Polls are in order and marked after they are made; an update is later than the polls before it. */
  ghost predicate Ordered(seen: int, events: seq<Event>)
    decreases |events|
  {
    events == [] ||
    match events[0]
    case Polled(p) => seen <= p.at <= p.mark && Ordered(p.at, events[1..])
    case Updated(_, now) => seen <= now && Ordered(seen, events[1..])
  }

  /** Every poll is at most POLL after the polling goroutine was free. */
  ghost predicate Prompt(t: Trigger, free: int, events: seq<Event>)
    requires t.cycle != 0
    decreases |events|
  {
    events == [] ||
    match events[0]
    case Polled(p) => p.at <= free + POLL && Prompt(AfterPoll(t, p), FreeAfter(t, free, p), events[1..])
    case Updated(c, now) => Prompt(Invoiced(t, c, now), free, events[1..])
  }

  /** Every firing is at or after its due time, and at most one poll after that time, the previous mark and
      the updates since. */
  lemma {:induction false} FiringsArePrompt(
    t: Trigger, seen: int, free: int, since: int, cursor: Option<int>, events: seq<Event>, j: nat)
    requires t.cycle != 0 && Ordered(seen, events) && Prompt(t, free, events)
    requires free <= Max(since, seen) && seen <= Max(t.nextCheck - 1, since)
    requires j < |Fired(t, since, cursor, events)|
    ensures var f := Fired(t, since, cursor, events)[j]; f.due <= f.at <= Max(f.due - 1, f.since) + POLL
    decreases |events|
  {
    var rest := events[1..];
    match events[0]
    case Polled(p) =>
      if !IsReady(t, p.at) {
        FiringsArePrompt(t, p.at, Max(free, p.at), since, cursor, rest, j);
      } else if j > 0 {
        FiringsArePrompt(Restarted(t, p.mark), p.at, p.mark, p.mark, None, rest, j - 1);
      }
    case Updated(c, now) =>
      FiringsArePrompt(Invoiced(t, c, now), seen, free, Max(since, now), Some(c), rest, j);
  }

  function Polls(polls: seq<Poll>): seq<Event> {
    seq(|polls|, i requires 0 <= i < |polls| => Polled(polls[i]))
  }

  /** Once a poll is at or after the next check, the trigger has fired, and the first firing was due then. */
  lemma {:induction false} PollsFire(t: Trigger, seen: int, since: int, cursor: Option<int>, polls: seq<Poll>)
    requires t.cycle != 0 && polls != [] && LastPoll(seen, polls) >= t.nextCheck
    ensures var fires := Fired(t, since, cursor, Polls(polls));
            fires != [] && fires[0].due == t.nextCheck && fires[0].since == since && fires[0].cursor == cursor
    decreases |polls|
  {
    assert Polls(polls)[1..] == Polls(polls[1..]);
    if !IsReady(t, polls[0].at) {
      LastPollTail(seen, polls);
      PollsFire(t, polls[0].at, since, cursor, polls[1..]);
    }
  }

  /** After the trigger is set to a cursor that is not in the future, the next firing is due a cycle after
      it, comes within one poll of that time or of the update, and has come once a poll is that late. */
  lemma NextFiringAfterUpdate(t: Trigger, seen: int, free: int, c: int, now: int, polls: seq<Poll>)
    requires 0 < t.interval <= t.cycle && FitsInt64(t.cycle) && c <= now && seen <= now && free <= now
    requires Ordered(seen, Polls(polls)) && Prompt(Invoiced(t, c, now), free, Polls(polls))
    requires LastPoll(seen, polls) >= c + t.cycle && polls != []
    ensures var fires := Fired(Invoiced(t, c, now), now, Some(c), Polls(polls));
            fires != [] && fires[0].due == c + t.cycle <= fires[0].at <= Max(c + t.cycle - 1, now) + POLL
  {
    CheckOneCycleAfterInvoice(t, c, now);
    PollsFire(Invoiced(t, c, now), seen, now, Some(c), polls);
    FiringsArePrompt(Invoiced(t, c, now), seen, free, now, Some(c), Polls(polls), 0);
  }

  // ---------------------------------------------------------------------
  // No due time is served twice.

  /** The cursor that came between two firings, if any, is less than a cycle behind the earlier due time. */
  ghost predicate Renewed(cycle: int, cursor: Option<int>, due: int) {
    cursor.None? || cursor.value + cycle > due
  }

  ghost predicate Advances(fires: seq<Firing>) {
    forall j | 0 < j < |fires| :: fires[j - 1].due < fires[j].due
  }

  ghost predicate AllRenewed(cycle: int, fires: seq<Firing>) {
    forall j | 0 < j < |fires| :: Renewed(cycle, fires[j].cursor, fires[j - 1].due)
  }

  lemma UpdateRenews(t: Trigger, c: int, now: int, due: int)
    requires 0 < t.interval <= t.cycle && FitsInt64(t.cycle) && due <= now
    ensures Invoiced(t, c, now).nextCheck > due <==> c + t.cycle > due
  {
    if c <= now {
      CheckOneCycleAfterInvoice(t, c, now);
    }
  }

  lemma {:induction false} FiringsAdvance(
    t: Trigger, seen: int, since: int, cursor: Option<int>, events: seq<Event>, due: int, j: nat)
    requires 0 < t.interval <= t.cycle && FitsInt64(t.cycle) && Ordered(seen, events) && due <= seen
    requires t.nextCheck > due <==> Renewed(t.cycle, cursor, due)
    ensures var fires := Fired(t, since, cursor, events);
            j < |fires| ==>
              var before := if j == 0 then due else fires[j - 1].due;
              before < fires[j].due <==> Renewed(t.cycle, fires[j].cursor, before)
    decreases |events|
  {
    if events != [] {
      var rest := events[1..];
      match events[0]
      case Polled(p) =>
        if !IsReady(t, p.at) {
          FiringsAdvance(t, p.at, since, cursor, rest, due, j);
        } else if j > 0 {
          FiringsAdvance(Restarted(t, p.mark), p.at, p.mark, None, rest, t.nextCheck, j - 1);
        }
      case Updated(c, now) =>
        UpdateRenews(t, c, now, due);
        FiringsAdvance(Invoiced(t, c, now), seen, Max(since, now), Some(c), rest, due, j);
    }
  }

  lemma {:induction false} FiringsAdvanceFrom(
    t: Trigger, seen: int, since: int, cursor: Option<int>, events: seq<Event>, j: nat)
    requires 0 < t.interval <= t.cycle && FitsInt64(t.cycle) && Ordered(seen, events) && j > 0
    ensures var fires := Fired(t, since, cursor, events);
            j < |fires| ==>
              (fires[j - 1].due < fires[j].due <==> Renewed(t.cycle, fires[j].cursor, fires[j - 1].due))
    decreases |events|
  {
    if events != [] {
      var rest := events[1..];
      match events[0]
      case Polled(p) =>
        if !IsReady(t, p.at) {
          FiringsAdvanceFrom(t, p.at, since, cursor, rest, j);
        } else {
          FiringsAdvance(Restarted(t, p.mark), p.at, p.mark, None, rest, t.nextCheck, j - 1);
        }
      case Updated(c, now) =>
        FiringsAdvanceFrom(Invoiced(t, c, now), seen, Max(since, now), Some(c), rest, j);
    }
  }

  /** Over every series of polls and updates, each due time is later than the one before it exactly when
      no update between two firings brings a cursor that is a cycle or more behind the earlier due time. */
  lemma NoDueServedTwiceIff(t: Trigger, seen: int, since: int, events: seq<Event>)
    requires 0 < t.interval <= t.cycle && FitsInt64(t.cycle) && Ordered(seen, events)
    ensures var fires := Fired(t, since, None, events); Advances(fires) <==> AllRenewed(t.cycle, fires)
  {
    var fires := Fired(t, since, None, events);
    forall j | 0 < j < |fires|
      ensures fires[j - 1].due < fires[j].due <==> Renewed(t.cycle, fires[j].cursor, fires[j - 1].due)
    {
      FiringsAdvanceFrom(t, seen, since, None, events, j);
    }
  }

  // ---------------------------------------------------------------------
  // The trigger and the ledger together.

  /** A poll, the billing tick that runs if it fires, and the time of the update after it. Here billing
      ends before the next poll. */
  datatype Turn = Turn(poll: Poll, tick: Tick, now: int)

  function LedgerAfter(t: Trigger, l: Ledger, terms: Terms, turn: Turn): Ledger {
    if IsReady(t, turn.poll.at) then AfterTick(l, terms, turn.tick) else l
  }

  /** A billing run that reports that billing should stop ends with an error, without an update. */
  function TriggerAfter(t: Trigger, l: Ledger, terms: Terms, turn: Turn): Trigger
    requires t.cycle != 0
  {
    var t1 := AfterPoll(t, turn.poll);
    if !IsReady(t, turn.poll.at) || Stops(terms, turn.tick) then t1
    else Invoiced(t1, StoredTime(AfterTick(l, terms, turn.tick)), turn.now)
  }

  /** Whether a regular billing run stores a new cursor: it can read and write the store, and has usage
      that is delivered, or, in the periodic model, usage or nothing to bill. */
  predicate Settles(terms: Terms, tick: Tick) {
    && tick.contract.Some? && tick.readable && tick.saves
    && match terms.model
       case Periodic => tick.outcome.Usage? || tick.outcome.NoDeployments?
       case Unsupported => false
       case _ => tick.outcome.Usage? && tick.delivers(0)
  }

  /** When it was due, and whether its billing run settled. */
  datatype Service = Service(due: int, settled: bool)

  function Services(t: Trigger, l: Ledger, terms: Terms, turns: seq<Turn>): seq<Service>
    requires t.cycle != 0
    decreases |turns|
  {
    if turns == [] then []
    else
      var turn := turns[0];
      (if IsReady(t, turn.poll.at) then [Service(t.nextCheck, Settles(terms, turn.tick))] else []) +
      Services(TriggerAfter(t, l, terms, turn), LedgerAfter(t, l, terms, turn), terms, turns[1..])
  }

  ghost predicate RegularTurn(l: Ledger, terms: Terms, turn: Turn) {
    && Sound(l, terms, turn.tick) && !Stops(terms, turn.tick)
    && turn.poll.at <= turn.poll.mark <= turn.tick.now <= turn.now
  }

  /** Every billing run of the turns is sound, and none of them stops billing. */
  ghost predicate Regular(t: Trigger, l: Ledger, terms: Terms, turns: seq<Turn>)
    requires t.cycle != 0
    decreases |turns|
  {
    turns == [] ||
    var turn := turns[0];
    && (IsReady(t, turn.poll.at) ==> RegularTurn(l, terms, turn))
    && Regular(TriggerAfter(t, l, terms, turn), LedgerAfter(t, l, terms, turn), terms, turns[1..])
  }

  /** The trigger is due a cycle after the cursor, as every update leaves it. */
  ghost predicate InStep(t: Trigger, l: Ledger, terms: Terms) {
    && Ordinary(terms) && t.cycle == BillingCycle(terms.period, terms.count) && t.interval == CheckInterval(t.cycle)
    && t.nextCheck == StoredTime(l) + t.cycle && Accounted(l, Seconds(terms.start), terms.model)
  }

  /** The first regular turn of a contract that has started puts them in step. */
  lemma FirstTurnSetsStep(t: Trigger, terms: Terms, turn: Turn)
    requires Ordinary(terms) && t.cycle == BillingCycle(terms.period, terms.count)
    requires t.interval == CheckInterval(t.cycle) && IsReady(t, turn.poll.at)
    requires Opens(EMPTY_LEDGER, terms, turn.tick) && terms.start <= turn.now
    ensures LedgerAfter(t, EMPTY_LEDGER, terms, turn) == Opened(terms)
    ensures InStep(TriggerAfter(t, EMPTY_LEDGER, terms, turn), Opened(terms), terms)
  {
    CycleIsAtLeastAMinute(terms.period, terms.count);
    IntervalLeavesRoom(t.cycle);
    TickCases(EMPTY_LEDGER, terms, turn.tick);
    CheckOneCycleAfterInvoice(AfterPoll(t, turn.poll), StoredTime(Opened(terms)), turn.now);
  }

  /** The trigger and the processors agree: when the trigger fires in step, a full cycle is counted, and no
      sound processor answers that the period has not elapsed. */
  lemma FiringFindsFullCycle(t: Trigger, l: Ledger, terms: Terms, turn: Turn)
    requires InStep(t, l, terms) && IsReady(t, turn.poll.at) && RegularTurn(l, terms, turn)
    requires ParsePeriod(terms.period).Some?
    ensures CyclesAt(l, terms, turn.tick.now) >= 1 && !turn.tick.outcome.PeriodNotElapsed?
  {
    CycleIsAtLeastAMinute(terms.period, terms.count);
    FullCycleElapsed(StoredTime(l), turn.tick.now, ParsePeriod(terms.period).value, terms.count);
  }

  lemma CountedCycleIsStored(l: Ledger, terms: Terms, now: int)
    requires Ordinary(terms) && ParsePeriod(terms.period).Some? && CyclesAt(l, terms, now) >= 1
    ensures StoredTime(l) + BillingCycle(terms.period, terms.count) <= Seconds(now) * SECOND <= now
    ensures BillingCycle(terms.period, terms.count) % SECOND == 0
  {
    var period := ParsePeriod(terms.period).value;
    CycleIsAtLeastAMinute(terms.period, terms.count);
    CycleIsWhole(period, terms.count);
    ElapsedCycleIsPast(StoredTime(l), now, period, terms.count);
    WholeSecondsBelow(StoredTime(l), Cycle(period, terms.count), now);
  }

  /** What a regular billing run stores. */
  lemma SettlingStores(l: Ledger, terms: Terms, tick: Tick)
    requires l.cursor.Some? && !Uninitialised(l) && Sound(l, terms, tick) && !Stops(terms, tick)
    ensures AfterTick(l, terms, tick).cursor ==
            if !Settles(terms, tick) then l.cursor
            else if tick.outcome.Usage? then Some(Seconds(tick.now))
            else Some(SkippedTo(l, terms))
  {
    TickCases(l, terms, tick);
  }

  /** A regular billing run that settles moves the cursor by a cycle or more, not past its own clock; any
      other leaves it. */
  lemma SettlingMovesACycle(l: Ledger, terms: Terms, tick: Tick)
    requires Accounted(l, Seconds(terms.start), terms.model) && Ordinary(terms) && Sound(l, terms, tick)
    requires !Stops(terms, tick) && StoredTime(l) <= tick.now
    ensures var l' := AfterTick(l, terms, tick);
            && StoredTime(l') <= tick.now
            && if Settles(terms, tick) then StoredTime(l) + BillingCycle(terms.period, terms.count) <= StoredTime(l')
               else l'.cursor == l.cursor
  {
    SettlingStores(l, terms, tick);
    if Settles(terms, tick) {
      CountedCycleIsStored(l, terms, tick.now);
      WholeSum(l.cursor.value, BillingCycle(terms.period, terms.count));
    }
  }

  lemma WholeSum(second: int, cycle: int)
    requires cycle % SECOND == 0
    ensures Seconds(second * SECOND + cycle) * SECOND == second * SECOND + cycle
  {
  }

  lemma TurnKeepsStep(t: Trigger, l: Ledger, terms: Terms, turn: Turn)
    requires InStep(t, l, terms) && IsReady(t, turn.poll.at) && RegularTurn(l, terms, turn)
    ensures var t', l' := TriggerAfter(t, l, terms, turn), LedgerAfter(t, l, terms, turn);
            && InStep(t', l', terms)
            && if Settles(terms, turn.tick) then t.nextCheck + t.cycle <= t'.nextCheck
               else t'.nextCheck == t.nextCheck && l'.cursor == l.cursor
  {
    CycleIsAtLeastAMinute(terms.period, terms.count);
    IntervalLeavesRoom(t.cycle);
    SettlingMovesACycle(l, terms, turn.tick);
    TickAccounted(l, terms, turn.tick);
    var l' := AfterTick(l, terms, turn.tick);
    CheckOneCycleAfterInvoice(AfterPoll(t, turn.poll), StoredTime(l'), turn.now);
  }

  /** What a billing run means for the next due time: a cycle or more later if it settled, the same again
      if it did not. */
  ghost predicate Follows(a: Service, b: Service, cycle: int) {
    if a.settled then a.due + cycle <= b.due else b.due == a.due
  }

  lemma {:induction false} ServicesFollow(t: Trigger, l: Ledger, terms: Terms, turns: seq<Turn>)
    requires t.cycle != 0 && InStep(t, l, terms) && Regular(t, l, terms, turns)
    ensures var services := Services(t, l, terms, turns);
            && (services != [] ==> services[0].due == t.nextCheck)
            && forall j | 0 < j < |services| :: Follows(services[j - 1], services[j], t.cycle)
    decreases |turns|
  {
    if turns != [] {
      var turn := turns[0];
      var t', l' := TriggerAfter(t, l, terms, turn), LedgerAfter(t, l, terms, turn);
      if IsReady(t, turn.poll.at) {
        TurnKeepsStep(t, l, terms, turn);
      }
      ServicesFollow(t', l', terms, turns[1..]);
    }
  }

  ghost predicate Apart(services: seq<Service>, cycle: int) {
    forall j | 0 < j < |services| :: services[j - 1].due + cycle <= services[j].due
  }

  ghost predicate AllButLastSettled(services: seq<Service>) {
    forall j | 0 <= j < |services| - 1 :: services[j].settled
  }

  /** Over every run of trigger and ledger, the firings are for due times a cycle or more apart, hence one
      for each, exactly when every billing run before another one settled: it could read and write the
      store, and had something to bill that was delivered, or nothing to bill in the periodic model. After
      one that did not, the same due time is served again. */
  lemma OneFiringPerCycleIff(t: Trigger, l: Ledger, terms: Terms, turns: seq<Turn>)
    requires t.cycle != 0 && InStep(t, l, terms) && Regular(t, l, terms, turns)
    ensures var services := Services(t, l, terms, turns);
            && (Apart(services, t.cycle) <==> AllButLastSettled(services))
            && forall j | 0 < j < |services| && !services[j - 1].settled :: services[j].due == services[j - 1].due
  {
    CycleIsAtLeastAMinute(terms.period, terms.count);
    ServicesFollow(t, l, terms, turns);
    var services := Services(t, l, terms, turns);
    if Apart(services, t.cycle) {
      forall j | 0 <= j < |services| - 1
        ensures services[j].settled
      {
        assert Follows(services[j], services[j + 1], t.cycle);
        assert services[j].due + t.cycle <= services[j + 1].due;
      }
    }
  }

  ghost predicate AllAre(services: seq<Service>, service: Service) {
    forall i | 0 <= i < |services| :: services[i] == service
  }

  /** While nothing settles, every poll fires once the cursor is a cycle behind, for the same due time, and
      the cursor stays. */
  lemma {:induction false} UnsettledFiresAtEveryPoll(t: Trigger, l: Ledger, terms: Terms, turns: seq<Turn>)
    requires t.cycle != 0 && InStep(t, l, terms) && Regular(t, l, terms, turns)
    requires forall i | 0 <= i < |turns| ::
               turns[i].poll.at >= StoredTime(l) + t.cycle && !Settles(terms, turns[i].tick)
    ensures var services := Services(t, l, terms, turns);
            |services| == |turns| && AllAre(services, Service(StoredTime(l) + t.cycle, false))
    decreases |turns|
  {
    if turns != [] {
      var t', l' := TriggerAfter(t, l, terms, turns[0]), LedgerAfter(t, l, terms, turns[0]);
      var rest := turns[1..];
      TurnKeepsStep(t, l, terms, turns[0]);
      assert forall i | 0 <= i < |rest| :: rest[i] == turns[i + 1];
      UnsettledFiresAtEveryPoll(t', l', terms, rest);
      assert Services(t, l, terms, turns) == [Service(t.nextCheck, false)] + Services(t', l', terms, rest);
    }
  }

  // ---------------------------------------------------------------------
  // Turns are polls and updates.

  /** What the trigger sees of the turns. */
  function Seen(t: Trigger, l: Ledger, terms: Terms, turns: seq<Turn>): seq<Event>
    requires t.cycle != 0
    decreases |turns|
  {
    if turns == [] then []
    else
      var turn := turns[0];
      var l' := LedgerAfter(t, l, terms, turn);
      [Polled(turn.poll)] +
      (if IsReady(t, turn.poll.at) && !Stops(terms, turn.tick) then [Updated(StoredTime(l'), turn.now)] else []) +
      Seen(TriggerAfter(t, l, terms, turn), l', terms, turns[1..])
  }

  ghost predicate SameDues(fires: seq<Firing>, services: seq<Service>) {
    |fires| == |services| && forall i | 0 <= i < |fires| :: fires[i].due == services[i].due
  }

  /** The two views of a run have the same firings. */
  lemma {:induction false} TurnsFire(
    t: Trigger, l: Ledger, terms: Terms, turns: seq<Turn>, since: int, cursor: Option<int>)
    requires t.cycle != 0
    ensures SameDues(Fired(t, since, cursor, Seen(t, l, terms, turns)), Services(t, l, terms, turns))
    decreases |turns|
  {
    if turns != [] {
      var turn, events := turns[0], Seen(t, l, terms, turns);
      var t', l' := TriggerAfter(t, l, terms, turn), LedgerAfter(t, l, terms, turn);
      var rest := Seen(t', l', terms, turns[1..]);
      if !IsReady(t, turn.poll.at) {
        assert events[1..] == rest;
        TurnsFire(t', l', terms, turns[1..], since, cursor);
      } else if Stops(terms, turn.tick) {
        assert events[1..] == rest;
        TurnsFire(t', l', terms, turns[1..], turn.poll.mark, None);
      } else {
        var c := StoredTime(l');
        assert events[1..] == [Updated(c, turn.now)] + rest && events[1..][1..] == rest;
        TurnsFire(t', l', terms, turns[1..], Max(turn.poll.mark, turn.now), Some(c));
      }
    }
  }
}
