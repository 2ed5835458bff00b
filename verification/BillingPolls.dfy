/** The scheduler polls a trigger: which periods are served when the invoice time stays the same, and how
    slow marking may be. */
module BillingPolls {
  import opened Envelopes
  import opened BillingTrigger

  /** One look at the trigger at time `at`; if it is ready it is marked at `mark`, until when the polling
      goroutine is held up. */
  datatype Poll = Poll(at: int, mark: int)

  function AfterPoll(t: Trigger, p: Poll): Trigger
    requires t.cycle != 0
  {
    if IsReady(t, p.at) then Restarted(t, p.mark) else t
  }

  /** The polls at which the trigger fires. */
  function Firings(t: Trigger, polls: seq<Poll>): seq<int>
    requires t.cycle != 0
    decreases |polls|
  {
    if polls == [] then []
    else (if IsReady(t, polls[0].at) then [polls[0].at] else []) + Firings(AfterPoll(t, polls[0]), polls[1..])
  }

  /** Until when the polling goroutine is busy after a poll, having been busy until `free` before. */
  function FreeAfter(t: Trigger, free: int, p: Poll): int {
    if IsReady(t, p.at) then p.mark else Max(free, p.at)
  }

  /** Polls come in order, after `seen`, each at most POLL after the goroutine was free, and marking takes
      at most `latency`. The ticker keeps one tick, so a poll may be for a time at which the goroutine
      was still busy. */
  ghost predicate Paced(t: Trigger, seen: int, free: int, polls: seq<Poll>, latency: int)
    requires t.cycle != 0
    decreases |polls|
  {
    polls == [] ||
    var p := polls[0];
    && seen <= p.at <= free + POLL && p.at <= p.mark <= p.at + latency
    && Paced(AfterPoll(t, p), p.at, FreeAfter(t, free, p), polls[1..], latency)
  }

  /** The last poll, or `seen` when there was none. */
  function LastPoll(seen: int, polls: seq<Poll>): int {
    if polls == [] then seen else polls[|polls| - 1].at
  }

  lemma LastPollTail(seen: int, polls: seq<Poll>)
    requires polls != []
    ensures LastPoll(polls[0].at, polls[1..]) == LastPoll(seen, polls)
  {
  }

  /** All times are close enough to the last invoice for 64-bit durations. */
  ghost predicate InRange(cycle: int, last: int, polls: seq<Poll>) {
    MarkedBefore(polls, TWO63 + last - cycle)
  }

  ghost predicate MarkedBefore(polls: seq<Poll>, time: int) {
    forall i | 0 <= i < |polls| :: polls[i].mark < time
  }

  /** The trigger waits to fire in period `k`, and the goroutine was busy with nothing later than `free`. */
  ghost predicate Awaits(t: Trigger, k: nat, free: int) {
    && t.cycle >= MINUTE && t.interval == CheckInterval(t.cycle) && t.last.Some?
    && Boundary(t.last.value, t.cycle, k) <= t.nextCheck < Boundary(t.last.value, t.cycle, k) + t.interval
    && free < t.nextCheck
  }

  /** What marking may cost for a cycle without a period being missed. */
  function Slack(cycle: int): int {
    cycle - CheckInterval(cycle) - POLL + 1
  }

  lemma RestartAwaits(t: Trigger, now: int, k: nat)
    requires t.cycle >= MINUTE && t.interval == CheckInterval(t.cycle) && t.last.Some?
    requires Boundary(t.last.value, t.cycle, k) <= now < Boundary(t.last.value, t.cycle, k + 1)
    requires now - t.last.value + t.cycle < TWO63
    ensures Awaits(Restarted(t, now), k + 1, now)
  {
    NextCheckInPeriod(t.(startedAt := now), now, k);
    IntervalLeavesRoom(t.cycle);
  }

  lemma PollAwaits(t: Trigger, k: nat, free: int, p: Poll)
    requires Awaits(t, k, free) && p.at <= free + POLL
    requires p.at <= p.mark <= p.at + Slack(t.cycle)
    requires p.mark - t.last.value + t.cycle < TWO63
    ensures !IsReady(t, p.at) ==> Awaits(t, k, FreeAfter(t, free, p))
    ensures IsReady(t, p.at) ==>
              && Awaits(AfterPoll(t, p), k + 1, FreeAfter(t, free, p))
              && Boundary(t.last.value, t.cycle, k) <= p.at
                 <= Boundary(t.last.value, t.cycle, k) + t.interval + POLL - 2
  {
    if IsReady(t, p.at) {
      RestartAwaits(t, p.mark, k);
    }
  }

  /** The j-th firing is at most the interval and one poll after the start of its period, and it has
      happened once a poll is the interval past that start. */
  ghost predicate Due(start: int, interval: int, fires: seq<int>, j: nat, lastPoll: int) {
    && (j < |fires| ==> start <= fires[j] <= start + interval + POLL - 2)
    && (lastPoll >= start + interval - 1 ==> j < |fires|)
  }

  /** One poll: the trigger `next` after it, whether it fired, and until when the goroutine was busy. */
  lemma PollStep(t: Trigger, k: nat, seen: int, free: int, polls: seq<Poll>)
    returns (next: Trigger, fired: bool, busy: int)
    requires polls != [] && Awaits(t, k, free) && seen <= free
    requires Paced(t, seen, free, polls, Slack(t.cycle)) && InRange(t.cycle, t.last.value, polls)
    ensures next.last == t.last && next.cycle == t.cycle && next.interval == t.interval && polls[0].at <= busy
    ensures Paced(next, polls[0].at, busy, polls[1..], Slack(t.cycle)) && InRange(t.cycle, t.last.value, polls[1..])
    ensures LastPoll(polls[0].at, polls[1..]) == LastPoll(seen, polls)
    ensures Awaits(next, if fired then k + 1 else k, busy)
    ensures Firings(t, polls) == (if fired then [polls[0].at] else []) + Firings(next, polls[1..])
    ensures fired ==> var start := Boundary(t.last.value, t.cycle, k);
              start <= polls[0].at <= start + t.interval + POLL - 2
  {
    LastPollTail(seen, polls);
    PollAwaits(t, k, free, polls[0]);
    next, fired, busy := AfterPoll(t, polls[0]), IsReady(t, polls[0].at), FreeAfter(t, free, polls[0]);
  }

  lemma NoneDueYet(t: Trigger, k: nat, seen: int, free: int, j: nat)
    requires Awaits(t, k, free) && seen <= free
    ensures Due(Boundary(t.last.value, t.cycle, k + j), t.interval, [], j, seen)
  {
    BoundariesIncrease(t.last.value, t.cycle, k, k + j);
  }

  lemma DueFirst(start: int, interval: int, at: int, fires: seq<int>, lastPoll: int)
    requires start <= at <= start + interval + POLL - 2
    ensures Due(start, interval, [at] + fires, 0, lastPoll)
  {
  }

  lemma DueLater(start: int, interval: int, at: int, fires: seq<int>, j: nat, lastPoll: int)
    requires j > 0 && Due(start, interval, fires, j - 1, lastPoll)
    ensures Due(start, interval, [at] + fires, j, lastPoll)
  {
  }

  /** The j-th firing from here on is in the j-th period from here on, and on time. */
  lemma {:induction false} FiresPeriodByPeriod(t: Trigger, k: nat, seen: int, free: int, polls: seq<Poll>, j: nat)
    requires Awaits(t, k, free) && seen <= free
    requires Paced(t, seen, free, polls, Slack(t.cycle)) && InRange(t.cycle, t.last.value, polls)
    ensures Due(Boundary(t.last.value, t.cycle, k + j), t.interval, Firings(t, polls), j, LastPoll(seen, polls))
    decreases |polls|
  {
    if polls == [] {
      NoneDueYet(t, k, seen, free, j);
    } else {
      var next, fired, busy := PollStep(t, k, seen, free, polls);
      var start, at, fires := Boundary(t.last.value, t.cycle, k + j), polls[0].at, Firings(next, polls[1..]);
      if !fired {
        FiresPeriodByPeriod(next, k, at, busy, polls[1..], j);
        assert [] + fires == fires;
      } else if j > 0 {
        FiresPeriodByPeriod(next, k + 1, at, busy, polls[1..], j - 1);
        assert k + 1 + (j - 1) == k + j;
        DueLater(start, t.interval, at, fires, j, LastPoll(seen, polls));
      } else {
        DueFirst(start, t.interval, at, fires, LastPoll(seen, polls));
      }
    }
  }

  // ---------------------------------------------------------------------
  // The guarantee, and exactly how slow marking may be for it.

  /** A trigger as the scheduler registers it at time `now`. */
  function Registered(cycle: int, last: int, now: int): Trigger
    requires cycle != 0
  {
    Restarted(Trigger(cycle, CheckInterval(cycle), Some(last), now, now), now)
  }

  ghost predicate FiresAt(fires: seq<int>, i: int, lo: int, hi: int) {
    0 <= i < |fires| && lo <= fires[i] < hi
  }

  ghost predicate FiresWithin(fires: seq<int>, lo: int, hi: int) {
    exists i :: FiresAt(fires, i, lo, hi)
  }

  ghost predicate FiresOnlyOnce(fires: seq<int>, lo: int, hi: int) {
    forall i, j | FiresAt(fires, i, lo, hi) && FiresAt(fires, j, lo, hi) :: i == j
  }

  /** Exactly one firing in period `n`, within the check interval plus one poll of its start. */
  ghost predicate Serves(t: Trigger, fires: seq<int>, n: nat)
    requires t.last.Some?
  {
    var start := Boundary(t.last.value, t.cycle, n);
    FiresWithin(fires, start, start + t.interval + POLL - 1) && FiresOnlyOnce(fires, start, start + t.cycle)
  }

  /** Every period that begins after registration in period `k` and was polled to its end is served. */
  ghost predicate OncePerPeriod(t: Trigger, k: nat, from: int, polls: seq<Poll>)
    requires t.cycle != 0 && t.last.Some?
  {
    forall n: nat | k < n && Boundary(t.last.value, t.cycle, n) + t.cycle <= LastPoll(from, polls) + 1 ::
      Serves(t, Firings(t, polls), n)
  }

  /** The j-th firing is in the j-th period from `k` on, and on time. */
  ghost predicate OnTime(t: Trigger, k: nat, fires: seq<int>)
    requires t.last.Some?
  {
    forall j: nat | j < |fires| ::
      Boundary(t.last.value, t.cycle, k + j) <= fires[j]
      <= Boundary(t.last.value, t.cycle, k + j) + t.interval + POLL - 2
  }

  lemma FiringStaysInItsPeriod(t: Trigger, k: nat, fires: seq<int>, i: nat, n: nat)
    requires t.cycle > 0 && t.interval + POLL <= t.cycle && t.last.Some? && OnTime(t, k, fires)
    requires n >= k && i < |fires|
    requires var start := Boundary(t.last.value, t.cycle, n); start <= fires[i] < start + t.cycle
    ensures i == n - k
  {
    var last, c := t.last.value, t.cycle;
    assert Boundary(last, c, k + i) <= fires[i];
    if k + i < n {
      BoundariesIncrease(last, c, k + i + 1, n);
    } else if k + i > n {
      BoundariesIncrease(last, c, n + 1, k + i);
    }
  }

  lemma OnTimeServes(t: Trigger, k: nat, fires: seq<int>, n: nat)
    requires t.cycle > 0 && t.interval + POLL <= t.cycle && t.last.Some? && OnTime(t, k, fires)
    requires k <= n < k + |fires|
    ensures Serves(t, fires, n)
  {
    var start := Boundary(t.last.value, t.cycle, n);
    var end := start + t.cycle;
    assert FiresAt(fires, n - k, start, start + t.interval + POLL - 1);
    forall i, j | FiresAt(fires, i, start, end) && FiresAt(fires, j, start, end)
      ensures i == j
    {
      FiringStaysInItsPeriod(t, k, fires, i, n);
      FiringStaysInItsPeriod(t, k, fires, j, n);
    }
  }

  lemma AwaitedPeriodIsServed(t: Trigger, k: nat, now: int, polls: seq<Poll>, n: nat)
    requires Awaits(t, k, now) && Paced(t, now, now, polls, Slack(t.cycle)) && InRange(t.cycle, t.last.value, polls)
    requires n >= k && Boundary(t.last.value, t.cycle, n) + t.cycle <= LastPoll(now, polls) + 1
    ensures Serves(t, Firings(t, polls), n)
  {
    IntervalLeavesRoom(t.cycle);
    forall j: nat | j < |Firings(t, polls)|
      ensures Boundary(t.last.value, t.cycle, k + j) <= Firings(t, polls)[j]
              <= Boundary(t.last.value, t.cycle, k + j) + t.interval + POLL - 2
    {
      FiresPeriodByPeriod(t, k, now, now, polls, j);
    }
    FiresPeriodByPeriod(t, k, now, now, polls, n - k);
    OnTimeServes(t, k, Firings(t, polls), n);
  }

  /** A registration and a series of polls the guarantee speaks about: registered in period `k`, polled
      at most 30 seconds after the goroutine was last busy, each firing marked within `latency`. */
  ghost predicate Scenario(cycle: int, last: int, now: int, k: nat, polls: seq<Poll>, latency: nat) {
    && cycle >= MINUTE && Boundary(last, cycle, k) <= now < Boundary(last, cycle, k) + cycle
    && now - last + cycle < TWO63
    && Paced(Registered(cycle, last, now), now, now, polls, latency) && InRange(cycle, last, polls)
  }

  ghost predicate Guaranteed(cycle: int, latency: nat)
    requires cycle >= MINUTE
  {
    forall last, now, k, polls | Scenario(cycle, last, now, k, polls, latency) ::
      OncePerPeriod(Registered(cycle, last, now), k, now, polls)
  }

  lemma RegisteredAwaits(cycle: int, last: int, now: int, k: nat)
    requires cycle >= MINUTE && Boundary(last, cycle, k) <= now < Boundary(last, cycle, k) + cycle
    requires now - last + cycle < TWO63
    ensures Awaits(Registered(cycle, last, now), k + 1, now)
  {
    RestartAwaits(Trigger(cycle, CheckInterval(cycle), Some(last), now, now), now, k);
  }

  /** As long as marking stays within the slack, a registered trigger fires exactly once in every
      period, on time, for as long as 64-bit durations reach. */
  lemma FiresOncePerPeriod(cycle: int, last: int, now: int, k: nat, polls: seq<Poll>, latency: nat)
    requires Scenario(cycle, last, now, k, polls, latency) && latency <= Slack(cycle)
    ensures OncePerPeriod(Registered(cycle, last, now), k, now, polls)
  {
    var t := Registered(cycle, last, now);
    RegisteredAwaits(cycle, last, now, k);
    PacedLonger(t, now, now, polls, latency, Slack(cycle));
    forall n: nat | k < n && Boundary(last, cycle, n) + cycle <= LastPoll(now, polls) + 1
      ensures Serves(t, Firings(t, polls), n)
    {
      AwaitedPeriodIsServed(t, k + 1, now, polls, n);
    }
  }

  lemma {:induction false} PacedLonger(t: Trigger, seen: int, free: int, polls: seq<Poll>, latency: int, longer: int)
    requires t.cycle != 0 && Paced(t, seen, free, polls, latency) && latency <= longer
    ensures Paced(t, seen, free, polls, longer)
    decreases |polls|
  {
    if polls != [] {
      PacedLonger(AfterPoll(t, polls[0]), polls[0].at, FreeAfter(t, free, polls[0]), polls[1..], latency, longer);
    }
  }

  // ---------------------------------------------------------------------
  // A run in which a mark comes too late.

  /** Polls POLL apart from `from` up to and including `until`, with instant marking. */
  function Walk(from: int, until: int): seq<Poll>
    decreases until - from
  {
    if from >= until then []
    else
      var next := if from + POLL < until then from + POLL else until;
      [Poll(next, next)] + Walk(next, until)
  }

  /** Polls that find nothing to do keep the pace, and what follows them starts where they end. */
  lemma {:induction false} WalkIsPaced(t: Trigger, seen: int, from: int, until: int, rest: seq<Poll>, latency: nat)
    requires t.cycle != 0 && seen <= from <= until < t.nextCheck
    requires Paced(t, if from == until then seen else until, until, rest, latency)
    ensures Paced(t, seen, from, Walk(from, until) + rest, latency)
    ensures Firings(t, Walk(from, until) + rest) == Firings(t, rest)
    decreases until - from
  {
    if from == until {
      assert Walk(from, until) + rest == rest;
    } else {
      var next := if from + POLL < until then from + POLL else until;
      WalkIsPaced(t, next, next, until, rest, latency);
      var all := Walk(from, until) + rest;
      assert all[0] == Poll(next, next) && all[1..] == Walk(next, until) + rest;
    }
  }

  lemma {:induction false} WalkEnds(seen: int, from: int, until: int)
    requires from < until
    ensures LastPoll(seen, Walk(from, until)) == until && MarkedBefore(Walk(from, until), until + 1)
    decreases until - from
  {
    var next := if from + POLL < until then from + POLL else until;
    var rest := Walk(next, until);
    assert Walk(from, until) == [Poll(next, next)] + rest;
    if next < until {
      WalkEnds(next, next, until);
    } else {
      assert rest == [];
    }
  }

  /** Polls up to `missed`, then `late`, which holds the goroutine up, then on from its mark to `end`. */
  function LatePolls(now: int, missed: int, late: Poll, end: int): seq<Poll> {
    Walk(now, missed) + ([late] + Walk(late.mark, end))
  }

  lemma LatePollsArePaced(t: Trigger, now: int, missed: int, late: Poll, end: int, latency: nat)
    requires t.cycle != 0 && now < missed < t.nextCheck <= late.at <= missed + POLL
    requires late.at <= late.mark < end < AfterPoll(t, late).nextCheck && late.mark - late.at <= latency
    ensures Paced(t, now, now, LatePolls(now, missed, late, end), latency)
    ensures Firings(t, LatePolls(now, missed, late, end)) == [late.at]
  {
    var next, after := AfterPoll(t, late), Walk(late.mark, end);
    WalkIsPaced(next, late.at, late.mark, end, [], latency);
    assert after + [] == after;
    var rest := [late] + after;
    assert rest[0] == late && rest[1..] == after;
    WalkIsPaced(t, now, now, missed, rest, latency);
  }

  lemma LatePollsEnd(now: int, missed: int, late: Poll, end: int)
    requires now < missed <= late.mark < end
    ensures LastPoll(now, LatePolls(now, missed, late, end)) == end
    ensures MarkedBefore(LatePolls(now, missed, late, end), end + 1)
  {
    WalkEnds(now, now, missed);
    WalkEnds(late.at, late.mark, end);
    var first, after := Walk(now, missed), Walk(late.mark, end);
    assert after != [];
    assert LatePolls(now, missed, late, end) == first + [late] + after;
  }

  lemma LateNextCheck(cycle: int)
    requires MINUTE <= cycle && 4 * cycle <= TWO63
    ensures Registered(cycle, 0, cycle - 1).nextCheck == cycle + CheckInterval(cycle) - 1
    ensures Restarted(Registered(cycle, 0, cycle - 1), 2 * cycle).nextCheck == 3 * cycle
  {
    IntervalLeavesRoom(cycle);
    var t := Trigger(cycle, CheckInterval(cycle), Some(0), cycle - 1, cycle - 1);
    NextCheckInPeriod(t, cycle - 1, 0);
    NextCheckInPeriod(Registered(cycle, 0, cycle - 1).(startedAt := 2 * cycle), 2 * cycle, 2);
  }

  /** Registered a nanosecond before period 1 and polled as late as possible. */
  function LatestPolls(cycle: int, interval: int): seq<Poll> {
    var missed := cycle + interval - 2;
    LatePolls(cycle - 1, missed, Poll(missed + POLL, 2 * cycle), 3 * cycle - 1)
  }

  lemma LatestPollsMiss(cycle: int, latency: nat)
    requires MINUTE <= cycle && 4 * cycle <= TWO63 && latency > Slack(cycle)
    ensures var t, polls := Registered(cycle, 0, cycle - 1), LatestPolls(cycle, CheckInterval(cycle));
            && Paced(t, cycle - 1, cycle - 1, polls, latency)
            && Firings(t, polls) == [cycle + CheckInterval(cycle) - 2 + POLL]
  {
    IntervalLeavesRoom(cycle);
    LateNextCheck(cycle);
    var missed := cycle + CheckInterval(cycle) - 2;
    LatePollsArePaced(Registered(cycle, 0, cycle - 1), cycle - 1, missed, Poll(missed + POLL, 2 * cycle),
                      3 * cycle - 1, latency);
  }

  lemma LatestPollsScenario(cycle: int, latency: nat)
    requires MINUTE <= cycle && 4 * cycle <= TWO63 && latency > Slack(cycle)
    ensures Scenario(cycle, 0, cycle - 1, 0, LatestPolls(cycle, CheckInterval(cycle)), latency)
    ensures LastPoll(cycle - 1, LatestPolls(cycle, CheckInterval(cycle))) == 3 * cycle - 1
  {
    IntervalLeavesRoom(cycle);
    LatestPollsMiss(cycle, latency);
    var missed := cycle + CheckInterval(cycle) - 2;
    LatePollsEnd(cycle - 1, missed, Poll(missed + POLL, 2 * cycle), 3 * cycle - 1);
    MarkedEarlier(LatestPolls(cycle, CheckInterval(cycle)), 3 * cycle, TWO63 - cycle);
  }

  lemma MarkedEarlier(polls: seq<Poll>, early: int, late: int)
    requires MarkedBefore(polls, early) && early <= late
    ensures MarkedBefore(polls, late)
  {
  }

  /** One nanosecond more, and a poll that comes as late as possible is marked in the next period,
      which is then never served. */
  lemma SlowMarkMissesAPeriod(cycle: int, latency: nat)
    requires MINUTE <= cycle && 4 * cycle <= TWO63 && latency > Slack(cycle)
    ensures Scenario(cycle, 0, cycle - 1, 0, LatestPolls(cycle, CheckInterval(cycle)), latency)
    ensures !OncePerPeriod(Registered(cycle, 0, cycle - 1), 0, cycle - 1, LatestPolls(cycle, CheckInterval(cycle)))
  {
    LatestPollsScenario(cycle, latency);
    LatestPollsMiss(cycle, latency);
    IntervalLeavesRoom(cycle);
    NotServed(Registered(cycle, 0, cycle - 1), 0, cycle - 1, LatestPolls(cycle, CheckInterval(cycle)), 2);
  }

  lemma NotServed(t: Trigger, k: nat, from: int, polls: seq<Poll>, n: nat)
    requires t.cycle != 0 && t.last.Some? && k < n
    requires Boundary(t.last.value, t.cycle, n) + t.cycle <= LastPoll(from, polls) + 1
    requires forall i | 0 <= i < |Firings(t, polls)| :: Firings(t, polls)[i] < Boundary(t.last.value, t.cycle, n)
    ensures !OncePerPeriod(t, k, from, polls)
  {
    assert !Serves(t, Firings(t, polls), n);
  }

  // ---------------------------------------------------------------------
  // The first period is served however slow marking is.

  lemma {:induction false} FiringsFollow(t: Trigger, seen: int, free: int, polls: seq<Poll>, latency: int, i: nat)
    requires t.cycle != 0 && Paced(t, seen, free, polls, latency) && i < |Firings(t, polls)|
    ensures Firings(t, polls)[i] >= seen
    decreases |polls|
  {
    var next, busy := AfterPoll(t, polls[0]), FreeAfter(t, free, polls[0]);
    if !IsReady(t, polls[0].at) {
      FiringsFollow(next, polls[0].at, busy, polls[1..], latency, i);
    } else if i > 0 {
      FiringsFollow(next, polls[0].at, busy, polls[1..], latency, i - 1);
    }
  }

  lemma {:induction false} FiringsWait(t: Trigger, seen: int, free: int, polls: seq<Poll>, latency: int, i: nat)
    requires t.cycle != 0 && Paced(t, seen, free, polls, latency) && i < |Firings(t, polls)|
    ensures Firings(t, polls)[i] >= t.nextCheck
    decreases |polls|
  {
    var busy := FreeAfter(t, free, polls[0]);
    if !IsReady(t, polls[0].at) {
      FiringsWait(t, polls[0].at, busy, polls[1..], latency, i);
    } else if i > 0 {
      FiringsFollow(AfterPoll(t, polls[0]), polls[0].at, busy, polls[1..], latency, i - 1);
    }
  }

  lemma PeriodOf(last: int, cycle: int, time: int) returns (m: nat)
    requires cycle > 0 && last <= time
    ensures Boundary(last, cycle, m) <= time < Boundary(last, cycle, m + 1)
  {
    m := (time - last) / cycle;
    BoundaryIsMultiple(last, cycle, m);
    BoundaryIsMultiple(last, cycle, m + 1);
    assert (m + 1) * cycle == m * cycle + cycle;
  }

  /** Marked in period `k` or later, a trigger waits at least for the next one. */
  lemma MarkedWaits(t: Trigger, mark: int, k: nat)
    requires t.cycle > 0 && t.last.Some? && Boundary(t.last.value, t.cycle, k) <= mark
    requires mark - t.last.value + t.cycle < TWO63
    ensures Restarted(t, mark).nextCheck >= Boundary(t.last.value, t.cycle, k + 1)
  {
    BoundariesIncrease(t.last.value, t.cycle, 0, k);
    var m := PeriodOf(t.last.value, t.cycle, mark);
    NextCheckInPeriod(t.(startedAt := mark), mark, m);
    if m < k {
      BoundariesIncrease(t.last.value, t.cycle, m + 1, k);
    } else {
      BoundariesIncrease(t.last.value, t.cycle, k + 1, m + 1);
    }
  }

  lemma FirstFiringServes(t: Trigger, fires: seq<int>, k: nat)
    requires t.last.Some? && t.interval + POLL <= t.cycle && fires != []
    requires var start := Boundary(t.last.value, t.cycle, k);
             && start <= fires[0] <= start + t.interval + POLL - 2
             && forall i | 1 <= i < |fires| :: fires[i] >= start + t.cycle
    ensures Serves(t, fires, k)
  {
    var start := Boundary(t.last.value, t.cycle, k);
    assert FiresAt(fires, 0, start, start + t.interval + POLL - 1);
  }

  lemma UnreadyPoll(t: Trigger, polls: seq<Poll>)
    requires t.cycle != 0 && polls != [] && !IsReady(t, polls[0].at)
    ensures Firings(t, polls) == Firings(t, polls[1..])
  {
    assert [] + Firings(t, polls[1..]) == Firings(t, polls[1..]);
  }

  lemma ReadyPollServes(t: Trigger, k: nat, p: Poll, rest: seq<Poll>, latency: int)
    requires t.cycle >= MINUTE && t.interval == CheckInterval(t.cycle) && t.last.Some? && IsReady(t, p.at)
    requires var start := Boundary(t.last.value, t.cycle, k); start <= p.at <= start + t.interval + POLL - 2
    requires p.at <= p.mark && p.mark - t.last.value + t.cycle < TWO63
    requires Paced(AfterPoll(t, p), p.at, p.mark, rest, latency)
    ensures Serves(t, [p.at] + Firings(AfterPoll(t, p), rest), k)
  {
    var next := AfterPoll(t, p);
    IntervalLeavesRoom(t.cycle);
    MarkedWaits(t, p.mark, k);
    forall i | 0 <= i < |Firings(next, rest)|
      ensures Firings(next, rest)[i] >= Boundary(t.last.value, t.cycle, k) + t.cycle
    {
      FiringsWait(next, p.at, p.mark, rest, latency, i);
    }
    FirstFiringServes(t, [p.at] + Firings(next, rest), k);
  }

  lemma {:induction false} FirstPeriodIsServed(
    t: Trigger, k: nat, seen: int, free: int, polls: seq<Poll>, latency: int)
    requires Awaits(t, k, free) && seen <= free
    requires Paced(t, seen, free, polls, latency) && InRange(t.cycle, t.last.value, polls)
    requires Boundary(t.last.value, t.cycle, k) + t.cycle <= LastPoll(seen, polls) + 1
    ensures Serves(t, Firings(t, polls), k)
    decreases |polls|
  {
    IntervalLeavesRoom(t.cycle);
    assert polls != [];
    LastPollTail(seen, polls);
    if IsReady(t, polls[0].at) {
      ReadyPollServes(t, k, polls[0], polls[1..], latency);
    } else {
      UnreadyPoll(t, polls);
      FirstPeriodIsServed(t, k, polls[0].at, FreeAfter(t, free, polls[0]), polls[1..], latency);
    }
  }

  lemma SmallFactor(n: int, cycle: int, bound: int)
    requires cycle > 0 && n * cycle + 2 * cycle <= bound < 4 * cycle
    ensures n < 2
  {
    assert n >= 2 ==> n * cycle >= 2 * cycle;
  }

  lemma {:induction false} PacedMarks(t: Trigger, seen: int, free: int, polls: seq<Poll>, latency: int, i: nat)
    requires t.cycle != 0 && Paced(t, seen, free, polls, latency) && i < |polls|
    ensures polls[i].at <= polls[i].mark
    decreases |polls|
  {
    if i > 0 {
      PacedMarks(AfterPoll(t, polls[0]), polls[0].at, FreeAfter(t, free, polls[0]), polls[1..], latency, i - 1);
    }
  }

  /** A cycle of which four exceed 64 bits leaves room for a single period. */
  lemma OnePeriodInRange(cycle: int, last: int, now: int, k: nat, polls: seq<Poll>, latency: nat, n: nat)
    requires Scenario(cycle, last, now, k, polls, latency) && 4 * cycle > TWO63
    requires k < n && Boundary(last, cycle, n) + cycle <= LastPoll(now, polls) + 1
    ensures n == k + 1
  {
    BoundariesIncrease(last, cycle, k + 1, n);
    assert polls != [];
    PacedMarks(Registered(cycle, last, now), now, now, polls, latency, |polls| - 1);
    var final := polls[|polls| - 1];
    assert final.mark < TWO63 + last - cycle;
    BoundaryIsMultiple(last, cycle, n);
    SmallFactor(n, cycle, TWO63);
  }

  lemma LongCyclesAreServed(cycle: int, last: int, now: int, k: nat, polls: seq<Poll>, latency: nat)
    requires Scenario(cycle, last, now, k, polls, latency) && 4 * cycle > TWO63
    ensures OncePerPeriod(Registered(cycle, last, now), k, now, polls)
  {
    var t := Registered(cycle, last, now);
    RegisteredAwaits(cycle, last, now, k);
    forall n: nat | k < n && Boundary(last, cycle, n) + cycle <= LastPoll(now, polls) + 1
      ensures Serves(t, Firings(t, polls), n)
    {
      OnePeriodInRange(cycle, last, now, k, polls, latency, n);
      FirstPeriodIsServed(t, k + 1, now, now, polls, latency);
    }
  }

  /** Exactly how slow marking may be: up to the cycle minus the check interval minus one poll, plus a
      nanosecond; for a one-minute cycle that is a single nanosecond. Only for cycles so long that 64-bit
      durations reach a single period does it not matter. */
  lemma GuaranteeIffMarkedInTime(cycle: int, latency: nat)
    requires MINUTE <= cycle
    ensures Guaranteed(cycle, latency) <==> latency <= Slack(cycle) || 4 * cycle > TWO63
    ensures Slack(MINUTE) == 1
  {
    if latency <= Slack(cycle) || 4 * cycle > TWO63 {
      forall last, now, k, polls | Scenario(cycle, last, now, k, polls, latency)
        ensures OncePerPeriod(Registered(cycle, last, now), k, now, polls)
      {
        if latency <= Slack(cycle) {
          FiresOncePerPeriod(cycle, last, now, k, polls, latency);
        } else {
          LongCyclesAreServed(cycle, last, now, k, polls, latency);
        }
      }
    } else {
      SlowMarkMissesAPeriod(cycle, latency);
    }
  }
}
