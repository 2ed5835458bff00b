/** The rate limiter that actors share counts exactly the handlers in flight, over every run. */
module SharedLimiter {
  import opened Sequences
  import opened Envelopes
  import opened RateLimiting
  import opened Kernels
  import opened ActorSystem

  function Flying(flights: seq<Flight>): (r: seq<Envelope>)
    ensures |r| == |flights|
    ensures forall i | 0 <= i < |flights| :: r[i] == flights[i].job.item.env
  {
    seq(|flights|, i requires 0 <= i < |flights| => flights[i].job.item.env)
  }

  /** Only starting and finishing handlers touches the counters or the list of envelopes in flight. */
  lemma QuietStep(s: System, act: Action)
    requires act.By? && act.actor in s.kernels ==> !(act.move.LaunchNext? && Launches(s.kernels[act.actor], s.limiter))
    requires act.FinishBy? ==> act.flight >= |s.flights|
    ensures Step(s, act).limiter.(cfg := s.limiter.cfg) == s.limiter
    ensures Flying(Step(s, act).flights) == Flying(s.flights)
  {
  }

  lemma StepAccounts(s: System, act: Action)
    requires Accounts(s.limiter, Flying(s.flights))
    ensures Accounts(Step(s, act).limiter, Flying(Step(s, act).flights))
  {
    if act.By? && act.actor in s.kernels && act.move.LaunchNext? && Launches(s.kernels[act.actor], s.limiter) {
      var env := s.kernels[act.actor].loop.job.item.env;
      AcquireAccounts(s.limiter, Flying(s.flights), env);
      assert Flying(Step(s, act).flights) == Flying(s.flights) + [env];
    } else if act.FinishBy? && act.flight < |s.flights| {
      ReleaseAccounts(s.limiter, Flying(s.flights), act.flight);
      assert Flying(Without(s.flights, act.flight)) == Without(Flying(s.flights), act.flight);
    } else {
      QuietStep(s, act);
    }
  }

  /** For every interleaving of actors that share the limiter, and whatever configurations are set on
      the way: the public counter is the number of public handlers in flight, a topic has a counter
      exactly while handlers for it are in flight and it is their number, and the broadcast counter
      is the number of broadcast handlers and the sum of the topic counters. */
  lemma {:induction false} CountersAreHandlersInFlight(s: System, acts: seq<Action>)
    requires Init(s)
    ensures Accounts(Exec(s, acts).limiter, Flying(Exec(s, acts).flights))
    ensures Exec(s, acts).limiter.activeBroadcast == SumOf(Exec(s, acts).limiter.activeTopics)
  {
    if acts != [] {
      CountersAreHandlersInFlight(s, acts[..|acts| - 1]);
      StepAccounts(Exec(s, acts[..|acts| - 1]), acts[|acts| - 1]);
    }
    BroadcastIsSumOfTopics(Exec(s, acts).limiter, Flying(Exec(s, acts).flights));
  }

  /** When the last handler has returned, nothing is counted. */
  lemma CountersReturnToZero(s: System, acts: seq<Action>)
    requires Init(s) && Exec(s, acts).flights == []
    ensures var l := Exec(s, acts).limiter;
            l.activePublic == 0 && l.activeBroadcast == 0 && l.activeTopics == map[]
  {
    CountersAreHandlersInFlight(s, acts);
  }

  function AtLeastZero(x: int): int {
    if x < 0 then 0 else x
  }

  ghost predicate WithinLimits(l: Limiter) {
    && l.activePublic <= AtLeastZero(l.cfg.publicAcquire)
    && l.activeBroadcast <= AtLeastZero(l.cfg.broadcastAcquire)
    && forall t :: l.Active(t) <= AtLeastZero(l.cfg.LimitFor(t))
  }

  /** The counter changes of one step: a counter that grows was below its limit and grows by one. */
  ghost predicate GrowsBelowLimit(l: Limiter, l': Limiter, t: string) {
    && (l'.activePublic > l.activePublic ==>
          l'.activePublic == l.activePublic + 1 && l.activePublic < l.cfg.publicAcquire)
    && (l'.activeBroadcast > l.activeBroadcast ==>
          l'.activeBroadcast == l.activeBroadcast + 1 && l.activeBroadcast < l.cfg.broadcastAcquire)
    && (l'.Active(t) > l.Active(t) ==>
          l'.Active(t) == l.Active(t) + 1 && l.Active(t) < l.cfg.LimitFor(t))
  }

  lemma StepGrowsBelowLimit(s: System, act: Action, t: string)
    requires TopicsPositive(s.limiter)
    ensures GrowsBelowLimit(s.limiter, Step(s, act).limiter, t)
  {
  }

  /** After SetConfig lowered a limit, no counter at or above it grows: in every reachable state the
      limit that matters is the one configured at that moment. */
  lemma NoGrowthAtLimit(s: System, acts: seq<Action>, act: Action, t: string)
    requires Init(s)
    ensures GrowsBelowLimit(Exec(s, acts).limiter, Exec(s, acts + [act]).limiter, t)
  {
    CountersAreHandlersInFlight(s, acts);
    StepGrowsBelowLimit(Exec(s, acts), act, t);
    assert (acts + [act])[..|acts|] == acts;
  }

  ghost predicate ConstantConfig(acts: seq<Action>) {
    forall i | 0 <= i < |acts| :: !acts[i].Configure?
  }

  lemma GrowthKeepsLimits(l: Limiter, l': Limiter)
    requires WithinLimits(l) && l'.cfg == l.cfg
    requires forall t :: GrowsBelowLimit(l, l', t)
    ensures WithinLimits(l')
  {
    assert GrowsBelowLimit(l, l', "");
    forall t
      ensures l'.Active(t) <= AtLeastZero(l'.cfg.LimitFor(t))
    {
      assert GrowsBelowLimit(l, l', t) && l.Active(t) <= AtLeastZero(l.cfg.LimitFor(t));
    }
  }

  lemma StepKeepsLimits(s: System, act: Action)
    requires WithinLimits(s.limiter) && TopicsPositive(s.limiter) && !act.Configure?
    ensures WithinLimits(Step(s, act).limiter) && Step(s, act).limiter.cfg == s.limiter.cfg
  {
    forall t
      ensures GrowsBelowLimit(s.limiter, Step(s, act).limiter, t)
    {
      StepGrowsBelowLimit(s, act, t);
    }
    GrowthKeepsLimits(s.limiter, Step(s, act).limiter);
  }

  /** Under a constant configuration every counter stays within its Acquire or topic limit. */
  lemma {:induction false} LimitsHold(s: System, acts: seq<Action>)
    requires Init(s) && ConstantConfig(acts)
    ensures WithinLimits(Exec(s, acts).limiter)
    ensures Exec(s, acts).limiter.cfg == s.limiter.cfg
  {
    if acts != [] {
      var front, act := acts[..|acts| - 1], acts[|acts| - 1];
      LimitsHold(s, front);
      CountersAreHandlersInFlight(s, front);
      StepKeepsLimits(Exec(s, front), act);
    }
  }
}
