/** The capability tokens that messages bring along: what is held is owed to a message that was being
    checked or passed its check, and whose tokens were not discarded yet. */
module TokenBalance {
  import opened Envelopes
  import opened RateLimiting
  import opened Kernels
  import opened ActorSystem

  /** A job whose tokens are consumed and not discarded: in an actor's dispatch loop, in a running
      handler, or passed on by a handler that returned. */
  datatype Ref = InLoop(actor: nat) | InFlight(index: nat) | Returned(index: nat)

  predicate Undiscarded(s: System, flights: seq<Flight>, i: nat) {
    i < |flights| && !flights[i].discarded && flights[i].actor in s.kernels
  }

  predicate Owes(s: System, r: Ref) {
    match r
    case InLoop(a) => a in s.kernels && !s.kernels[a].loop.Free?
    case InFlight(i) => Undiscarded(s, s.flights, i)
    case Returned(i) => Undiscarded(s, s.returned, i)
  }

  function ActorOf(s: System, r: Ref): nat
    requires Owes(s, r)
  {
    match r
    case InLoop(a) => a
    case InFlight(i) => s.flights[i].actor
    case Returned(i) => s.returned[i].actor
  }

  function JobOf(s: System, r: Ref): Job
    requires Owes(s, r)
  {
    match r
    case InLoop(a) => s.kernels[a].loop.job
    case InFlight(i) => s.flights[i].job
    case Returned(i) => s.returned[i].job
  }

  function CapOf(s: System, r: Ref): nat
    requires Owes(s, r)
  {
    s.kernels[ActorOf(s, r)].sctx.cap
  }

  function IdsOf(s: System, r: Ref): set<TokenId>
    requires Owes(s, r)
  {
    JobOf(s, r).item.env.TokenIds()
  }

  ghost predicate OwedBy(s: System, cap: nat, t: Token, r: Ref) {
    Owes(s, r) && CapOf(s, r) == cap && t in JobOf(s, r).kept
  }

  /** Nothing leaks: every held token was consumed for a job that still owes it. */
  ghost predicate NothingLeaked(s: System) {
    forall cap, t | t in s.HeldAt(cap) :: exists r :: OwedBy(s, cap, t, r)
  }

  predicate Brought(tokens: seq<Token>, env: Envelope) {
    forall t | t in tokens :: t.id in env.TokenIds()
  }

  predicate Staffed(s: System, flights: seq<Flight>) {
    forall i | 0 <= i < |flights| :: flights[i].actor in s.kernels
  }

  /** Tokens consumed for a job came with its message, and handlers belong to existing actors. */
  ghost predicate WellFounded(s: System) {
    && (forall r | Owes(s, r) :: Brought(JobOf(s, r).kept, JobOf(s, r).item.env))
    && (forall a | a in s.kernels && s.kernels[a].loop.Consuming? ::
          Brought(s.kernels[a].loop.todo, s.kernels[a].loop.job.item.env))
    && Staffed(s, s.flights) && Staffed(s, s.returned)
  }

  /** A security context that uses another capability context is swapped in only while the actor owes
      nothing. */
  ghost predicate Disciplined(s: System, act: Action) {
    act.By? && act.move.Swap? && act.actor in s.kernels && !Locked(s.kernels[act.actor])
    && act.move.sctx.cap != s.kernels[act.actor].sctx.cap ==>
      forall r | Owes(s, r) :: ActorOf(s, r) != act.actor
  }

  ghost predicate AllDisciplined(s: System, acts: seq<Action>) {
    forall i | 0 <= i < |acts| :: Disciplined(Exec(s, acts[..i]), acts[i])
  }

  // ---------------------------------------------------------------------
  // Following a job through a step.

  /** Where the job of `r` is after the step, if it still owes its tokens. */
  function Moved(s: System, act: Action, r: Ref): Ref {
    match r
    case InLoop(a) =>
      if act == By(a, LaunchNext) && a in s.kernels && Launches(s.kernels[a], s.limiter)
      then InFlight(|s.flights|) else r
    case InFlight(i) =>
      if act.FinishBy? && act.flight == i then Returned(|s.returned|)
      else if act.FinishBy? && act.flight < i then InFlight(i - 1)
      else r
    case Returned(_) => r
  }

  /** The step at which the job of `r` gives its tokens back. */
  predicate Settles(s: System, act: Action, r: Ref)
    requires Owes(s, r)
  {
    match r
    case InLoop(a) => act == By(a, GiveBackNext) && s.kernels[a].loop.Refused?
    case InFlight(i) => act == DiscardBy(i)
    case Returned(i) => act == DiscardLate(i)
  }

  predicate ConsumesFor(s: System, act: Action, a: nat) {
    act == By(a, ConsumeNext) && a in s.kernels && CanConsume(s.kernels[a]) && Accepts(s.kernels[a])
  }

  /** What the step consumes for the job of `r`. */
  function Gained(s: System, act: Action, r: Ref): seq<Token> {
    if r.InLoop? && ConsumesFor(s, act, r.actor) then [s.kernels[r.actor].loop.todo[0]] else []
  }

  /** `after` is the job of `before` after the step, in the same capability context. */
  ghost predicate Follows(s: System, act: Action, before: Ref, after: Ref) {
    && Owes(s, before) && !Settles(s, act, before) && Moved(s, act, before) == after
    && var s' := Step(s, act);
    && Owes(s', after) && JobOf(s', after).item == JobOf(s, before).item
    && JobOf(s', after).kept == JobOf(s, before).kept + Gained(s, act, before)
  }

  /** The job of `r` has just been taken by the dispatch loop. */
  ghost predicate Entered(s: System, act: Action, r: Ref) {
    && r.InLoop? && act == By(r.actor, SelectNext) && r.actor in s.kernels
    && var s', k := Step(s, act), s.kernels[r.actor];
    && CanDispatch(k) && Owes(s', r) && JobOf(s', r).item == k.vq[0] && JobOf(s', r).kept == []
    && CapOf(s', r) == k.sctx.cap
  }

  /** What a move does to the job in the dispatch loop of its kernel. */
  lemma LoopMoves(k: Kernel, held: seq<Token>, limiter: Limiter, now: nat, move: Move)
    ensures var k' := KernelAfter(k, held, limiter, now, move);
            if move.SelectNext? && CanDispatch(k) then
              !k'.loop.Free? ==> k'.loop.job.item == k.vq[0] && k'.loop.job.kept == []
            else if move.LaunchNext? && Launches(k, limiter) then k'.loop.Free?
            else if move.GiveBackNext? && k.loop.Refused? then k'.loop.Free?
            else
              && k'.loop.Free? == k.loop.Free?
              && (!k.loop.Free? ==> && k'.loop.job.item == k.loop.job.item
                                    && k'.loop.job.kept == k.loop.job.kept +
                                       if move.ConsumeNext? && CanConsume(k) && Accepts(k)
                                       then [k.loop.todo[0]] else [])
  {
  }

  lemma OwnMoveFollows(s: System, a: nat, move: Move)
    requires Owes(s, InLoop(a)) && !Settles(s, By(a, move), InLoop(a))
    ensures Follows(s, By(a, move), InLoop(a), Moved(s, By(a, move), InLoop(a)))
  {
    var k := s.kernels[a];
    LoopMoves(k, s.HeldAt(k.sctx.cap), s.limiter, s.now, move);
  }

  lemma MoveFollows(s: System, a: nat, move: Move, r: Ref)
    requires a in s.kernels && Owes(s, r) && !Settles(s, By(a, move), r)
    ensures Follows(s, By(a, move), r, Moved(s, By(a, move), r))
  {
    if r == InLoop(a) {
      OwnMoveFollows(s, a, move);
    } else {
      assert Moved(s, By(a, move), r) == r && Gained(s, By(a, move), r) == [];
    }
  }

  lemma FinishFollows(s: System, f: nat, r: Ref)
    requires Owes(s, r)
    ensures Follows(s, FinishBy(f), r, Moved(s, FinishBy(f), r))
  {
    assert Gained(s, FinishBy(f), r) == [];
  }

  lemma HandlerFollows(s: System, act: Action, r: Ref)
    requires !act.By? && Owes(s, r) && !Settles(s, act, r)
    ensures Follows(s, act, r, Moved(s, act, r))
  {
    if act.FinishBy? {
      FinishFollows(s, act.flight, r);
    } else {
      assert Gained(s, act, r) == [];
      assert Moved(s, act, r) == r;
    }
  }

  lemma JobFollows(s: System, act: Action, r: Ref)
    requires Owes(s, r) && !Settles(s, act, r)
    ensures Follows(s, act, r, Moved(s, act, r))
  {
    if act.By? && act.actor in s.kernels {
      MoveFollows(s, act.actor, act.move, r);
    } else if act.By? {
      assert Gained(s, act, r) == [];
    } else {
      HandlerFollows(s, act, r);
    }
  }

  lemma ContextStays(s: System, act: Action, a: nat)
    requires a in s.kernels && !(act.By? && act.actor == a && act.move.Swap? && !Locked(s.kernels[a]))
    ensures a in Step(s, act).kernels && Step(s, act).kernels[a].sctx == s.kernels[a].sctx
  {
    OnlyTheActorMoves(s, act, a);
  }

  lemma ActorStays(s: System, act: Action, r: Ref)
    requires Owes(s, r) && Owes(Step(s, act), Moved(s, act, r)) && !Settles(s, act, r)
    ensures ActorOf(Step(s, act), Moved(s, act, r)) == ActorOf(s, r)
  {
  }

  lemma SameContext(s: System, act: Action, r: Ref)
    requires Owes(s, r) && !Settles(s, act, r) && Disciplined(s, act) && Owes(Step(s, act), Moved(s, act, r))
    ensures CapOf(Step(s, act), Moved(s, act, r)) == CapOf(s, r)
  {
    var a := ActorOf(s, r);
    ActorStays(s, act, r);
    if act.By? && act.actor == a && act.move.Swap? && !Locked(s.kernels[a]) {
      OnlyTheActorMoves(s, act, a);
    } else {
      ContextStays(s, act, a);
    }
  }

  lemma MoveCameFrom(s: System, a: nat, move: Move, r': Ref)
    requires WellFounded(s) && a in s.kernels && Owes(MoveStep(s, a, move), r')
    ensures Entered(s, By(a, move), r') || exists r :: Follows(s, By(a, move), r, r')
  {
    var act, k := By(a, move), s.kernels[a];
    LoopMoves(k, s.HeldAt(k.sctx.cap), s.limiter, s.now, move);
    if r' == InLoop(a) {
      if !(move.SelectNext? && CanDispatch(k)) {
        MoveFollows(s, a, move, r');
      }
    } else if r'.InFlight? && r'.index == |s.flights| {
      MoveFollows(s, a, move, InLoop(a));
    } else {
      MoveFollows(s, a, move, r');
    }
  }

  lemma FinishCameFrom(s: System, f: nat, r': Ref)
    requires WellFounded(s) && f < |s.flights| && Owes(FinishStep(s, f), r')
    ensures exists r :: Follows(s, FinishBy(f), r, r')
  {
    var r := if r'.InFlight? && r'.index >= f then InFlight(r'.index + 1)
    else if r' == Returned(|s.returned|) then InFlight(f)
    else r';
    assert Owes(s, r) && Moved(s, FinishBy(f), r) == r';
    FinishFollows(s, f, r);
  }

  lemma OwedAlready(s: System, act: Action, r: Ref)
    requires WellFounded(s) && !act.By? && !(act.FinishBy? && act.flight < |s.flights|) && Owes(Step(s, act), r)
    ensures Owes(s, r) && !Settles(s, act, r)
  {
  }

  lemma HandlerCameFrom(s: System, act: Action, r': Ref)
    requires WellFounded(s) && !act.By? && Owes(Step(s, act), r')
    ensures exists r :: Follows(s, act, r, r')
  {
    if act.FinishBy? && act.flight < |s.flights| {
      FinishCameFrom(s, act.flight, r');
    } else {
      OwedAlready(s, act, r');
      HandlerFollows(s, act, r');
    }
  }

  /** Every job that owes tokens after the step owed them before, or was just taken by the loop. */
  lemma CameFrom(s: System, act: Action, r': Ref)
    requires WellFounded(s) && Owes(Step(s, act), r')
    ensures Entered(s, act, r') || exists r :: Follows(s, act, r, r')
  {
    if act.By? && act.actor in s.kernels {
      MoveCameFrom(s, act.actor, act.move, r');
    } else if act.By? {
      JobFollows(s, act, r');
    } else {
      HandlerCameFrom(s, act, r');
    }
  }

  // ---------------------------------------------------------------------
  // Nothing leaks.

  /** A token is gained only when it is consumed for the job in a dispatch loop. */
  lemma GainStep(s: System, act: Action, cap: nat, t: Token)
    requires t in Step(s, act).HeldAt(cap) && t !in s.HeldAt(cap)
    ensures && act.By? && ConsumesFor(s, act, act.actor) && s.kernels[act.actor].sctx.cap == cap
            && t == s.kernels[act.actor].loop.todo[0]
  {
  }

  /** A job that settles leaves none of its message's tokens held. */
  lemma SettledStep(s: System, act: Action, r: Ref, t: Token)
    requires Owes(s, r) && Settles(s, act, r) && t in Step(s, act).HeldAt(CapOf(s, r))
    ensures t.id !in IdsOf(s, r)
  {
  }

  /** What a job owed before a step that does not settle it, it still owes, with what was consumed. */
  lemma StillOwed(s: System, act: Action, cap: nat, t: Token, r: Ref)
    requires Owes(s, r) && CapOf(s, r) == cap && !Settles(s, act, r) && Disciplined(s, act)
    requires t in JobOf(s, r).kept || t in Gained(s, act, r)
    ensures OwedBy(Step(s, act), cap, t, Moved(s, act, r))
  {
    JobFollows(s, act, r);
    SameContext(s, act, r);
  }

  lemma StepLeaksNothing(s: System, act: Action)
    requires NothingLeaked(s) && WellFounded(s) && Disciplined(s, act)
    ensures NothingLeaked(Step(s, act))
  {
    var s' := Step(s, act);
    forall cap, t | t in s'.HeldAt(cap)
      ensures exists r :: OwedBy(s', cap, t, r)
    {
      if t !in s.HeldAt(cap) {
        GainStep(s, act, cap, t);
        StillOwed(s, act, cap, t, InLoop(act.actor));
      } else {
        var r :| OwedBy(s, cap, t, r);
        if Settles(s, act, r) {
          SettledStep(s, act, r, t);
          assert false;
        }
        StillOwed(s, act, cap, t, r);
      }
    }
  }

  lemma JobStaysFounded(s: System, act: Action, r': Ref)
    requires WellFounded(s) && Owes(Step(s, act), r')
    ensures Brought(JobOf(Step(s, act), r').kept, JobOf(Step(s, act), r').item.env)
  {
    CameFrom(s, act, r');
    if r :| Follows(s, act, r, r') {
      GainedWasBrought(s, act, r);
    }
  }

  lemma GainedWasBrought(s: System, act: Action, r: Ref)
    requires WellFounded(s) && Owes(s, r)
    ensures Brought(JobOf(s, r).kept + Gained(s, act, r), JobOf(s, r).item.env)
  {
  }

  lemma LoopStaysFounded(k: Kernel, held: seq<Token>, limiter: Limiter, now: nat, move: Move)
    requires k.loop.Consuming? ==> Brought(k.loop.todo, k.loop.job.item.env)
    ensures var loop := KernelAfter(k, held, limiter, now, move).loop;
            loop.Consuming? ==> Brought(loop.todo, loop.job.item.env)
  {
  }

  lemma TodoStaysFounded(s: System, act: Action, a: nat)
    requires WellFounded(s) && a in Step(s, act).kernels && Step(s, act).kernels[a].loop.Consuming?
    ensures var loop := Step(s, act).kernels[a].loop; Brought(loop.todo, loop.job.item.env)
  {
    if a in s.kernels {
      var k := s.kernels[a];
      OnlyTheActorMoves(s, act, a);
      if act.By? {
        LoopStaysFounded(k, s.HeldAt(k.sctx.cap), s.limiter, s.now, act.move);
      }
    }
  }

  lemma StaysStaffed(s: System, act: Action)
    requires WellFounded(s)
    ensures Staffed(Step(s, act), Step(s, act).flights) && Staffed(Step(s, act), Step(s, act).returned)
  {
  }

  lemma StepKeepsWellFounded(s: System, act: Action)
    requires WellFounded(s)
    ensures WellFounded(Step(s, act))
  {
    forall r' | Owes(Step(s, act), r')
      ensures Brought(JobOf(Step(s, act), r').kept, JobOf(Step(s, act), r').item.env)
    {
      JobStaysFounded(s, act, r');
    }
    forall a | a in Step(s, act).kernels && Step(s, act).kernels[a].loop.Consuming?
      ensures Brought(Step(s, act).kernels[a].loop.todo, Step(s, act).kernels[a].loop.job.item.env)
    {
      TodoStaysFounded(s, act, a);
    }
    StaysStaffed(s, act);
  }

  lemma {:induction false} ReachableLeaksNothing(s: System, acts: seq<Action>, n: nat)
    requires Init(s) && AllDisciplined(s, acts) && n <= |acts|
    ensures NothingLeaked(Exec(s, acts[..n])) && WellFounded(Exec(s, acts[..n]))
  {
    if n > 0 {
      ReachableLeaksNothing(s, acts, n - 1);
      ExecStep(s, acts, n - 1);
      StepLeaksNothing(Exec(s, acts[..n - 1]), acts[n - 1]);
      StepKeepsWellFounded(Exec(s, acts[..n - 1]), acts[n - 1]);
    }
  }

  lemma NothingOwedNothingHeld(s: System, cap: nat)
    requires NothingLeaked(s)
    ensures s.HeldAt(cap) == [] || exists r :: Owes(s, r)
  {
    if s.HeldAt(cap) != [] {
      var t := s.HeldAt(cap)[0];
      assert t in s.HeldAt(cap);
      var r :| OwedBy(s, cap, t, r);
    }
  }

  /** Over every run in which contexts are swapped only while nothing is owed, whatever tokens messages
      share and however checks, refusals, handlers, late Discards and purges interleave: a held token is
      owed by some job, so once nothing is owed nothing is held. */
  lemma TokensNeverLeak(s: System, acts: seq<Action>, cap: nat)
    requires Init(s) && AllDisciplined(s, acts)
    ensures NothingLeaked(Exec(s, acts))
    ensures Exec(s, acts).HeldAt(cap) == [] || exists r :: Owes(Exec(s, acts), r)
  {
    ReachableLeaksNothing(s, acts, |acts|);
    assert acts[..|acts|] == acts;
    NothingOwedNothingHeld(Exec(s, acts), cap);
  }

  // ---------------------------------------------------------------------
  // When jobs do not share tokens, nothing is lost either.

  ghost predicate NoneShared(s: System) {
    forall q, r | Owes(s, q) && Owes(s, r) && q != r && CapOf(s, q) == CapOf(s, r) :: IdsOf(s, q) !! IdsOf(s, r)
  }

  /** Every consumed token that has not expired is still held. */
  ghost predicate NothingLost(s: System) {
    forall r | Owes(s, r) :: forall t | t in JobOf(s, r).kept && !t.Expired(s.now) :: t in s.HeldAt(CapOf(s, r))
  }

  /** The message the dispatch loop takes next shares no token with a job that owes tokens to the same
      capability context, and no message is discarded twice. */
  ghost predicate Separate(s: System, act: Action) {
    && (act.By? && act.move.SelectNext? && act.actor in s.kernels && CanDispatch(s.kernels[act.actor]) ==>
          forall r | Owes(s, r) && CapOf(s, r) == s.kernels[act.actor].sctx.cap ::
            s.kernels[act.actor].vq[0].env.TokenIds() !! IdsOf(s, r))
    && (act.DiscardBy? && act.flight < |s.flights| ==> !s.flights[act.flight].discarded)
    && (act.DiscardLate? && act.reply < |s.returned| ==> !s.returned[act.reply].discarded)
  }

  ghost predicate AllSeparate(s: System, acts: seq<Action>) {
    forall i | 0 <= i < |acts| :: Separate(Exec(s, acts[..i]), acts[i])
  }

  /** Two references to one message, in the same capability context, in two states. */
  ghost predicate SameJob(s: System, r: Ref, s': System, r': Ref) {
    Owes(s, r) && Owes(s', r') && JobOf(s', r').item == JobOf(s, r).item && CapOf(s', r') == CapOf(s, r)
  }

  lemma FollowsSameJob(s: System, act: Action, r: Ref, r': Ref)
    requires Follows(s, act, r, r') && Disciplined(s, act)
    ensures SameJob(s, r, Step(s, act), r')
  {
    SameContext(s, act, r);
  }

  lemma FollowersUnshared(s: System, s': System, q: Ref, q': Ref, r: Ref, r': Ref)
    requires NoneShared(s) && q != r && SameJob(s, q, s', q') && SameJob(s, r, s', r')
    requires CapOf(s', q') == CapOf(s', r')
    ensures IdsOf(s', q') !! IdsOf(s', r')
  {
  }

  lemma EntrantUnshared(s: System, act: Action, s': System, q': Ref, r: Ref, r': Ref)
    requires s' == Step(s, act) && Separate(s, act) && Entered(s, act, q') && SameJob(s, r, s', r')
    requires CapOf(s', q') == CapOf(s', r')
    ensures IdsOf(s', q') !! IdsOf(s', r')
  {
  }

  lemma StepKeepsUnshared(s: System, act: Action)
    requires WellFounded(s) && NoneShared(s) && Disciplined(s, act) && Separate(s, act)
    ensures NoneShared(Step(s, act))
  {
    var s' := Step(s, act);
    forall q', r' | Owes(s', q') && Owes(s', r') && q' != r' && CapOf(s', q') == CapOf(s', r')
      ensures IdsOf(s', q') !! IdsOf(s', r')
    {
      CameFrom(s, act, q');
      CameFrom(s, act, r');
      if q :| Follows(s, act, q, q') {
        FollowsSameJob(s, act, q, q');
        if r :| Follows(s, act, r, r') {
          FollowsSameJob(s, act, r, r');
          FollowersUnshared(s, s', q, q', r, r');
        } else {
          EntrantUnshared(s, act, s', r', q, q');
        }
      } else {
        var r :| Follows(s, act, r, r');
        FollowsSameJob(s, act, r, r');
        EntrantUnshared(s, act, s', q', r, r');
      }
    }
  }

  /** A step takes a held token away only by discarding the tokens of a job that thereby settles, or
      because the token has expired. */
  lemma LossStep(s: System, act: Action, cap: nat, t: Token)
    requires WellFounded(s) && Separate(s, act)
    requires t in s.HeldAt(cap) && t !in Step(s, act).HeldAt(cap)
    ensures || t.Expired(s.now)
            || exists r :: Owes(s, r) && Settles(s, act, r) && CapOf(s, r) == cap && t.id in IdsOf(s, r)
  {
    match act {
      case DiscardBy(f) => assert Owes(s, InFlight(f));
      case DiscardLate(i) => assert Owes(s, Returned(i));
      case By(a, _) => assert Owes(s, InLoop(a)) && Settles(s, act, InLoop(a));
      case _ =>
    }
  }

  lemma ClockAdvances(s: System, act: Action)
    ensures Step(s, act).now >= s.now
  {
  }

  lemma GainedIsHeld(s: System, act: Action, r: Ref, t: Token)
    requires Owes(s, r) && t in Gained(s, act, r)
    ensures t in Step(s, act).HeldAt(CapOf(s, r))
  {
  }

  lemma KeptIsNotShared(s: System, q: Ref, r: Ref, t: Token)
    requires WellFounded(s) && NoneShared(s) && Owes(s, q) && Owes(s, r) && q != r && CapOf(s, q) == CapOf(s, r)
    requires t in JobOf(s, r).kept
    ensures t.id !in IdsOf(s, q)
  {
    assert t.id in IdsOf(s, r);
  }

  lemma KeptIsHeld(s: System, act: Action, r: Ref, t: Token)
    requires WellFounded(s) && NoneShared(s) && NothingLost(s) && Separate(s, act)
    requires Owes(s, r) && !Settles(s, act, r) && t in JobOf(s, r).kept && !t.Expired(s.now)
    ensures t in Step(s, act).HeldAt(CapOf(s, r))
  {
    forall q | Owes(s, q) && Settles(s, act, q) && CapOf(s, q) == CapOf(s, r)
      ensures t.id !in IdsOf(s, q)
    {
      KeptIsNotShared(s, q, r, t);
    }
    assert t in s.HeldAt(CapOf(s, r));
    if t !in Step(s, act).HeldAt(CapOf(s, r)) {
      LossStep(s, act, CapOf(s, r), t);
    }
  }

  lemma StepLosesNothing(s: System, act: Action)
    requires WellFounded(s) && NoneShared(s) && NothingLost(s)
    requires Disciplined(s, act) && Separate(s, act)
    ensures NothingLost(Step(s, act))
  {
    var s' := Step(s, act);
    ClockAdvances(s, act);
    forall r', t | Owes(s', r') && t in JobOf(s', r').kept && !t.Expired(s'.now)
      ensures t in s'.HeldAt(CapOf(s', r'))
    {
      CameFrom(s, act, r');
      var r :| Follows(s, act, r, r');
      SameContext(s, act, r);
      if t in JobOf(s, r).kept {
        KeptIsHeld(s, act, r, t);
      } else {
        GainedIsHeld(s, act, r, t);
      }
    }
  }

  lemma {:induction false} ReachableLosesNothing(s: System, acts: seq<Action>, n: nat)
    requires Init(s) && AllDisciplined(s, acts) && AllSeparate(s, acts) && n <= |acts|
    ensures NoneShared(Exec(s, acts[..n])) && NothingLost(Exec(s, acts[..n]))
  {
    if n > 0 {
      ReachableLosesNothing(s, acts, n - 1);
      ReachableLeaksNothing(s, acts, n - 1);
      ExecStep(s, acts, n - 1);
      StepKeepsUnshared(Exec(s, acts[..n - 1]), acts[n - 1]);
      StepLosesNothing(Exec(s, acts[..n - 1]), acts[n - 1]);
    }
  }

  /** When moreover messages that are dispatched concurrently share no tokens and none is discarded
      twice, the balance is exact: a token that has not expired is held in a capability context exactly
      while a job owes it there, and an expired one at most while. */
  lemma TokenBalanceIsExact(s: System, acts: seq<Action>, cap: nat, t: Token)
    requires Init(s) && AllDisciplined(s, acts) && AllSeparate(s, acts)
    ensures var last := Exec(s, acts);
            && (t in last.HeldAt(cap) ==> exists r :: OwedBy(last, cap, t, r))
            && (!t.Expired(last.now) ==> (t in last.HeldAt(cap) <==> exists r :: OwedBy(last, cap, t, r)))
  {
    ReachableLeaksNothing(s, acts, |acts|);
    ReachableLosesNothing(s, acts, |acts|);
    assert acts[..|acts|] == acts;
  }
}
