/** What a running handler implies about the past, what one-shot registrations guarantee, and why the
    gc sweep cannot be observed. */
module KernelDispatch {
  import opened Sequences
  import opened Envelopes
  import opened RateLimiting
  import opened Kernels
  import opened ActorSystem

  // ---------------------------------------------------------------------
  // Every started handler was verified, matched and granted.

  /** The states a run goes through. */
  ghost predicate IsRun(states: seq<System>, acts: seq<Action>) {
    && |states| == |acts| + 1
    && Init(states[0])
    && forall i | 0 <= i < |acts| :: IsStep(states, acts, i)
  }

  ghost predicate IsStep(states: seq<System>, acts: seq<Action>, i: nat)
    requires |states| == |acts| + 1 && i < |acts|
  {
    states[i + 1] == Step(states[i], acts[i])
  }

  /** Step `i` of the run is a worker of actor `a` finding that `item` has not expired and is signed, under
      the security context and at the time of that step. */
  ghost predicate VerifiedAt(states: seq<System>, acts: seq<Action>, i: nat, a: nat, item: Item)
    requires |states| == |acts| + 1
  {
    && i < |acts|
    && acts[i].By? && acts[i].actor == a && acts[i].move.VerifyBy?
    && a in states[i].kernels
    && var k := states[i].kernels[a];
    && var w := acts[i].move.worker;
    && w < |k.hands| && k.hands[w] == Taken(item)
    && states[i].now <= item.env.expire && k.sctx.checks.signed(item.env)
  }

  /** Step `i` is the dispatch loop of actor `a` matching the message with a registration that is in
      the table and has not expired. */
  ghost predicate MatchedAt(states: seq<System>, acts: seq<Action>, i: nat, a: nat, item: Item, reg: Registration)
    requires |states| == |acts| + 1
  {
    && i < |acts|
    && acts[i] == By(a, SelectNext)
    && a in states[i].kernels
    && var k := states[i].kernels[a];
    && CanDispatch(k) && k.vq[0] == item
    && item.env.behavior in k.table && k.table[item.env.behavior] == reg
    && (reg.expire == 0 || states[i].now <= reg.expire)
  }

  /** Whether the registration a message was matched with is still the one in the table. */
  predicate StillListed(k: Kernel, job: Job) {
    job.item.env.behavior in k.table && k.table[job.item.env.behavior] == job.reg
  }

  /** An actor's message to itself: no broadcast, and from and to the actor's own identity. */
  ghost predicate Own(sctx: SecurityContext, env: Envelope) {
    env.from.id == sctx.id && env.to.id == sctx.id && (env.to != Handle("", "", "", "") || env.topic == "")
  }

  /** The tokens grant a broadcast on the registered topic, or any other message, all that the registration
      requires. */
  ghost predicate Allowed(sctx: SecurityContext, held: seq<Token>, env: Envelope, reg: Registration, now: nat) {
    if env.to == Handle("", "", "", "") && env.topic != ""
    then env.topic == reg.topic && sctx.checks.grantedBroadcast(held, env, reg.topic, reg.capability, now)
    else sctx.checks.granted(held, env, reg.capability, now)
  }

  /** Step `i` passes the capability check: the actor sent the message to itself, or the tokens held at
      that moment grant it. The registration is still in the table. */
  ghost predicate PassedAt(states: seq<System>, acts: seq<Action>, i: nat, a: nat, job: Job)
    requires |states| == |acts| + 1
  {
    && i < |acts|
    && a in states[i].kernels
    && var k := states[i].kernels[a];
    && StillListed(k, job)
    && (|| (acts[i] == By(a, SelectNext) && CanDispatch(k) && k.vq[0] == job.item && Own(k.sctx, job.item.env))
        || (&& acts[i] == By(a, RequireNext) && CanRequire(k) && k.loop.job == job
            && Allowed(k.sctx, states[i].HeldAt(k.sctx.cap), job.item.env, job.reg, states[i].now)))
  }

  ghost predicate WasVerified(states: seq<System>, acts: seq<Action>, n: nat, a: nat, item: Item)
    requires |states| == |acts| + 1
  {
    exists i: nat :: i < n && VerifiedAt(states, acts, i, a, item)
  }

  /** Verified first, matched later, both before step `n`. */
  ghost predicate WasMatched(states: seq<System>, acts: seq<Action>, n: nat, a: nat, item: Item, reg: Registration)
    requires |states| == |acts| + 1
  {
    exists i: nat, j: nat ::
      i < j < n && VerifiedAt(states, acts, i, a, item) && MatchedAt(states, acts, j, a, item, reg)
  }

  /** Verified, then matched, then granted, all before step `n`. */
  ghost predicate Justified(states: seq<System>, acts: seq<Action>, n: nat, a: nat, job: Job)
    requires |states| == |acts| + 1
  {
    exists i: nat, j: nat, l: nat ::
      && i < j <= l < n && VerifiedAt(states, acts, i, a, job.item)
      && MatchedAt(states, acts, j, a, job.item, job.reg) && PassedAt(states, acts, l, a, job)
  }

  ghost predicate LoopTraced(states: seq<System>, acts: seq<Action>, n: nat, a: nat, k: Kernel)
    requires |states| == |acts| + 1
  {
    && (k.loop.Consuming? ==>
          && StillListed(k, k.loop.job) && Checkable(k.loop.job.item.env, k.loop.job.reg)
          && WasMatched(states, acts, n, a, k.loop.job.item, k.loop.job.reg))
    && (k.loop.Granted? ==> Justified(states, acts, n, a, k.loop.job))
  }

  ghost predicate Traced(states: seq<System>, acts: seq<Action>, n: nat, a: nat, k: Kernel)
    requires |states| == |acts| + 1
  {
    && (forall w | 0 <= w < |k.hands| :: k.hands[w].Checked? ==> WasVerified(states, acts, n, a, k.hands[w].item))
    && (forall x | x in k.vq :: WasVerified(states, acts, n, a, x))
    && LoopTraced(states, acts, n, a, k)
    && (forall job | job in k.started :: Justified(states, acts, n, a, job))
  }

  lemma TracedLater(states: seq<System>, acts: seq<Action>, n: nat, a: nat, k: Kernel)
    requires |states| == |acts| + 1
    requires Traced(states, acts, n, a, k)
    ensures Traced(states, acts, n + 1, a, k)
  {
  }

  /** The message moves on to a stage of the dispatch loop that is accounted for. */
  lemma LoopMoved(states: seq<System>, acts: seq<Action>, n: nat, a: nat, k: Kernel, k': Kernel)
    requires |states| == |acts| + 1
    requires Traced(states, acts, n, a, k) && LoopTraced(states, acts, n + 1, a, k')
    requires k'.hands == k.hands && (forall x | x in k'.vq :: x in k.vq)
    requires forall job | job in k'.started :: job in k.started || k.loop == Granted(job)
    ensures Traced(states, acts, n + 1, a, k')
  {
    TracedLater(states, acts, n, a, k);
  }

  lemma SelectTraced(states: seq<System>, acts: seq<Action>, n: nat, a: nat)
    requires |states| == |acts| + 1
    requires n < |acts| && acts[n] == By(a, SelectNext) && a in states[n].kernels
    requires CanDispatch(states[n].kernels[a]) && Traced(states, acts, n, a, states[n].kernels[a])
    ensures Traced(states, acts, n + 1, a, Select(states[n].kernels[a], states[n].now))
  {
    var k := states[n].kernels[a];
    var k' := Select(k, states[n].now);
    assert k.vq[0] in k.vq;
    if !k'.loop.Free? {
      var i: nat :| i < n && VerifiedAt(states, acts, i, a, k.vq[0]);
      var job := k'.loop.job;
      assert MatchedAt(states, acts, n, a, job.item, job.reg);
      assert WasMatched(states, acts, n + 1, a, job.item, job.reg);
      if k'.loop.Granted? {
        assert PassedAt(states, acts, n, a, job);
      }
    }
    LoopMoved(states, acts, n, a, k, k');
  }

  lemma ConsumeTraced(states: seq<System>, acts: seq<Action>, n: nat, a: nat, k: Kernel)
    requires |states| == |acts| + 1 && CanConsume(k) && Traced(states, acts, n, a, k)
    ensures Traced(states, acts, n + 1, a, Consume(k))
  {
    var job, after := k.loop.job, Consume(k).loop.job;
    assert after.item == job.item && after.reg == job.reg;
    LoopMoved(states, acts, n, a, k, Consume(k));
  }

  lemma RequireTraced(states: seq<System>, acts: seq<Action>, n: nat, a: nat)
    requires |states| == |acts| + 1
    requires n < |acts| && acts[n] == By(a, RequireNext) && a in states[n].kernels
    requires CanRequire(states[n].kernels[a]) && Traced(states, acts, n, a, states[n].kernels[a])
    ensures var k := states[n].kernels[a];
            Traced(states, acts, n + 1, a, Require(k, Passes(k, states[n].HeldAt(k.sctx.cap), states[n].now)))
  {
    var k := states[n].kernels[a];
    var ok := Passes(k, states[n].HeldAt(k.sctx.cap), states[n].now);
    var job := k.loop.job;
    var i: nat, j: nat :|
      i < j < n && VerifiedAt(states, acts, i, a, job.item) && MatchedAt(states, acts, j, a, job.item, job.reg);
    if ok {
      assert PassedAt(states, acts, n, a, job);
      assert Justified(states, acts, n + 1, a, job);
    }
    LoopMoved(states, acts, n, a, k, Require(k, ok));
  }

  lemma VerifyTraced(states: seq<System>, acts: seq<Action>, n: nat, a: nat)
    requires |states| == |acts| + 1
    requires n < |acts| && acts[n].By? && acts[n].actor == a && acts[n].move.VerifyBy? && a in states[n].kernels
    requires Traced(states, acts, n, a, states[n].kernels[a])
    ensures Traced(states, acts, n + 1, a, Verify(states[n].kernels[a], acts[n].move.worker, states[n].now))
  {
    var k := states[n].kernels[a];
    var w := acts[n].move.worker;
    TracedLater(states, acts, n, a, k);
    if w < |k.hands| && k.hands[w].Taken? && Authentic(k.sctx, k.hands[w].item.env, states[n].now) {
      assert VerifiedAt(states, acts, n, a, k.hands[w].item);
      assert WasVerified(states, acts, n + 1, a, k.hands[w].item);
    }
  }

  lemma WorkerTraced(states: seq<System>, acts: seq<Action>, n: nat, a: nat, k: Kernel, w: nat)
    requires |states| == |acts| + 1
    requires Traced(states, acts, n, a, k)
    ensures Traced(states, acts, n + 1, a, Take(k, w)) && Traced(states, acts, n + 1, a, Put(k, w))
  {
    TracedLater(states, acts, n, a, k);
  }

  lemma LoopTracedLater(states: seq<System>, acts: seq<Action>, n: nat, a: nat, k: Kernel, k': Kernel)
    requires |states| == |acts| + 1 && LoopTraced(states, acts, n, a, k)
    requires k'.loop.Consuming? ==> k'.loop == k.loop && k'.table == k.table
    requires k'.loop.Granted? ==> k'.loop == k.loop
    ensures LoopTraced(states, acts, n + 1, a, k')
  {
  }

  /** The other steps leave a message in the dispatch loop where it is, or release it. */
  lemma OtherMoves(k: Kernel, held: seq<Token>, limiter: Limiter, now: nat, move: Move)
    requires !move.TakeBy? && !move.VerifyBy? && !move.PutBy?
    requires move.SelectNext? ==> !CanDispatch(k)
    requires move.ConsumeNext? ==> !CanConsume(k)
    requires move.RequireNext? ==> !CanRequire(k)
    ensures var k' := KernelAfter(k, held, limiter, now, move);
            && k'.hands == k.hands && k'.vq == k.vq
            && (k'.loop.Consuming? ==> k'.loop == k.loop && k'.table == k.table)
            && (k'.loop.Granted? ==> k'.loop == k.loop)
            && (forall job | job in k'.started :: job in k.started || k.loop == Granted(job))
  {
  }

  lemma ActorTraced(states: seq<System>, acts: seq<Action>, n: nat, a: nat)
    requires |states| == |acts| + 1 && n < |acts| && a in states[n].kernels
    requires acts[n].By? && acts[n].actor == a
    requires Traced(states, acts, n, a, states[n].kernels[a])
    ensures var k := states[n].kernels[a];
            Traced(states, acts, n + 1, a,
                   KernelAfter(k, states[n].HeldAt(k.sctx.cap), states[n].limiter, states[n].now, acts[n].move))
  {
    var s, move := states[n], acts[n].move;
    var k := s.kernels[a];
    if move.VerifyBy? {
      VerifyTraced(states, acts, n, a);
    } else if move.TakeBy? || move.PutBy? {
      WorkerTraced(states, acts, n, a, k, move.worker);
    } else if move.SelectNext? && CanDispatch(k) {
      SelectTraced(states, acts, n, a);
    } else if move.ConsumeNext? && CanConsume(k) {
      ConsumeTraced(states, acts, n, a, k);
    } else if move.RequireNext? && CanRequire(k) {
      RequireTraced(states, acts, n, a);
    } else {
      var k' := KernelAfter(k, s.HeldAt(k.sctx.cap), s.limiter, s.now, move);
      OtherMoves(k, s.HeldAt(k.sctx.cap), s.limiter, s.now, move);
      LoopTracedLater(states, acts, n, a, k, k');
      LoopMoved(states, acts, n, a, k, k');
    }
  }

  lemma NewcomerTraced(s: System, act: Action, a: nat)
    requires a !in s.kernels && a in Step(s, act).kernels
    ensures act.Spawn? && Step(s, act).kernels[a] == NewKernel(act.sctx, act.workers)
  {
  }

  lemma NewTraced(states: seq<System>, acts: seq<Action>, n: nat, a: nat, sctx: SecurityContext, workers: nat)
    requires |states| == |acts| + 1
    ensures Traced(states, acts, n, a, NewKernel(sctx, workers))
  {
  }

  lemma StepTraced(states: seq<System>, acts: seq<Action>, n: nat, a: nat)
    requires |states| == |acts| + 1 && n < |acts| && IsStep(states, acts, n) && a in states[n + 1].kernels
    requires a in states[n].kernels ==> Traced(states, acts, n, a, states[n].kernels[a])
    ensures Traced(states, acts, n + 1, a, states[n + 1].kernels[a])
  {
    var before, act := states[n], acts[n];
    if a !in before.kernels {
      NewcomerTraced(before, act, a);
      NewTraced(states, acts, n + 1, a, act.sctx, act.workers);
    } else {
      OnlyTheActorMoves(before, act, a);
      if act.By? && act.actor == a {
        ActorTraced(states, acts, n, a);
      } else {
        TracedLater(states, acts, n, a, before.kernels[a]);
      }
    }
  }

  lemma {:induction false} ReachableTraced(states: seq<System>, acts: seq<Action>, n: nat, a: nat)
    requires IsRun(states, acts) && n <= |acts| && a in states[n].kernels
    ensures Traced(states, acts, n, a, states[n].kernels[a])
  {
    if n == 0 {
      NewTraced(states, acts, 0, a, states[0].kernels[a].sctx, |states[0].kernels[a].hands|);
    } else {
      assert IsStep(states, acts, n - 1);
      if a in states[n - 1].kernels {
        ReachableTraced(states, acts, n - 1, a);
      }
      StepTraced(states, acts, n - 1, a);
    }
  }

  /** Over every interleaving of workers, dispatch loop, gc, table changes, security-context swaps and
      Discards of other messages: a handler that was started had its message verified by a worker, later
      matched with its registration while that was in the table and unexpired, and then passed the
      capability check on the tokens held at that moment, with the registration still in the table. */
  lemma StartedHandlersAreJustified(states: seq<System>, acts: seq<Action>, n: nat, a: nat, job: Job)
    requires IsRun(states, acts) && n <= |acts| && a in states[n].kernels
    requires job in states[n].kernels[a].started
    ensures Justified(states, acts, n, a, job)
  {
    ReachableTraced(states, acts, n, a);
  }

  // ---------------------------------------------------------------------
  // One-shot registrations.

  /** What was started, followed by what the dispatch loop is about to start. */
  function Dispatched(k: Kernel): seq<Job> {
    k.started + (if k.loop.Granted? then [k.loop.job] else [])
  }

  /** Registrations have distinct identities, and no job came from a one-shot registration that is
      still in the table or that another job came from. */
  ghost predicate Once(table: map<string, Registration>, registered: nat, jobs: seq<Job>) {
    && (forall name | name in table :: table[name].id < registered)
    && (forall m, n | m in table && n in table && m != n :: table[m].id != table[n].id)
    && (forall i | 0 <= i < |jobs| :: jobs[i].reg.id < registered)
    && (forall i, n | 0 <= i < |jobs| && n in table ::
          jobs[i].reg.id == table[n].id ==> jobs[i].reg == table[n] && !jobs[i].reg.oneShot)
    && (forall i, j | 0 <= i < j < |jobs| ::
          jobs[i].reg.id == jobs[j].reg.id ==> !jobs[i].reg.oneShot && !jobs[j].reg.oneShot)
  }

  ghost predicate OneShotOnce(k: Kernel) {
    Once(k.table, k.registered, Dispatched(k)) && (k.loop.Consuming? ==> StillListed(k, k.loop.job))
  }

  lemma DispatchOnce(table: map<string, Registration>, registered: nat, jobs: seq<Job>, name: string,
                     item: Item, kept: seq<Token>)
    requires Once(table, registered, jobs) && name in table
    ensures var reg := table[name];
            Once(if reg.oneShot then table - {name} else table, registered, jobs + [Job(item, reg, kept)])
  {
    var reg := table[name];
    var jobs' := jobs + [Job(item, reg, kept)];
    assert forall i | 0 <= i < |jobs| :: jobs'[i] == jobs[i];
  }

  lemma FewerOnce(table: map<string, Registration>, registered: nat, jobs: seq<Job>,
                  table': map<string, Registration>, jobs': seq<Job>)
    requires Once(table, registered, jobs)
    requires forall name | name in table' :: name in table && table'[name] == table[name]
    requires jobs' <= jobs
    ensures Once(table', registered, jobs')
  {
  }

  /** A step that only shrinks the table and the list of dispatched jobs, and leaves a message that is
      being checked listed. */
  ghost predicate Shrinks(k: Kernel, k': Kernel) {
    && k'.registered == k.registered
    && Dispatched(k') <= Dispatched(k)
    && (forall name | name in k'.table :: name in k.table && k'.table[name] == k.table[name])
    && (k'.loop.Consuming? ==> && k.loop.Consuming? && k'.table == k.table
                               && k'.loop.job.item == k.loop.job.item && k'.loop.job.reg == k.loop.job.reg)
  }

  lemma LoopMoveShrinks(k: Kernel, held: seq<Token>, limiter: Limiter, now: nat, move: Move)
    requires move.ConsumeNext? || move.GiveBackNext? || move.LaunchNext?
    ensures Shrinks(k, KernelAfter(k, held, limiter, now, move))
  {
  }

  lemma WorkerMoveShrinks(k: Kernel, held: seq<Token>, limiter: Limiter, now: nat, move: Move)
    requires move.Deliver? || move.TakeBy? || move.VerifyBy? || move.PutBy?
    ensures Shrinks(k, KernelAfter(k, held, limiter, now, move))
  {
  }

  lemma LockedMoveShrinks(k: Kernel, held: seq<Token>, limiter: Limiter, now: nat, move: Move)
    requires NeedsLock(move) && !move.Add?
    ensures Shrinks(k, KernelAfter(k, held, limiter, now, move))
  {
  }

  lemma QuietMove(k: Kernel, held: seq<Token>, limiter: Limiter, now: nat, move: Move)
    requires !move.Add? && !(move.SelectNext? && CanDispatch(k)) && !(move.RequireNext? && CanRequire(k))
    ensures Shrinks(k, KernelAfter(k, held, limiter, now, move))
  {
    if NeedsLock(move) {
      LockedMoveShrinks(k, held, limiter, now, move);
    } else if move.ConsumeNext? || move.GiveBackNext? || move.LaunchNext? {
      LoopMoveShrinks(k, held, limiter, now, move);
    } else if move.Deliver? || move.TakeBy? || move.VerifyBy? || move.PutBy? {
      WorkerMoveShrinks(k, held, limiter, now, move);
    }
  }

  /** What the dispatch loop does with the table when it takes a message. */
  lemma Selected(k: Kernel, now: nat)
    requires CanDispatch(k)
    ensures var k', name := Select(k, now), k.vq[0].env.behavior;
            && k'.registered == k.registered && k'.started == k.started
            && (forall n | n in k'.table :: n in k.table && k'.table[n] == k.table[n])
            && (!k'.loop.Free? ==> name in k.table && k'.loop.job == Job(k.vq[0], k.table[name], []))
            && (k'.loop.Granted? ==> k'.table == Used(k.table, k'.loop.job))
            && (k'.loop.Consuming? ==> k'.table == k.table)
            && !k'.loop.Refused?
  {
  }

  lemma SelectOnce(k: Kernel, now: nat)
    requires OneShotOnce(k) && CanDispatch(k)
    ensures OneShotOnce(Select(k, now))
  {
    var k' := Select(k, now);
    Selected(k, now);
    assert Dispatched(k) == k.started;
    if k'.loop.Granted? {
      DispatchOnce(k.table, k.registered, k.started, k.vq[0].env.behavior, k.vq[0], []);
    } else {
      assert Dispatched(k') == k.started;
      FewerOnce(k.table, k.registered, k.started, k'.table, k.started);
    }
  }

  lemma RequireOnce(k: Kernel, ok: bool)
    requires OneShotOnce(k) && CanRequire(k)
    ensures OneShotOnce(Require(k, ok))
  {
    var job := k.loop.job;
    assert Dispatched(k) == k.started;
    if ok {
      DispatchOnce(k.table, k.registered, k.started, job.item.env.behavior, job.item, job.kept);
    }
  }

  lemma AddOnce(k: Kernel, name: string, cont: nat, opt: Options)
    requires OneShotOnce(k) && !Locked(k)
    ensures OneShotOnce(AddBehavior(k, name, cont, opt))
  {
    assert Dispatched(AddBehavior(k, name, cont, opt)) == Dispatched(k);
  }

  lemma MoveOnce(k: Kernel, held: seq<Token>, limiter: Limiter, now: nat, move: Move)
    requires OneShotOnce(k)
    ensures OneShotOnce(KernelAfter(k, held, limiter, now, move))
  {
    if move.SelectNext? && CanDispatch(k) {
      SelectOnce(k, now);
    } else if move.RequireNext? && CanRequire(k) {
      RequireOnce(k, Passes(k, held, now));
    } else if move.Add? {
      if !Locked(k) {
        AddOnce(k, move.name, move.cont, move.opt);
      }
    } else {
      QuietMove(k, held, limiter, now, move);
      FewerOnce(k.table, k.registered, Dispatched(k), KernelAfter(k, held, limiter, now, move).table,
                Dispatched(KernelAfter(k, held, limiter, now, move)));
    }
  }

  lemma {:induction false} ReachableOnce(s: System, acts: seq<Action>, a: nat)
    requires Init(s) && a in Exec(s, acts).kernels
    ensures OneShotOnce(Exec(s, acts).kernels[a])
  {
    if acts != [] {
      var before := Exec(s, acts[..|acts| - 1]);
      var act := acts[|acts| - 1];
      if a in before.kernels {
        ReachableOnce(s, acts[..|acts| - 1], a);
        OnlyTheActorMoves(before, act, a);
        if act.By? && act.actor == a {
          var k := before.kernels[a];
          MoveOnce(k, before.HeldAt(k.sctx.cap), before.limiter, before.now, act.move);
        }
      }
    }
  }

  /** Over every run a one-shot registration starts at most one handler. */
  lemma OneShotStartsAtMostOnce(s: System, acts: seq<Action>, a: nat, i: nat, j: nat)
    requires Init(s) && a in Exec(s, acts).kernels
    requires var started := Exec(s, acts).kernels[a].started;
             && i < |started| && j < |started|
             && started[i].reg.oneShot && started[i].reg.id == started[j].reg.id
    ensures i == j
  {
    ReachableOnce(s, acts, a);
    var k := Exec(s, acts).kernels[a];
    assert Dispatched(k)[i] == k.started[i] && Dispatched(k)[j] == k.started[j];
  }

  // ---------------------------------------------------------------------
  // Reply channels. Invoke registers, one-shot, a handler of its own that sends on the invocation's
  // channel and closes it; `cont` names that handler.

  predicate Registers(act: Action, a: nat, cont: nat) {
    act.By? && act.actor == a && act.move.Add? && act.move.cont == cont
  }

  /** How often actor `a` is asked to register the handler. */
  function Registrations(acts: seq<Action>, a: nat, cont: nat): nat {
    Count(acts, (act: Action) => Registers(act, a, cont))
  }

  predicate OneShotOnly(acts: seq<Action>, a: nat, cont: nat) {
    forall i | 0 <= i < |acts| && Registers(acts[i], a, cont) :: acts[i].move.opt.oneShot
  }

  predicate Among(reg: Registration, cont: nat, ids: set<nat>) {
    reg.cont == cont ==> reg.id in ids && reg.oneShot
  }

  /** Every registration of the handler, in the table, in the loop or of a started job, is one of these. */
  ghost predicate AllAmong(k: Kernel, cont: nat, ids: set<nat>) {
    && (forall name | name in k.table :: Among(k.table[name], cont, ids))
    && (!k.loop.Free? ==> Among(k.loop.job.reg, cont, ids))
    && (forall i | 0 <= i < |k.started| :: Among(k.started[i].reg, cont, ids))
  }

  lemma LoopMoveAmong(k: Kernel, held: seq<Token>, limiter: Limiter, now: nat, move: Move, cont: nat, ids: set<nat>)
    requires AllAmong(k, cont, ids) && (move.RequireNext? || move.GiveBackNext? || move.LaunchNext?)
    ensures AllAmong(KernelAfter(k, held, limiter, now, move), cont, ids)
  {
  }

  lemma SelectAmong(k: Kernel, now: nat, cont: nat, ids: set<nat>)
    requires AllAmong(k, cont, ids) && CanDispatch(k)
    ensures AllAmong(Select(k, now), cont, ids)
  {
    Selected(k, now);
  }

  lemma MoveAmong(k: Kernel, held: seq<Token>, limiter: Limiter, now: nat, move: Move, cont: nat, ids: set<nat>)
    requires AllAmong(k, cont, ids) && !(move.Add? && move.cont == cont)
    ensures AllAmong(KernelAfter(k, held, limiter, now, move), cont, ids)
  {
    if move.RequireNext? || move.GiveBackNext? || move.LaunchNext? {
      LoopMoveAmong(k, held, limiter, now, move, cont, ids);
    } else if move.SelectNext? && CanDispatch(k) {
      SelectAmong(k, now, cont, ids);
    }
  }

  lemma AddAmong(k: Kernel, name: string, cont: nat, opt: Options, ids: set<nat>)
    requires AllAmong(k, cont, ids) && opt.oneShot
    ensures AllAmong(AddBehavior(k, name, cont, opt), cont, ids + {k.registered})
  {
  }

  lemma {:induction false} ReachableAmong(s: System, acts: seq<Action>, a: nat, cont: nat) returns (ids: set<nat>)
    requires Init(s) && a in Exec(s, acts).kernels && OneShotOnly(acts, a, cont)
    ensures AllAmong(Exec(s, acts).kernels[a], cont, ids) && |ids| <= Registrations(acts, a, cont)
  {
    ids := {};
    if acts != [] {
      var front, act := acts[..|acts| - 1], acts[|acts| - 1];
      var before := Exec(s, front);
      assert acts == front + [act];
      CountSnoc(front, act, (act: Action) => Registers(act, a, cont));
      if a in before.kernels {
        ids := ReachableAmong(s, front, a, cont);
        OnlyTheActorMoves(before, act, a);
        var k := before.kernels[a];
        if Registers(act, a, cont) {
          AddAmong(k, act.move.name, cont, act.move.opt, ids);
          ids := ids + {k.registered};
        } else if act.By? && act.actor == a {
          MoveAmong(k, before.HeldAt(k.sctx.cap), before.limiter, before.now, act.move, cont, ids);
        }
      } else {
        NewcomerTraced(before, act, a);
      }
    }
  }

  lemma AtMostOne(ids: set<nat>, x: nat, y: nat)
    requires |ids| <= 1 && x in ids && y in ids
    ensures x == y
  {
    var rest := ids - {x};
    assert |rest| == 0;
    assert y !in rest;
  }

  /** Over every run, a handler that is registered once, one-shot, starts at most once: an invocation's
      channel gets at most one value, and is never sent to after it was closed. */
  lemma ReplyIsSentAtMostOnce(s: System, acts: seq<Action>, a: nat, cont: nat, i: nat, j: nat)
    requires Init(s) && a in Exec(s, acts).kernels
    requires OneShotOnly(acts, a, cont) && Registrations(acts, a, cont) <= 1
    requires var started := Exec(s, acts).kernels[a].started;
             i < |started| && j < |started| && started[i].reg.cont == cont == started[j].reg.cont
    ensures i == j
  {
    var ids := ReachableAmong(s, acts, a, cont);
    var started := Exec(s, acts).kernels[a].started;
    assert Among(started[i].reg, cont, ids) && Among(started[j].reg, cont, ids);
    AtMostOne(ids, started[i].reg.id, started[j].reg.id);
    OneShotStartsAtMostOnce(s, acts, a, i, j);
  }

  // ---------------------------------------------------------------------
  // The gc sweep cannot be observed.

  function WithoutGc(acts: seq<Action>): seq<Action>
  {
    if acts == [] then []
    else
      var rest := WithoutGc(acts[..|acts| - 1]);
      var act := acts[|acts| - 1];
      if act.By? && act.move.Gc? then rest else rest + [act]
  }

  /** Two kernels that differ at most in table entries that have expired. */
  ghost predicate SameButExpired(k: Kernel, l: Kernel, now: nat) {
    && k == l.(table := k.table)
    && LiveEntries(k.table, now) == LiveEntries(l.table, now)
  }

  ghost predicate Alike(s: System, t: System) {
    && s.limiter == t.limiter && s.held == t.held && s.now == t.now
    && s.flights == t.flights && s.returned == t.returned
    && s.kernels.Keys == t.kernels.Keys
    && forall a | a in s.kernels :: SameButExpired(s.kernels[a], t.kernels[a], s.now)
  }

  lemma LiveEntriesAt(k: Kernel, l: Kernel, now: nat, name: string)
    requires SameButExpired(k, l, now)
    ensures (name in k.table && !k.table[name].Expired(now)) <==> (name in l.table && !l.table[name].Expired(now))
    ensures name in k.table && !k.table[name].Expired(now) ==> k.table[name] == l.table[name]
  {
    assert (name in LiveEntries(k.table, now)) == (name in LiveEntries(l.table, now));
    if name in k.table && !k.table[name].Expired(now) {
      assert LiveEntries(k.table, now)[name] == LiveEntries(l.table, now)[name];
    }
  }

  lemma SweptAlike(k: Kernel, now: nat)
    ensures SameButExpired(Sweep(k, now), k, now)
  {
  }

  lemma RemovedAlike(t: map<string, Registration>, u: map<string, Registration>, name: string, now: nat)
    requires LiveEntries(t, now) == LiveEntries(u, now)
    ensures LiveEntries(t - {name}, now) == LiveEntries(u - {name}, now)
  {
    assert LiveEntries(t - {name}, now) == LiveEntries(t, now) - {name};
    assert LiveEntries(u - {name}, now) == LiveEntries(u, now) - {name};
  }

  lemma AddedAlike(
    t: map<string, Registration>, u: map<string, Registration>, name: string, reg: Registration, now: nat)
    requires LiveEntries(t, now) == LiveEntries(u, now)
    ensures LiveEntries(t[name := reg], now) == LiveEntries(u[name := reg], now)
  {
    var bare := LiveEntries(t, now) - {name};
    var live := if reg.Expired(now) then bare else bare[name := reg];
    assert LiveEntries(t[name := reg], now) == live;
    assert LiveEntries(u[name := reg], now) == live;
  }

  lemma SelectAlike(k: Kernel, l: Kernel, now: nat)
    requires SameButExpired(k, l, now) && CanDispatch(k)
    ensures SameButExpired(Select(k, now), Select(l, now), now)
  {
    var name := k.vq[0].env.behavior;
    LiveEntriesAt(k, l, now, name);
    RemovedAlike(k.table, l.table, name, now);
  }

  lemma RequireAlike(k: Kernel, l: Kernel, ok: bool, now: nat)
    requires SameButExpired(k, l, now) && CanRequire(k)
    ensures SameButExpired(Require(k, ok), Require(l, ok), now)
  {
    RemovedAlike(k.table, l.table, k.loop.job.item.env.behavior, now);
  }

  /** The queues do not look at the table. */
  lemma ReceiveAlike(k: Kernel, l: Kernel, env: Envelope, pick: bool, now: nat)
    requires SameButExpired(k, l, now)
    ensures SameButExpired(Receive(k, env, pick), Receive(l, env, pick), now)
  {
  }

  lemma WorkersIgnoreTable(k: Kernel, table: map<string, Registration>, w: nat, now: nat)
    ensures Take(k.(table := table), w) == Take(k, w).(table := table)
    ensures Verify(k.(table := table), w, now) == Verify(k, w, now).(table := table)
    ensures Put(k.(table := table), w) == Put(k, w).(table := table)
  {
  }

  lemma WorkersAlike(k: Kernel, l: Kernel, w: nat, now: nat)
    requires SameButExpired(k, l, now)
    ensures SameButExpired(Take(k, w), Take(l, w), now)
    ensures SameButExpired(Verify(k, w, now), Verify(l, w, now), now)
    ensures SameButExpired(Put(k, w), Put(l, w), now)
  {
    assert l == k.(table := l.table);
    WorkersIgnoreTable(k, l.table, w, now);
  }

  lemma TableMovesAlike(k: Kernel, l: Kernel, held: seq<Token>, limiter: Limiter, now: nat, move: Move)
    requires SameButExpired(k, l, now) && (move.Add? || move.Remove? || move.Gc?)
    ensures SameButExpired(KernelAfter(k, held, limiter, now, move), KernelAfter(l, held, limiter, now, move), now)
  {
    match move {
      case Add(name, cont, opt) =>
        AddedAlike(k.table, l.table, name, AddBehavior(k, name, cont, opt).table[name], now);
      case Remove(name) => RemovedAlike(k.table, l.table, name, now);
      case Gc =>
    }
  }

  /** The loop between match and launch does not look at the table. */
  lemma LoopMovesAlike(k: Kernel, l: Kernel, held: seq<Token>, limiter: Limiter, now: nat, move: Move)
    requires SameButExpired(k, l, now) && (move.ConsumeNext? || move.GiveBackNext? || move.LaunchNext?)
    ensures SameButExpired(KernelAfter(k, held, limiter, now, move), KernelAfter(l, held, limiter, now, move), now)
  {
  }

  lemma OtherMovesAlike(k: Kernel, l: Kernel, held: seq<Token>, limiter: Limiter, now: nat, move: Move)
    requires SameButExpired(k, l, now)
    requires move.ConsumeNext? || move.GiveBackNext? || move.LaunchNext? || move.Swap? || move.Halt?
    ensures SameButExpired(KernelAfter(k, held, limiter, now, move), KernelAfter(l, held, limiter, now, move), now)
  {
    if !move.Swap? && !move.Halt? {
      LoopMovesAlike(k, l, held, limiter, now, move);
    }
  }

  lemma MoveAlike(k: Kernel, l: Kernel, held: seq<Token>, limiter: Limiter, now: nat, move: Move)
    requires SameButExpired(k, l, now)
    ensures SameButExpired(KernelAfter(k, held, limiter, now, move), KernelAfter(l, held, limiter, now, move), now)
  {
    match move {
      case Deliver(env, pick) => ReceiveAlike(k, l, env, pick, now);
      case TakeBy(w) => WorkersAlike(k, l, w, now);
      case VerifyBy(w) => WorkersAlike(k, l, w, now);
      case PutBy(w) => WorkersAlike(k, l, w, now);
      case SelectNext => if CanDispatch(k) { SelectAlike(k, l, now); }
      case RequireNext => if CanRequire(k) { RequireAlike(k, l, Passes(k, held, now), now); }
      case Add(_, _, _) => TableMovesAlike(k, l, held, limiter, now, move);
      case Remove(_) => TableMovesAlike(k, l, held, limiter, now, move);
      case Gc => TableMovesAlike(k, l, held, limiter, now, move);
      case _ => OtherMovesAlike(k, l, held, limiter, now, move);
    }
  }

  lemma ExpiredStaysExpired(k: Kernel, l: Kernel, now: nat, later: nat)
    requires SameButExpired(k, l, now) && now <= later
    ensures SameButExpired(k, l, later)
  {
    forall name
      ensures name in LiveEntries(k.table, later) <==> name in LiveEntries(l.table, later)
      ensures name in LiveEntries(k.table, later) ==>
                LiveEntries(k.table, later)[name] == LiveEntries(l.table, later)[name]
    {
      LiveEntriesAt(k, l, now, name);
    }
    assert LiveEntries(k.table, later) == LiveEntries(l.table, later);
  }

  lemma MoveStepAlike(s: System, t: System, a: nat, move: Move)
    requires Alike(s, t) && a in s.kernels
    ensures Alike(MoveStep(s, a, move), MoveStep(t, a, move))
  {
    var k, l := s.kernels[a], t.kernels[a];
    var held := s.HeldAt(k.sctx.cap);
    MoveAlike(k, l, held, s.limiter, s.now, move);
    var s', t' := MoveStep(s, a, move), MoveStep(t, a, move);
    assert s'.held == t'.held && s'.flights == t'.flights && s'.limiter == t'.limiter;
    KernelsAlike(s, t, a, KernelAfter(k, held, s.limiter, s.now, move), KernelAfter(l, held, s.limiter, s.now, move));
  }

  lemma KernelsAlike(s: System, t: System, a: nat, k: Kernel, l: Kernel)
    requires Alike(s, t) && SameButExpired(k, l, s.now)
    ensures Alike(s.(kernels := s.kernels[a := k]), t.(kernels := t.kernels[a := l]))
  {
  }

  lemma TickAlike(s: System, t: System, dt: nat)
    requires Alike(s, t)
    ensures Alike(s.(now := s.now + dt), t.(now := t.now + dt))
  {
    forall a | a in s.kernels
      ensures SameButExpired(s.kernels[a], t.kernels[a], s.now + dt)
    {
      ExpiredStaysExpired(s.kernels[a], t.kernels[a], s.now, s.now + dt);
    }
  }

  lemma DiscardAlike(s: System, t: System, f: nat)
    requires Alike(s, t) && f < |s.flights| && s.flights[f].actor in s.kernels
    ensures Alike(DiscardStep(s, f), DiscardStep(t, f))
  {
    var a := s.flights[f].actor;
    assert s.kernels[a].sctx == t.kernels[a].sctx;
  }

  lemma DiscardLateAlike(s: System, t: System, i: nat)
    requires Alike(s, t) && i < |s.returned| && s.returned[i].actor in s.kernels
    ensures Alike(DiscardLateStep(s, i), DiscardLateStep(t, i))
  {
    var a := s.returned[i].actor;
    assert s.kernels[a].sctx == t.kernels[a].sctx;
  }

  lemma SpawnAlike(s: System, t: System, c: nat, k: Kernel)
    requires Alike(s, t)
    ensures Alike(s.(kernels := s.kernels[c := k]), t.(kernels := t.kernels[c := k]))
  {
  }

  lemma FinishAlike(s: System, t: System, f: nat)
    requires Alike(s, t) && f < |s.flights|
    ensures Alike(FinishStep(s, f), FinishStep(t, f))
  {
  }

  lemma FinishStepAlike(s: System, t: System, f: nat)
    requires Alike(s, t)
    ensures Alike(Step(s, FinishBy(f)), Step(t, FinishBy(f)))
  {
    if f < |s.flights| {
      FinishAlike(s, t, f);
      assert Step(s, FinishBy(f)) == FinishStep(s, f) && Step(t, FinishBy(f)) == FinishStep(t, f);
    }
  }

  lemma DiscardStepAlike(s: System, t: System, f: nat)
    requires Alike(s, t)
    ensures Alike(Step(s, DiscardBy(f)), Step(t, DiscardBy(f)))
  {
    if f < |s.flights| && s.flights[f].actor in s.kernels {
      DiscardAlike(s, t, f);
      assert Step(s, DiscardBy(f)) == DiscardStep(s, f) && Step(t, DiscardBy(f)) == DiscardStep(t, f);
    }
  }

  lemma DiscardLateStepAlike(s: System, t: System, i: nat)
    requires Alike(s, t)
    ensures Alike(Step(s, DiscardLate(i)), Step(t, DiscardLate(i)))
  {
    if i < |s.returned| && s.returned[i].actor in s.kernels {
      DiscardLateAlike(s, t, i);
      assert Step(s, DiscardLate(i)) == DiscardLateStep(s, i) && Step(t, DiscardLate(i)) == DiscardLateStep(t, i);
    }
  }

  lemma TickStepAlike(s: System, t: System, dt: nat)
    requires Alike(s, t)
    ensures Alike(Step(s, Tick(dt)), Step(t, Tick(dt)))
  {
    TickAlike(s, t, dt);
    assert Step(s, Tick(dt)) == s.(now := s.now + dt);
    assert Step(t, Tick(dt)) == t.(now := t.now + dt);
  }

  lemma SpawnStepAlike(s: System, t: System, c: nat, sctx: SecurityContext, workers: nat)
    requires Alike(s, t)
    ensures Alike(Step(s, Spawn(c, sctx, workers)), Step(t, Spawn(c, sctx, workers)))
  {
    SpawnAlike(s, t, c, NewKernel(sctx, workers));
  }

  lemma MovedAlike(s: System, t: System, a: nat, move: Move)
    requires Alike(s, t)
    ensures Alike(Step(s, By(a, move)), Step(t, By(a, move)))
  {
    if a in s.kernels {
      MoveStepAlike(s, t, a, move);
      assert Step(s, By(a, move)) == MoveStep(s, a, move) && Step(t, By(a, move)) == MoveStep(t, a, move);
    }
  }

  lemma StepAlike(s: System, t: System, act: Action)
    requires Alike(s, t)
    ensures Alike(Step(s, act), Step(t, act))
  {
    match act {
      case By(a, move) => MovedAlike(s, t, a, move);
      case DiscardBy(f) => DiscardStepAlike(s, t, f);
      case FinishBy(f) => FinishStepAlike(s, t, f);
      case DiscardLate(i) => DiscardLateStepAlike(s, t, i);
      case Spawn(child, sctx, workers) => SpawnStepAlike(s, t, child, sctx, workers);
      case Tick(dt) => TickStepAlike(s, t, dt);
      case Purge(cap, subject) =>
      case Configure(cfg) =>
    }
  }

  lemma GcAlike(s: System, t: System, a: nat)
    requires Alike(s, t)
    ensures Alike(Step(s, By(a, Gc)), t)
  {
    if a in s.kernels && !Locked(s.kernels[a]) {
      var k := s.kernels[a];
      SweptAlike(k, s.now);
      var s' := Step(s, By(a, Gc));
      assert SameButExpired(s'.kernels[a], t.kernels[a], s.now);
    }
  }

  /** Taking every gc sweep out of a run changes nothing but expired table entries: the same handlers
      start in the same order, and queues, limiter, tokens and running handlers are the same. */
  lemma {:induction false} GcIsInvisible(s: System, acts: seq<Action>)
    ensures Alike(Exec(s, acts), Exec(s, WithoutGc(acts)))
    ensures forall a | a in Exec(s, acts).kernels ::
              && a in Exec(s, WithoutGc(acts)).kernels
              && Exec(s, acts).kernels[a].started == Exec(s, WithoutGc(acts)).kernels[a].started
  {
    if acts != [] {
      var front := acts[..|acts| - 1];
      var act := acts[|acts| - 1];
      GcIsInvisible(s, front);
      if act.By? && act.move.Gc? {
        GcAlike(Exec(s, front), Exec(s, WithoutGc(front)), act.actor);
      } else {
        StepAlike(Exec(s, front), Exec(s, WithoutGc(front)), act);
        var kept := WithoutGc(acts);
        assert kept[..|kept| - 1] == WithoutGc(front);
      }
    }
  }
}
