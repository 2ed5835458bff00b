/** What becomes of a message, stage by stage and over whole runs: exactly when it is kept, checked,
    granted, started or dropped. */
module KernelFates {
  import opened Envelopes
  import opened RateLimiting
  import opened Kernels
  import opened ActorSystem
  import opened KernelDispatch

  /** The limiter has room for one more handler of the message's kind. */
  ghost predicate Room(l: Limiter, env: Envelope) {
    Below(l, env, l.cfg.broadcastAcquire, l.cfg.publicAcquire)
  }

  /** The table knows the behaviour, and its registration is still good. */
  ghost predicate Known(k: Kernel, name: string, now: nat) {
    name in k.table && (k.table[name].expire == 0 || now <= k.table[name].expire)
  }

  // ---------------------------------------------------------------------
  // Stage by stage.

  /** A message is enqueued, with the next arrival number, exactly when there is room and the kernel is
      open, or closed and the select takes the enqueue all the same. The receipt says so only while it is
      open. */
  lemma DeliverEnqueuesIff(s: System, a: nat, env: Envelope, pick: bool)
    requires a in s.kernels
    ensures var k, k' := s.kernels[a], Step(s, By(a, Deliver(env, pick))).kernels[a];
            && (if |k.q| < 100 && (pick || !k.closed)
                then var item := Item(|k.inbox|, env); k' == k.(q := k.q + [item], inbox := k.inbox + [item])
                else k' == k)
            && ReceiptFor(k) == if k.closed then ContextClosed else if |k.q| < 100 then Accepted else QueueFull
  {
  }

  /** An idle worker takes the oldest message. */
  lemma TakeTakesOldest(s: System, a: nat, w: nat)
    requires a in s.kernels && w < |s.kernels[a].hands|
    ensures var k, k' := s.kernels[a], Step(s, By(a, TakeBy(w))).kernels[a];
            if k.hands[w] == Idle && |k.q| > 0
            then k' == k.(q := k.q[1..], hands := k.hands[w := Taken(k.q[0])]) else k' == k
  {
  }

  /** A worker keeps what it took exactly when it has not expired and is signed, and drops it otherwise. */
  lemma VerifyKeepsIff(s: System, a: nat, w: nat, item: Item)
    requires a in s.kernels && w < |s.kernels[a].hands| && s.kernels[a].hands[w] == Taken(item)
    ensures var k, k' := s.kernels[a], Step(s, By(a, VerifyBy(w))).kernels[a];
            if s.now <= item.env.expire && k.sctx.checks.signed(item.env)
            then k' == k.(hands := k.hands[w := Checked(item)])
            else k' == k.(hands := k.hands[w := Idle], dropped := k.dropped + [item])
  {
  }

  /** A verified message is handed on exactly when the second queue has room. */
  lemma PutHandsOnIff(s: System, a: nat, w: nat, item: Item)
    requires a in s.kernels && w < |s.kernels[a].hands| && s.kernels[a].hands[w] == Checked(item)
    ensures var k, k' := s.kernels[a], Step(s, By(a, PutBy(w))).kernels[a];
            if |k.vq| < 100 then k' == k.(hands := k.hands[w := Idle], vq := k.vq + [item])
            else k' == k.(hands := k.hands[w := Idle], dropped := k.dropped + [item])
  {
  }

  /** A free dispatch loop takes the oldest verified message. One without a good registration is dropped
      and its entry removed; one of the actor to itself is granted, and uses up a one-shot entry; a
      broadcast on another topic, or tokens that cannot be read, are dropped; any other begins its check. */
  lemma SelectOutcome(s: System, a: nat, item: Item)
    requires a in s.kernels && s.kernels[a].loop.Free? && s.kernels[a].vq != [] && s.kernels[a].vq[0] == item
    ensures var k, k' := s.kernels[a], Step(s, By(a, SelectNext)).kernels[a];
            var name, rest := item.env.behavior, k.(vq := k.vq[1..]);
            if !Known(k, name, s.now) then k' == rest.(table := k.table - {name}, dropped := k.dropped + [item])
            else
              var reg := k.table[name];
              if Own(k.sctx, item.env) then
                k' == rest.(loop := Granted(Job(item, reg, [])),
                            table := if reg.oneShot then k.table - {name} else k.table)
              else if item.env.capability == None || (IsToAll(item.env) && item.env.topic != reg.topic) then
                k' == rest.(dropped := k.dropped + [item])
              else k' == rest.(loop := Consuming(Job(item, reg, []), item.env.capability.value, s.now))
  {
  }

  /** One token of the message is stored and kept for it exactly when it verifies at the time at which the
      check began. */
  lemma ConsumeKeepsIff(s: System, a: nat, job: Job, t: Token, todo: seq<Token>, at: nat)
    requires a in s.kernels && s.kernels[a].loop == Consuming(job, [t] + todo, at)
    ensures var k, s' := s.kernels[a], Step(s, By(a, ConsumeNext));
            var cap := k.sctx.cap;
            if k.sctx.checks.keeps(job.item.env, t, at)
            then s'.kernels[a].loop == Consuming(job.(kept := job.kept + [t]), todo, at) &&
                 s'.HeldAt(cap) == s.HeldAt(cap) + [t]
            else s'.kernels[a].loop == Consuming(job, todo, at) && s'.HeldAt(cap) == s.HeldAt(cap)
  {
    assert ([t] + todo)[1..] == todo;
  }

  /** Over every run, a message whose tokens are consumed is granted exactly when the tokens held at that
      moment allow it, and uses up a one-shot entry then; otherwise it is refused. */
  lemma RequireGrantsIff(states: seq<System>, acts: seq<Action>, i: nat, a: nat)
    requires IsRun(states, acts) && i < |acts| && acts[i] == By(a, RequireNext) && a in states[i].kernels
    requires states[i].kernels[a].loop.Consuming? && states[i].kernels[a].loop.todo == []
    ensures var k := states[i].kernels[a];
            var job, held := k.loop.job, states[i].HeldAt(k.sctx.cap);
            && a in states[i + 1].kernels
            && var k' := states[i + 1].kernels[a];
            if Allowed(k.sctx, held, job.item.env, job.reg, states[i].now)
            then k' == k.(loop := Granted(job),
                          table := if job.reg.oneShot then k.table - {job.item.env.behavior} else k.table)
            else k' == k.(loop := Refused(job, true))
  {
    ReachableTraced(states, acts, i, a);
    assert IsStep(states, acts, i);
    OnlyTheActorMoves(states[i], acts[i], a);
  }

  /** A granted message is started, and counted, exactly when the limiter has room for it; otherwise it is
      refused. */
  lemma LaunchStartsIff(s: System, a: nat, job: Job)
    requires a in s.kernels && s.kernels[a].loop == Granted(job)
    ensures var k, s' := s.kernels[a], Step(s, By(a, LaunchNext));
            if Room(s.limiter, job.item.env)
            then && s'.kernels[a] == k.(loop := Free, started := k.started + [job])
                 && s'.flights == s.flights + [Flight(a, job, false)]
            else s'.kernels[a] == k.(loop := Refused(job, false)) && s'.flights == s.flights && s'.limiter == s.limiter
  {
  }

  /** A refused message is dropped, and its tokens are discarded. */
  lemma RefusedIsDropped(s: System, a: nat, job: Job, locked: bool)
    requires a in s.kernels && s.kernels[a].loop == Refused(job, locked)
    ensures var k, s' := s.kernels[a], Step(s, By(a, GiveBackNext));
            && s'.kernels[a] == k.(loop := Free, dropped := k.dropped + [job.item])
            && forall t :: t in s'.HeldAt(k.sctx.cap) <==>
                           t in s.HeldAt(k.sctx.cap) && forall u | u in job.item.env.Tokens() :: u.id != t.id
  {
  }

  /** While tokens are consumed, or given back under the lock, changes of the table, the security context
      and the kernel's state wait. Otherwise they happen: an entry gets a new identity and what was asked
      for, gc leaves the good entries, and a halted kernel is closed. */
  lemma ChangesWaitForLock(s: System, a: nat, move: Move)
    requires a in s.kernels && (move.Add? || move.Remove? || move.Gc? || move.Swap? || move.Halt?)
    ensures var k, k' := s.kernels[a], Step(s, By(a, move)).kernels[a];
            if k.loop.Consuming? || (k.loop.Refused? && k.loop.locked) then k' == k
            else match move
              case Add(name, cont, opt) =>
                var reg := Registration(k.registered, cont, opt.capability, opt.expire, opt.oneShot, opt.topic);
                k' == k.(table := k.table[name := reg], registered := k.registered + 1)
              case Remove(name) => k' == k.(table := k.table - {name})
              case Gc =>
                && k' == k.(table := k'.table) && k'.table.Keys <= k.table.Keys
                && forall name | name in k.table ::
                     if Known(k, name, s.now) then name in k'.table && k'.table[name] == k.table[name]
                     else name !in k'.table
              case Swap(sctx) => k' == k.(sctx := sctx)
              case _ => k' == k.(closed := true)
  {
  }

  /** The check waits until every token was looked at. */
  lemma RequireWaits(s: System, a: nat)
    requires a in s.kernels && s.kernels[a].loop.Consuming? && s.kernels[a].loop.todo != []
    ensures Step(s, By(a, RequireNext)).kernels[a] == s.kernels[a]
  {
  }

  /** A behaviour registered without options requires the capability of its name, and stays: it never
      expires, and a granted message does not use it up. */
  lemma DefaultBehaviourStays(k: Kernel, name: string, cont: nat, now: nat, item: Item, kept: seq<Token>)
    requires item.env.behavior == name
    ensures var k' := AddBehavior(k, name, cont, DefaultOptions(name));
            && Known(k', name, now) && k'.table[name].capability == [name] && k'.table[name].topic == ""
            && Used(k'.table, Job(item, k'.table[name], kept)) == k'.table
  {
  }

  /** Looking up a subject forgets its expired tokens, and gc those of all subjects, in one context. */
  lemma PurgeForgetsIff(s: System, cap: nat, subject: Option<string>, other: nat, t: Token)
    ensures t in Step(s, Purge(cap, subject)).HeldAt(cap) <==>
            t in s.HeldAt(cap) && (t.expire >= s.now || (subject != None && subject != Some(t.id.subject)))
    ensures other != cap ==> Step(s, Purge(cap, subject)).HeldAt(other) == s.HeldAt(other)
  {
  }

  /** A new actor begins with an empty kernel, and one that is there is not replaced; a configuration
      replaces the limits and keeps the counters; time moves on. */
  lemma OutsideSteps(s: System, a: nat, sctx: SecurityContext, workers: nat, cfg: Config, dt: nat)
    ensures Step(s, Spawn(a, sctx, workers)) ==
            if a in s.kernels then s else s.(kernels := s.kernels[a := NewKernel(sctx, workers)])
    ensures var l, l' := s.limiter, Step(s, Configure(cfg)).limiter;
            && l'.cfg == cfg && l'.activePublic == l.activePublic && l'.activeBroadcast == l.activeBroadcast
            && l'.activeTopics == l.activeTopics
    ensures Step(s, Tick(dt)).now == s.now + dt
  {
  }

  // ---------------------------------------------------------------------
  // What was consumed for a message.

  /** The tokens of `s`, in order, that the context keeps for the message. */
  function KeptOf(checks: Checks, env: Envelope, s: seq<Token>, at: nat): seq<Token> {
    if s == [] then []
    else KeptOf(checks, env, s[..|s| - 1], at) +
         if checks.keeps(env, s[|s| - 1], at) then [s[|s| - 1]] else []
  }

  /** The tokens looked at so far are the first ones of the message, and those that verify were kept. */
  ghost predicate ConsumedSoFar(k: Kernel) {
    k.loop.Consuming? ==>
      var tokens, n := k.loop.job.item.env.Tokens(), |k.loop.job.item.env.Tokens()| - |k.loop.todo|;
      && n >= 0 && k.loop.todo == tokens[n..]
      && k.loop.job.kept == KeptOf(k.sctx.checks, k.loop.job.item.env, tokens[..n], k.loop.at)
  }

  lemma ConsumeSoFar(k: Kernel)
    requires CanConsume(k) && ConsumedSoFar(k)
    ensures ConsumedSoFar(Consume(k))
  {
    var tokens := k.loop.job.item.env.Tokens();
    var n := |tokens| - |k.loop.todo|;
    assert tokens[..n + 1][..n] == tokens[..n] && tokens[..n + 1][n] == k.loop.todo[0];
    assert k.loop.todo[1..] == tokens[n + 1..];
  }

  lemma SelectSoFar(k: Kernel, now: nat)
    requires CanDispatch(k)
    ensures ConsumedSoFar(Select(k, now))
  {
  }

  lemma OtherSoFar(k: Kernel, held: seq<Token>, limiter: Limiter, now: nat, move: Move)
    requires ConsumedSoFar(k) && !(move.SelectNext? && CanDispatch(k)) && !(move.ConsumeNext? && CanConsume(k))
    ensures ConsumedSoFar(KernelAfter(k, held, limiter, now, move))
  {
    var k' := KernelAfter(k, held, limiter, now, move);
    assert k'.loop.Consuming? ==> k'.loop == k.loop && k'.sctx == k.sctx;
  }

  lemma {:induction false} ReachableSoFar(states: seq<System>, acts: seq<Action>, n: nat, a: nat)
    requires IsRun(states, acts) && n <= |acts| && a in states[n].kernels
    ensures ConsumedSoFar(states[n].kernels[a])
  {
    if n > 0 {
      assert IsStep(states, acts, n - 1);
      var before, act := states[n - 1], acts[n - 1];
      if a in before.kernels {
        ReachableSoFar(states, acts, n - 1, a);
        OnlyTheActorMoves(before, act, a);
        var k := before.kernels[a];
        if act == By(a, SelectNext) && CanDispatch(k) {
          SelectSoFar(k, before.now);
        } else if act == By(a, ConsumeNext) && CanConsume(k) {
          ConsumeSoFar(k);
        } else if act.By? && act.actor == a {
          OtherSoFar(k, before.HeldAt(k.sctx.cap), before.limiter, before.now, act.move);
        }
      } else {
        NewcomerTraced(before, act, a);
      }
    }
  }

  /** Over every run, when the check is decided, exactly those tokens of the message were kept for it, in
      order, that verify for the security context under which it began. */
  lemma CheckedMessageKeeps(states: seq<System>, acts: seq<Action>, n: nat, a: nat)
    requires IsRun(states, acts) && n <= |acts| && a in states[n].kernels
    requires states[n].kernels[a].loop.Consuming? && states[n].kernels[a].loop.todo == []
    ensures var k := states[n].kernels[a];
            var env := k.loop.job.item.env;
            k.loop.job.kept == KeptOf(k.sctx.checks, env, env.Tokens(), k.loop.at)
  {
    ReachableSoFar(states, acts, n, a);
    var tokens := states[n].kernels[a].loop.job.item.env.Tokens();
    assert tokens[..|tokens|] == tokens;
  }

  // ---------------------------------------------------------------------
  // Over whole runs.

  /** The step drops the message: a worker finds it expired or unsigned, or finds the second queue full;
      the dispatch loop finds no good registration, another topic or unreadable tokens; or the message
      was refused. */
  ghost predicate Drops(s: System, act: Action, a: nat, item: Item) {
    && act.By? && act.actor == a && a in s.kernels
    && var k := s.kernels[a];
    match act.move
    case VerifyBy(w) =>
      w < |k.hands| && k.hands[w] == Taken(item) && (s.now > item.env.expire || !k.sctx.checks.signed(item.env))
    case PutBy(w) => w < |k.hands| && k.hands[w] == Checked(item) && |k.vq| >= 100
    case SelectNext =>
      && k.loop.Free? && k.vq != [] && k.vq[0] == item
      && (|| !Known(k, item.env.behavior, s.now)
          || (&& !Own(k.sctx, item.env)
              && (|| item.env.capability == None
                  || (IsToAll(item.env) && item.env.topic != k.table[item.env.behavior].topic))))
    case GiveBackNext => k.loop.Refused? && k.loop.job.item == item
    case _ => false
  }

  ghost predicate DroppedAt(states: seq<System>, acts: seq<Action>, i: nat, a: nat, item: Item)
    requires |states| == |acts| + 1
  {
    i < |acts| && Drops(states[i], acts[i], a, item)
  }

  lemma MoveDropsIff(s: System, a: nat, move: Move, item: Item)
    requires a in s.kernels
    ensures var k := s.kernels[a];
            var k' := KernelAfter(k, s.HeldAt(k.sctx.cap), s.limiter, s.now, move);
            k'.dropped == k.dropped + (if Drops(s, By(a, move), a, item) then [item] else []) ||
            exists other :: other != item && Drops(s, By(a, move), a, other) && k'.dropped == k.dropped + [other]
  {
    var k := s.kernels[a];
    if move.VerifyBy? || move.PutBy? {
      if move.worker < |k.hands| && !k.hands[move.worker].Idle? {
        DropsOnly(s, a, move, k.hands[move.worker].item);
      }
    } else if move.SelectNext? && CanDispatch(k) {
      DropsOnly(s, a, move, k.vq[0]);
    } else if move.GiveBackNext? && k.loop.Refused? {
      DropsOnly(s, a, move, k.loop.job.item);
    }
  }

  lemma DropsOnly(s: System, a: nat, move: Move, item: Item)
    requires a in s.kernels
    requires var k := s.kernels[a];
             match move
             case VerifyBy(w) => w < |k.hands| && !k.hands[w].Idle? && item == k.hands[w].item
             case PutBy(w) => w < |k.hands| && !k.hands[w].Idle? && item == k.hands[w].item
             case SelectNext => CanDispatch(k) && item == k.vq[0]
             case GiveBackNext => k.loop.Refused? && item == k.loop.job.item
             case _ => false
    ensures var k := s.kernels[a];
            KernelAfter(k, s.HeldAt(k.sctx.cap), s.limiter, s.now, move).dropped ==
            k.dropped + if Drops(s, By(a, move), a, item) then [item] else []
  {
  }

  lemma StepDropsIff(s: System, act: Action, a: nat, item: Item)
    requires a in s.kernels
    ensures a in Step(s, act).kernels
    ensures item in Step(s, act).kernels[a].dropped <==> item in s.kernels[a].dropped || Drops(s, act, a, item)
  {
    OnlyTheActorMoves(s, act, a);
    if act.By? && act.actor == a {
      MoveDropsIff(s, a, act.move, item);
    }
  }

  lemma NewcomerDropped(s: System, act: Action, a: nat)
    requires a !in s.kernels && a in Step(s, act).kernels
    ensures Step(s, act).kernels[a].dropped == [] && Step(s, act).kernels[a].started == []
  {
  }

  /** Over every run, a message was dropped exactly when some step found one of the reasons. */
  lemma {:induction false} DroppedIff(states: seq<System>, acts: seq<Action>, n: nat, a: nat, item: Item)
    requires IsRun(states, acts) && n <= |acts| && a in states[n].kernels
    ensures item in states[n].kernels[a].dropped <==>
            exists i: nat :: i < n && DroppedAt(states, acts, i, a, item)
  {
    if n > 0 {
      assert IsStep(states, acts, n - 1);
      if a in states[n - 1].kernels {
        DroppedIff(states, acts, n - 1, a, item);
        StepDropsIff(states[n - 1], acts[n - 1], a, item);
        assert Drops(states[n - 1], acts[n - 1], a, item) <==> DroppedAt(states, acts, n - 1, a, item);
      } else {
        NewcomerDropped(states[n - 1], acts[n - 1], a);
        NotYetThere(states, acts, n - 1, a);
      }
    }
  }

  /** An actor that is not there was never there. */
  lemma {:induction false} NotYetThere(states: seq<System>, acts: seq<Action>, n: nat, a: nat)
    requires IsRun(states, acts) && n <= |acts| && a !in states[n].kernels
    ensures forall i: nat | i <= n :: a !in states[i].kernels
  {
    if n > 0 {
      assert IsStep(states, acts, n - 1);
      if a in states[n - 1].kernels {
        OnlyTheActorMoves(states[n - 1], acts[n - 1], a);
      }
      NotYetThere(states, acts, n - 1, a);
    }
  }

  /** Step `i` starts the handler: its message was granted, and the limiter had room. */
  ghost predicate StartedAt(states: seq<System>, acts: seq<Action>, i: nat, a: nat, job: Job)
    requires |states| == |acts| + 1
  {
    && i < |acts| && acts[i] == By(a, LaunchNext) && a in states[i].kernels
    && states[i].kernels[a].loop == Granted(job) && Room(states[i].limiter, job.item.env)
  }

  lemma StepStartsIff(s: System, act: Action, a: nat, job: Job)
    requires a in s.kernels
    ensures a in Step(s, act).kernels
    ensures job in Step(s, act).kernels[a].started <==>
            || job in s.kernels[a].started
            || (act == By(a, LaunchNext) && s.kernels[a].loop == Granted(job) && Room(s.limiter, job.item.env))
  {
    OnlyTheActorMoves(s, act, a);
    if act == By(a, LaunchNext) && s.kernels[a].loop.Granted? {
      LaunchStartsIff(s, a, s.kernels[a].loop.job);
    }
  }

  /** Over every run, a handler was started exactly when some step found its message granted and the
      limiter with room. */
  lemma {:induction false} StartedIff(states: seq<System>, acts: seq<Action>, n: nat, a: nat, job: Job)
    requires IsRun(states, acts) && n <= |acts| && a in states[n].kernels
    ensures job in states[n].kernels[a].started <==>
            exists i: nat :: i < n && StartedAt(states, acts, i, a, job)
  {
    if n > 0 {
      assert IsStep(states, acts, n - 1);
      if a in states[n - 1].kernels {
        StartedIff(states, acts, n - 1, a, job);
        StepStartsIff(states[n - 1], acts[n - 1], a, job);
        assert StartedAt(states, acts, n - 1, a, job) <==>
               && acts[n - 1] == By(a, LaunchNext) && states[n - 1].kernels[a].loop == Granted(job)
               && Room(states[n - 1].limiter, job.item.env);
      } else {
        NewcomerDropped(states[n - 1], acts[n - 1], a);
        NotYetThere(states, acts, n - 1, a);
      }
    }
  }

  // ---------------------------------------------------------------------
  // Where registrations come from.

  /** The actor was asked to register the behaviour with exactly what the registration says. */
  ghost predicate Asked(acts: seq<Action>, a: nat, name: string, reg: Registration) {
    exists i: nat ::
      && i < |acts| && acts[i].By? && acts[i].actor == a && acts[i].move.Add?
      && acts[i].move.name == name && acts[i].move.cont == reg.cont
      && acts[i].move.opt.capability == reg.capability && acts[i].move.opt.expire == reg.expire
      && acts[i].move.opt.oneShot == reg.oneShot && acts[i].move.opt.topic == reg.topic
  }

  ghost predicate JobAsked(acts: seq<Action>, a: nat, job: Job) {
    Asked(acts, a, job.item.env.behavior, job.reg)
  }

  ghost predicate AllAsked(acts: seq<Action>, a: nat, k: Kernel) {
    && (forall name | name in k.table :: Asked(acts, a, name, k.table[name]))
    && (!k.loop.Free? ==> JobAsked(acts, a, k.loop.job))
    && (forall job | job in k.started :: JobAsked(acts, a, job))
  }

  lemma AskedLater(acts: seq<Action>, act: Action, a: nat, name: string, reg: Registration)
    requires Asked(acts, a, name, reg)
    ensures Asked(acts + [act], a, name, reg)
  {
    var i: nat :|
      && i < |acts| && acts[i].By? && acts[i].actor == a && acts[i].move.Add?
      && acts[i].move.name == name && acts[i].move.cont == reg.cont
      && acts[i].move.opt.capability == reg.capability && acts[i].move.opt.expire == reg.expire
      && acts[i].move.opt.oneShot == reg.oneShot && acts[i].move.opt.topic == reg.topic;
    assert (acts + [act])[i] == acts[i];
  }

  lemma AllAskedLater(acts: seq<Action>, act: Action, a: nat, k: Kernel)
    requires AllAsked(acts, a, k)
    ensures AllAsked(acts + [act], a, k)
  {
    forall name | name in k.table
      ensures Asked(acts + [act], a, name, k.table[name])
    {
      AskedLater(acts, act, a, name, k.table[name]);
    }
    if !k.loop.Free? {
      AskedLater(acts, act, a, k.loop.job.item.env.behavior, k.loop.job.reg);
    }
    forall job | job in k.started
      ensures JobAsked(acts + [act], a, job)
    {
      AskedLater(acts, act, a, job.item.env.behavior, job.reg);
    }
  }

  lemma AddAsked(acts: seq<Action>, act: Action, a: nat, k: Kernel)
    requires AllAsked(acts + [act], a, k) && act.By? && act.actor == a && act.move.Add?
    ensures AllAsked(acts + [act], a, AddBehavior(k, act.move.name, act.move.cont, act.move.opt))
  {
    assert (acts + [act])[|acts|] == act;
  }

  lemma SelectAsked(acts: seq<Action>, a: nat, k: Kernel, now: nat)
    requires AllAsked(acts, a, k) && CanDispatch(k)
    ensures AllAsked(acts, a, Select(k, now))
  {
    Selected(k, now);
  }

  lemma LoopMoveAsked(acts: seq<Action>, a: nat, k: Kernel, held: seq<Token>, limiter: Limiter, now: nat, move: Move)
    requires AllAsked(acts, a, k)
    requires move.ConsumeNext? || move.RequireNext? || move.GiveBackNext? || move.LaunchNext?
    ensures AllAsked(acts, a, KernelAfter(k, held, limiter, now, move))
  {
  }

  lemma MoveAsked(acts: seq<Action>, act: Action, a: nat, k: Kernel, held: seq<Token>, limiter: Limiter, now: nat)
    requires AllAsked(acts, a, k) && act.By? && act.actor == a
    ensures AllAsked(acts + [act], a, KernelAfter(k, held, limiter, now, act.move))
  {
    var move, more := act.move, acts + [act];
    AllAskedLater(acts, act, a, k);
    if move.Add? {
      AddAsked(acts, act, a, k);
    } else if move.SelectNext? && CanDispatch(k) {
      SelectAsked(more, a, k, now);
    } else if move.ConsumeNext? || move.RequireNext? || move.GiveBackNext? || move.LaunchNext? {
      LoopMoveAsked(more, a, k, held, limiter, now, move);
    }
  }

  /** Over every run, every registration in the table, and every registration that a handler was started
      for, is under the name and with the options that the actor was asked to register. */
  lemma {:induction false} RegistrationsAreAsked(s: System, acts: seq<Action>, a: nat)
    requires Init(s) && a in Exec(s, acts).kernels
    ensures AllAsked(acts, a, Exec(s, acts).kernels[a])
  {
    if acts != [] {
      var front, act := acts[..|acts| - 1], acts[|acts| - 1];
      var before := Exec(s, front);
      assert acts == front + [act];
      if a in before.kernels {
        RegistrationsAreAsked(s, front, a);
        OnlyTheActorMoves(before, act, a);
        var k := before.kernels[a];
        if act.By? && act.actor == a {
          MoveAsked(front, act, a, k, before.HeldAt(k.sctx.cap), before.limiter, before.now);
        } else {
          AllAskedLater(front, act, a, k);
        }
      } else {
        NewcomerTraced(before, act, a);
      }
    }
  }
}
