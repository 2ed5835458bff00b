/** The kernel as the source has it: an object changed in place, together with the token stores and
    the rate limiter it shares with other actors. */
module Dispatching {
  import opened Envelopes
  import opened RateLimiting
  import opened Kernels

  /** The token stores of the capability contexts, shared by the actors that use them. */
  class TokenStores {
    var held: map<nat, seq<Token>>

    ghost function At(cap: nat): seq<Token>
      reads this
    {
      if cap in held then held[cap] else []
    }

    constructor ()
      ensures held == map[]
    {
      held := map[];
    }

    method Get(cap: nat) returns (ts: seq<Token>)
      ensures ts == At(cap)
    {
      return if cap in held then held[cap] else [];
    }

    method Set(cap: nat, ts: seq<Token>)
      modifies this
      ensures held == old(held)[cap := ts]
    {
      held := held[cap := ts];
    }

    /** Expired tokens are forgotten when their subject is looked up, and by the context's own gc. */
    method Purge(cap: nat, subject: Option<string>, now: nat)
      modifies this
      ensures At(cap) == Purged(old(At(cap)), subject, now)
      ensures forall c | c != cap :: At(c) == old(At(c))
    {
      var ts := Get(cap);
      Set(cap, Purged(ts, subject, now));
    }
  }

  class Dispatch {
    const limiter: BasicRateLimiter
    const tokens: TokenStores

    var sctx: SecurityContext
    var q: seq<Item>
    var hands: seq<Hand>
    var vq: seq<Item>
    var behaviors: map<string, Registration>
    var loop: Loop
    var closed: bool
    var registered: nat
    var arrivals: nat
    ghost var inbox: seq<Item>
    ghost var dropped: seq<Item>
    ghost var started: seq<Job>

    ghost predicate Valid()
      reads this
    {
      arrivals == |inbox|
    }

    ghost function View(): Kernel
      reads this
    {
      Kernel(sctx, q, hands, vq, behaviors, loop, closed, registered, inbox, dropped, started)
    }

    constructor (sctx: SecurityContext, workers: nat, limiter: BasicRateLimiter, tokens: TokenStores)
      ensures Valid() && View() == NewKernel(sctx, workers)
      ensures this.limiter == limiter && this.tokens == tokens
    {
      this.limiter, this.tokens, this.sctx := limiter, tokens, sctx;
      q, hands, vq, behaviors, loop := [], seq(workers, _ => Idle), [], map[], Free;
      closed, registered, arrivals := false, 0, 0;
      inbox, dropped, started := [], [], [];
    }

    method Receive(env: Envelope, pick: bool) returns (r: Receipt)
      requires Valid()
      modifies this
      ensures Valid() && r == ReceiptFor(old(View()))
      ensures View() == Kernels.Receive(old(View()), env, pick)
    {
      if |q| < QUEUE_CAPACITY && (!closed || pick) {
        var item := Item(arrivals, env);
        q := q + [item];
        arrivals := arrivals + 1;
        inbox := inbox + [item];
        return if closed then ContextClosed else Accepted;
      }
      return if closed then ContextClosed else QueueFull;
    }

    method TakeOne(w: nat)
      requires Valid()
      modifies this
      ensures Valid() && View() == Take(old(View()), w)
    {
      if w < |hands| && hands[w].Idle? && q != [] {
        hands := hands[w := Taken(q[0])];
        q := q[1..];
      }
    }

    method VerifyOne(w: nat, now: nat)
      requires Valid()
      modifies this
      ensures Valid() && View() == Verify(old(View()), w, now)
    {
      if w < |hands| && hands[w].Taken? {
        var item := hands[w].item;
        if now > item.env.expire || !sctx.checks.signed(item.env) {
          hands := hands[w := Idle];
          dropped := dropped + [item];
          return;
        }
        hands := hands[w := Checked(item)];
      }
    }

    method PutOne(w: nat)
      requires Valid()
      modifies this
      ensures Valid() && View() == Put(old(View()), w)
    {
      if w < |hands| && hands[w].Checked? {
        var item := hands[w].item;
        hands := hands[w := Idle];
        if |vq| < QUEUE_CAPACITY {
          vq := vq + [item];
        } else {
          dropped := dropped + [item];
        }
      }
    }

    /** The locked section of the dispatch loop begins: look up, check expiry, and start the capability
        check. */
    method SelectOne(now: nat)
      requires Valid() && CanDispatch(View())
      modifies this
      ensures Valid() && View() == Select(old(View()), now)
    {
      var item := vq[0];
      var name := item.env.behavior;
      vq := vq[1..];
      if name !in behaviors {
        dropped := dropped + [item];
        assert behaviors - {name} == behaviors;
        return;
      }
      var reg := behaviors[name];
      if reg.Expired(now) {
        behaviors := behaviors - {name};
        dropped := dropped + [item];
        return;
      }
      if item.env.IsBroadcast() {
        if reg.topic != item.env.topic {
          dropped := dropped + [item];
          return;
        }
      } else if sctx.id == item.env.from.id && sctx.id == item.env.to.id {
        if reg.oneShot {
          behaviors := behaviors - {name};
        }
        loop := Granted(Job(item, reg, []));
        return;
      }
      if item.env.capability.None? {
        dropped := dropped + [item];
        return;
      }
      loop := Consuming(Job(item, reg, []), item.env.capability.value, now);
    }

    /** One round of Consume: the next token of the message is verified and stored, or passed over. */
    method ConsumeOne()
      requires Valid() && CanConsume(View())
      modifies this, tokens
      ensures Valid() && View() == Consume(old(View()))
      ensures tokens.At(sctx.cap) ==
              old(tokens.At(sctx.cap)) + if old(Accepts(View())) then [old(loop).todo[0]] else []
      ensures forall c | c != sctx.cap :: tokens.At(c) == old(tokens.At(c))
    {
      var job, t := loop.job, loop.todo[0];
      if sctx.checks.keeps(job.item.env, t, loop.at) {
        var held := tokens.Get(sctx.cap);
        tokens.Set(sctx.cap, held + [t]);
        job := job.(kept := job.kept + [t]);
      }
      loop := Consuming(job, loop.todo[1..], loop.at);
    }

    /** The check is decided on the tokens held at this moment. */
    method RequireOne(now: nat)
      requires Valid() && CanRequire(View())
      modifies this
      ensures Valid()
      ensures var job := old(loop).job;
              View() == Require(old(View()), Grants(sctx, old(tokens.At(sctx.cap)), job.item.env, job.reg, now))
    {
      var job := loop.job;
      var held := tokens.Get(sctx.cap);
      var ok;
      if job.item.env.IsBroadcast() {
        ok := sctx.checks.grantedBroadcast(held, job.item.env, job.reg.topic, job.reg.capability, now);
      } else {
        ok := sctx.checks.granted(held, job.item.env, job.reg.capability, now);
      }
      if !ok {
        loop := Refused(job, true);
        return;
      }
      if job.reg.oneShot {
        behaviors := behaviors - {job.item.env.behavior};
      }
      loop := Granted(job);
    }

    /** The tokens of a refused message are discarded. */
    method GiveBackOne()
      requires Valid() && loop.Refused?
      modifies this, tokens
      ensures Valid() && View() == GiveBack(old(View()))
      ensures tokens.At(sctx.cap) == Discarded(old(tokens.At(sctx.cap)), old(loop).job.item.env)
      ensures forall c | c != sctx.cap :: tokens.At(c) == old(tokens.At(c))
    {
      var held := tokens.Get(sctx.cap);
      tokens.Set(sctx.cap, Discarded(held, loop.job.item.env));
      dropped := dropped + [loop.job.item];
      loop := Free;
    }

    /** Outside the lock: ask the limiter. Returns the handler to start. */
    method LaunchOne() returns (job: Option<Job>)
      requires Valid() && loop.Granted?
      modifies this, limiter
      ensures Valid()
      ensures var env := old(loop).job.item.env;
              var ok := Admits(old(limiter.View()), env);
              && View() == Launch(old(View()), ok)
              && job == (if ok then Some(old(loop).job) else None)
              && limiter.View() == if ok then Acquired(old(limiter.View()), env) else old(limiter.View())
    {
      var j := loop.job;
      var ok := limiter.Acquire(j.item.env);
      if !ok {
        loop := Refused(j, false);
        return None;
      }
      loop := Free;
      started := started + [j];
      return Some(j);
    }

    /** One gc sweep over the behaviour table. */
    method GcSweep(now: nat)
      requires Valid() && !Locked(View())
      modifies this
      ensures Valid() && View() == Sweep(old(View()), now)
    {
      var todo := behaviors.Keys;
      while todo != {}
        invariant Valid() && View() == old(View()).(table := behaviors)
        invariant todo <= behaviors.Keys <= old(behaviors).Keys
        invariant forall name | name in behaviors :: behaviors[name] == old(behaviors)[name]
        invariant forall name | name in behaviors && name !in todo :: !behaviors[name].Expired(now)
        invariant forall name | name in old(behaviors) && name !in behaviors :: old(behaviors)[name].Expired(now)
        decreases |todo|
      {
        var x :| x in todo;
        todo := todo - {x};
        if behaviors[x].Expired(now) {
          behaviors := behaviors - {x};
        }
      }
      assert behaviors == LiveEntries(old(behaviors), now);
    }

    method AddBehavior(name: string, cont: nat, opt: Options)
      requires Valid() && !Locked(View())
      modifies this
      ensures Valid() && View() == Kernels.AddBehavior(old(View()), name, cont, opt)
    {
      var reg := Registration(registered, cont, opt.capability, opt.expire, opt.oneShot, opt.topic);
      registered := registered + 1;
      behaviors := behaviors[name := reg];
    }

    method RemoveBehavior(name: string)
      requires Valid() && !Locked(View())
      modifies this
      ensures Valid() && View() == Kernels.RemoveBehavior(old(View()), name)
    {
      behaviors := behaviors - {name};
    }

    method UpdateSecurityContext(sctx: SecurityContext)
      requires Valid() && !Locked(View())
      modifies this
      ensures Valid() && View() == old(View()).(sctx := sctx)
    {
      this.sctx := sctx;
    }

    method Stop()
      requires Valid() && !Locked(View())
      modifies this
      ensures Valid() && View() == old(View()).(closed := true)
    {
      closed := true;
    }
  }
}
