/** What a Discard does to the tokens of other messages, and what a swapped security context does to a
    Discard. */
module SharedTokens {
  import opened Envelopes
  import opened RateLimiting
  import opened Kernels
  import opened ActorSystem
  import opened TokenBalance

  /** The Discard of one handler leaves all held tokens of another job in place exactly when no held
      token belongs to both messages. */
  lemma DiscardSparesOthersIffUnshared(s: System, f: nat, r: Ref)
    requires Owes(s, InFlight(f)) && Owes(s, r) && CapOf(s, r) == CapOf(s, InFlight(f))
    ensures var cap, mine, other := CapOf(s, r), IdsOf(s, InFlight(f)), IdsOf(s, r);
            (forall t: Token | t.id in other && t in s.HeldAt(cap) :: t in Step(s, DiscardBy(f)).HeldAt(cap)) <==>
            (forall t | t in s.HeldAt(cap) :: !(t.id in mine && t.id in other))
  {
  }

  /** Why a swap must wait: after it, the Discard of a running handler gives its message's tokens back
      exactly when the new context uses the same capability context, or none of them is held. */
  lemma SwapKeepsDiscardIff(s: System, f: nat, sctx: SecurityContext)
    requires Owes(s, InFlight(f)) && !Locked(s.kernels[s.flights[f].actor])
    ensures var cap, ids := CapOf(s, InFlight(f)), IdsOf(s, InFlight(f));
            var swapped := Step(s, By(s.flights[f].actor, Swap(sctx)));
            var after := Step(swapped, DiscardBy(f)).HeldAt(cap);
            && (sctx.cap != cap ==> after == s.HeldAt(cap))
            && ((forall t | t in after :: t.id !in ids) <==>
                sctx.cap == cap || forall t | t in s.HeldAt(cap) :: t.id !in ids)
  {
    var a := s.flights[f].actor;
    var swapped := Step(s, By(a, Swap(sctx)));
    Swapped(s, a, sctx);
    assert Step(swapped, DiscardBy(f)).held == HeldOnDiscard(swapped, s.flights[f]);
  }

  lemma Swapped(s: System, a: nat, sctx: SecurityContext)
    requires a in s.kernels && !Locked(s.kernels[a])
    ensures var s' := Step(s, By(a, Swap(sctx)));
            s'.flights == s.flights && s'.held == s.held && a in s'.kernels && s'.kernels[a].sctx == sctx
  {
  }

  // ---------------------------------------------------------------------
  // A run in which a running handler loses its token to another one's Discard.

  const EVERYTHING: Checks := Checks(_ => true, (_, _, _) => true, (_, _, _, _) => true, (_, _, _, _, _) => true)
  const OPEN: SecurityContext := SecurityContext("self", 0, EVERYTHING)
  const PING: Registration := Registration(0, 0, [], 0, false, "")

  function Ping(t: Token, content: string): Envelope {
    Envelope(Handle("self", "", "", ""), Handle("other", "", "", ""), "ping", "", 0, Some([t]), content)
  }

  /** One actor, with one worker and an open security context. */
  function Beginning(cfg: Config): System {
    System(map[0 := NewKernel(OPEN, 1)], Limiter(cfg, 0, 0, map[]), map[], [], [], 0)
  }

  /** The actor waits, with the behaviour registered. */
  ghost predicate Waits(k: Kernel) {
    && k.sctx == OPEN && k.q == [] && k.hands == [Idle] && k.vq == [] && k.loop.Free? && !k.closed
    && "ping" in k.table && k.table["ping"] == PING
  }

  lemma Extend(s: System, acts: seq<Action>, act: Action)
    ensures Exec(s, acts + [act]) == Step(Exec(s, acts), act)
  {
    assert (acts + [act])[..|acts|] == acts;
  }

  lemma Arrives(s: System, env: Envelope)
    requires 0 in s.kernels && Waits(s.kernels[0])
    ensures var k := s.kernels[0];
            var item := Item(|k.inbox|, env);
            Step(Step(s, By(0, Deliver(env, true))), By(0, TakeBy(0))) ==
            s.(kernels := s.kernels[0 := k.(hands := [Taken(item)], inbox := k.inbox + [item])])
  {
    var k := s.kernels[0];
    var item := Item(|k.inbox|, env);
    var s1 := Step(s, By(0, Deliver(env, true)));
    assert s1.kernels[0] == k.(q := [item], inbox := k.inbox + [item]);
    var s2 := Step(s1, By(0, TakeBy(0)));
    assert s2.kernels[0] == k.(hands := [Taken(item)], inbox := k.inbox + [item]);
    assert s2.kernels == s.kernels[0 := s2.kernels[0]];
  }

  lemma IsVerified(s: System, item: Item)
    requires 0 in s.kernels && s.kernels[0].sctx == OPEN && s.kernels[0].hands == [Taken(item)]
    requires s.kernels[0].vq == [] && s.now <= item.env.expire
    ensures Step(Step(s, By(0, VerifyBy(0))), By(0, PutBy(0))) ==
            s.(kernels := s.kernels[0 := s.kernels[0].(hands := [Idle], vq := [item])])
  {
    var k := s.kernels[0];
    var s1 := Step(s, By(0, VerifyBy(0)));
    assert s1.kernels[0] == k.(hands := [Checked(item)]);
    var s2 := Step(s1, By(0, PutBy(0)));
    assert s2.kernels[0] == k.(hands := [Idle], vq := [item]);
    assert s2.kernels == s.kernels[0 := s2.kernels[0]];
  }

  lemma IsMatched(s: System, item: Item, t: Token, content: string)
    requires item.env == Ping(t, content)
    requires 0 in s.kernels && s.kernels[0].vq == [item] && Waits(s.kernels[0].(vq := []))
    ensures Step(s, By(0, SelectNext)) ==
            s.(kernels := s.kernels[0 := s.kernels[0].(vq := [], loop := Consuming(Job(item, PING, []), [t], s.now))])
  {
    var k := s.kernels[0];
    assert Select(k, s.now) == k.(vq := [], loop := Consuming(Job(item, PING, []), [t], s.now));
  }

  lemma TokenConsumed(s: System, item: Item, t: Token)
    requires 0 in s.kernels && s.kernels[0].sctx == OPEN
    requires s.kernels[0].loop == Consuming(Job(item, PING, []), [t], s.now)
    ensures Step(s, By(0, ConsumeNext)) ==
            s.(kernels := s.kernels[0 := s.kernels[0].(loop := Consuming(Job(item, PING, [t]), [], s.now))],
            held := s.held[0 := s.HeldAt(0) + [t]])
  {
    assert [] + [t] == [t] && [t][1..] == [];
  }

  lemma IsConsumed(s: System, item: Item, t: Token, content: string)
    requires item.env == Ping(t, content)
    requires 0 in s.kernels && s.kernels[0].vq == [item] && Waits(s.kernels[0].(vq := []))
    ensures Step(Step(s, By(0, SelectNext)), By(0, ConsumeNext)) ==
            s.(kernels := s.kernels[0 := s.kernels[0].(vq := [], loop := Consuming(Job(item, PING, [t]), [], s.now))],
            held := s.held[0 := s.HeldAt(0) + [t]])
  {
    IsMatched(s, item, t, content);
    var s1 := Step(s, By(0, SelectNext));
    TokenConsumed(s1, item, t);
    assert s1.kernels[0 := s1.kernels[0].(loop := Consuming(Job(item, PING, [t]), [], s.now))] ==
           s.kernels[0 := s.kernels[0].(vq := [], loop := Consuming(Job(item, PING, [t]), [], s.now))];
  }

  lemma IsStarted(s: System, job: Job)
    requires 0 in s.kernels && s.kernels[0].sctx == OPEN && !job.item.env.IsBroadcast() && !job.item.env.IsPublic()
    requires !job.reg.oneShot && s.kernels[0].loop == Consuming(job, [], s.now)
    ensures var k := s.kernels[0];
            Step(Step(s, By(0, RequireNext)), By(0, LaunchNext)) ==
            s.(kernels := s.kernels[0 := k.(loop := Free, started := k.started + [job])],
            flights := s.flights + [Flight(0, job, false)])
  {
    var k := s.kernels[0];
    var s1 := Step(s, By(0, RequireNext));
    assert s1.kernels[0] == k.(loop := Granted(job));
    var s2 := Step(s1, By(0, LaunchNext));
    assert s2.kernels[0] == k.(loop := Free, started := k.started + [job]);
    assert s2.kernels == s.kernels[0 := s2.kernels[0]];
  }

  /** A state reached without swapping contexts. */
  ghost predicate Reached(s0: System, acts: seq<Action>, s: System) {
    Exec(s0, acts) == s && forall i | 0 <= i < |acts| :: !(acts[i].By? && acts[i].move.Swap?)
  }

  lemma TwoMore(s0: System, acts: seq<Action>, s: System, m: Move, n: Move) returns (more: seq<Action>)
    requires Reached(s0, acts, s) && !m.Swap? && !n.Swap?
    ensures Reached(s0, more, Step(Step(s, By(0, m)), By(0, n)))
  {
    Extend(s0, acts, By(0, m));
    Extend(s0, acts + [By(0, m)], By(0, n));
    more := acts + [By(0, m)] + [By(0, n)];
  }

  /** A delivered message is verified. */
  lemma CarriedIn(s0: System, acts: seq<Action>, s: System, env: Envelope) returns (more: seq<Action>)
    requires Reached(s0, acts, s) && 0 in s.kernels && Waits(s.kernels[0]) && s.now <= env.expire
    ensures var k := s.kernels[0];
            var item := Item(|k.inbox|, env);
            Reached(s0, more, s.(kernels := s.kernels[0 := k.(vq := [item], inbox := k.inbox + [item])]))
  {
    var k := s.kernels[0];
    var item := Item(|k.inbox|, env);
    more := TwoMore(s0, acts, s, Deliver(env, true), TakeBy(0));
    Arrives(s, env);
    var s2 := s.(kernels := s.kernels[0 := k.(hands := [Taken(item)], inbox := k.inbox + [item])]);
    more := TwoMore(s0, more, s2, VerifyBy(0), PutBy(0));
    IsVerified(s2, item);
    assert s2.kernels[0 := s2.kernels[0].(hands := [Idle], vq := [item])] ==
           s.kernels[0 := k.(vq := [item], inbox := k.inbox + [item])];
  }

  /** A verified message is checked and its handler started. */
  lemma CarriedOn(s0: System, acts: seq<Action>, s: System, item: Item, t: Token, content: string)
    returns (more: seq<Action>)
    requires Reached(s0, acts, s) && 0 in s.kernels && s.kernels[0].vq == [item] && Waits(s.kernels[0].(vq := []))
    requires item.env == Ping(t, content)
    ensures var k, job := s.kernels[0], Job(item, PING, [t]);
            Reached(s0, more,
                    s.(kernels := s.kernels[0 := k.(vq := [], started := k.started + [job])],
                    held := s.held[0 := s.HeldAt(0) + [t]], flights := s.flights + [Flight(0, job, false)]))
  {
    var k, job := s.kernels[0], Job(item, PING, [t]);
    more := TwoMore(s0, acts, s, SelectNext, ConsumeNext);
    IsConsumed(s, item, t, content);
    var s2 := s.(kernels := s.kernels[0 := k.(vq := [], loop := Consuming(job, [], s.now))],
    held := s.held[0 := s.HeldAt(0) + [t]]);
    more := TwoMore(s0, more, s2, RequireNext, LaunchNext);
    IsStarted(s2, job);
    assert s2.kernels[0 := s2.kernels[0].(loop := Free, started := k.started + [job])] ==
           s.kernels[0 := k.(vq := [], started := k.started + [job])];
  }

  lemma Carried(s0: System, acts: seq<Action>, s: System, t: Token, content: string)
    returns (more: seq<Action>, last: System)
    requires Reached(s0, acts, s) && 0 in s.kernels && Waits(s.kernels[0]) && s.now == 0
    ensures Reached(s0, more, last) && 0 in last.kernels && Waits(last.kernels[0]) && last.now == 0
    ensures last.HeldAt(0) == s.HeldAt(0) + [t]
    ensures var item := Item(|s.kernels[0].inbox|, Ping(t, content));
            last.flights == s.flights + [Flight(0, Job(item, PING, [t]), false)]
  {
    var env, k := Ping(t, content), s.kernels[0];
    var item := Item(|k.inbox|, env);
    more := CarriedIn(s0, acts, s, env);
    var s4 := s.(kernels := s.kernels[0 := k.(vq := [item], inbox := k.inbox + [item])]);
    more := CarriedOn(s0, more, s4, item, t, content);
    last := Exec(s0, more);
  }

  lemma Registered(cfg: Config) returns (acts: seq<Action>, s: System)
    ensures Reached(Beginning(cfg), acts, s) && s.flights == [] && s.HeldAt(0) == []
    ensures 0 in s.kernels && Waits(s.kernels[0]) && s.now == 0
  {
    var act := By(0, Add("ping", 0, Options([], 0, false, "")));
    acts := [act];
    Extend(Beginning(cfg), [], act);
    assert [] + [act] == acts;
    s := Exec(Beginning(cfg), acts);
  }

  lemma NoSwapIsDisciplined(s0: System, acts: seq<Action>)
    requires forall i | 0 <= i < |acts| :: !(acts[i].By? && acts[i].move.Swap?)
    ensures AllDisciplined(s0, acts)
  {
  }

  /** Sharing is what breaks the balance: from a fresh system there is a run in which two messages with
      the same unexpired token reach their handlers, one discards, and the token that the other one's
      running handler still owes is gone. */
  lemma SharedTokenIsLost(cfg: Config, t: Token) returns (s0: System, acts: seq<Action>)
    ensures Init(s0) && AllDisciplined(s0, acts)
    ensures var last := Exec(s0, acts);
            OwedBy(last, 0, t, InFlight(1)) && !t.Expired(last.now) && t !in last.HeldAt(0)
  {
    s0 := Beginning(cfg);
    var first, s1 := Registered(cfg);
    var second, s2 := Carried(s0, first, s1, t, "a");
    var third, s3 := Carried(s0, second, s2, t, "b");
    assert s3.flights[0].job.item.env == Ping(t, "a");
    acts := third + [DiscardBy(0)];
    Extend(s0, third, DiscardBy(0));
    NoSwapIsDisciplined(s0, acts);
    assert t.id in Ping(t, "a").TokenIds() by {
      assert t in Ping(t, "a").Tokens();
    }
  }
}
