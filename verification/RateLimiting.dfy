/** The counting rate limiter shared by an actor and its children. */
module RateLimiting {
  import opened Sequences
  import opened Envelopes

  datatype Config = Config(
    publicAllow: int,
    publicAcquire: int,
    broadcastAllow: int,
    broadcastAcquire: int,
    topicDefault: int,
    topicLimit: map<string, int>)
  {
    function LimitFor(topic: string): int {
      if topic in topicLimit then topicLimit[topic] else topicDefault
    }
  }

  datatype Limiter = Limiter(
    cfg: Config,
    activePublic: int,
    activeBroadcast: int,
    activeTopics: map<string, int>)
  {
    function Active(topic: string): int {
      if topic in activeTopics then activeTopics[topic] else 0
    }
  }

  predicate Allows(l: Limiter, env: Envelope) {
    if env.IsBroadcast() then
      l.activeBroadcast < l.cfg.broadcastAllow && l.Active(env.topic) < l.cfg.LimitFor(env.topic)
    else if env.IsPublic() then
      l.activePublic < l.cfg.publicAllow
    else
      true
  }

  predicate Admits(l: Limiter, env: Envelope) {
    if env.IsBroadcast() then
      l.activeBroadcast < l.cfg.broadcastAcquire && l.Active(env.topic) < l.cfg.LimitFor(env.topic)
    else if env.IsPublic() then
      l.activePublic < l.cfg.publicAcquire
    else
      true
  }

  /** The limiter after a successful Acquire. */
  function Acquired(l: Limiter, env: Envelope): Limiter {
    if env.IsBroadcast() then
      l.(activeTopics := l.activeTopics[env.topic := l.Active(env.topic) + 1],
      activeBroadcast := l.activeBroadcast + 1)
    else if env.IsPublic() then
      l.(activePublic := l.activePublic + 1)
    else
      l
  }

  /** The limiter after Release; releasing a topic that is not counted changes nothing. */
  function Released(l: Limiter, env: Envelope): Limiter {
    if env.IsBroadcast() then
      if env.topic !in l.activeTopics then l
      else
        var active := l.activeTopics[env.topic] - 1;
        l.(activeTopics := if active > 0 then l.activeTopics[env.topic := active] else l.activeTopics - {env.topic},
        activeBroadcast := l.activeBroadcast - 1)
    else if env.IsPublic() then
      l.(activePublic := l.activePublic - 1)
    else
      l
  }

  /** A message without addressee, on a topic. */
  predicate IsToAll(env: Envelope) {
    env.to == Handle("", "", "", "") && env.topic != ""
  }

  /** Whether the counters that concern the message are below the two limits, and for a broadcast below the
      topic's own limit, or the default one; a message that is neither broadcast nor public has no limit. */
  ghost predicate Below(l: Limiter, env: Envelope, broadcast: int, public: int) {
    if IsToAll(env) then
      && l.activeBroadcast < broadcast
      && (if env.topic in l.activeTopics then l.activeTopics[env.topic] else 0) <
         (if env.topic in l.cfg.topicLimit then l.cfg.topicLimit[env.topic] else l.cfg.topicDefault)
    else
      |env.behavior| >= 8 && env.behavior[..8] == "/public/" ==> l.activePublic < public
  }

  /** Allow and Acquire ask the same with limits of their own. */
  lemma AllowsAndAdmitsIff(l: Limiter, env: Envelope)
    ensures Allows(l, env) <==> Below(l, env, l.cfg.broadcastAllow, l.cfg.publicAllow)
    ensures Admits(l, env) <==> Below(l, env, l.cfg.broadcastAcquire, l.cfg.publicAcquire)
  {
  }

  // ---------------------------------------------------------------------
  // The limiter as the source has it: an object changed in place.

  class BasicRateLimiter {
    var cfg: Config
    var activePublic: int
    var activeBroadcast: int
    var activeTopics: map<string, int>

    ghost function View(): Limiter
      reads this
    {
      Limiter(cfg, activePublic, activeBroadcast, activeTopics)
    }

    constructor (cfg: Config)
      ensures View() == Limiter(cfg, 0, 0, map[])
    {
      this.cfg := cfg;
      activePublic, activeBroadcast, activeTopics := 0, 0, map[];
    }

    method Allow(env: Envelope) returns (ok: bool)
      ensures ok <==> Allows(View(), env)
    {
      if env.IsBroadcast() {
        if activeBroadcast >= cfg.broadcastAllow {
          return false;
        }
        var active := if env.topic in activeTopics then activeTopics[env.topic] else 0;
        if env.topic !in cfg.topicLimit {
          return active < cfg.topicDefault;
        }
        return active < cfg.topicLimit[env.topic];
      }
      if env.IsPublic() {
        return activePublic < cfg.publicAllow;
      }
      return true;
    }

    method Acquire(env: Envelope) returns (ok: bool)
      modifies this
      ensures ok <==> Admits(old(View()), env)
      ensures View() == if ok then Acquired(old(View()), env) else old(View())
    {
      if env.IsBroadcast() {
        if activeBroadcast >= cfg.broadcastAcquire {
          return false;
        }
        var active := if env.topic in activeTopics then activeTopics[env.topic] else 0;
        if env.topic in cfg.topicLimit {
          if active >= cfg.topicLimit[env.topic] {
            return false;
          }
        } else if active >= cfg.topicDefault {
          return false;
        }
        active := active + 1;
        activeTopics := activeTopics[env.topic := active];
        activeBroadcast := activeBroadcast + 1;
        return true;
      }
      if env.IsPublic() {
        if activePublic >= cfg.publicAcquire {
          return false;
        }
        activePublic := activePublic + 1;
      }
      return true;
    }

    method Release(env: Envelope)
      modifies this
      ensures View() == Released(old(View()), env)
    {
      if env.IsBroadcast() {
        if env.topic !in activeTopics {
          return;
        }
        var active := activeTopics[env.topic] - 1;
        if active > 0 {
          activeTopics := activeTopics[env.topic := active];
        } else {
          activeTopics := activeTopics - {env.topic};
        }
        activeBroadcast := activeBroadcast - 1;
      } else if env.IsPublic() {
        activePublic := activePublic - 1;
      }
    }

    method SetConfig(cfg: Config)
      modifies this
      ensures View() == old(View()).(cfg := cfg)
    {
      this.cfg := cfg;
    }
  }

  // ---------------------------------------------------------------------
  // What the counters count.

  function PublicIn(flying: seq<Envelope>): nat {
    Count(flying, (e: Envelope) => e.CountsAsPublic())
  }

  function BroadcastIn(flying: seq<Envelope>): nat {
    Count(flying, (e: Envelope) => e.IsBroadcast())
  }

  function OnTopicIn(flying: seq<Envelope>, topic: string): nat {
    Count(flying, (e: Envelope) => e.OnTopic(topic))
  }

  /** The counters are exactly the handlers in flight, by kind and by topic, with no zero entries. */
  ghost predicate Accounts(l: Limiter, flying: seq<Envelope>) {
    && l.activePublic == PublicIn(flying)
    && l.activeBroadcast == BroadcastIn(flying)
    && (forall t :: t in l.activeTopics <==> OnTopicIn(flying, t) > 0)
    && (forall t | t in l.activeTopics :: l.activeTopics[t] == OnTopicIn(flying, t))
  }

  lemma AcquireAccounts(l: Limiter, flying: seq<Envelope>, env: Envelope)
    requires Accounts(l, flying)
    ensures Accounts(Acquired(l, env), flying + [env])
  {
    CountSnoc(flying, env, (e: Envelope) => e.CountsAsPublic());
    CountSnoc(flying, env, (e: Envelope) => e.IsBroadcast());
    forall t
      ensures OnTopicIn(flying + [env], t) == OnTopicIn(flying, t) + (if env.OnTopic(t) then 1 else 0)
    {
      CountSnoc(flying, env, (e: Envelope) => e.OnTopic(t));
    }
  }

  lemma ReleaseAccounts(l: Limiter, flying: seq<Envelope>, i: nat)
    requires i < |flying|
    requires Accounts(l, flying)
    ensures Accounts(Released(l, flying[i]), Without(flying, i))
  {
    var env := flying[i];
    CountWithout(flying, i, (e: Envelope) => e.CountsAsPublic());
    CountWithout(flying, i, (e: Envelope) => e.IsBroadcast());
    forall t
      ensures OnTopicIn(Without(flying, i), t) == OnTopicIn(flying, t) - (if env.OnTopic(t) then 1 else 0)
    {
      CountWithout(flying, i, (e: Envelope) => e.OnTopic(t));
    }
  }

  ghost function SumOf(m: map<string, int>): int
  {
    if m == map[] then 0
    else
      var k :| k in m;
      m[k] + SumOf(m - {k})
  }

  lemma {:induction false} SumOfAt(m: map<string, int>, k: string)
    requires k in m
    ensures SumOf(m) == m[k] + SumOf(m - {k})
    decreases |m|
  {
    var c :| c in m && SumOf(m) == m[c] + SumOf(m - {c});
    if c != k {
      SumOfAt(m - {c}, k);
      SumOfAt(m - {k}, c);
      assert m - {c} - {k} == m - {k} - {c};
    }
  }

  /** The broadcast counter is the sum of the topic counters. */
  lemma {:induction false} BroadcastIsSumOfTopics(l: Limiter, flying: seq<Envelope>)
    requires Accounts(l, flying)
    ensures l.activeBroadcast == SumOf(l.activeTopics)
    decreases |flying|
  {
    if flying == [] {
      assert l.activeTopics == map[];
    } else {
      var last := |flying| - 1;
      var env := flying[last];
      ReleaseAccounts(l, flying, last);
      var r := Released(l, env);
      BroadcastIsSumOfTopics(r, Without(flying, last));
      if env.IsBroadcast() {
        CountWithout(flying, last, (e: Envelope) => e.OnTopic(env.topic));
        assert env.OnTopic(env.topic);
        SumOfAt(l.activeTopics, env.topic);
        if env.topic in r.activeTopics {
          SumOfAt(r.activeTopics, env.topic);
          assert r.activeTopics - {env.topic} == l.activeTopics - {env.topic};
        }
      }
    }
  }

  // ---------------------------------------------------------------------
  // Allow leaves room: the slack between the two limits covers what is acquired in between.

  datatype Op = AcquireOp(env: Envelope) | ReleaseOp(env: Envelope)

  function Apply(l: Limiter, op: Op): Limiter {
    match op
    case AcquireOp(env) => if Admits(l, env) then Acquired(l, env) else l
    case ReleaseOp(env) => Released(l, env)
  }

  function ApplyAll(l: Limiter, ops: seq<Op>): Limiter
    decreases |ops|
  {
    if ops == [] then l else ApplyAll(Apply(l, ops[0]), ops[1..])
  }

  /** Successful acquisitions minus releases of messages that satisfy `p`, along `ops` from `l`.
      A broadcast release counts only when its topic is counted, as only then it has an effect. */
  function Net(l: Limiter, ops: seq<Op>, p: Envelope -> bool): int
    decreases |ops|
  {
    if ops == [] then 0
    else
      (match ops[0]
       case AcquireOp(env) => if Admits(l, env) && p(env) then 1 else 0
       case ReleaseOp(env) => if p(env) && (env.IsBroadcast() ==> env.topic in l.activeTopics) then -1 else 0)
      + Net(Apply(l, ops[0]), ops[1..], p)
  }

  predicate TopicsPositive(l: Limiter) {
    forall t | t in l.activeTopics :: l.activeTopics[t] > 0
  }

  lemma {:induction false} CountersFollowNet(l: Limiter, ops: seq<Op>, topic: string)
    requires TopicsPositive(l)
    ensures TopicsPositive(ApplyAll(l, ops))
    ensures ApplyAll(l, ops).cfg == l.cfg
    ensures ApplyAll(l, ops).activePublic == l.activePublic + Net(l, ops, (e: Envelope) => e.CountsAsPublic())
    ensures ApplyAll(l, ops).activeBroadcast == l.activeBroadcast + Net(l, ops, (e: Envelope) => e.IsBroadcast())
    ensures ApplyAll(l, ops).Active(topic) == l.Active(topic) + Net(l, ops, (e: Envelope) => e.OnTopic(topic))
    decreases |ops|
  {
    if ops != [] {
      CountersFollowNet(Apply(l, ops[0]), ops[1..], topic);
    }
  }

  /** If Allow accepted a message and what was acquired since fits in the slack between the two
      limits (and its topic did not grow), Acquire accepts it too. */
  lemma AllowedIsAdmittedWithinSlack(l: Limiter, ops: seq<Op>, env: Envelope)
    requires TopicsPositive(l)
    requires Allows(l, env)
    requires env.CountsAsPublic() ==>
               Net(l, ops, (e: Envelope) => e.CountsAsPublic()) <= l.cfg.publicAcquire - l.cfg.publicAllow
    requires env.IsBroadcast() ==>
               && Net(l, ops, (e: Envelope) => e.IsBroadcast()) <= l.cfg.broadcastAcquire - l.cfg.broadcastAllow
               && Net(l, ops, (e: Envelope) => e.OnTopic(env.topic)) <= 0
    ensures Admits(ApplyAll(l, ops), env)
  {
    CountersFollowNet(l, ops, env.topic);
  }
}
