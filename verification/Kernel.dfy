/** The reaction kernel of one actor: its queues, its behaviour table and the security checks that
    stand between a received message and a running handler.

    Every function on `Kernel` below is one step that the source makes without being interrupted by
    another goroutine of the same kernel; `Dispatching.Dispatch` is the object that makes these steps
    in place. */
module Kernels {
  import opened Envelopes

  const QUEUE_CAPACITY: nat := 100

  /** One entry of the behaviour table. `id` is the identity of the registration (no two calls of
      AddBehavior share one), `cont` names the continuation. */
  datatype Registration = Registration(
    id: nat, cont: nat, capability: seq<string>, expire: nat, oneShot: bool, topic: string)
  {
    predicate Expired(now: nat) {
      expire > 0 && now > expire
    }
  }

  /** A message together with its arrival number. */
  datatype Item = Item(arrival: nat, env: Envelope)

  /** What a receiving worker holds. */
  datatype Hand = Idle | Taken(item: Item) | Checked(item: Item)

  /** A message with the registration it was matched with; `kept` are the tokens consumed for it. */
  datatype Job = Job(item: Item, reg: Registration, kept: seq<Token>)

  /** What the dispatch loop is doing. While it consumes tokens, decides, and gives tokens of a refused
      message back, it holds the kernel's lock. `todo` are the tokens still to consume and `at` is the
      time at which consuming began. */
  datatype Loop =
    | Free
    | Consuming(job: Job, todo: seq<Token>, at: nat)
    | Granted(job: Job)
    | Refused(job: Job, locked: bool)

  // ---------------------------------------------------------------------
  // Security context. Cryptography and delegation-chain checks are parameters.

  datatype Checks = Checks(
    signed: Envelope -> bool,
    keeps: (Envelope, Token, nat) -> bool,
    granted: (seq<Token>, Envelope, seq<string>, nat) -> bool,
    grantedBroadcast: (seq<Token>, Envelope, string, seq<string>, nat) -> bool)

  /** `cap` names the capability context; a child actor's context shares its parent's. */
  datatype SecurityContext = SecurityContext(id: string, cap: nat, checks: Checks)

  predicate Authentic(sctx: SecurityContext, env: Envelope, now: nat) {
    now <= env.expire && sctx.checks.signed(env)
  }

  function Keep(s: seq<Token>, p: Token -> bool): (r: seq<Token>)
    ensures forall x :: x in r <==> x in s && p(x)
  {
    if s == [] then [] else (if p(s[0]) then [s[0]] else []) + Keep(s[1..], p)
  }

  /** Discard drops every held token with the identity of one of the message's, however often it was
      consumed. */
  function Discarded(held: seq<Token>, env: Envelope): (r: seq<Token>)
    ensures forall t :: t in r <==> t in held && t.id !in env.TokenIds()
  {
    Keep(held, (t: Token) => t.id !in env.TokenIds())
  }

  /** A capability context forgets expired tokens: those of a subject that is looked up, or all. */
  function Purged(held: seq<Token>, subject: Option<string>, now: nat): (r: seq<Token>)
    ensures forall t :: t in r <==> t in held && !(t.Expired(now) && subject in {None, Some(t.id.subject)})
  {
    Keep(held, (t: Token) => !(t.Expired(now) && subject in {None, Some(t.id.subject)}))
  }

  /** A message an actor sends to itself is not checked, so nothing is consumed for it. */
  predicate SentToSelf(sctx: SecurityContext, env: Envelope) {
    !env.IsBroadcast() && sctx.id == env.from.id && sctx.id == env.to.id
  }

  /** Whether the check gets as far as consuming tokens: a broadcast on the registered topic, or any
      other message, with tokens that can be read. */
  predicate Checkable(env: Envelope, reg: Registration) {
    (env.IsBroadcast() ==> env.topic == reg.topic) && env.capability.Some?
  }

  /** Whether the held tokens grant the message what its registration requires. */
  predicate Grants(sctx: SecurityContext, held: seq<Token>, env: Envelope, reg: Registration, now: nat) {
    if env.IsBroadcast() then sctx.checks.grantedBroadcast(held, env, reg.topic, reg.capability, now)
    else sctx.checks.granted(held, env, reg.capability, now)
  }

  // ---------------------------------------------------------------------
  // Kernel state and its steps.

  /** `inbox`, `dropped` and `started` record what was ever enqueued, dropped after being enqueued,
      and handed to a handler, in order. */
  datatype Kernel = Kernel(
    sctx: SecurityContext,
    q: seq<Item>,
    hands: seq<Hand>,
    vq: seq<Item>,
    table: map<string, Registration>,
    loop: Loop,
    closed: bool,
    registered: nat,
    inbox: seq<Item>,
    dropped: seq<Item>,
    started: seq<Job>)

  function NewKernel(sctx: SecurityContext, workers: nat): Kernel {
    Kernel(sctx, [], seq(workers, _ => Idle), [], map[], Free, false, 0, [], [], [])
  }

  datatype Receipt = Accepted | QueueFull | ContextClosed

  /** After Stop both the enqueue and the cancellation are ready when there is room; `pick` says
      which of them the select takes. */
  predicate Enqueues(k: Kernel, pick: bool) {
    |k.q| < QUEUE_CAPACITY && (k.closed ==> pick)
  }

  function ReceiptFor(k: Kernel): Receipt {
    if k.closed then ContextClosed else if |k.q| < QUEUE_CAPACITY then Accepted else QueueFull
  }

  function Receive(k: Kernel, env: Envelope, pick: bool): Kernel {
    if Enqueues(k, pick) then
      var item := Item(|k.inbox|, env);
      k.(q := k.q + [item], inbox := k.inbox + [item])
    else
      k
  }

  /** A worker takes the oldest queued message. */
  function Take(k: Kernel, w: nat): Kernel {
    if w < |k.hands| && k.hands[w].Idle? && k.q != [] then
      k.(q := k.q[1..], hands := k.hands[w := Taken(k.q[0])])
    else
      k
  }

  /** The worker verifies what it took; a message that fails is dropped. */
  function Verify(k: Kernel, w: nat, now: nat): Kernel {
    if w < |k.hands| && k.hands[w].Taken? then
      var item := k.hands[w].item;
      if Authentic(k.sctx, item.env, now) then
        k.(hands := k.hands[w := Checked(item)])
      else
        k.(hands := k.hands[w := Idle], dropped := k.dropped + [item])
    else
      k
  }

  /** The worker hands the verified message on, or drops it when the verified queue is full. */
  function Put(k: Kernel, w: nat): Kernel {
    if w < |k.hands| && k.hands[w].Checked? then
      var item := k.hands[w].item;
      var k1 := k.(hands := k.hands[w := Idle]);
      if |k.vq| < QUEUE_CAPACITY then k1.(vq := k.vq + [item]) else k1.(dropped := k.dropped + [item])
    else
      k
  }

  predicate Locked(k: Kernel) {
    k.loop.Consuming? || (k.loop.Refused? && k.loop.locked)
  }

  /** The dispatch loop can take a message: it is not in the middle of another one. */
  predicate CanDispatch(k: Kernel) {
    k.vq != [] && k.loop.Free?
  }

  /** The registration that the next verified message meets, if there is one that has not expired. */
  function Match(k: Kernel, now: nat): Option<Registration>
    requires CanDispatch(k)
  {
    var name := k.vq[0].env.behavior;
    if name in k.table && !k.table[name].Expired(now) then Some(k.table[name]) else None
  }

  /** The entry a granted message leaves behind: none if it is one-shot. */
  function Used(table: map<string, Registration>, job: Job): map<string, Registration> {
    if job.reg.oneShot then table - {job.item.env.behavior} else table
  }

  /** The dispatch loop takes the lock and a message, and looks for its registration. */
  function Select(k: Kernel, now: nat): Kernel
    requires CanDispatch(k)
  {
    var item := k.vq[0];
    var k1 := k.(vq := k.vq[1..]);
    var m := Match(k, now);
    if m.None? then
      // unknown, or expired and then removed
      k1.(table := k.table - {item.env.behavior}, dropped := k.dropped + [item])
    else
      var job := Job(item, m.value, []);
      if SentToSelf(k.sctx, item.env) then k1.(table := Used(k.table, job), loop := Granted(job))
      else if Checkable(item.env, m.value) then k1.(loop := Consuming(job, item.env.Tokens(), now))
      else k1.(dropped := k.dropped + [item])
  }

  predicate CanConsume(k: Kernel) {
    k.loop.Consuming? && k.loop.todo != []
  }

  /** Whether the next token is accepted. */
  predicate Accepts(k: Kernel)
    requires CanConsume(k)
  {
    k.sctx.checks.keeps(k.loop.job.item.env, k.loop.todo[0], k.loop.at)
  }

  /** One token of the message is consumed, or passed over. */
  function Consume(k: Kernel): Kernel
    requires CanConsume(k)
  {
    var job := k.loop.job;
    var job1 := if Accepts(k) then job.(kept := job.kept + [k.loop.todo[0]]) else job;
    k.(loop := Consuming(job1, k.loop.todo[1..], k.loop.at))
  }

  predicate CanRequire(k: Kernel) {
    k.loop.Consuming? && k.loop.todo == []
  }

  /** The check is decided; a granted message ends the locked section. */
  function Require(k: Kernel, ok: bool): Kernel
    requires CanRequire(k)
  {
    var job := k.loop.job;
    if ok then k.(table := Used(k.table, job), loop := Granted(job)) else k.(loop := Refused(job, true))
  }

  /** The tokens of a refused message are discarded, and the message is dropped. */
  function GiveBack(k: Kernel): Kernel
    requires k.loop.Refused?
  {
    k.(loop := Free, dropped := k.dropped + [k.loop.job.item])
  }

  /** The limiter answers: the handler starts, or its tokens have to be given back. */
  function Launch(k: Kernel, admitted: bool): Kernel
    requires k.loop.Granted?
  {
    var job := k.loop.job;
    if admitted then k.(loop := Free, started := k.started + [job]) else k.(loop := Refused(job, false))
  }

  function LiveEntries(table: map<string, Registration>, now: nat): map<string, Registration> {
    map name | name in table && !table[name].Expired(now) :: table[name]
  }

  function Sweep(k: Kernel, now: nat): Kernel {
    k.(table := LiveEntries(k.table, now))
  }

  datatype Options = Options(capability: seq<string>, expire: nat, oneShot: bool, topic: string)

  /** Without an explicit capability option a behaviour requires the capability of its own name. */
  function DefaultOptions(name: string): Options {
    Options([name], 0, false, "")
  }

  function AddBehavior(k: Kernel, name: string, cont: nat, opt: Options): Kernel {
    var reg := Registration(k.registered, cont, opt.capability, opt.expire, opt.oneShot, opt.topic);
    k.(table := k.table[name := reg], registered := k.registered + 1)
  }

  function RemoveBehavior(k: Kernel, name: string): Kernel {
    k.(table := k.table - {name})
  }
}
