/** Actors that run concurrently and share a rate limiter and capability contexts, as a step system:
    every action is one uninterrupted step of some goroutine, and a run is any sequence of actions. */
module ActorSystem {
  import opened Sequences
  import opened Envelopes
  import opened RateLimiting
  import opened Kernels

  /** Steps that touch the kernel of one actor. */
  datatype Move =
    | Deliver(env: Envelope, pick: bool)
    | TakeBy(worker: nat)
    | VerifyBy(worker: nat)
    | PutBy(worker: nat)
    | SelectNext
    | ConsumeNext
    | RequireNext
    | GiveBackNext
    | LaunchNext
    | Gc
    | Add(name: string, cont: nat, opt: Options)
    | Remove(name: string)
    | Swap(sctx: SecurityContext)
    | Halt

  datatype Action =
    | By(actor: nat, move: Move)
    | DiscardBy(flight: nat)
    | FinishBy(flight: nat)
    | DiscardLate(reply: nat)
    | Purge(cap: nat, subject: Option<string>)
    | Spawn(child: nat, sctx: SecurityContext, workers: nat)
    | Configure(cfg: Config)
    | Tick(dt: nat)

  /** A handler that was started, and whether its message's tokens were discarded. */
  datatype Flight = Flight(actor: nat, job: Job, discarded: bool)

  /** `flights` are the handlers that run. `returned` are those that returned: the handler of an Invoke
      reply passes its message on, and the receiver discards it later, or never. */
  datatype System = System(
    kernels: map<nat, Kernel>,
    limiter: Limiter,
    held: map<nat, seq<Token>>,
    flights: seq<Flight>,
    returned: seq<Flight>,
    now: nat)
  {
    function HeldAt(cap: nat): seq<Token> {
      if cap in held then held[cap] else []
    }
  }

  ghost predicate Init(s: System) {
    && (forall a | a in s.kernels :: s.kernels[a] == NewKernel(s.kernels[a].sctx, |s.kernels[a].hands|))
    && s.limiter == Limiter(s.limiter.cfg, 0, 0, map[])
    && s.held == map[]
    && s.flights == [] && s.returned == []
  }

  predicate Launches(k: Kernel, limiter: Limiter) {
    k.loop.Granted? && Admits(limiter, k.loop.job.item.env)
  }

  predicate Passes(k: Kernel, held: seq<Token>, now: nat)
    requires CanRequire(k)
  {
    Grants(k.sctx, held, k.loop.job.item.env, k.loop.job.reg, now)
  }

  /** Steps that need the kernel's lock wait while the dispatch loop holds it. */
  predicate NeedsLock(move: Move) {
    move.Gc? || move.Add? || move.Remove? || move.Swap? || move.Halt?
  }

  predicate Blocked(k: Kernel, move: Move) {
    NeedsLock(move) && Locked(k)
  }

  function KernelAfter(k: Kernel, held: seq<Token>, limiter: Limiter, now: nat, move: Move): Kernel {
    if Blocked(k, move) then k
    else match move
      case Deliver(env, pick) => Receive(k, env, pick)
      case TakeBy(w) => Take(k, w)
      case VerifyBy(w) => Verify(k, w, now)
      case PutBy(w) => Put(k, w)
      case SelectNext => if CanDispatch(k) then Select(k, now) else k
      case ConsumeNext => if CanConsume(k) then Consume(k) else k
      case RequireNext => if CanRequire(k) then Require(k, Passes(k, held, now)) else k
      case GiveBackNext => if k.loop.Refused? then GiveBack(k) else k
      case LaunchNext => if k.loop.Granted? then Launch(k, Launches(k, limiter)) else k
      case Gc => Sweep(k, now)
      case Add(name, cont, opt) => AddBehavior(k, name, cont, opt)
      case Remove(name) => RemoveBehavior(k, name)
      case Swap(sctx) => k.(sctx := sctx)
      case Halt => k.(closed := true)
  }

  function HeldAfter(k: Kernel, held: seq<Token>, move: Move): seq<Token> {
    if move.ConsumeNext? && CanConsume(k) && Accepts(k) then held + [k.loop.todo[0]]
    else if move.GiveBackNext? && k.loop.Refused? then Discarded(held, k.loop.job.item.env)
    else held
  }

  function MoveStep(s: System, a: nat, move: Move): System
    requires a in s.kernels
  {
    var k := s.kernels[a];
    var held := s.HeldAt(k.sctx.cap);
    var starts := move.LaunchNext? && Launches(k, s.limiter);
    s.(kernels := s.kernels[a := KernelAfter(k, held, s.limiter, s.now, move)],
    held := if move.ConsumeNext? || move.GiveBackNext? then s.held[k.sctx.cap := HeldAfter(k, held, move)] else s.held,
    limiter := if starts then Acquired(s.limiter, k.loop.job.item.env) else s.limiter,
    flights := if starts then s.flights + [Flight(a, k.loop.job, false)] else s.flights)
  }

  /** The tokens after a Discard of the flight's message, which goes to whatever security context its
      kernel has at that moment. */
  function HeldOnDiscard(s: System, flight: Flight): map<nat, seq<Token>>
    requires flight.actor in s.kernels
  {
    var cap := s.kernels[flight.actor].sctx.cap;
    s.held[cap := Discarded(s.HeldAt(cap), flight.job.item.env)]
  }

  function DiscardStep(s: System, f: nat): System
    requires f < |s.flights| && s.flights[f].actor in s.kernels
  {
    s.(held := HeldOnDiscard(s, s.flights[f]), flights := s.flights[f := s.flights[f].(discarded := true)])
  }

  function DiscardLateStep(s: System, i: nat): System
    requires i < |s.returned| && s.returned[i].actor in s.kernels
  {
    s.(held := HeldOnDiscard(s, s.returned[i]), returned := s.returned[i := s.returned[i].(discarded := true)])
  }

  function FinishStep(s: System, f: nat): System
    requires f < |s.flights|
  {
    s.(limiter := Released(s.limiter, s.flights[f].job.item.env),
    flights := Without(s.flights, f), returned := s.returned + [s.flights[f]])
  }

  /** An action that is not enabled changes nothing. */
  function Step(s: System, act: Action): System {
    match act
    case By(a, move) => if a in s.kernels then MoveStep(s, a, move) else s
    case DiscardBy(f) => if f < |s.flights| && s.flights[f].actor in s.kernels then DiscardStep(s, f) else s
    case FinishBy(f) => if f < |s.flights| then FinishStep(s, f) else s
    case DiscardLate(i) => if i < |s.returned| && s.returned[i].actor in s.kernels then DiscardLateStep(s, i) else s
    case Purge(cap, subject) => s.(held := s.held[cap := Purged(s.HeldAt(cap), subject, s.now)])
    case Spawn(c, sctx, workers) =>
      if c in s.kernels then s else s.(kernels := s.kernels[c := NewKernel(sctx, workers)])
    case Configure(cfg) => s.(limiter := s.limiter.(cfg := cfg))
    case Tick(dt) => s.(now := s.now + dt)
  }

  /** The state after a run. */
  function Exec(s: System, acts: seq<Action>): System
  {
    if acts == [] then s else Step(Exec(s, acts[..|acts| - 1]), acts[|acts| - 1])
  }

  lemma ExecStep(s: System, acts: seq<Action>, i: nat)
    requires i < |acts|
    ensures Exec(s, acts[..i + 1]) == Step(Exec(s, acts[..i]), acts[i])
  {
    assert acts[..i + 1][..i] == acts[..i];
  }

  lemma OnlyTheActorMoves(s: System, act: Action, a: nat)
    requires a in s.kernels
    ensures a in Step(s, act).kernels
    ensures act.By? && act.actor == a ==>
              Step(s, act).kernels[a] ==
              KernelAfter(s.kernels[a], s.HeldAt(s.kernels[a].sctx.cap), s.limiter, s.now, act.move)
    ensures !(act.By? && act.actor == a) ==> Step(s, act).kernels[a] == s.kernels[a]
  {
  }
}
