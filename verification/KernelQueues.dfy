/** Where messages are: nothing is lost or duplicated between the queues, the queues are bounded, and
    a kernel with one worker starts handlers in arrival order. */
module KernelQueues {
  import opened Sequences
  import opened Envelopes
  import opened RateLimiting
  import opened Kernels
  import opened ActorSystem

  // ---------------------------------------------------------------------
  // Conservation.

  function In(items: seq<Item>, x: Item): nat {
    Count(items, i => i == x)
  }

  function InHands(hands: seq<Hand>, x: Item): nat {
    Count(hands, (h: Hand) => !h.Idle? && h.item == x)
  }

  function InJobs(jobs: seq<Job>, x: Item): nat {
    Count(jobs, (j: Job) => j.item == x)
  }

  function InLoop(k: Kernel, x: Item): nat {
    if !k.loop.Free? && k.loop.job.item == x then 1 else 0
  }

  /** How often a message occurs in the kernel: incoming queue, workers' hands, verified queue,
      dispatch loop, started, dropped. */
  function Places(k: Kernel, x: Item): nat {
    In(k.q, x) + InHands(k.hands, x) + In(k.vq, x) + InLoop(k, x) + InJobs(k.started, x) + In(k.dropped, x)
  }

  ghost predicate Bounded(k: Kernel) {
    |k.q| <= QUEUE_CAPACITY && |k.vq| <= QUEUE_CAPACITY
  }

  /** The places account for every enqueued message, and for nothing else. */
  ghost predicate Conserved(k: Kernel) {
    && (forall i | 0 <= i < |k.inbox| :: k.inbox[i].arrival == i)
    && (forall x :: Places(k, x) == In(k.inbox, x))
  }

  /** The dispatch loop took the oldest verified message, and keeps or drops it. */
  predicate TakenByLoop(k: Kernel, k': Kernel) {
    && k.vq != [] && k.loop.Free?
    && k'.q == k.q && k'.hands == k.hands && k'.inbox == k.inbox && k'.started == k.started && k'.vq == k.vq[1..]
    && if k'.loop.Free? then k'.dropped == k.dropped + [k.vq[0]]
       else k'.loop.job.item == k.vq[0] && k'.dropped == k.dropped
  }

  lemma SelectTakes(k: Kernel, now: nat)
    requires CanDispatch(k)
    ensures TakenByLoop(k, Select(k, now))
  {
  }

  /** Steps that move no message. */
  predicate SameQueues(k: Kernel, k': Kernel) {
    && k'.q == k.q && k'.hands == k.hands && k'.vq == k.vq && k'.inbox == k.inbox
    && k'.started == k.started && k'.dropped == k.dropped
    && k'.loop.Free? == k.loop.Free? && (!k.loop.Free? ==> k'.loop.job.item == k.loop.job.item)
  }

  predicate MovesMessage(move: Move) {
    move.Deliver? || move.TakeBy? || move.VerifyBy? || move.PutBy? || move.SelectNext? || move.GiveBackNext?
    || move.LaunchNext?
  }

  lemma QuietMove(k: Kernel, held: seq<Token>, limiter: Limiter, now: nat, move: Move)
    requires !MovesMessage(move)
    ensures SameQueues(k, KernelAfter(k, held, limiter, now, move))
  {
  }

  lemma ReceiveKeepsPlaces(k: Kernel, env: Envelope, pick: bool, x: Item)
    ensures var k' := Receive(k, env, pick);
            Places(k', x) - Places(k, x) == In(k'.inbox, x) - In(k.inbox, x)
  {
    CountSnoc(k.q, Item(|k.inbox|, env), (i: Item) => i == x);
    CountSnoc(k.inbox, Item(|k.inbox|, env), (i: Item) => i == x);
  }

  lemma TakeKeepsPlaces(k: Kernel, w: nat, x: Item)
    ensures Places(Take(k, w), x) == Places(k, x)
  {
    if w < |k.hands| && k.q != [] {
      CountReplaced(k.hands, w, Taken(k.q[0]), (h: Hand) => !h.Idle? && h.item == x);
      CountHead(k.q, (i: Item) => i == x);
    }
  }

  lemma VerifyKeepsPlaces(k: Kernel, w: nat, now: nat, x: Item)
    ensures Places(Verify(k, w, now), x) == Places(k, x)
  {
    if w < |k.hands| && k.hands[w].Taken? {
      CountReplaced(k.hands, w, Checked(k.hands[w].item), (h: Hand) => !h.Idle? && h.item == x);
      CountReplaced(k.hands, w, Idle, (h: Hand) => !h.Idle? && h.item == x);
      CountSnoc(k.dropped, k.hands[w].item, (i: Item) => i == x);
    }
  }

  lemma PutKeepsPlaces(k: Kernel, w: nat, x: Item)
    ensures Places(Put(k, w), x) == Places(k, x)
  {
    if w < |k.hands| && k.hands[w].Checked? {
      CountReplaced(k.hands, w, Idle, (h: Hand) => !h.Idle? && h.item == x);
      CountSnoc(k.vq, k.hands[w].item, (i: Item) => i == x);
      CountSnoc(k.dropped, k.hands[w].item, (i: Item) => i == x);
    }
  }

  lemma SelectKeepsPlaces(k: Kernel, k': Kernel, x: Item)
    requires TakenByLoop(k, k')
    ensures Places(k', x) == Places(k, x)
  {
    CountHead(k.vq, (i: Item) => i == x);
    CountSnoc(k.dropped, k.vq[0], (i: Item) => i == x);
  }

  lemma GiveBackKeepsPlaces(k: Kernel, x: Item)
    requires k.loop.Refused?
    ensures Places(GiveBack(k), x) == Places(k, x)
  {
    CountSnoc(k.dropped, k.loop.job.item, (i: Item) => i == x);
  }

  lemma LaunchKeepsPlaces(k: Kernel, admitted: bool, x: Item)
    requires k.loop.Granted?
    ensures Places(Launch(k, admitted), x) == Places(k, x)
  {
    CountSnoc(k.started, k.loop.job, (j: Job) => j.item == x);
  }

  lemma MoveKeepsPlaces(k: Kernel, held: seq<Token>, limiter: Limiter, now: nat, move: Move, x: Item)
    ensures var k' := KernelAfter(k, held, limiter, now, move);
            Places(k', x) - Places(k, x) == In(k'.inbox, x) - In(k.inbox, x)
  {
    if !MovesMessage(move) {
      QuietMove(k, held, limiter, now, move);
    } else {
      match move {
        case Deliver(env, pick) => ReceiveKeepsPlaces(k, env, pick, x);
        case TakeBy(w) => TakeKeepsPlaces(k, w, x);
        case VerifyBy(w) => VerifyKeepsPlaces(k, w, now, x);
        case PutBy(w) => PutKeepsPlaces(k, w, x);
        case SelectNext =>
          if CanDispatch(k) {
            SelectTakes(k, now);
            SelectKeepsPlaces(k, Select(k, now), x);
          }
        case GiveBackNext => if k.loop.Refused? { GiveBackKeepsPlaces(k, x); }
        case LaunchNext => if k.loop.Granted? { LaunchKeepsPlaces(k, Launches(k, limiter), x); }
      }
    }
  }

  lemma MoveBounded(k: Kernel, held: seq<Token>, limiter: Limiter, now: nat, move: Move)
    requires Bounded(k) && (forall i | 0 <= i < |k.inbox| :: k.inbox[i].arrival == i)
    ensures var k' := KernelAfter(k, held, limiter, now, move);
            Bounded(k') && (forall i | 0 <= i < |k'.inbox| :: k'.inbox[i].arrival == i)
  {
  }

  lemma MoveConserves(k: Kernel, held: seq<Token>, limiter: Limiter, now: nat, move: Move)
    requires Bounded(k) && Conserved(k)
    ensures var k' := KernelAfter(k, held, limiter, now, move); Bounded(k') && Conserved(k')
  {
    MoveBounded(k, held, limiter, now, move);
    forall x
      ensures var k' := KernelAfter(k, held, limiter, now, move); Places(k', x) == In(k'.inbox, x)
    {
      MoveKeepsPlaces(k, held, limiter, now, move, x);
      assert Places(k, x) == In(k.inbox, x);
    }
  }

  lemma {:induction false} IdleHandsAreEmpty(n: nat, x: Item)
    ensures InHands(seq(n, _ => Idle), x) == 0
  {
    if n > 0 {
      assert seq(n, _ => Idle)[1..] == seq(n - 1, _ => Idle);
      IdleHandsAreEmpty(n - 1, x);
    }
  }

  lemma NewKernelConserves(sctx: SecurityContext, workers: nat)
    ensures Bounded(NewKernel(sctx, workers)) && Conserved(NewKernel(sctx, workers))
  {
    forall x
      ensures Places(NewKernel(sctx, workers), x) == 0
    {
      IdleHandsAreEmpty(workers, x);
    }
  }

  lemma {:induction false} ReachableConserves(s: System, acts: seq<Action>, a: nat)
    requires Init(s) && a in Exec(s, acts).kernels
    ensures Bounded(Exec(s, acts).kernels[a]) && Conserved(Exec(s, acts).kernels[a])
  {
    if acts == [] {
      NewKernelConserves(s.kernels[a].sctx, |s.kernels[a].hands|);
    } else {
      var before := Exec(s, acts[..|acts| - 1]);
      var act := acts[|acts| - 1];
      if a in before.kernels {
        ReachableConserves(s, acts[..|acts| - 1], a);
        OnlyTheActorMoves(before, act, a);
        if act.By? && act.actor == a {
          var k := before.kernels[a];
          MoveConserves(k, before.HeldAt(k.sctx.cap), before.limiter, before.now, act.move);
        }
      } else {
        NewKernelConserves(act.sctx, act.workers);
      }
    }
  }

  lemma {:induction false} NumberedOccursOnce(items: seq<Item>, x: Item)
    requires forall i, j | 0 <= i < j < |items| :: items[i].arrival != items[j].arrival
    ensures In(items, x) == if x in items then 1 else 0
  {
    if items != [] {
      NumberedOccursOnce(items[1..], x);
      assert forall i | 0 < i < |items| :: items[0].arrival != items[i].arrival;
    }
  }

  /** In every reachable state of every actor both queues respect their capacity, and every message
      ever enqueued is in exactly one place while nothing else is anywhere. */
  lemma MessagesConserved(s: System, acts: seq<Action>, a: nat, x: Item)
    requires Init(s) && a in Exec(s, acts).kernels
    ensures var k := Exec(s, acts).kernels[a];
            && |k.q| <= QUEUE_CAPACITY && |k.vq| <= QUEUE_CAPACITY
            && Places(k, x) == if x in k.inbox then 1 else 0
  {
    ReachableConserves(s, acts, a);
    var k := Exec(s, acts).kernels[a];
    assert Places(k, x) == In(k.inbox, x);
    NumberedOccursOnce(k.inbox, x);
  }

  // ---------------------------------------------------------------------
  // One worker keeps arrival order.

  /** The arrival numbers of `items` increase, from `lo` up to but not including `hi`. */
  ghost predicate Within(items: seq<Item>, lo: nat, hi: nat) {
    && (forall i | 0 <= i < |items| :: lo <= items[i].arrival < hi)
    && (forall i, j | 0 <= i < j < |items| :: items[i].arrival < items[j].arrival)
  }

  function ItemsOf(jobs: seq<Job>): (r: seq<Item>)
    ensures |r| == |jobs|
    ensures forall i | 0 <= i < |jobs| :: r[i] == jobs[i].item
  {
    seq(|jobs|, i requires 0 <= i < |jobs| => jobs[i].item)
  }

  function LoopItems(loop: Loop): seq<Item> {
    if loop.Free? then [] else [loop.job.item]
  }

  function HandItems(h: Hand): seq<Item> {
    if h.Idle? then [] else [h.item]
  }

  /** Started, dispatching, verified, in hand, queued: each stage holds later arrivals than the one
      before it, cut at `a`, `b`, `c` and `d`. */
  ghost predicate StagedAt(k: Kernel, a: nat, b: nat, c: nat, d: nat) {
    && |k.hands| == 1
    && Within(ItemsOf(k.started), 0, a)
    && Within(LoopItems(k.loop), a, b)
    && Within(k.vq, b, c)
    && Within(HandItems(k.hands[0]), c, d)
    && Within(k.q, d, |k.inbox|)
    && a <= b <= c <= d <= |k.inbox|
  }

  ghost predicate Staged(k: Kernel) {
    exists a: nat, b: nat, c: nat, d: nat :: StagedAt(k, a, b, c, d)
  }

  lemma ReceiveStaged(k: Kernel, env: Envelope, pick: bool)
    requires Staged(k)
    ensures Staged(Receive(k, env, pick))
  {
    var a: nat, b: nat, c: nat, d: nat :| StagedAt(k, a, b, c, d);
    assert StagedAt(Receive(k, env, pick), a, b, c, d);
  }

  lemma TakeStaged(k: Kernel, w: nat)
    requires Staged(k)
    ensures Staged(Take(k, w))
  {
    var a: nat, b: nat, c: nat, d: nat :| StagedAt(k, a, b, c, d);
    if w == 0 && k.hands[0].Idle? && k.q != [] {
      assert StagedAt(Take(k, w), a, b, c, k.q[0].arrival + 1);
    }
  }

  lemma VerifyStaged(k: Kernel, w: nat, now: nat)
    requires Staged(k)
    ensures Staged(Verify(k, w, now))
  {
    var a: nat, b: nat, c: nat, d: nat :| StagedAt(k, a, b, c, d);
    assert StagedAt(Verify(k, w, now), a, b, c, d);
  }

  lemma WithinSnoc(items: seq<Item>, x: Item, lo: nat, mid: nat, hi: nat)
    requires Within(items, lo, mid) && lo <= mid <= x.arrival < hi
    ensures Within(items, lo, hi) && Within(items + [x], lo, hi)
  {
  }

  lemma PutStaged(k: Kernel, w: nat)
    requires Staged(k)
    ensures Staged(Put(k, w))
  {
    var a: nat, b: nat, c: nat, d: nat :| StagedAt(k, a, b, c, d);
    if w == 0 && k.hands[0].Checked? {
      var k', item := Put(k, w), k.hands[0].item;
      assert HandItems(k.hands[0])[0] == item;
      WithinSnoc(k.vq, item, b, c, d);
      assert HandItems(k'.hands[0]) == [];
      assert Within(k'.vq, b, d);
      assert StagedAt(k', a, b, d, d);
    }
  }

  lemma SelectStaged(k: Kernel, k': Kernel)
    requires Staged(k) && TakenByLoop(k, k')
    ensures Staged(k')
  {
    var a: nat, b: nat, c: nat, d: nat :| StagedAt(k, a, b, c, d);
    assert StagedAt(k', a, k.vq[0].arrival + 1, c, d);
  }

  lemma QuietStaged(k: Kernel, k': Kernel)
    requires Staged(k) && SameQueues(k, k')
    ensures Staged(k')
  {
    var a: nat, b: nat, c: nat, d: nat :| StagedAt(k, a, b, c, d);
    assert LoopItems(k'.loop) == LoopItems(k.loop);
    assert StagedAt(k', a, b, c, d);
  }

  lemma GiveBackStaged(k: Kernel)
    requires Staged(k) && k.loop.Refused?
    ensures Staged(GiveBack(k))
  {
    var a: nat, b: nat, c: nat, d: nat :| StagedAt(k, a, b, c, d);
    assert StagedAt(GiveBack(k), a, b, c, d);
  }

  lemma LaunchStaged(k: Kernel, admitted: bool)
    requires Staged(k) && k.loop.Granted?
    ensures Staged(Launch(k, admitted))
  {
    var a: nat, b: nat, c: nat, d: nat :| StagedAt(k, a, b, c, d);
    assert LoopItems(k.loop)[0] == k.loop.job.item;
    assert StagedAt(Launch(k, admitted), if admitted then b else a, b, c, d);
  }

  lemma WorkerMoveStaged(k: Kernel, held: seq<Token>, limiter: Limiter, now: nat, move: Move)
    requires Staged(k) && (move.Deliver? || move.TakeBy? || move.VerifyBy? || move.PutBy?)
    ensures Staged(KernelAfter(k, held, limiter, now, move))
  {
    match move {
      case Deliver(env, pick) => ReceiveStaged(k, env, pick);
      case TakeBy(w) => TakeStaged(k, w);
      case VerifyBy(w) => VerifyStaged(k, w, now);
      case PutBy(w) => PutStaged(k, w);
    }
  }

  lemma LoopMoveStaged(k: Kernel, held: seq<Token>, limiter: Limiter, now: nat, move: Move)
    requires Staged(k) && (move.SelectNext? || move.GiveBackNext? || move.LaunchNext?)
    ensures Staged(KernelAfter(k, held, limiter, now, move))
  {
    match move {
      case SelectNext =>
        if CanDispatch(k) {
          SelectTakes(k, now);
          SelectStaged(k, Select(k, now));
        }
      case GiveBackNext => if k.loop.Refused? { GiveBackStaged(k); }
      case LaunchNext => if k.loop.Granted? { LaunchStaged(k, Launches(k, limiter)); }
    }
  }

  lemma MoveStaged(k: Kernel, held: seq<Token>, limiter: Limiter, now: nat, move: Move)
    requires Staged(k)
    ensures Staged(KernelAfter(k, held, limiter, now, move))
  {
    if !MovesMessage(move) {
      QuietMove(k, held, limiter, now, move);
      QuietStaged(k, KernelAfter(k, held, limiter, now, move));
    } else if move.SelectNext? || move.GiveBackNext? || move.LaunchNext? {
      LoopMoveStaged(k, held, limiter, now, move);
    } else {
      WorkerMoveStaged(k, held, limiter, now, move);
    }
  }

  lemma {:induction false} OneWorkerStaged(s: System, acts: seq<Action>, a: nat)
    requires Init(s) && a in s.kernels && |s.kernels[a].hands| == 1
    ensures a in Exec(s, acts).kernels && Staged(Exec(s, acts).kernels[a])
  {
    if acts == [] {
      assert StagedAt(s.kernels[a], 0, 0, 0, 0);
    } else {
      var before := Exec(s, acts[..|acts| - 1]);
      var act := acts[|acts| - 1];
      OneWorkerStaged(s, acts[..|acts| - 1], a);
      OnlyTheActorMoves(before, act, a);
      if act.By? && act.actor == a {
        var k := before.kernels[a];
        MoveStaged(k, before.HeldAt(k.sctx.cap), before.limiter, before.now, act.move);
      }
    }
  }

  lemma {:induction false} CountPositive<T>(s: seq<T>, i: nat, p: T -> bool)
    requires i < |s| && p(s[i])
    ensures Count(s, p) > 0
  {
    if i > 0 {
      CountPositive(s[1..], i - 1, p);
    }
  }

  /** With the default single worker, handlers start in the order in which messages were enqueued. */
  lemma StartedIsSubsequenceOfReceived(s: System, acts: seq<Action>, a: nat)
    requires Init(s) && a in s.kernels && |s.kernels[a].hands| == 1
    ensures a in Exec(s, acts).kernels
    ensures var k := Exec(s, acts).kernels[a];
            && (forall i | 0 <= i < |k.started| ::
                  var at := k.started[i].item.arrival;
                  at < |k.inbox| && k.inbox[at] == k.started[i].item)
            && (forall i, j | 0 <= i < j < |k.started| ::
                  k.started[i].item.arrival < k.started[j].item.arrival)
  {
    OneWorkerStaged(s, acts, a);
    ReachableConserves(s, acts, a);
    var k := Exec(s, acts).kernels[a];
    var b, c, d, e :| StagedAt(k, b, c, d, e);
    forall i | 0 <= i < |k.started|
      ensures k.started[i].item in k.inbox
    {
      var x := k.started[i].item;
      CountPositive(k.started, i, (j: Job) => j.item == x);
      MessagesConserved(s, acts, a, x);
    }
    forall i, j | 0 <= i < j < |k.started|
      ensures k.started[i].item.arrival < k.started[j].item.arrival
    {
      assert ItemsOf(k.started)[i].arrival < ItemsOf(k.started)[j].arrival;
    }
  }
}
