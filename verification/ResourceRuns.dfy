/** What runs of subtractions and additions leave in a pool. */
module ResourceRuns {
  import opened Sequences
  import opened Comparisons
  import opened GpuMatching
  import opened Resources
  import GpuGuarantees

  datatype Op = Take(request: Resources) | Return(request: Resources)

  function Apply(pool: Resources, op: Op): Resources {
    if op.Take? then Subtracted(pool, op.request) else Added(pool, op.request)
  }

  function Run(pool: Resources, ops: seq<Op>): Resources
    decreases |ops|
  {
    if ops == [] then pool else Run(Apply(pool, ops[0]), ops[1..])
  }

  /** Whether every subtraction of the run succeeds. */
  predicate AllSucceed(pool: Resources, ops: seq<Op>)
    decreases |ops|
  {
    ops == [] || ((ops[0].Take? ==> Enough(pool, ops[0].request)) && AllSucceed(Apply(pool, ops[0]), ops[1..]))
  }

  function Requests(ops: seq<Op>, taken: bool): seq<Resources> {
    if ops == [] then []
    else (if ops[0].Take? == taken then [ops[0].request] else []) + Requests(ops[1..], taken)
  }

  /** Whether each request is returned exactly as often as it is taken, in any order. */
  predicate Balanced(ops: seq<Op>) {
    multiset(Requests(ops, true)) == multiset(Requests(ops, false))
  }

  // ---- Accounting

  datatype Measure = Cores | Ram | Disk | Vram(index: int)

  /** What a request asks for, by measure. */
  function Amount(request: Resources, m: Measure): nat {
    match m
    case Cores => request.cpu.cores
    case Ram => request.ram
    case Disk => request.disk
    case Vram(index) => Demand(request.gpus, index)
  }

  function Total(requests: seq<Resources>, m: Measure): nat {
    if requests == [] then 0 else Amount(requests[0], m) + Total(requests[1..], m)
  }

  function Net(ops: seq<Op>, m: Measure): int {
    Total(Requests(ops, false), m) - Total(Requests(ops, true), m)
  }

  /** Whether `after` is `before` with the net amounts of ops added, sizes in bytes wrapping. */
  predicate Shifted(before: Resources, after: Resources, ops: seq<Op>) {
    && after.cpu.cores == before.cpu.cores + Net(ops, Cores) && after.cpu == before.cpu.(cores := after.cpu.cores)
    && after.ram == Wrap(before.ram + Net(ops, Ram)) && after.disk == Wrap(before.disk + Net(ops, Disk))
    && |after.gpus| == |before.gpus|
    && forall i | 0 <= i < |after.gpus| :: ShiftedGPU(before.gpus[i], after.gpus[i], ops)
  }

  predicate ShiftedGPU(before: GPU, after: GPU, ops: seq<Op>) {
    after == before.(vram := Wrap(before.vram + Net(ops, Vram(before.index))))
  }

  /** Whether returns add to the pool's own GPUs: it has some, or no request names any. */
  predicate Steady(pool: Resources, ops: seq<Op>) {
    pool.gpus != [] || forall i | 0 <= i < |ops| :: ops[i].request.gpus == []
  }

  lemma WrapTwice(x: int, d: int, e: int)
    ensures Wrap(Wrap(x + d) + e) == Wrap(x + (d + e))
  {
  }

  lemma NetOfOne(op: Op, m: Measure)
    ensures Net([op], m) == if op.Take? then 0 - Amount(op.request, m) else Amount(op.request, m)
  {
    assert Requests([op], op.Take?) == [op.request];
    assert Requests([op], !op.Take?) == [];
  }

  lemma NetOfFirst(ops: seq<Op>, m: Measure)
    requires ops != []
    ensures Net(ops, m) == Net([ops[0]], m) + Net(ops[1..], m)
  {
    NetOfOne(ops[0], m);
    var taken := ops[0].Take?;
    assert Requests(ops, taken) == [ops[0].request] + Requests(ops[1..], taken);
    assert Requests(ops, !taken) == Requests(ops[1..], !taken);
    assert Requests(ops, taken)[1..] == Requests(ops[1..], taken);
  }

  lemma TakeShifts(pool: Resources, request: Resources)
    requires Enough(pool, request)
    ensures Shifted(pool, Subtracted(pool, request), [Take(request)])
  {
    var op := Take(request);
    NetOfOne(op, Cores);
    NetOfOne(op, Ram);
    NetOfOne(op, Disk);
    forall i | 0 <= i < |pool.gpus|
      ensures ShiftedGPU(pool.gpus[i], Reduced(pool.gpus[i], request.gpus), [op])
    {
      NetOfOne(op, Vram(pool.gpus[i].index));
    }
  }

  lemma ReturnShifts(pool: Resources, request: Resources)
    requires pool.gpus != [] || request.gpus == []
    ensures Shifted(pool, Added(pool, request), [Return(request)])
  {
    var op := Return(request);
    NetOfOne(op, Cores);
    NetOfOne(op, Ram);
    NetOfOne(op, Disk);
    forall i | 0 <= i < |pool.gpus|
      ensures ShiftedGPU(pool.gpus[i], AddedGPUs(pool.gpus, request.gpus)[i], [op])
    {
      NetOfOne(op, Vram(pool.gpus[i].index));
    }
  }

  lemma ShiftsCompose(a: Resources, b: Resources, c: Resources, ops: seq<Op>)
    requires ops != [] && Shifted(a, b, [ops[0]]) && Shifted(b, c, ops[1..])
    ensures Shifted(a, c, ops)
  {
    NetOfFirst(ops, Cores);
    SizeShiftsCompose(a.ram, b.ram, c.ram, ops, Ram);
    SizeShiftsCompose(a.disk, b.disk, c.disk, ops, Disk);
    forall i | 0 <= i < |a.gpus|
      ensures ShiftedGPU(a.gpus[i], c.gpus[i], ops)
    {
      assert ShiftedGPU(a.gpus[i], b.gpus[i], [ops[0]]);
      GPUShiftsCompose(a.gpus[i], b.gpus[i], c.gpus[i], ops);
    }
  }

  lemma SizeShiftsCompose(a: int, b: int, c: int, ops: seq<Op>, m: Measure)
    requires ops != [] && b == Wrap(a + Net([ops[0]], m)) && c == Wrap(b + Net(ops[1..], m))
    ensures c == Wrap(a + Net(ops, m))
  {
    NetOfFirst(ops, m);
    WrapTwice(a, Net([ops[0]], m), Net(ops[1..], m));
  }

  lemma GPUShiftsCompose(a: GPU, b: GPU, c: GPU, ops: seq<Op>)
    requires ops != [] && ShiftedGPU(a, b, [ops[0]]) && ShiftedGPU(b, c, ops[1..])
    ensures ShiftedGPU(a, c, ops)
  {
    SizeShiftsCompose(a.vram, b.vram, c.vram, ops, Vram(a.index));
  }

  /** After a run whose subtractions succeed, the pool is off by exactly the net of what was taken and
      returned. */
  lemma {:induction false} RunFollowsNet(pool: Resources, ops: seq<Op>)
    requires Steady(pool, ops) && AllSucceed(pool, ops)
    ensures Shifted(pool, Run(pool, ops), ops)
    decreases |ops|
  {
    if ops == [] {
      assert forall m :: Net(ops, m) == 0;
    } else {
      var next := Apply(pool, ops[0]);
      if ops[0].Take? {
        TakeShifts(pool, ops[0].request);
      } else {
        ReturnShifts(pool, ops[0].request);
      }
      assert Shifted(pool, next, [ops[0]]);
      RunFollowsNet(next, ops[1..]);
      ShiftsCompose(pool, next, Run(next, ops[1..]), ops);
    }
  }

  lemma RunFirst(pool: Resources, op: Op, ops: seq<Op>)
    ensures Run(pool, [op] + ops) == Run(Apply(pool, op), ops)
  {
    assert ([op] + ops)[1..] == ops;
  }

  /** The pool with the sizes added up, and the GPUs of the request for its own. */
  function TakenOver(pool: Resources, q: Resources): Resources {
    Resources(CPU(pool.cpu.cores + q.cpu.cores, pool.cpu.clockSpeed, pool.cpu.architecture),
              (pool.ram + q.ram) % WORDS, (pool.disk + q.disk) % WORDS, q.gpus)
  }

  lemma FirstReturnIs(pool: Resources, q: Resources)
    requires pool.gpus == [] && q.gpus != []
    ensures Apply(pool, Return(q)) == TakenOver(pool, q)
  {
  }

  /** A pool without GPUs takes over all GPUs of the first return that names any, and later runs add to
      and take from those. */
  lemma FirstReturnBringsItsGPUs(pool: Resources, q: Resources, ops: seq<Op>)
    requires pool.gpus == [] && q.gpus != [] && AllSucceed(TakenOver(pool, q), ops)
    ensures Shifted(TakenOver(pool, q), Run(pool, [Return(q)] + ops), ops)
  {
    RunFirst(pool, Return(q), ops);
    FirstReturnIs(pool, q);
    RunFollowsNet(TakenOver(pool, q), ops);
  }

  // ---- When a subtraction succeeds

  /** Whether no entry from `i` on has the index. */
  predicate NoneAfter(request: seq<GPU>, i: nat, index: int) {
    forall j | i <= j < |request| :: request[j].index != index
  }

  /** A request asks for the VRAM of its last entry with an index, and for nothing without one; `i` is one
      past that entry, or zero. */
  lemma {:induction false} DemandIsLast(request: seq<GPU>, index: int, i: nat)
    requires i <= |request| && NoneAfter(request, i, index) && (i > 0 ==> request[i - 1].index == index)
    ensures Demand(request, index) == if i == 0 then 0 else request[i - 1].vram
  {
    if i < |request| {
      DemandIsLast(request[..|request| - 1], index, i);
    }
  }

  /** What the pool has, by measure; of an index, the least that a GPU with it has. */
  predicate Has(pool: Resources, m: Measure, amount: int) {
    match m
    case Cores => pool.cpu.cores >= amount
    case Ram => pool.ram >= amount
    case Disk => pool.disk >= amount
    case Vram(index) => forall i | 0 <= i < |pool.gpus| && pool.gpus[i].index == index :: pool.gpus[i].vram >= amount
  }

  predicate Covers(pool: Resources, request: Resources, m: Measure) {
    Has(pool, m, Amount(request, m))
  }

  /** A request can be taken exactly when the pool has each of its amounts. */
  lemma TakenIff(pool: Resources, request: Resources)
    ensures Enough(pool, request) <==> forall m :: Covers(pool, request, m)
  {
    if forall m :: Covers(pool, request, m) {
      assert Covers(pool, request, Cores) && Covers(pool, request, Ram) && Covers(pool, request, Disk);
      forall i | 0 <= i < |pool.gpus|
        ensures !Short(pool.gpus[i], request.gpus)
      {
        assert Covers(pool, request, Vram(pool.gpus[i].index));
      }
    }
  }

  // ---- Restoring

  lemma {:induction false} TotalWithout(requests: seq<Resources>, j: nat, m: Measure)
    requires j < |requests|
    ensures Total(requests, m) == Amount(requests[j], m) + Total(Without(requests, j), m)
  {
    if j > 0 {
      TotalWithout(requests[1..], j - 1, m);
      assert Without(requests, j) == [requests[0]] + Without(requests[1..], j - 1);
    } else {
      assert Without(requests, j) == requests[1..];
    }
  }

  lemma {:induction false} TotalOfReordered(a: seq<Resources>, b: seq<Resources>, m: Measure)
    requires multiset(a) == multiset(b)
    ensures Total(a, m) == Total(b, m)
    decreases |a|
  {
    if a == [] {
      assert |b| == |multiset(b)| == 0;
    } else {
      var j := Find(a, b);
      TotalWithout(b, j, m);
      TotalOfReordered(a[1..], Without(b, j), m);
    }
  }

  lemma Find(a: seq<Resources>, b: seq<Resources>) returns (j: nat)
    requires a != [] && multiset(a) == multiset(b)
    ensures j < |b| && b[j] == a[0] && multiset(a[1..]) == multiset(Without(b, j))
  {
    assert a[0] in multiset(a);
    j :| j < |b| && b[j] == a[0];
    MultisetWithout(a, 0);
    MultisetWithout(b, j);
    assert Without(a, 0) == a[1..];
  }

  lemma MultisetWithout(s: seq<Resources>, j: nat)
    requires j < |s|
    ensures multiset(Without(s, j)) == multiset(s) - multiset{s[j]}
  {
    assert s == s[..j] + [s[j]] + s[j + 1..];
  }

  /** Returning everything taken, in any order and interleaving, restores the pool exactly when the
      pool has GPUs or no request names any. */
  lemma BalancedRunRestoresIff(pool: Resources, ops: seq<Op>)
    requires AllSucceed(pool, ops) && Balanced(ops)
    ensures Run(pool, ops) == pool <==> Steady(pool, ops)
  {
    if Steady(pool, ops) {
      RunFollowsNet(pool, ops);
      forall m
        ensures Net(ops, m) == 0
      {
        TotalOfReordered(Requests(ops, true), Requests(ops, false), m);
      }
      Unshifted(pool, Run(pool, ops), ops);
    } else {
      var i :| 0 <= i < |ops| && ops[i].request.gpus != [];
      var j := ReturnedToo(ops, i);
      GPUsAppear(pool, ops, j);
    }
  }

  lemma Unshifted(before: Resources, after: Resources, ops: seq<Op>)
    requires Shifted(before, after, ops) && forall m :: Net(ops, m) == 0
    ensures after == before
  {
    forall i | 0 <= i < |after.gpus|
      ensures after.gpus[i] == before.gpus[i]
    {
      assert ShiftedGPU(before.gpus[i], after.gpus[i], ops);
    }
  }

  lemma ReturnedToo(ops: seq<Op>, i: nat) returns (j: nat)
    requires i < |ops| && Balanced(ops)
    ensures j < |ops| && ops[j] == Return(ops[i].request)
  {
    RequestListed(ops, i);
    var request := ops[i].request;
    assert request in multiset(Requests(ops, true)) || request in multiset(Requests(ops, false));
    assert request in multiset(Requests(ops, false));
    j := ListedRequest(ops, request);
  }

  lemma {:induction false} RequestListed(ops: seq<Op>, i: nat)
    requires i < |ops|
    ensures ops[i].request in Requests(ops, ops[i].Take?)
  {
    if i > 0 {
      RequestListed(ops[1..], i - 1);
    }
  }

  lemma {:induction false} ListedRequest(ops: seq<Op>, request: Resources) returns (j: nat)
    requires request in Requests(ops, false)
    ensures j < |ops| && ops[j] == Return(request)
  {
    if ops[0] == Return(request) {
      j := 0;
    } else {
      j := ListedRequest(ops[1..], request);
      j := j + 1;
    }
  }

  lemma {:induction false} GPUsStay(pool: Resources, ops: seq<Op>)
    requires pool.gpus != []
    ensures Run(pool, ops).gpus != []
    decreases |ops|
  {
    if ops != [] {
      GPUsStay(Apply(pool, ops[0]), ops[1..]);
    }
  }

  lemma {:induction false} GPUsAppear(pool: Resources, ops: seq<Op>, j: nat)
    requires j < |ops| && ops[j].Return? && ops[j].request.gpus != []
    ensures Run(pool, ops).gpus != []
    decreases |ops|
  {
    var next := Apply(pool, ops[0]);
    if j == 0 {
      GPUsStay(next, ops[1..]);
    } else {
      GPUsAppear(next, ops[1..], j - 1);
    }
  }

  /** What was just returned can be taken, and leaves the pool as it was, unless a size wraps. */
  lemma ReturnedCanBeTaken(pool: Resources, request: Resources)
    requires pool.gpus != [] || request.gpus == []
    requires pool.ram + request.ram < WORDS && pool.disk + request.disk < WORDS
    requires forall i | 0 <= i < |pool.gpus| :: pool.gpus[i].vram + Demand(request.gpus, pool.gpus[i].index) < WORDS
    ensures Enough(Added(pool, request), request) && Run(pool, [Return(request), Take(request)]) == pool
  {
    var ops := [Return(request), Take(request)];
    assert ops[1..] == [Take(request)] && [Take(request)][1..] == [];
    assert Enough(Added(pool, request), request);
    assert AllSucceed(Added(pool, request), [Take(request)]);
    NetOfReturnAndTake(request);
    BalancedRunRestoresIff(pool, ops);
  }

  lemma NetOfReturnAndTake(request: Resources)
    ensures Balanced([Return(request), Take(request)])
  {
    var ops := [Return(request), Take(request)];
    assert ops[1..] == [Take(request)] && [Take(request)][1..] == [];
    assert Requests([Take(request)], true) == [request] && Requests([Take(request)], false) == [];
    assert Requests(ops, true) == [request] && Requests(ops, false) == [request];
  }

  // ---- Failing, and comparing

  /** A failed subtraction leaves the pool as it was exactly when nothing was asked of the resources
      checked before the one that is short. */
  lemma FailedSubtractKeepsPoolIff(pool: Resources, request: Resources)
    requires !Enough(pool, request)
    ensures Subtracted(pool, request) == pool <==>
              || pool.cpu.cores < request.cpu.cores
              || (request.cpu.cores == 0 && pool.ram < request.ram)
              || (request.cpu.cores == 0 == request.ram && pool.disk < request.disk)
              || (&& request.cpu.cores == 0 == request.ram && request.disk == 0
                  && forall i | 0 <= i < FirstShort(pool.gpus, request.gpus) ::
                       Demand(request.gpus, pool.gpus[i].index) == 0)
  {
    var k := FirstShort(pool.gpus, request.gpus);
    var reduced := ReducedUpTo(pool.gpus, request.gpus, k);
    assert reduced == pool.gpus <==> forall i | 0 <= i < k :: Demand(request.gpus, pool.gpus[i].index) == 0 by {
      assert forall i | 0 <= i < k :: reduced[i].vram == pool.gpus[i].vram - Demand(request.gpus, pool.gpus[i].index);
    }
  }

  /** A machine is acceptable exactly when it runs the same architecture and is not worse in compute,
      memory, disk or GPUs, and equal exactly when it is equal in all of them. */
  lemma AcceptableIff(own: Resources, required: Resources)
    ensures !Blocking(ComparedAll(own, required)) <==>
              && own.cpu.architecture == required.cpu.architecture
              && own.cpu.cores * own.cpu.clockSpeed >= required.cpu.cores * required.cpu.clockSpeed
              && own.ram >= required.ram && own.disk >= required.disk
              && Compared(own.gpus, required.gpus) != Worse
    ensures ComparedAll(own, required) == Equal <==>
              && own.cpu.architecture == required.cpu.architecture
              && own.cpu.cores * own.cpu.clockSpeed == required.cpu.cores * required.cpu.clockSpeed
              && own.ram == required.ram && own.disk == required.disk
              && Compared(own.gpus, required.gpus) == Equal
  {
  }

  /** An acceptable machine can serve all required GPUs together, if they are no more than half its own
      and one. */
  lemma AcceptableServesGPUs(own: Resources, required: Resources)
    requires !Blocking(ComparedAll(own, required)) && |required.gpus| <= |own.gpus| / 2 + 1
    ensures GpuGuarantees.Servable(own.gpus, required.gpus, |required.gpus|)
  {
    AcceptableIff(own, required);
    if required.gpus == [] {
      assert GpuGuarantees.Matching(own.gpus, required.gpus, []);
    } else {
      GpuGuarantees.VerdictMeansMatching(own.gpus, required.gpus);
    }
  }
}
