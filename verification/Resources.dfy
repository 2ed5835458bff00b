/** Pools of CPU, memory, disk and GPU resources that requests are taken from and returned to. */
module Resources {
  import opened Comparisons
  import opened GpuMatching
  import GpuEquality

  /** Cores are counted in hundredths, the precision the pool rounds to. */
  datatype CPU = CPU(cores: nat, clockSpeed: nat, architecture: string)

  datatype Resources = Resources(cpu: CPU, ram: Bytes, disk: Bytes, gpus: seq<GPU>)

  function Wrap(x: int): Bytes {
    x % WORDS
  }

  // ---- Comparing

  function NumericComparator(own: int, required: int): Comparison {
    if own == required then Comparison.Equal else if own < required then Worse else Better
  }

  function CompareCPU(own: CPU, required: CPU): Comparison {
    if own.architecture == required.architecture
    then NumericComparator(own.cores * own.clockSpeed, required.cores * required.clockSpeed)
    else None
  }

  ghost function ComparedAll(own: Resources, required: Resources): Comparison {
    And(And(And(CompareCPU(own.cpu, required.cpu), NumericComparator(own.ram, required.ram)),
            NumericComparator(own.disk, required.disk)),
        Compared(own.gpus, required.gpus))
  }

  // ---- Requests for GPUs, by index

  /** What a request asks of the GPU with an index: the VRAM of the last entry with that index. */
  function Demand(request: seq<GPU>, index: int): Bytes {
    if request == [] then 0
    else
      var last := request[|request| - 1];
      if last.index == index then last.vram else Demand(request[..|request| - 1], index)
  }

  method ByIndex(request: seq<GPU>) returns (byIndex: map<int, GPU>)
    ensures forall index :: Demand(request, index) == if index in byIndex then byIndex[index].vram else 0
  {
    byIndex := map[];
    for i := 0 to |request|
      invariant forall index :: Demand(request[..i], index) == if index in byIndex then byIndex[index].vram else 0
    {
      assert request[..i + 1][..i] == request[..i];
      byIndex := byIndex[request[i].index := request[i]];
    }
    assert request[..|request|] == request;
  }

  predicate Short(g: GPU, request: seq<GPU>) {
    g.vram < Demand(request, g.index)
  }

  function Reduced(g: GPU, request: seq<GPU>): GPU {
    if Short(g, request) then g else g.(vram := g.vram - Demand(request, g.index))
  }

  function Raised(g: GPU, request: seq<GPU>): GPU {
    g.(vram := Wrap(g.vram + Demand(request, g.index)))
  }

  /** Where GPU subtraction stops: the first GPU with too little VRAM, or the end. */
  function FirstShort(gpus: seq<GPU>, request: seq<GPU>): (k: nat)
    ensures k <= |gpus| && (forall i | 0 <= i < k :: !Short(gpus[i], request))
    ensures k < |gpus| ==> Short(gpus[k], request)
  {
    if gpus == [] || Short(gpus[0], request) then 0 else 1 + FirstShort(gpus[1..], request)
  }

  /** The GPUs with the request subtracted from the first k. */
  function ReducedUpTo(gpus: seq<GPU>, request: seq<GPU>, k: nat): (r: seq<GPU>)
    ensures |r| == |gpus|
    ensures forall i | 0 <= i < |gpus| :: r[i] == if i < k then Reduced(gpus[i], request) else gpus[i]
  {
    seq(|gpus|, i requires 0 <= i < |gpus| => if i < k then Reduced(gpus[i], request) else gpus[i])
  }

  function RaisedAll(gpus: seq<GPU>, request: seq<GPU>): (r: seq<GPU>)
    ensures |r| == |gpus| && forall i | 0 <= i < |gpus| :: r[i] == Raised(gpus[i], request)
  {
    seq(|gpus|, i requires 0 <= i < |gpus| => Raised(gpus[i], request))
  }

  // ---- Subtracting and adding

  predicate Enough(r: Resources, request: Resources) {
    && r.cpu.cores >= request.cpu.cores && r.ram >= request.ram && r.disk >= request.disk
    && forall i | 0 <= i < |r.gpus| :: !Short(r.gpus[i], request.gpus)
  }

  /** The pool after a subtraction, which stops at the first resource that is short. */
  function Subtracted(r: Resources, request: Resources): Resources {
    if r.cpu.cores < request.cpu.cores then r
    else
      var r := r.(cpu := r.cpu.(cores := r.cpu.cores - request.cpu.cores));
      if r.ram < request.ram then r
      else
        var r := r.(ram := r.ram - request.ram);
        if r.disk < request.disk then r
        else r.(disk := r.disk - request.disk,
                gpus := ReducedUpTo(r.gpus, request.gpus, FirstShort(r.gpus, request.gpus)))
  }

  function AddedGPUs(gpus: seq<GPU>, request: seq<GPU>): seq<GPU> {
    if request == [] then gpus else if gpus == [] then request else RaisedAll(gpus, request)
  }

  function Added(r: Resources, request: Resources): Resources {
    Resources(r.cpu.(cores := r.cpu.cores + request.cpu.cores),
              Wrap(r.ram + request.ram), Wrap(r.disk + request.disk), AddedGPUs(r.gpus, request.gpus))
  }

  class Pool {
    var cpu: CPU
    var ram: Bytes
    var disk: Bytes
    var gpus: seq<GPU>

    constructor (r: Resources)
      ensures View() == r
    {
      cpu, ram, disk, gpus := r.cpu, r.ram, r.disk, r.gpus;
    }

    function View(): Resources
      reads this
    {
      Resources(cpu, ram, disk, gpus)
    }

    /** Succeeds exactly when everything suffices. */
    method Subtract(request: Resources) returns (ok: bool)
      modifies this
      ensures ok <==> old(Enough(View(), request))
      ensures View() == Subtracted(old(View()), request)
    {
      if cpu.cores < request.cpu.cores {
        return false;
      }
      cpu := cpu.(cores := cpu.cores - request.cpu.cores);
      if ram < request.ram {
        return false;
      }
      ram := ram - request.ram;
      if disk < request.disk {
        return false;
      }
      disk := disk - request.disk;
      ok := SubtractGPUs(request.gpus);
    }

    method SubtractGPUs(request: seq<GPU>) returns (ok: bool)
      modifies this`gpus
      ensures ok <==> FirstShort(old(gpus), request) == |old(gpus)|
      ensures gpus == ReducedUpTo(old(gpus), request, FirstShort(old(gpus), request))
    {
      var byIndex := ByIndex(request);
      for i := 0 to |gpus|
        invariant gpus == ReducedUpTo(old(gpus), request, i) && i <= FirstShort(old(gpus), request)
      {
        if gpus[i].index in byIndex {
          var vram := byIndex[gpus[i].index].vram;
          if gpus[i].vram < vram {
            return false;
          }
          gpus := gpus[i := gpus[i].(vram := gpus[i].vram - vram)];
        }
      }
      return true;
    }

    method Add(request: Resources)
      modifies this
      ensures View() == Added(old(View()), request)
    {
      cpu := cpu.(cores := cpu.cores + request.cpu.cores);
      ram := Wrap(ram + request.ram);
      disk := Wrap(disk + request.disk);
      AddGPUs(request.gpus);
    }

    method AddGPUs(request: seq<GPU>)
      modifies this`gpus
      ensures gpus == AddedGPUs(old(gpus), request)
    {
      if request == [] {
        return;
      }
      if gpus == [] {
        gpus := request;
        return;
      }
      var byIndex := ByIndex(request);
      for i := 0 to |gpus|
        invariant |gpus| == |old(gpus)|
        invariant forall j | 0 <= j < |gpus| :: gpus[j] == if j < i then Raised(old(gpus)[j], request) else old(gpus)[j]
      {
        if gpus[i].index in byIndex {
          gpus := gpus[i := gpus[i].(vram := Wrap(gpus[i].vram + byIndex[gpus[i].index].vram))];
        }
      }
    }

    method Compare(required: Resources) returns (verdict: Comparison)
      ensures verdict == ComparedAll(View(), required)
    {
      var gpuComparison := CompareLists(gpus, required.gpus);
      verdict := And(CompareCPU(cpu, required.cpu), NumericComparator(ram, required.ram));
      verdict := And(And(verdict, NumericComparator(disk, required.disk)), gpuComparison);
    }

    /** Equal sizes, and the same GPUs apart from UUIDs. */
    method Equal(other: Resources) returns (equal: bool)
      ensures equal <==> && ram == other.ram && cpu.cores == other.cpu.cores && disk == other.disk
                         && GpuEquality.Keys(gpus) == GpuEquality.Keys(other.gpus)
    {
      if ram != other.ram {
        return false;
      }
      if cpu.cores != other.cpu.cores {
        return false;
      }
      if disk != other.disk {
        return false;
      }
      equal := GpuEquality.Equal(gpus, other.gpus);
    }
  }
}
