/** Equality of GPU lists by greedy matching with used flags. */
module GpuEquality {
  import opened GpuMatching

  predicate Same(g: GPU, h: GPU) {
    g.model == h.model && g.vram == h.vram && g.cores == h.cores && g.index == h.index && g.vendor == h.vendor
    && g.pciAddress == h.pciAddress
  }

  /** A GPU without its UUID, which equality ignores. */
  function Key(g: GPU): GPU {
    g.(uuid := "")
  }

  lemma SameKey(g: GPU, h: GPU)
    ensures Same(g, h) <==> Key(g) == Key(h)
  {
  }

  /** The keys in a list, each as often as it occurs. */
  function Keys(gpus: seq<GPU>): (keys: multiset<GPU>)
    ensures |keys| == |gpus|
  {
    if gpus == [] then multiset{} else Keys(gpus[..|gpus| - 1]) + multiset{Key(gpus[|gpus| - 1])}
  }

  /** How many GPUs with the key have no flag set. */
  function Free(gpus: seq<GPU>, used: seq<bool>, key: GPU): nat
    requires |used| == |gpus|
  {
    if gpus == [] then 0
    else
      var n := |gpus| - 1;
      Free(gpus[..n], used[..n], key) + if !used[n] && Key(gpus[n]) == key then 1 else 0
  }

  lemma KeysLast(gpus: seq<GPU>, n: nat, key: GPU)
    requires |gpus| == n + 1
    ensures Keys(gpus)[key] == Keys(gpus[..n])[key] + if Key(gpus[n]) == key then 1 else 0
  {
  }

  lemma {:induction false} AllFree(gpus: seq<GPU>, used: seq<bool>, key: GPU)
    requires |used| == |gpus| && forall j | 0 <= j < |used| :: !used[j]
    ensures Free(gpus, used, key) == Keys(gpus)[key]
  {
    if gpus != [] {
      var n := |gpus| - 1;
      AllFree(gpus[..n], used[..n], key);
      KeysLast(gpus, n, key);
    }
  }

  lemma {:induction false} TakeOne(gpus: seq<GPU>, used: seq<bool>, j: nat, key: GPU)
    requires |used| == |gpus| && j < |used| && !used[j]
    ensures Free(gpus, used, key) == Free(gpus, used[j := true], key) + if Key(gpus[j]) == key then 1 else 0
  {
    var n := |gpus| - 1;
    if j < n {
      TakeOne(gpus[..n], used[..n], j, key);
      assert used[j := true][..n] == used[..n][j := true];
    } else {
      assert used[j := true][..n] == used[..n];
    }
  }

  lemma {:induction false} NoneFree(gpus: seq<GPU>, used: seq<bool>, g: GPU)
    requires |used| == |gpus| && forall j | 0 <= j < |used| && !used[j] :: !Same(g, gpus[j])
    ensures Free(gpus, used, Key(g)) == 0
  {
    if gpus != [] {
      var n := |gpus| - 1;
      NoneFree(gpus[..n], used[..n], g);
      SameKey(g, gpus[n]);
    }
  }

  lemma {:induction false} KeysOfPrefix(gpus: seq<GPU>, i: nat)
    requires i < |gpus|
    ensures Keys(gpus[..i])[Key(gpus[i])] < Keys(gpus)[Key(gpus[i])]
    decreases |gpus|
  {
    var n := |gpus| - 1;
    var front, key := gpus[..n], Key(gpus[i]);
    assert Keys(gpus) == Keys(front) + multiset{Key(gpus[n])};
    if i < n {
      KeysOfPrefix(front, i);
      assert front[..i] == gpus[..i];
      assert Keys(front)[key] <= Keys(gpus)[key];
    }
  }

  /** Whether the first i GPUs have taken exactly what is no longer free. */
  ghost predicate Taken(gpus: seq<GPU>, i: nat, other: seq<GPU>, used: seq<bool>)
    requires i <= |gpus| && |used| == |other|
  {
    forall key :: Keys(gpus[..i])[key] + Free(other, used, key) == Keys(other)[key]
  }

  lemma TakenFirst(gpus: seq<GPU>, other: seq<GPU>, used: seq<bool>)
    requires |used| == |other| && forall j | 0 <= j < |used| :: !used[j]
    ensures Taken(gpus, 0, other, used)
  {
    forall key
      ensures Free(other, used, key) == Keys(other)[key]
    {
      AllFree(other, used, key);
    }
  }

  lemma KeysNext(gpus: seq<GPU>, i: nat, key: GPU)
    requires i < |gpus|
    ensures Keys(gpus[..i + 1])[key] == Keys(gpus[..i])[key] + if Key(gpus[i]) == key then 1 else 0
  {
    KeysLast(gpus[..i + 1], i, key);
    assert gpus[..i + 1][..i] == gpus[..i];
  }

  lemma TakenNext(gpus: seq<GPU>, i: nat, other: seq<GPU>, used: seq<bool>, j: nat)
    requires i < |gpus| && |used| == |other| && Taken(gpus, i, other, used)
    requires j < |used| && !used[j] && Same(gpus[i], other[j])
    ensures Taken(gpus, i + 1, other, used[j := true])
  {
    SameKey(gpus[i], other[j]);
    forall key
      ensures Keys(gpus[..i + 1])[key] + Free(other, used[j := true], key) == Keys(other)[key]
    {
      assert Keys(gpus[..i])[key] + Free(other, used, key) == Keys(other)[key];
      TakeOne(other, used, j, key);
      KeysNext(gpus, i, key);
    }
  }

  lemma TakenNone(gpus: seq<GPU>, i: nat, other: seq<GPU>, used: seq<bool>)
    requires i < |gpus| && |used| == |other| && Taken(gpus, i, other, used)
    requires forall j | 0 <= j < |used| && !used[j] :: !Same(gpus[i], other[j])
    ensures Keys(gpus) != Keys(other)
  {
    var key := Key(gpus[i]);
    NoneFree(other, used, gpus[i]);
    assert Keys(gpus[..i])[key] + Free(other, used, key) == Keys(other)[key];
    KeysOfPrefix(gpus, i);
  }

  lemma TakenAll(gpus: seq<GPU>, other: seq<GPU>, used: seq<bool>)
    requires |used| == |other| == |gpus| && Taken(gpus, |gpus|, other, used)
    ensures Keys(gpus) == Keys(other)
  {
    assert gpus[..|gpus|] == gpus;
    var rest := Keys(other) - Keys(gpus);
    assert Keys(other) == Keys(gpus) + rest;
    assert |rest| == 0;
  }

  /** Same GPUs apart from UUIDs, each equally often. */
  method Equal(gpus: seq<GPU>, other: seq<GPU>) returns (equal: bool)
    ensures equal <==> Keys(gpus) == Keys(other)
  {
    if |gpus| != |other| {
      return false;
    }
    var used := new bool[|other|](_ => false);
    TakenFirst(gpus, other, used[..]);
    for i := 0 to |gpus|
      invariant Taken(gpus, i, other, used[..])
    {
      ghost var before := used[..];
      var found, j := TakeFirst(gpus[i], other, used);
      if !found {
        TakenNone(gpus, i, other, used[..]);
        return false;
      }
      TakenNext(gpus, i, other, before, j);
    }
    TakenAll(gpus, other, used[..]);
    return true;
  }

  /** Mark the first free GPU equal to g, if there is one. */
  method TakeFirst(g: GPU, other: seq<GPU>, used: array<bool>) returns (found: bool, ghost j: nat)
    requires used.Length == |other|
    modifies used
    ensures found ==> && j < |other| && Same(g, other[j]) && !old(used[j])
                      && (forall k | 0 <= k < j && !old(used[k]) :: !Same(g, other[k]))
                      && used[..] == old(used[..])[j := true]
    ensures !found ==> used[..] == old(used[..]) && forall k | 0 <= k < |other| && !used[k] :: !Same(g, other[k])
  {
    for i := 0 to |other|
      invariant used[..] == old(used[..])
      invariant forall k | 0 <= k < i && !used[k] :: !Same(g, other[k])
    {
      if !used[i] && Same(g, other[i]) {
        used[i] := true;
        return true, i;
      }
    }
    return false, 0;
  }
}
