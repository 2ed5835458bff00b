/** What the greedy GPU verdict promises, and where it promises less than a matching. */
module GpuGuarantees {
  import opened Sequences
  import opened Comparisons
  import opened GpuMatching

  /** Whether f gives the first required GPUs pairwise distinct own ones that are large enough. */
  predicate Matching(own: seq<GPU>, required: seq<GPU>, f: seq<nat>) {
    && |f| <= |required| && InRange(own, f) && Distinct(f)
    && forall t | 0 <= t < |f| :: own[f[t]].vram >= required[t].vram
  }

  /** Whether the first k required GPUs can be served together. */
  ghost predicate Servable(own: seq<GPU>, required: seq<GPU>, k: nat) {
    exists f: seq<nat> :: |f| == k && Matching(own, required, f)
  }

  /** Whether every own GPU outside `taken` is smaller than the required one. */
  predicate TooSmall(own: seq<GPU>, taken: seq<nat>, required: GPU) {
    forall q: nat | q < |own| && q !in taken :: own[q].vram < required.vram
  }

  /** Not Worse means that the examined GPUs have distinct partners that are large enough; Equal, that
      they are exactly as large; Worse, that at some round everything left was too small. */
  lemma VerdictMeansMatching(own: seq<GPU>, required: seq<GPU>)
    requires own != [] && required != []
    ensures var partners, verdict := Assigned(own, required), Compared(own, required);
            && |partners| == Min(|required|, |own| / 2 + 1) && InRange(own, partners) && Distinct(partners)
            && verdict != None
            && (verdict != Worse <==> Matching(own, required, partners))
            && (verdict == Equal <==> forall t | 0 <= t < |partners| :: own[partners[t]].vram == required[t].vram)
            && (verdict == Worse ==> exists t | 0 <= t < |partners| :: TooSmall(own, partners[..t], required[t]))
  {
    var partners, verdict := Assigned(own, required), Compared(own, required);
    var verdicts := Verdicts(own, required, partners);
    if verdict == Worse {
      var t :| 0 <= t < |verdicts| && verdicts[t] == Worse;
      assert Forced(own, All(|own|), partners, t, required[t]);
      RestTooSmall(own, partners, t, required[t]);
    } else {
      assert forall t | 0 <= t < |partners| :: verdicts[t] != Worse;
    }
  }

  lemma RestTooSmall(own: seq<GPU>, partners: seq<nat>, t: nat, required: GPU)
    requires t < |partners| && InRange(own, partners) && InRange(own, All(|own|))
    requires Forced(own, All(|own|), partners, t, required) && own[partners[t]].vram < required.vram
    ensures TooSmall(own, partners[..t], required)
  {
    forall q: nat | q < |own| && q !in partners[..t]
      ensures own[q].vram < required.vram
    {
      assert All(|own|)[q] == q;
    }
  }

  /** The verdict in all cases: with nothing required the own GPUs are at least equal, and with no own GPU
      anything required is missing. */
  lemma VerdictIs(own: seq<GPU>, required: seq<GPU>)
    ensures Compared(own, required) != None
    ensures Compared(own, required) == Worse <==>
            required != [] && (own == [] || !Matching(own, required, Assigned(own, required)))
    ensures Compared(own, required) == Equal <==>
            if own == [] || required == [] then own == [] == required
            else var partners := Assigned(own, required);
              forall t | 0 <= t < |partners| :: own[partners[t]].vram == required[t].vram
  {
    if own != [] && required != [] {
      VerdictMeansMatching(own, required);
    }
  }

  // ---- Who serves whom

  predicate Left(own: seq<GPU>, taken: seq<nat>, q: nat) {
    q < |own| && q !in taken
  }

  /** The own GPU that a required one gets while those in `taken` are gone: the first that is exactly as
      large, else the first that is larger, else the first. */
  ghost predicate Serves(own: seq<GPU>, taken: seq<nat>, g: GPU, p: nat) {
    && Left(own, taken, p)
    && if exists q: nat :: Left(own, taken, q) && own[q].vram == g.vram
       then own[p].vram == g.vram && forall q: nat | q < p && Left(own, taken, q) :: own[q].vram != g.vram
       else if exists q: nat :: Left(own, taken, q) && own[q].vram > g.vram
       then own[p].vram > g.vram && forall q: nat | q < p && Left(own, taken, q) :: own[q].vram < g.vram
       else forall q: nat | q < p :: !Left(own, taken, q)
  }

  /** The columns are what is left, in order. */
  ghost predicate Lists(own: seq<GPU>, taken: seq<nat>, columns: seq<nat>) {
    && (forall i, j | 0 <= i < j < |columns| :: columns[i] < columns[j])
    && (forall q: nat :: q in columns <==> Left(own, taken, q))
  }

  lemma FirstOf(own: seq<GPU>, taken: seq<nat>, columns: seq<nat>, i: nat, q: nat)
    requires Lists(own, taken, columns) && i < |columns| && q < columns[i] && Left(own, taken, q)
    ensures exists k | 0 <= k < i :: columns[k] == q
  {
    var k :| 0 <= k < |columns| && columns[k] == q;
    assert k < i;
  }

  lemma ChoiceServes(own: seq<GPU>, taken: seq<nat>, columns: seq<nat>, g: GPU)
    requires columns != [] && InRange(own, columns) && Lists(own, taken, columns)
    ensures Serves(own, taken, g, columns[Choice(own, columns, g)])
  {
    var row, c := Row(own, columns, g), Choice(own, columns, g);
    var p := columns[c];
    ChoiceIsBest(own, columns, g);
    assert p in columns;
    forall q: nat | Left(own, taken, q)
      ensures Rank(Compare(own[q], g)) <= Rank(row[c]) && (q < p ==> Rank(Compare(own[q], g)) < Rank(row[c]))
    {
      var k :| 0 <= k < |columns| && columns[k] == q;
      assert row[k] == Compare(own[q], g) && Rank(row[k]) <= Rank(row[c]);
      if q < p {
        FirstOf(own, taken, columns, c, q);
      }
    }
  }

  lemma ListsRest(own: seq<GPU>, taken: seq<nat>, columns: seq<nat>, c: nat)
    requires Lists(own, taken, columns) && c < |columns|
    ensures Lists(own, taken + [columns[c]], Without(columns, c))
  {
    var rest := Without(columns, c);
    forall q: nat
      ensures q in rest <==> Left(own, taken + [columns[c]], q)
    {
      if q in columns && q != columns[c] {
        var k :| 0 <= k < |columns| && columns[k] == q;
        assert rest[if k < c then k else k - 1] == q;
      }
      if q in rest {
        var k :| 0 <= k < |rest| && rest[k] == q;
        assert columns[if k < c then k else k + 1] == q;
      }
    }
  }

  lemma ServesLater(own: seq<GPU>, taken: seq<nat>, first: nat, later: seq<nat>, t: nat, g: GPU)
    requires 0 < t <= |later| && Serves(own, taken + [first] + later[..t - 1], g, later[t - 1])
    ensures Serves(own, taken + ([first] + later)[..t], g, ([first] + later)[t])
  {
    assert taken + [first] + later[..t - 1] == taken + ([first] + later)[..t];
  }

  lemma {:induction false} PartnersServe(
    own: seq<GPU>, required: seq<GPU>, rounds: nat, columns: seq<nat>, taken: seq<nat>, t: nat)
    requires own != [] && InRange(own, columns) && |columns| + rounds == |own| && Lists(own, taken, columns)
    requires t < |Partners(own, required, rounds, columns)| <= |required|
    ensures var partners := Partners(own, required, rounds, columns);
            Serves(own, taken + partners[..t], required[t], partners[t])
    decreases |required|
  {
    var c, rest := Choice(own, columns, required[0]), Remaining(own, columns, required[0]);
    var later := Partners(own, required[1..], rounds + 1, rest);
    if t == 0 {
      ChoiceServes(own, taken, columns, required[0]);
      assert taken + Partners(own, required, rounds, columns)[..0] == taken;
    } else {
      ListsRest(own, taken, columns, c);
      PartnersServe(own, required[1..], rounds + 1, rest, taken + [columns[c]], t - 1);
      ServesLater(own, taken, columns[c], later, t, required[t]);
    }
  }

  lemma AllListed(own: seq<GPU>)
    ensures Lists(own, [], All(|own|))
  {
    var columns := All(|own|);
    forall q: nat
      ensures q in columns <==> Left(own, [], q)
    {
      if q < |own| {
        assert columns[q] == q;
      }
    }
  }

  /** The assignment of the greedy loop, round by round. */
  lemma AssignedServe(own: seq<GPU>, required: seq<GPU>, t: nat)
    requires own != [] && t < |Assigned(own, required)|
    ensures t < |required| && Serves(own, Assigned(own, required)[..t], required[t], Assigned(own, required)[t])
  {
    var partners := Assigned(own, required);
    AllListed(own);
    PartnersServe(own, required, 0, All(|own|), [], t);
    assert [] + partners[..t] == partners[..t];
  }

  // ---- The loop stops half way

  ghost predicate Promised(n: nat, m: nat) {
    forall own: seq<GPU>, required: seq<GPU> | |own| == n && |required| == m && Compared(own, required) != Worse ::
      Servable(own, required, m)
  }

  /** Not Worse promises that all m required GPUs can be served by n own ones exactly when m is at most
      n/2 + 1; further ones are not looked at. */
  lemma PromisedIff(n: nat, m: nat)
    requires n > 0 && m > 0
    ensures Promised(n, m) <==> m <= n / 2 + 1
  {
    if m <= n / 2 + 1 {
      forall own: seq<GPU>, required: seq<GPU> | |own| == n && |required| == m && Compared(own, required) != Worse
        ensures Servable(own, required, m)
      {
        VerdictMeansMatching(own, required);
      }
    } else {
      UnexaminedIsIgnored(n, m);
    }
  }

  function Sized(index: nat, vram: Bytes): (g: GPU) {
    GPU(index, "", "", "", vram, 0, "")
  }

  function Uniform(n: nat, vram: Bytes): (gpus: seq<GPU>)
    ensures |gpus| == n && forall j | 0 <= j < n :: gpus[j].vram == vram
  {
    seq(n, j requires 0 <= j < n => Sized(j, vram))
  }

  lemma UnexaminedIsIgnored(n: nat, m: nat)
    requires 0 < n && n / 2 + 1 < m
    ensures !Promised(n, m)
  {
    var own := Uniform(n, 1);
    var k := n / 2 + 1;
    var required := Uniform(k, 1) + Uniform(m - k, 2);
    VerdictMeansMatching(own, required);
    var partners := Assigned(own, required);
    assert forall t | 0 <= t < |partners| :: own[partners[t]].vram == required[t].vram;
    forall f: seq<nat> | |f| == m
      ensures !Matching(own, required, f)
    {
      NoMatching(own, required, f, k);
    }
  }

  lemma NoMatching(own: seq<GPU>, required: seq<GPU>, f: seq<nat>, t: nat)
    requires t < |f| <= |required| && forall j | 0 <= j < |own| :: own[j].vram < required[t].vram
    ensures !Matching(own, required, f)
  {
    if InRange(own, f) {
      assert own[f[t]].vram < required[t].vram;
    }
  }

  // ---- The greedy choice

  ghost predicate Complete(n: nat, m: nat) {
    forall own: seq<GPU>, required: seq<GPU> |
      |own| == n && |required| == m && Servable(own, required, Examined(n, m)) :: Compared(own, required) != Worse
  }

  /** The greedy choice finds a matching of the examined GPUs whenever there is one exactly when only
      one is examined. */
  lemma CompleteIff(n: nat, m: nat)
    requires n > 0 && m > 0
    ensures Complete(n, m) <==> n == 1 || m == 1
  {
    if n == 1 || m == 1 {
      forall own: seq<GPU>, required: seq<GPU> |
        |own| == n && |required| == m && Servable(own, required, Examined(n, m))
        ensures Compared(own, required) != Worse
      {
        VerdictMeansMatching(own, required);
        var f: seq<nat> :| |f| == Examined(n, m) && Matching(own, required, f);
        assert !TooSmall(own, [], required[0]);
        assert Assigned(own, required)[..0] == [];
      }
    } else {
      GreedyMissesMatching(n, m);
    }
  }

  function TwoThenZeros(n: nat, first: Bytes, second: Bytes): (gpus: seq<GPU>)
    requires n >= 2
    ensures |gpus| == n && gpus[0].vram == first && gpus[1].vram == second
    ensures forall j | 2 <= j < n :: gpus[j].vram == 0
  {
    [Sized(0, first), Sized(1, second)] + Uniform(n - 2, 0)
  }

  /** A larger GPU spent on a small request leaves nothing for the next. */
  lemma GreedyMissesMatching(n: nat, m: nat)
    requires n >= 2 && m >= 2
    ensures !Complete(n, m)
  {
    var own := TwoThenZeros(n, 3, 2);
    var required := TwoThenZeros(m, 1, 3);
    SwappedMatching(own, required, Examined(n, m));
    FirstTakesLarger(own, required);
    var partners := Assigned(own, required);
    assert partners[1] != partners[0];
    assert own[partners[1]].vram < required[1].vram;
    VerdictMeansMatching(own, required);
  }

  lemma SwappedMatching(own: seq<GPU>, required: seq<GPU>, k: nat)
    requires 2 <= k <= |own| && k <= |required|
    requires own[1].vram >= required[0].vram && own[0].vram >= required[1].vram
    requires forall t | 2 <= t < |required| :: required[t].vram == 0
    ensures Servable(own, required, k)
  {
    var f := All(k)[0 := 1][1 := 0];
    assert Matching(own, required, f);
  }

  lemma FirstTakesLarger(own: seq<GPU>, required: seq<GPU>)
    requires |own| >= 2 && |required| >= 2
    requires own[0].vram > required[0].vram && forall j | 0 <= j < |own| :: own[j].vram != required[0].vram
    ensures Assigned(own, required)[0] == 0
  {
    var columns := All(|own|);
    var row := Row(own, columns, required[0]);
    assert row[0] == Better;
    assert forall j | 0 <= j < |row| :: row[j] == Compare(own[j], required[0]);
    ChoiceIsBest(own, columns, required[0]);
    BestIsUnique(row, 0, Choice(own, columns, required[0]));
  }

  predicate LargestFirst(required: seq<GPU>) {
    forall s, t | 0 <= s < t < |required| :: required[s].vram >= required[t].vram
  }

  /** When the largest requests come first, the verdict is exactly whether the examined GPUs can be
      served together. */
  lemma LargestFirstIsExact(own: seq<GPU>, required: seq<GPU>)
    requires own != [] && required != [] && LargestFirst(required)
    ensures Compared(own, required) != Worse <==> Servable(own, required, Examined(|own|, |required|))
  {
    VerdictMeansMatching(own, required);
    var partners := Assigned(own, required);
    if Compared(own, required) == Worse {
      var t :| 0 <= t < |partners| && TooSmall(own, partners[..t], required[t]);
      NotServable(own, required, |partners|, partners[..t]);
    }
  }

  lemma NotServable(own: seq<GPU>, required: seq<GPU>, k: nat, taken: seq<nat>)
    requires LargestFirst(required) && |taken| < k <= |required| && TooSmall(own, taken, required[|taken|])
    ensures !Servable(own, required, k)
  {
    forall f: seq<nat> | |f| == k
      ensures !Matching(own, required, f)
    {
      TooFew(own, required, f, taken);
    }
  }

  lemma TooFew(own: seq<GPU>, required: seq<GPU>, f: seq<nat>, taken: seq<nat>)
    requires LargestFirst(required) && |taken| < |f| <= |required|
    ensures !Matching(own, required, f) || !TooSmall(own, taken, required[|taken|])
  {
    if Matching(own, required, f) && TooSmall(own, taken, required[|taken|]) {
      var g := f[..|taken| + 1];
      forall i | 0 <= i < |g|
        ensures g[i] in taken
      {
        assert own[f[i]].vram >= required[i].vram >= required[|taken|].vram;
      }
      Pigeonhole(g, taken);
    }
  }

  lemma {:induction false} Pigeonhole(s: seq<nat>, holes: seq<nat>)
    requires Distinct(s) && forall i | 0 <= i < |s| :: s[i] in holes
    ensures |s| <= |holes|
    decreases |holes|
  {
    if s != [] {
      var h :| 0 <= h < |holes| && holes[h] == s[0];
      var rest := Without(holes, h);
      forall i | 0 <= i < |s[1..]|
        ensures s[1..][i] in rest
      {
        var j :| 0 <= j < |holes| && holes[j] == s[i + 1];
        assert s[0] != s[i + 1];
        assert rest[if j < h then j else j - 1] == s[i + 1];
      }
      Pigeonhole(s[1..], rest);
    }
  }
}
