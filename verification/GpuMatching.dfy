/** Matching required GPUs against a machine's own, and equality of GPU lists. */
module GpuMatching {
  import opened Sequences
  import opened Comparisons

  const WORDS: int := 0x1_0000_0000_0000_0000

  /** Sizes in bytes, as unsigned 64-bit words. */
  type Bytes = x: int | 0 <= x < WORDS

  datatype GPU = GPU(
    index: int, vendor: string, pciAddress: string, model: string, vram: Bytes, cores: nat, uuid: string)

  function Compare(own: GPU, required: GPU): Comparison {
    if own.vram > required.vram then Better else if own.vram < required.vram then Worse else Equal
  }

  function Min(a: int, b: int): int {
    if a < b then a else b
  }

  // ---- The best entry of a row

  function Rank(c: Comparison): nat {
    match c
    case None => 0
    case Worse => 1
    case Better => 2
    case Equal => 3
  }

  /** Whether index is the leftmost entry of the highest rank among the first n, or -1 if all are None. */
  predicate IsBest(row: seq<Comparison>, n: nat, index: int)
    requires n <= |row|
  {
    if index < 0 then index == -1 && forall j | 0 <= j < n :: row[j] == None
    else
      && index < n && row[index] != None
      && (forall j | 0 <= j < n :: Rank(row[j]) <= Rank(row[index]))
      && (forall j | 0 <= j < index :: Rank(row[j]) < Rank(row[index]))
  }

  method ReturnBestMatch(row: seq<Comparison>) returns (best: Comparison, index: int)
    ensures IsBest(row, |row|, index)
    ensures best == if Equal in row then Equal else if Better in row then Better
                    else if Worse in row then Worse else None
    ensures if best == None then index == -1 else 0 <= index < |row| && row[index] == best && best !in row[..index]
  {
    best, index := None, -1;
    for i := 0 to |row|
      invariant IsBest(row, i, index) && best != Equal
      invariant best == if index < 0 then None else row[index]
      invariant best == if Better in row[..i] then Better else if Worse in row[..i] then Worse else None
      invariant Equal !in row[..i] && (index >= 0 ==> best !in row[..index])
    {
      match row[i] {
        case Equal =>
          return Equal, i;
        case Better =>
          if best != Better {
            best, index := Better, i;
          }
        case Worse =>
          if best == None {
            best, index := Worse, i;
          }
        case None =>
      }
    }
  }

  lemma BestIsUnique(row: seq<Comparison>, i: int, j: int)
    requires IsBest(row, |row|, i) && IsBest(row, |row|, j)
    ensures i == j
  {
    if i >= 0 && j >= 0 {
      assert Rank(row[i]) <= Rank(row[j]) && Rank(row[j]) <= Rank(row[i]);
    }
  }

  // ---- The greedy loop over original columns

  predicate InRange(own: seq<GPU>, columns: seq<nat>) {
    forall k | 0 <= k < |columns| :: columns[k] < |own|
  }

  predicate Distinct(s: seq<nat>) {
    forall i, j | 0 <= i < j < |s| :: s[i] != s[j]
  }

  /** How the own GPUs that remain, named by their original positions, compare with a required one. */
  function Row(own: seq<GPU>, columns: seq<nat>, required: GPU): (row: seq<Comparison>)
    requires InRange(own, columns)
    ensures |row| == |columns|
    ensures forall k | 0 <= k < |row| :: row[k] == Compare(own[columns[k]], required)
  {
    seq(|columns|, k requires 0 <= k < |columns| => Compare(own[columns[k]], required))
  }

  /** The position, among the remaining columns, that serves a required GPU: the leftmost equal one,
      else the leftmost larger one, else the first. */
  ghost function Choice(own: seq<GPU>, columns: seq<nat>, required: GPU): (index: nat)
    requires columns != [] && InRange(own, columns)
    ensures index < |columns|
  {
    var row := Row(own, columns, required);
    BestExists(row, |row|);
    var index: nat :| index < |columns| && IsBest(row, |row|, index);
    index
  }

  lemma ChoiceIsBest(own: seq<GPU>, columns: seq<nat>, required: GPU)
    requires columns != [] && InRange(own, columns)
    ensures IsBest(Row(own, columns, required), |columns|, Choice(own, columns, required))
  {
  }

  lemma {:induction false} BestExists(row: seq<Comparison>, n: nat)
    requires 0 < n <= |row| && forall j | 0 <= j < n :: row[j] != None
    ensures exists i: nat :: i < n && IsBest(row, n, i)
  {
    if n == 1 {
      assert IsBest(row, n, 0);
    } else {
      BestExists(row, n - 1);
      var i: nat :| i < n - 1 && IsBest(row, n - 1, i);
      assert IsBest(row, n, if Rank(row[n - 1]) > Rank(row[i]) then n - 1 else i);
    }
  }

  /** The columns left after a required GPU took its choice. */
  ghost function Remaining(own: seq<GPU>, columns: seq<nat>, required: GPU): (rest: seq<nat>)
    requires columns != [] && InRange(own, columns)
    ensures |rest| == |columns| - 1 && InRange(own, rest)
  {
    Without(columns, Choice(own, columns, required))
  }

  lemma RemainingDistinct(own: seq<GPU>, columns: seq<nat>, required: GPU)
    requires columns != [] && InRange(own, columns) && Distinct(columns)
    ensures Distinct(Remaining(own, columns, required))
  {
  }

  /** The own GPUs chosen for the required ones, by original position: each round takes a column from
      all rows, and the loop ends once fewer columns remain than rounds were played. */
  ghost function Partners(own: seq<GPU>, required: seq<GPU>, rounds: nat, columns: seq<nat>): seq<nat>
    requires own != [] && InRange(own, columns) && |columns| + rounds == |own|
  {
    if required == [] || |columns| < rounds then []
    else
      [columns[Choice(own, columns, required[0])]]
      + Partners(own, required[1..], rounds + 1, Remaining(own, columns, required[0]))
  }

  function All(n: nat): (columns: seq<nat>)
    ensures |columns| == n && forall k | 0 <= k < n :: columns[k] == k
  {
    seq(n, k requires 0 <= k < n => k)
  }

  function Verdicts(own: seq<GPU>, required: seq<GPU>, partners: seq<nat>): (verdicts: seq<Comparison>)
    requires |partners| <= |required| && InRange(own, partners)
    ensures |verdicts| == |partners|
    ensures forall t | 0 <= t < |verdicts| :: verdicts[t] == Compare(own[partners[t]], required[t])
  {
    seq(|partners|, t requires 0 <= t < |partners| => Compare(own[partners[t]], required[t]))
  }

  /** Whether required[r] got a GPU too small only because all that were left are too small. */
  predicate Forced(own: seq<GPU>, columns: seq<nat>, partners: seq<nat>, t: nat, required: GPU)
    requires t < |partners| && InRange(own, columns) && InRange(own, partners)
  {
    own[partners[t]].vram < required.vram ==>
      forall k | 0 <= k < |columns| && columns[k] !in partners[..t] :: own[columns[k]].vram < required.vram
  }

  predicate Sound(own: seq<GPU>, columns: seq<nat>, required: seq<GPU>, partners: seq<nat>)
    requires InRange(own, columns)
  {
    && |partners| <= |required| && InRange(own, partners) && Distinct(partners)
    && (forall t | 0 <= t < |partners| :: partners[t] in columns)
    && (forall t | 0 <= t < |partners| :: Forced(own, columns, partners, t, required[t]))
  }

  lemma {:induction false} PartnersSound(own: seq<GPU>, required: seq<GPU>, rounds: nat, columns: seq<nat>)
    requires own != [] && InRange(own, columns) && |columns| + rounds == |own| && Distinct(columns)
    ensures Sound(own, columns, required, Partners(own, required, rounds, columns))
    decreases |required|
  {
    if required != [] && rounds <= |columns| {
      var rest := Remaining(own, columns, required[0]);
      RemainingDistinct(own, columns, required[0]);
      PartnersSound(own, required[1..], rounds + 1, rest);
      SoundCons(own, columns, required, Partners(own, required[1..], rounds + 1, rest));
    }
  }

  lemma InRest(columns: seq<nat>, b: nat, x: nat)
    requires b < |columns| && Distinct(columns) && x in Without(columns, b)
    ensures x in columns && x != columns[b]
  {
    var k :| 0 <= k < |columns| - 1 && Without(columns, b)[k] == x;
    assert x == columns[if k < b then k else k + 1];
  }

  lemma SoundCons(own: seq<GPU>, columns: seq<nat>, required: seq<GPU>, later: seq<nat>)
    requires columns != [] && InRange(own, columns) && Distinct(columns) && required != []
    requires Sound(own, Remaining(own, columns, required[0]), required[1..], later)
    ensures Sound(own, columns, required, [columns[Choice(own, columns, required[0])]] + later)
  {
    var b := Choice(own, columns, required[0]);
    var partners := [columns[b]] + later;
    FirstForced(own, columns, partners, required[0], b);
    forall t | 0 <= t < |later|
      ensures later[t] in columns && later[t] != columns[b]
    {
      InRest(columns, b, later[t]);
    }
    forall t | 0 <= t < |partners|
      ensures partners[t] in columns && Forced(own, columns, partners, t, required[t])
    {
      if t > 0 {
        assert required[1..][t - 1] == required[t];
        LaterForced(own, columns, b, partners, later, t, required[t]);
      }
    }
  }

  /** How many of m required GPUs the loop looks at, with n own ones. */
  function Examined(n: nat, m: nat): nat {
    Min(m, n / 2 + 1)
  }

  lemma OnePartnerMore(own: seq<GPU>, required: seq<GPU>, rounds: nat, columns: seq<nat>)
    requires own != [] && InRange(own, columns) && |columns| + rounds == |own| && required != [] && rounds <= |columns|
    ensures |Partners(own, required, rounds, columns)| ==
            1 + |Partners(own, required[1..], rounds + 1, Remaining(own, columns, required[0]))|
  {
  }

  lemma {:induction false} PartnersCount(own: seq<GPU>, required: seq<GPU>, rounds: nat, columns: seq<nat>, half: nat)
    requires own != [] && InRange(own, columns) && |columns| + rounds == |own|
    requires 2 * half <= |own| <= 2 * half + 1 && rounds <= half + 1
    ensures |Partners(own, required, rounds, columns)| == Min(|required|, half + 1 - rounds)
    decreases |required|
  {
    if required != [] && rounds <= half {
      PartnersCount(own, required[1..], rounds + 1, Remaining(own, columns, required[0]), half);
      OnePartnerMore(own, required, rounds, columns);
    }
  }

  lemma FirstForced(own: seq<GPU>, columns: seq<nat>, partners: seq<nat>, required: GPU, b: nat)
    requires columns != [] && InRange(own, columns) && partners != [] && InRange(own, partners)
    requires b == Choice(own, columns, required) && partners[0] == columns[b]
    ensures Forced(own, columns, partners, 0, required)
  {
    var row := Row(own, columns, required);
    ChoiceIsBest(own, columns, required);
    assert forall k | 0 <= k < |columns| :: Rank(row[k]) <= Rank(row[b]);
  }

  lemma LaterForced(own: seq<GPU>, columns: seq<nat>, b: nat, partners: seq<nat>, later: seq<nat>, t: nat,
                    required: GPU)
    requires InRange(own, columns) && b < |columns| && InRange(own, partners) && InRange(own, later)
    requires partners == [columns[b]] + later && 1 <= t < |partners|
    requires InRange(own, Without(columns, b)) && Forced(own, Without(columns, b), later, t - 1, required)
    ensures Forced(own, columns, partners, t, required)
  {
    var rest := Without(columns, b);
    assert partners[..t] == [columns[b]] + later[..t - 1];
    forall k | 0 <= k < |columns| && columns[k] !in partners[..t] && own[partners[t]].vram < required.vram
      ensures own[columns[k]].vram < required.vram
    {
      assert columns[k] != columns[b];
      var k' := if k < b then k else k - 1;
      assert rest[k'] == columns[k];
    }
  }

  // ---- The comparison of lists

  ghost function Assigned(own: seq<GPU>, required: seq<GPU>): (partners: seq<nat>)
    requires own != []
    ensures InRange(own, All(|own|)) && Sound(own, All(|own|), required, partners)
    ensures |partners| == Examined(|own|, |required|)
  {
    PartnersSound(own, required, 0, All(|own|));
    PartnersCount(own, required, 0, All(|own|), |own| / 2);
    Partners(own, required, 0, All(|own|))
  }

  function Decide(verdicts: seq<Comparison>): Comparison {
    if Worse in verdicts then Worse
    else if forall i | 0 <= i < |verdicts| :: verdicts[i] == Equal then Equal
    else Better
  }

  ghost function Compared(own: seq<GPU>, required: seq<GPU>): Comparison {
    if own == [] && required == [] then Equal
    else if own == [] then Worse
    else if required == [] then Better
    else Decide(Verdicts(own, required, Assigned(own, required)))
  }

  method Matrix(own: seq<GPU>, required: seq<GPU>) returns (rows: array<seq<Comparison>>)
    ensures fresh(rows) && rows.Length == |required|
    ensures forall r | 0 <= r < |required| :: rows[r] == Row(own, All(|own|), required[r])
  {
    rows := new seq<Comparison>[|required|];
    for r := 0 to |required|
      invariant forall q | 0 <= q < r :: rows[q] == Row(own, All(|own|), required[q])
    {
      var row := [];
      for k := 0 to |own|
        invariant |row| == k && forall j | 0 <= j < k :: row[j] == Compare(own[j], required[r])
      {
        row := row + [Compare(own[k], required[r])];
      }
      assert row == Row(own, All(|own|), required[r]);
      rows[r] := row;
    }
  }

  function RowWithout(row: seq<Comparison>, index: int): seq<Comparison> {
    if 0 <= index < |row| then Without(row, index) else row
  }

  function RowsWithout(rows: seq<seq<Comparison>>, index: int): (after: seq<seq<Comparison>>)
    ensures |after| == |rows| && forall r | 0 <= r < |rows| :: after[r] == RowWithout(rows[r], index)
  {
    seq(|rows|, r requires 0 <= r < |rows| => RowWithout(rows[r], index))
  }

  /** Removes the column from every row that has it. */
  method RemoveIndex(rows: array<seq<Comparison>>, index: int)
    modifies rows
    ensures rows[..] == RowsWithout(old(rows[..]), index)
  {
    for r := 0 to rows.Length
      invariant forall q | 0 <= q < r :: rows[q] == RowWithout(old(rows[q]), index)
      invariant forall q | r <= q < rows.Length :: rows[q] == old(rows[q])
    {
      if 0 <= index < |rows[r]| {
        rows[r] := rows[r][..index] + rows[r][index + 1..];
      }
    }
  }

  lemma RowOfRemaining(own: seq<GPU>, columns: seq<nat>, index: nat, required: GPU)
    requires index < |columns| && InRange(own, columns) && InRange(own, Without(columns, index))
    ensures RowWithout(Row(own, columns, required), index) == Row(own, Without(columns, index), required)
  {
  }

  method SliceContainsOneValue(verdicts: seq<Comparison>, value: Comparison) returns (all: bool)
    ensures all <==> forall i | 0 <= i < |verdicts| :: verdicts[i] == value
  {
    for i := 0 to |verdicts|
      invariant forall j | 0 <= j < i :: verdicts[j] == value
    {
      if verdicts[i] != value {
        return false;
      }
    }
    return true;
  }

  /** After some rounds: the partners found so far and those still to come are the assigned ones, and
      the verdicts are theirs. */
  ghost predicate Played(own: seq<GPU>, required: seq<GPU>, goal: seq<nat>, columns: seq<nat>,
                         partners: seq<nat>, verdicts: seq<Comparison>)
    requires own != []
  {
    var rounds := |partners|;
    && rounds <= |required| && InRange(own, partners) && InRange(own, columns) && |columns| + rounds == |own|
    && partners + Partners(own, required[rounds..], rounds, columns) == goal
    && verdicts == Verdicts(own, required, partners)
  }

  lemma PartnersFrom(own: seq<GPU>, required: seq<GPU>, i: nat, columns: seq<nat>)
    requires own != [] && i < |required| && InRange(own, columns) && |columns| + i == |own| && i <= |columns|
    ensures Partners(own, required[i..], i, columns) ==
            [columns[Choice(own, columns, required[i])]]
            + Partners(own, required[i + 1..], i + 1, Remaining(own, columns, required[i]))
  {
    assert required[i..][1..] == required[i + 1..];
  }

  lemma RoundPlayed(own: seq<GPU>, required: seq<GPU>, goal: seq<nat>, columns: seq<nat>, partners: seq<nat>,
                    verdicts: seq<Comparison>)
    requires own != [] && Played(own, required, goal, columns, partners, verdicts)
    requires |partners| < |required| && |partners| <= |columns|
    ensures var g := required[|partners|];
            var chosen := columns[Choice(own, columns, g)];
            Played(own, required, goal, Remaining(own, columns, g), partners + [chosen],
                   verdicts + [Compare(own[chosen], g)])
  {
    var rounds := |partners|;
    var chosen := columns[Choice(own, columns, required[rounds])];
    PartnersFrom(own, required, rounds, columns);
    VerdictsSnoc(own, required, partners, chosen);
  }

  lemma VerdictsSnoc(own: seq<GPU>, required: seq<GPU>, partners: seq<nat>, p: nat)
    requires |partners| < |required| && InRange(own, partners) && p < |own|
    ensures InRange(own, partners + [p])
    ensures Verdicts(own, required, partners + [p]) ==
            Verdicts(own, required, partners) + [Compare(own[p], required[|partners|])]
  {
  }

  lemma AllPlayed(own: seq<GPU>, required: seq<GPU>, goal: seq<nat>, columns: seq<nat>, partners: seq<nat>,
                  verdicts: seq<Comparison>)
    requires own != [] && Played(own, required, goal, columns, partners, verdicts)
    requires |partners| == |required| || |columns| < |partners|
    ensures goal == partners && verdicts == Verdicts(own, required, partners)
  {
    assert partners + [] == partners;
  }

  ghost predicate RowsAre(own: seq<GPU>, required: seq<GPU>, columns: seq<nat>, rows: seq<seq<Comparison>>) {
    && InRange(own, columns) && |rows| == |required|
    && forall r | 0 <= r < |required| :: rows[r] == Row(own, columns, required[r])
  }

  lemma RowsRemain(own: seq<GPU>, required: seq<GPU>, columns: seq<nat>, g: GPU, rows: seq<seq<Comparison>>,
                   after: seq<seq<Comparison>>)
    requires columns != [] && RowsAre(own, required, columns, rows) && |after| == |rows|
    requires forall r | 0 <= r < |rows| :: after[r] == RowWithout(rows[r], Choice(own, columns, g))
    ensures RowsAre(own, required, Remaining(own, columns, g), after)
  {
    forall r | 0 <= r < |required|
      ensures after[r] == Row(own, Remaining(own, columns, g), required[r])
    {
      RowOfRemaining(own, columns, Choice(own, columns, g), required[r]);
    }
  }

  /** What the loop keeps: the rows compare the remaining columns, and the rounds played agree with the
      assignment. */
  ghost predicate InRound(own: seq<GPU>, required: seq<GPU>, rows: seq<seq<Comparison>>, columns: seq<nat>,
                          partners: seq<nat>, verdicts: seq<Comparison>)
  {
    && own != [] && RowsAre(own, required, columns, rows)
    && Played(own, required, Assigned(own, required), columns, partners, verdicts)
  }

  lemma FirstRound(own: seq<GPU>, required: seq<GPU>, rows: seq<seq<Comparison>>)
    requires own != [] && RowsAre(own, required, All(|own|), rows)
    ensures InRound(own, required, rows, All(|own|), [], [])
  {
    assert required[0..] == required;
    assert [] + Assigned(own, required) == Assigned(own, required);
  }

  lemma NextRound(own: seq<GPU>, required: seq<GPU>, rows: seq<seq<Comparison>>, columns: seq<nat>,
                  partners: seq<nat>, verdicts: seq<Comparison>, index: int, after: seq<seq<Comparison>>)
    returns (rest: seq<nat>, more: seq<nat>)
    requires InRound(own, required, rows, columns, partners, verdicts)
    requires |partners| < |rows| && |partners| <= |rows[|partners|]|
    requires IsBest(rows[|partners|], |rows[|partners|]|, index)
    requires after == RowsWithout(rows, index)
    ensures 0 <= index < |rows[|partners|]| && |more| == |partners| + 1
    ensures InRound(own, required, after, rest, more, verdicts + [rows[|partners|][index]])
  {
    var g := required[|partners|];
    ChoiceIsBest(own, columns, g);
    BestIsUnique(rows[|partners|], index, Choice(own, columns, g));
    RoundPlayed(own, required, Assigned(own, required), columns, partners, verdicts);
    RowsRemain(own, required, columns, g, rows, after);
    rest, more := Remaining(own, columns, g), partners + [columns[index]];
  }

  lemma LastRound(own: seq<GPU>, required: seq<GPU>, rows: seq<seq<Comparison>>, columns: seq<nat>,
                  partners: seq<nat>, verdicts: seq<Comparison>)
    requires InRound(own, required, rows, columns, partners, verdicts)
    requires |partners| >= |rows| || |rows[|partners|]| < |partners|
    ensures own != [] && verdicts == Verdicts(own, required, Assigned(own, required))
  {
    AllPlayed(own, required, Assigned(own, required), columns, partners, verdicts);
  }

  /** One verdict for each required GPU the loop reaches. */
  method Match(own: seq<GPU>, required: seq<GPU>) returns (verdicts: seq<Comparison>)
    requires own != []
    ensures verdicts == Verdicts(own, required, Assigned(own, required))
  {
    var rows := Matrix(own, required);
    verdicts := [];
    ghost var columns, partners := All(|own|), [];
    FirstRound(own, required, rows[..]);
    var i := 0;
    while i < rows.Length && |rows[i]| >= i
      invariant i == |partners| <= rows.Length && fresh(rows)
      invariant InRound(own, required, rows[..], columns, partners, verdicts)
    {
      var best, index := ReturnBestMatch(rows[i]);
      ghost var before := rows[..];
      RemoveIndex(rows, index);
      columns, partners := NextRound(own, required, before, columns, partners, verdicts, index, rows[..]);
      verdicts := verdicts + [best];
      i := i + 1;
    }
    LastRound(own, required, rows[..], columns, partners, verdicts);
  }

  method CompareLists(own: seq<GPU>, required: seq<GPU>) returns (verdict: Comparison)
    ensures verdict == Compared(own, required)
  {
    if own == [] && required == [] {
      return Equal;
    }
    if own == [] {
      return Worse;
    }
    if required == [] {
      return Better;
    }
    var verdicts := Match(own, required);
    if Worse in verdicts {
      return Worse;
    }
    var equal := SliceContainsOneValue(verdicts, Equal);
    return if equal then Equal else Better;
  }
}
