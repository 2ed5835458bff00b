/** Verdicts of comparing offered with required capabilities, and how they combine. */
module Comparisons {
  datatype Comparison = Worse | Better | Equal | None

  function And(c: Comparison, d: Comparison): Comparison {
    if c == d then c
    else match c
      case Equal => d
      case Better => if d == Worse then Worse else if d == Equal then Better else None
      case Worse => Worse
      case None => None
  }

  /** The table that documents And. */
  function AndTable(c: Comparison, d: Comparison): Comparison {
    if c == None || d == None then None
    else if c == Worse || d == Worse then Worse
    else if c == Better || d == Better then Better
    else Equal
  }

  /** The code differs from its table in exactly one place: Worse and None gives Worse. */
  lemma AndDiffersFromTableIff(c: Comparison, d: Comparison)
    ensures And(c, d) == AndTable(c, d) <==> !(c == Worse && d == None)
  {
  }

  lemma AndLaws(c: Comparison, d: Comparison, e: Comparison)
    ensures And(And(c, d), e) == And(c, And(d, e))
    ensures And(Equal, c) == c == And(c, Equal)
  {
  }

  predicate Blocking(c: Comparison) {
    c == Worse || c == None
  }

  /** Combining verdicts from the left, starting with Equal. */
  function Combined(verdicts: seq<Comparison>): Comparison
  {
    if verdicts == [] then Equal else And(Combined(verdicts[..|verdicts| - 1]), verdicts[|verdicts| - 1])
  }

  predicate NoneBlocks(verdicts: seq<Comparison>) {
    forall i | 0 <= i < |verdicts| :: !Blocking(verdicts[i])
  }

  /** Without a blocking verdict, any Better makes the combination Better. */
  lemma {:induction false} NoBlockerGivesBest(verdicts: seq<Comparison>)
    requires NoneBlocks(verdicts)
    ensures Combined(verdicts) == if Better in verdicts then Better else Equal
  {
    if verdicts != [] {
      var front := verdicts[..|verdicts| - 1];
      NoBlockerGivesBest(front);
      assert verdicts == front + [verdicts[|verdicts| - 1]];
    }
  }

  /** The first blocking verdict decides. */
  lemma {:induction false} FirstBlockerDecides(verdicts: seq<Comparison>, i: nat)
    requires i < |verdicts| && Blocking(verdicts[i]) && NoneBlocks(verdicts[..i])
    ensures Combined(verdicts) == verdicts[i]
  {
    var front := verdicts[..|verdicts| - 1];
    if i == |verdicts| - 1 {
      NoBlockerGivesBest(front);
    } else {
      assert front[..i] == verdicts[..i];
      FirstBlockerDecides(front, i);
    }
  }

  lemma {:induction false} FirstBlocker(verdicts: seq<Comparison>) returns (i: nat)
    requires !NoneBlocks(verdicts)
    ensures i < |verdicts| && Blocking(verdicts[i]) && NoneBlocks(verdicts[..i])
  {
    i := 0;
    while !Blocking(verdicts[i])
      invariant i < |verdicts| && NoneBlocks(verdicts[..i])
      decreases |verdicts| - i
    {
      i := i + 1;
      assert NoneBlocks(verdicts[..i]);
    }
  }

  /** The combined verdict is acceptable exactly when no verdict is Worse or None, and Equal exactly
      when all are. */
  lemma CombinedMeaning(verdicts: seq<Comparison>)
    ensures !Blocking(Combined(verdicts)) <==> Worse !in verdicts && None !in verdicts
    ensures Combined(verdicts) == Equal <==> forall c | c in verdicts :: c == Equal
    ensures Blocking(Combined(verdicts)) ==> Combined(verdicts) in verdicts
  {
    if NoneBlocks(verdicts) {
      NoBlockerGivesBest(verdicts);
    } else {
      var i := FirstBlocker(verdicts);
      FirstBlockerDecides(verdicts, i);
    }
  }

  /** Every order of combining gives the same verdict exactly when Worse and None do not both occur. */
  lemma OrderIndependentIff(verdicts: seq<Comparison>)
    ensures (forall other | multiset(other) == multiset(verdicts) :: Combined(other) == Combined(verdicts))
            <==> !(Worse in verdicts && None in verdicts)
  {
    if Worse in verdicts && None in verdicts {
      var other := OtherOrder(verdicts);
    } else {
      forall other | multiset(other) == multiset(verdicts)
        ensures Combined(other) == Combined(verdicts)
      {
        SameVerdict(verdicts, other);
      }
    }
  }

  lemma OtherOrder(verdicts: seq<Comparison>) returns (other: seq<Comparison>)
    requires Worse in verdicts && None in verdicts
    ensures multiset(other) == multiset(verdicts) && Combined(other) != Combined(verdicts)
  {
    CombinedMeaning(verdicts);
    var c := if Combined(verdicts) == Worse then None else Worse;
    var i :| 0 <= i < |verdicts| && verdicts[i] == c;
    var rest := verdicts[..i] + verdicts[i + 1..];
    other := [c] + rest;
    assert verdicts == verdicts[..i] + [c] + verdicts[i + 1..];
    FirstBlockerDecides(other, 0);
  }

  lemma SameVerdict(verdicts: seq<Comparison>, other: seq<Comparison>)
    requires multiset(other) == multiset(verdicts) && !(Worse in verdicts && None in verdicts)
    ensures Combined(other) == Combined(verdicts)
  {
    forall c: Comparison
      ensures c in other <==> c in verdicts
    {
      assert (c in multiset(other)) == (c in multiset(verdicts));
    }
    CombinedMeaning(verdicts);
    CombinedMeaning(other);
  }

  /** The fields of a complex comparison, combined in whatever order the map is iterated. */
  method Result(fields: map<string, Comparison>) returns (result: Comparison, ghost order: seq<Comparison>)
    ensures result == Combined(order)
    ensures forall c :: c in order <==> c in fields.Values
    ensures !Blocking(result) <==> Worse !in fields.Values && None !in fields.Values
    ensures result == Equal <==> forall name | name in fields :: fields[name] == Equal
  {
    result, order := Equal, [];
    var todo := fields.Keys;
    while todo != {}
      invariant todo <= fields.Keys && result == Combined(order)
      invariant forall name | name in fields && name !in todo :: fields[name] in order
      invariant forall c | c in order :: c in fields.Values
      decreases |todo|
    {
      var name :| name in todo;
      todo := todo - {name};
      result := And(result, fields[name]);
      order := order + [fields[name]];
      assert order[..|order| - 1] + [fields[name]] == order;
    }
    CombinedMeaning(order);
  }
}
