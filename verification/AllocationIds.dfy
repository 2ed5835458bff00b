/** Allocation identifiers: two printers, three parsers and the generators over one string grammar. */
module AllocationIds {
  import opened Envelopes
  import opened Decimals

  const STANDBY: string := "-standby-"

  // ---------------------------------------------------------------------
  // Substrings, leftmost occurrence, splitting.

  predicate OccursAt(s: string, sub: string, i: nat) {
    i + |sub| <= |s| && s[i..i + |sub|] == sub
  }

  ghost predicate Occurs(s: string, sub: string) {
    exists i: nat :: OccursAt(s, sub, i)
  }

  /** Leftmost occurrence at or after `from`, or the length of `s` plus one when there is none. */
  function Find(s: string, sub: string, from: nat): (i: nat)
    requires from <= |s|
    ensures i <= |s| ==> from <= i && OccursAt(s, sub, i)
    ensures forall j: nat | from <= j < i :: !OccursAt(s, sub, j)
    ensures i <= |s| + 1
    decreases |s| - from
  {
    if OccursAt(s, sub, from) then from
    else if from == |s| then |s| + 1
    else Find(s, sub, from + 1)
  }

  predicate Contains(s: string, sub: string)
    ensures Contains(s, sub) <==> Occurs(s, sub)
  {
    Find(s, sub, 0) <= |s|
  }

  /** All pieces between the leftmost, non-overlapping occurrences of the separator. */
  function Split(s: string, sep: string): (parts: seq<string>)
    requires sep != ""
    ensures parts != []
    decreases |s|
  {
    var i := Find(s, sep, 0);
    if i > |s| then [s] else [s[..i]] + Split(s[i + |sep|..], sep)
  }

  /** At most two pieces, cut at the leftmost occurrence. */
  function SplitFirst(s: string, sep: string): seq<string>
    requires sep != ""
  {
    var i := Find(s, sep, 0);
    if i > |s| then [s] else [s[..i], s[i + |sep|..]]
  }

  // ---------------------------------------------------------------------
  // Identifiers.

  datatype Identifier = Identifier(ensemble: string, node: string, name: string, standby: bool, index: int)

  function NewAllocationID(ensemble: string, node: string, name: string): Identifier {
    Identifier(ensemble, node, name, false, 0)
  }

  function NewStandbyAllocationID(ensemble: string, primary: string, name: string, index: int): Identifier {
    Identifier(ensemble, primary, name, true, index)
  }

  function StandbyNode(primary: string, index: int): string {
    primary + STANDBY + Itoa(index)
  }

  /** The full identifier. */
  function Print(id: Identifier): string {
    if id.standby && !Contains(id.node, STANDBY)
    then id.ensemble + "_" + id.node + "-standby-" + Itoa(id.index) + "." + id.name
    else id.ensemble + "_" + id.node + "." + id.name
  }

  function ManifestKey(id: Identifier): string {
    if id.standby && !Contains(id.node, STANDBY)
    then id.node + "-standby-" + Itoa(id.index) + "." + id.name
    else id.node + "." + id.name
  }

  /** The common part of both parsers for strings with a standby marker. */
  function ParseStandby(ensemble: string, rest: string): Option<Identifier> {
    var parts := Split(rest, STANDBY);
    if |parts| != 2 then None
    else
      var tail := Split(parts[1], ".");
      if |tail| != 2 then None
      else
        var index := Atoi(tail[0]);
        if index.None? then None
        else Some(Identifier(ensemble, StandbyNode(parts[0], index.value), tail[1], true, index.value))
  }

  function ParsePrimary(ensemble: string, rest: string): Option<Identifier> {
    var parts := Split(rest, ".");
    if |parts| != 2 then None else Some(Identifier(ensemble, parts[0], parts[1], false, 0))
  }

  function ParseAllocationID(s: string): Option<Identifier> {
    var parts := SplitFirst(s, "_");
    if |parts| != 2 then None
    else if Contains(parts[1], STANDBY) then ParseStandby(parts[0], parts[1])
    else if Contains(parts[1], "standby") then None
    else ParsePrimary(parts[0], parts[1])
  }

  function ParseManifestKey(key: string, ensemble: string): Option<Identifier> {
    if Contains(key, STANDBY) then ParseStandby(ensemble, key) else ParsePrimary(ensemble, key)
  }

  /** (is a standby node, primary node, index) */
  function ParseNodeName(node: string): (bool, string, int) {
    var parts := Split(node, STANDBY);
    if Contains(node, STANDBY) && |parts| == 2 && Atoi(parts[1]).Some?
    then (true, parts[0], Atoi(parts[1]).value)
    else (false, node, 0)
  }

  // ---------------------------------------------------------------------
  // Generators.

  function GenerateStandbyNodeID(primary: string, index: int): Option<string> {
    if primary == "" || index < 1 then None else Some(primary + "-standby-" + Itoa(index))
  }

  function GenerateManifestKey(node: string, name: string): Option<string> {
    if node == "" || name == "" then None else Some(node + "." + name)
  }

  function GenerateFullAllocationID(ensemble: string, node: string, name: string): Option<string> {
    if ensemble == "" || node == "" || name == "" then None else Some(ensemble + "_" + node + "." + name)
  }

  // ---------------------------------------------------------------------
  // Occurrences in concatenations.

  lemma OccursInSuffix(a: string, b: string, sub: string, i: nat)
    requires i >= |a|
    ensures OccursAt(a + b, sub, i) <==> OccursAt(b, sub, i - |a|)
  {
    if i + |sub| <= |a + b| {
      assert (a + b)[i..i + |sub|] == b[i - |a|..i - |a| + |sub|];
    }
  }

  lemma OccursInPrefix(a: string, b: string, sub: string, i: nat)
    requires i + |sub| <= |a|
    ensures OccursAt(a + b, sub, i) <==> OccursAt(a, sub, i)
  {
    assert (a + b)[i..i + |sub|] == a[i..i + |sub|];
  }

  lemma CharacterOf(s: string, sub: string, i: nat, j: nat)
    requires OccursAt(s, sub, i) && j < |sub|
    ensures s[i + j] == sub[j]
  {
    assert s[i..i + |sub|][j] == s[i + j];
  }

  lemma FindUnique(s: string, sub: string, i: nat)
    requires OccursAt(s, sub, i) && forall j: nat | j < i :: !OccursAt(s, sub, j)
    ensures Find(s, sub, 0) == i
  {
  }

  /** No occurrence starts in `p` when the separator is appended to it. */
  ghost predicate CleanBefore(p: string, sep: string) {
    forall i: nat | i < |p| :: !OccursAt(p + sep, sep, i)
  }

  /** A cut at the first separator is independent of what follows it. */
  lemma FindAfterClean(p: string, sep: string, rest: string)
    requires sep != "" && CleanBefore(p, sep)
    ensures Find(p + sep + rest, sep, 0) == |p|
  {
    var s := p + sep + rest;
    assert s[|p|..|p| + |sep|] == sep;
    forall j: nat | j < |p|
      ensures !OccursAt(s, sep, j)
    {
      OccursInPrefix(p + sep, rest, sep, j);
    }
    FindUnique(s, sep, |p|);
  }

  lemma CleanFromFind(s: string, sep: string, i: nat)
    requires sep != "" && Find(s, sep, 0) == i <= |s|
    ensures CleanBefore(s[..i], sep)
    ensures s == s[..i] + sep + s[i + |sep|..]
  {
    CutAt(s, sep, i);
    CleanPrefix(s[..i], sep, s[i + |sep|..]);
  }

  lemma CutAt(s: string, sep: string, i: nat)
    requires OccursAt(s, sep, i)
    ensures s == s[..i] + sep + s[i + |sep|..]
  {
    assert s == s[..i] + s[i..i + |sep|] + s[i + |sep|..];
  }

  lemma CleanPrefix(p: string, sep: string, rest: string)
    requires forall j: nat | j < |p| :: !OccursAt(p + sep + rest, sep, j)
    ensures CleanBefore(p, sep)
  {
    forall j: nat | j < |p|
      ensures !OccursAt(p + sep, sep, j)
    {
      if j + |sep| <= |p + sep| {
        OccursInPrefix(p + sep, rest, sep, j);
      }
    }
  }

  lemma SplitOne(s: string, sep: string)
    requires sep != ""
    ensures Split(s, sep) == [s] <==> !Contains(s, sep)
    ensures !Contains(s, sep) <==> |Split(s, sep)| == 1
  {
  }

  /** Two pieces exactly when a clean prefix is followed by the separator and a rest without it. */
  lemma SplitTwo(p: string, sep: string, rest: string)
    requires sep != "" && CleanBefore(p, sep)
    ensures |Split(p + sep + rest, sep)| == 2 <==> !Contains(rest, sep)
    ensures !Contains(rest, sep) ==> Split(p + sep + rest, sep) == [p, rest]
  {
    var s := p + sep + rest;
    FindAfterClean(p, sep, rest);
    assert s[..|p|] == p && s[|p| + |sep|..] == rest;
    SplitOne(rest, sep);
  }

  lemma SplitTwoInverse(s: string, sep: string)
    requires sep != "" && |Split(s, sep)| == 2
    ensures var parts := Split(s, sep);
            s == parts[0] + sep + parts[1] && CleanBefore(parts[0], sep) && !Contains(parts[1], sep)
  {
    var i := Find(s, sep, 0);
    CleanFromFind(s, sep, i);
    SplitOne(s[i + |sep|..], sep);
  }

  /** For a one-character separator a prefix is clean when it does not contain the character. */
  lemma CleanCharacter(p: string, c: char)
    ensures CleanBefore(p, [c]) <==> c !in p
    ensures Contains(p, [c]) <==> c in p
  {
    forall i: nat | i < |p|
      ensures OccursAt(p + [c], [c], i) <==> p[i] == c
      ensures OccursAt(p, [c], i) <==> p[i] == c
    {
      assert (p + [c])[i..i + 1] == [p[i]] && p[i..i + 1] == [p[i]];
    }
  }

  // ---------------------------------------------------------------------
  // The standby marker overlaps itself only in its outer dashes.

  predicate EndsWith(s: string, end: string) {
    |end| <= |s| && s[|s| - |end|..] == end
  }

  lemma MarkerBorder(m: nat)
    requires 1 <= m < 9 && forall j: nat | j < 9 - m :: STANDBY[m + j] == STANDBY[j]
    ensures m == 8
  {
    assert STANDBY[m] == STANDBY[0];
  }

  /** The marker can be cut off after `p` exactly when `p` neither contains it nor ends in "-standby". */
  lemma CleanBeforeMarker(p: string)
    ensures CleanBefore(p, STANDBY) <==> !Contains(p, STANDBY) && !EndsWith(p, "-standby")
  {
    var s := p + STANDBY;
    if Contains(p, STANDBY) {
      var i := Find(p, STANDBY, 0);
      OccursInPrefix(p, STANDBY, STANDBY, i);
      assert OccursAt(s, STANDBY, i);
    } else if EndsWith(p, "-standby") {
      var i := |p| - 8;
      assert s[i..i + 9] == p[i..] + [STANDBY[0]];
      assert OccursAt(s, STANDBY, i);
    } else {
      forall i: nat | i < |p|
        ensures !OccursAt(s, STANDBY, i)
      {
        if OccursAt(s, STANDBY, i) {
          StraddlingMarker(p, i);
        }
      }
    }
  }

  lemma StraddlingMarker(p: string, i: nat)
    requires i < |p| && OccursAt(p + STANDBY, STANDBY, i)
    ensures Contains(p, STANDBY) || EndsWith(p, "-standby")
  {
    var s := p + STANDBY;
    if i + 9 <= |p| {
      OccursInPrefix(p, STANDBY, STANDBY, i);
    } else {
      var m := |p| - i;
      forall j: nat | j < 9 - m
        ensures STANDBY[m + j] == STANDBY[j]
      {
        CharacterOf(s, STANDBY, i, m + j);
      }
      MarkerBorder(m);
      assert p[i..] == s[i..i + 9][..8];
    }
  }

  /** No dash in `head` is followed by an 's', nor is its last character a dash. */
  ghost predicate StartsNoMarker(head: string) {
    forall i | 0 <= i < |head| && head[i] == '-' :: i + 1 < |head| && head[i + 1] != 's'
  }

  lemma MarkerNotInHead(head: string, name: string)
    requires StartsNoMarker(head)
    ensures Contains(head + name, STANDBY) <==> Contains(name, STANDBY)
  {
    var s := head + name;
    if Contains(s, STANDBY) {
      var i := Find(s, STANDBY, 0);
      CharacterOf(s, STANDBY, i, 0);
      CharacterOf(s, STANDBY, i, 1);
      assert i >= |head|;
      OccursInSuffix(head, name, STANDBY, i);
    }
    if Contains(name, STANDBY) {
      var i := Find(name, STANDBY, 0);
      OccursInSuffix(head, name, STANDBY, i + |head|);
    }
  }

  /** Neither a printed index nor the dot after it starts a marker. */
  lemma NoMarkerAtIndex(k: int, name: string)
    ensures Contains(Itoa(k) + "." + name, STANDBY) <==> Contains(name, STANDBY)
    ensures !Contains(Itoa(k), STANDBY)
  {
    ItoaShape(k);
    MarkerNotInHead(Itoa(k) + ".", name);
    MarkerNotInHead(Itoa(k), "");
    assert Itoa(k) + "" == Itoa(k);
  }

  /** The tail after the marker: a printed index, a dot and a name without one. */
  lemma SplitIndexAndName(k: int, name: string)
    ensures |Split(Itoa(k) + "." + name, ".")| == 2 <==> '.' !in name
    ensures '.' !in name ==> Split(Itoa(k) + "." + name, ".") == [Itoa(k), name]
  {
    ItoaShape(k);
    CleanCharacter(Itoa(k), '.');
    CleanCharacter(name, '.');
    SplitTwo(Itoa(k), ".", name);
  }

  // ---------------------------------------------------------------------
  // Round trips.

  /** What every accepted identifier looks like. */
  ghost predicate StandbyShape(primary: string, name: string, index: int) {
    CleanBefore(primary, STANDBY) && !Contains(name, STANDBY) && '.' !in name && IsInt(index)
  }

  ghost predicate Accepted(id: Identifier) {
    && '_' !in id.ensemble
    && (id.standby ==>
          exists primary :: id.node == StandbyNode(primary, id.index) && StandbyShape(primary, id.name, id.index))
    && (!id.standby ==> id.index == 0 && '.' !in id.node && '.' !in id.name &&
                        !Contains(id.node + "." + id.name, STANDBY) && !Contains(id.node + "." + id.name, "standby"))
  }

  /** A standby tail in printed form parses to its parts. */
  lemma ParseStandbyPrinted(ensemble: string, primary: string, name: string, index: int)
    requires StandbyShape(primary, name, index)
    ensures ParseStandby(ensemble, StandbyNode(primary, index) + "." + name) ==
            Some(Identifier(ensemble, StandbyNode(primary, index), name, true, index))
    ensures Contains(StandbyNode(primary, index) + "." + name, STANDBY)
    ensures Contains(StandbyNode(primary, index), STANDBY)
  {
    var tail := Itoa(index) + "." + name;
    assert StandbyNode(primary, index) + "." + name == primary + STANDBY + tail;
    NoMarkerAtIndex(index, name);
    SplitTwo(primary, STANDBY, tail);
    SplitIndexAndName(index, name);
    AtoiItoa(index);
    FindAfterClean(primary, STANDBY, tail);
    FindAfterClean(primary, STANDBY, Itoa(index));
  }

  lemma ParsePrimaryPrinted(ensemble: string, node: string, name: string)
    requires '.' !in node && '.' !in name
    ensures ParsePrimary(ensemble, node + "." + name) == Some(Identifier(ensemble, node, name, false, 0))
  {
    CleanCharacter(node, '.');
    CleanCharacter(name, '.');
    SplitTwo(node, ".", name);
  }

  lemma SplitEnsemble(ensemble: string, rest: string)
    requires '_' !in ensemble
    ensures SplitFirst(ensemble + "_" + rest, "_") == [ensemble, rest]
  {
    var s := ensemble + "_" + rest;
    CleanCharacter(ensemble, '_');
    FindAfterClean(ensemble, "_", rest);
    assert s[..|ensemble|] == ensemble && s[|ensemble| + 1..] == rest;
  }

  lemma ParseAfterEnsemble(ensemble: string, rest: string)
    requires '_' !in ensemble
    ensures ParseAllocationID(ensemble + "_" + rest) ==
            if Contains(rest, STANDBY) then ParseStandby(ensemble, rest)
            else if Contains(rest, "standby") then None
            else ParsePrimary(ensemble, rest)
  {
    SplitEnsemble(ensemble, rest);
  }

  /** Every identifier prints as its ensemble, an underscore and its manifest key. */
  lemma PrintIsEnsembleAndKey(id: Identifier)
    ensures Print(id) == id.ensemble + "_" + ManifestKey(id)
  {
    var e := id.ensemble + "_";
    if id.standby && !Contains(id.node, STANDBY) {
      Join4(e, id.node, "-standby-", Itoa(id.index), "." + id.name);
      assert Print(id) == e + id.node + "-standby-" + Itoa(id.index) + ("." + id.name);
      assert ManifestKey(id) == id.node + "-standby-" + Itoa(id.index) + ("." + id.name);
    } else {
      assert Print(id) == e + (id.node + "." + id.name);
    }
  }

  lemma Join4(e: string, a: string, b: string, c: string, d: string)
    ensures e + a + b + c + d == e + (a + b + c + d)
  {
  }

  lemma AcceptedStandbyPrints(id: Identifier, primary: string)
    requires id.standby && '_' !in id.ensemble
    requires id.node == StandbyNode(primary, id.index) && StandbyShape(primary, id.name, id.index)
    ensures ManifestKey(id) == id.node + "." + id.name
    ensures ParseManifestKey(ManifestKey(id), id.ensemble) == Some(id)
    ensures ParseAllocationID(Print(id)) == Some(id)
  {
    ParseStandbyPrinted(id.ensemble, primary, id.name, id.index);
    PrintIsEnsembleAndKey(id);
    ParseAfterEnsemble(id.ensemble, ManifestKey(id));
  }

  lemma AcceptedPrints(id: Identifier)
    requires Accepted(id)
    ensures ManifestKey(id) == id.node + "." + id.name
    ensures ParseManifestKey(ManifestKey(id), id.ensemble) == Some(id)
    ensures ParseAllocationID(Print(id)) == Some(id)
  {
    if id.standby {
      var primary :| id.node == StandbyNode(primary, id.index) && StandbyShape(primary, id.name, id.index);
      AcceptedStandbyPrints(id, primary);
    } else {
      ParsePrimaryPrinted(id.ensemble, id.node, id.name);
      PrintIsEnsembleAndKey(id);
      ParseAfterEnsemble(id.ensemble, ManifestKey(id));
    }
  }

  /** `s` spells a standby identifier with `digits` for its index. */
  ghost predicate Spells(s: string, id: Identifier, primary: string, digits: string) {
    && s == id.ensemble + "_" + (primary + STANDBY + (digits + "." + id.name))
    && Atoi(digits) == Some(id.index) && id.node == StandbyNode(primary, id.index)
  }

  /** What a parse says about its input: the printed form is the input, with at most the index of a
      standby allocation rewritten to its canonical decimal form. */
  ghost predicate SameButIndex(s: string, id: Identifier) {
    if id.standby then exists primary, digits :: Spells(s, id, primary, digits) else s == Print(id)
  }

  lemma AtoiInRange(s: string)
    ensures Atoi(s).Some? ==> IsInt(Atoi(s).value)
  {
  }

  lemma MarkerInTail(head: string, name: string)
    requires !Contains(head + name, STANDBY)
    ensures !Contains(name, STANDBY)
  {
    if Contains(name, STANDBY) {
      var i := Find(name, STANDBY, 0);
      OccursInSuffix(head, name, STANDBY, i + |head|);
    }
  }

  lemma ParsedStandby(ensemble: string, rest: string)
    requires '_' !in ensemble && ParseStandby(ensemble, rest).Some?
    ensures Accepted(ParseStandby(ensemble, rest).value)
    ensures SameButIndex(ensemble + "_" + rest, ParseStandby(ensemble, rest).value)
  {
    var id := ParseStandby(ensemble, rest).value;
    var parts := Split(rest, STANDBY);
    SplitTwoInverse(rest, STANDBY);
    var tail := Split(parts[1], ".");
    SplitTwoInverse(parts[1], ".");
    AtoiInRange(tail[0]);
    CleanCharacter(tail[1], '.');
    MarkerInTail(tail[0] + ".", tail[1]);
    assert StandbyShape(parts[0], id.name, id.index);
    assert Spells(ensemble + "_" + rest, id, parts[0], tail[0]);
  }

  lemma ParsedPrimary(ensemble: string, rest: string)
    requires '_' !in ensemble && ParsePrimary(ensemble, rest).Some?
    requires !Contains(rest, STANDBY) && !Contains(rest, "standby")
    ensures Accepted(ParsePrimary(ensemble, rest).value)
    ensures SameButIndex(ensemble + "_" + rest, ParsePrimary(ensemble, rest).value)
  {
    var id := ParsePrimary(ensemble, rest).value;
    SplitTwoInverse(rest, ".");
    CleanCharacter(id.node, '.');
    CleanCharacter(id.name, '.');
    assert ensemble + "_" + rest == ensemble + "_" + id.node + "." + id.name;
  }

  lemma Parsed(s: string)
    requires ParseAllocationID(s).Some?
    ensures Accepted(ParseAllocationID(s).value) && SameButIndex(s, ParseAllocationID(s).value)
  {
    var parts := SplitFirst(s, "_");
    var i := Find(s, "_", 0);
    CleanFromFind(s, "_", i);
    CleanCharacter(parts[0], '_');
    if Contains(parts[1], STANDBY) {
      ParsedStandby(parts[0], parts[1]);
    } else {
      ParsedPrimary(parts[0], parts[1]);
    }
  }

  /** For every accepted string: printing the parsed identifier and parsing again gives the same
      identifier, the printed form is the input up to the spelling of the standby index, it is the
      ensemble, an underscore and the manifest key, and that key parses to the same identifier. */
  lemma ParsePrintRoundTrip(s: string)
    requires ParseAllocationID(s).Some?
    ensures var id := ParseAllocationID(s).value;
            && ParseAllocationID(Print(id)) == Some(id)
            && SameButIndex(s, id)
            && Print(id) == id.ensemble + "_" + ManifestKey(id)
            && ParseManifestKey(ManifestKey(id), id.ensemble) == Some(id)
  {
    Parsed(s);
    AcceptedPrints(ParseAllocationID(s).value);
    PrintIsEnsembleAndKey(ParseAllocationID(s).value);
  }

  lemma PrimaryKeyIs(key: string, ensemble: string)
    requires ParsePrimary(ensemble, key).Some?
    ensures var id := ParsePrimary(ensemble, key).value;
            key == id.node + "." + id.name && id.ensemble == ensemble && !id.standby
  {
    SplitTwoInverse(key, ".");
  }

  lemma AcceptedKey(key: string, ensemble: string)
    requires ParseManifestKey(key, ensemble).Some? && '_' !in ensemble
    requires Contains(key, STANDBY) || !Contains(key, "standby")
    ensures Accepted(ParseManifestKey(key, ensemble).value)
  {
    if Contains(key, STANDBY) {
      ParsedStandby(ensemble, key);
    } else {
      ParsedPrimary(ensemble, key);
    }
  }

  /** The identifier of every manifest key that parses survives printing and the parser of full
      identifiers exactly when the ensemble has no underscore, and the key, unless it is a standby key,
      does not contain the word standby: the manifest parser has no such test. */
  lemma ManifestKeySurvivesIff(key: string, ensemble: string)
    requires ParseManifestKey(key, ensemble).Some?
    ensures var id := ParseManifestKey(key, ensemble).value;
            ParseAllocationID(Print(id)) == Some(id) <==>
            '_' !in ensemble && (id.standby || !Contains(key, "standby"))
  {
    var id := ParseManifestKey(key, ensemble).value;
    if ParseAllocationID(Print(id)) == Some(id) {
      Parsed(Print(id));
      if !id.standby {
        PrimaryKeyIs(key, ensemble);
      }
    }
    if '_' !in ensemble && (id.standby || !Contains(key, "standby")) {
      AcceptedKey(key, ensemble);
      AcceptedPrints(id);
    }
  }

  lemma NewStandbyPrints(ensemble: string, primary: string, name: string, index: int)
    requires IsInt(index) && '_' !in ensemble && StandbyShape(primary, name, index)
    ensures ParseAllocationID(Print(NewStandbyAllocationID(ensemble, primary, name, index))) ==
            Some(Identifier(ensemble, StandbyNode(primary, index), name, true, index))
  {
    CleanBeforeMarker(primary);
    var made := NewStandbyAllocationID(ensemble, primary, name, index);
    PrintIsEnsembleAndKey(made);
    ParseStandbyPrinted(ensemble, primary, name, index);
    ParseAfterEnsemble(ensemble, StandbyNode(primary, index) + "." + name);
  }

  lemma AcceptedStandbyIs(id: Identifier, primary: string)
    requires Accepted(id) && id.standby && id.node == StandbyNode(primary, id.index)
    ensures '_' !in id.ensemble && StandbyShape(primary, id.name, id.index)
  {
    var p :| id.node == StandbyNode(p, id.index) && StandbyShape(p, id.name, id.index);
    SamePrimary(p, primary, id.index);
  }

  lemma SamePrimary(p: string, q: string, index: int)
    requires StandbyNode(p, index) == StandbyNode(q, index)
    ensures p == q
  {
    SuffixesCancel(p, q, STANDBY, Itoa(index));
  }

  lemma SuffixesCancel(a: string, b: string, mid: string, end: string)
    requires a + mid + end == b + mid + end
    ensures a == b
  {
    SuffixCancels(a + mid, b + mid, end);
    SuffixCancels(a, b, mid);
  }

  /** A constructed standby identifier survives printing and parsing exactly when the ensemble has no
      underscore, the name has no dot and no marker, and the primary neither contains the marker nor
      ends in "-standby". */
  lemma StandbyRoundTripIff(ensemble: string, primary: string, name: string, index: int)
    requires IsInt(index)
    ensures ParseAllocationID(Print(NewStandbyAllocationID(ensemble, primary, name, index))) ==
            Some(Identifier(ensemble, StandbyNode(primary, index), name, true, index))
            <==>
            && '_' !in ensemble && '.' !in name && !Contains(name, STANDBY)
            && !Contains(primary, STANDBY) && !EndsWith(primary, "-standby")
  {
    var id := Identifier(ensemble, StandbyNode(primary, index), name, true, index);
    var printed := Print(NewStandbyAllocationID(ensemble, primary, name, index));
    CleanBeforeMarker(primary);
    if ParseAllocationID(printed) == Some(id) {
      Parsed(printed);
      AcceptedStandbyIs(id, primary);
    }
    if StandbyShape(primary, name, index) && '_' !in ensemble {
      NewStandbyPrints(ensemble, primary, name, index);
    }
  }

  lemma MarkerContainsStandby(s: string)
    requires Contains(s, STANDBY)
    ensures Contains(s, "standby")
  {
    var i := Find(s, STANDBY, 0);
    MarkerMiddle();
    PartOccurs(s, STANDBY, i, 1, 8);
  }

  lemma MarkerMiddle()
    ensures STANDBY[1..8] == "standby"
  {
    var word, mid := "standby", STANDBY[1..8];
    assert mid[0] == word[0] && mid[1] == word[1] && mid[2] == word[2] && mid[3] == word[3];
    assert mid[4] == word[4] && mid[5] == word[5] && mid[6] == word[6];
    assert mid == word;
  }

  lemma PartOccurs(s: string, sub: string, i: nat, a: nat, b: nat)
    requires OccursAt(s, sub, i) && a <= b <= |sub|
    ensures OccursAt(s, sub[a..b], i + a)
  {
    forall k | a <= k < b
      ensures s[i + k] == sub[k]
    {
      CharacterOf(s, sub, i, k);
    }
    assert s[i + a..i + b] == sub[a..b];
  }

  /** A constructed primary identifier survives printing and parsing exactly when the ensemble has no
      underscore, node and name have no dot, and the word "standby" appears nowhere in its key. */
  lemma PrimaryRoundTripIff(ensemble: string, node: string, name: string)
    ensures var id := NewAllocationID(ensemble, node, name);
            ParseAllocationID(Print(id)) == Some(id)
            <==>
            '_' !in ensemble && '.' !in node && '.' !in name && !Contains(node + "." + name, "standby")
  {
    var id := NewAllocationID(ensemble, node, name);
    if ParseAllocationID(Print(id)) == Some(id) {
      Parsed(Print(id));
    }
    if '_' !in ensemble && '.' !in node && '.' !in name && !Contains(node + "." + name, "standby") {
      if Contains(node + "." + name, STANDBY) {
        MarkerContainsStandby(node + "." + name);
      }
      AcceptedPrints(id);
    }
  }

  lemma SuffixCancels(a: string, b: string, end: string)
    requires a + end == b + end
    ensures a == b
  {
    assert |a| == |b|;
    assert (a + end)[..|a|] == a && (b + end)[..|b|] == b;
  }

  /** The node name of a standby identifier gives back primary and index, under the same condition on
      the primary and no other. */
  lemma NodeNameRoundTripIff(primary: string, index: int)
    requires IsInt(index)
    ensures ParseNodeName(StandbyNode(primary, index)) == (true, primary, index)
            <==> !Contains(primary, STANDBY) && !EndsWith(primary, "-standby")
  {
    var node := StandbyNode(primary, index);
    CleanBeforeMarker(primary);
    NoMarkerAtIndex(index, "");
    AtoiItoa(index);
    if CleanBefore(primary, STANDBY) {
      SplitTwo(primary, STANDBY, Itoa(index));
      FindAfterClean(primary, STANDBY, Itoa(index));
    } else if ParseNodeName(node) == (true, primary, index) {
      SplitTwoInverse(node, STANDBY);
      assert false;
    }
  }

  /** `node` is a primary name, the marker and a number. */
  ghost predicate NamesStandby(node: string, primary: string, digits: string, index: int) {
    && node == primary + STANDBY + digits && CleanBefore(primary, STANDBY) && !Contains(digits, STANDBY)
    && Atoi(digits) == Some(index)
  }

  /** Every node name is read as a standby name exactly when it is one, and otherwise as the name of a
      primary with index zero. */
  lemma NodeNameIs(node: string)
    ensures ParseNodeName(node).0 <==> exists primary, digits, index :: NamesStandby(node, primary, digits, index)
    ensures if ParseNodeName(node).0
            then exists digits :: NamesStandby(node, ParseNodeName(node).1, digits, ParseNodeName(node).2)
            else ParseNodeName(node) == (false, node, 0)
  {
    var parts := Split(node, STANDBY);
    if ParseNodeName(node).0 {
      SplitTwoInverse(node, STANDBY);
      assert NamesStandby(node, parts[0], parts[1], ParseNodeName(node).2);
    }
    if exists primary, digits, index :: NamesStandby(node, primary, digits, index) {
      var primary, digits, index :| NamesStandby(node, primary, digits, index);
      SplitTwo(primary, STANDBY, digits);
      FindAfterClean(primary, STANDBY, digits);
    }
  }

  /** The generators refuse exactly an empty part, and an index below one. */
  lemma GeneratorsRefuseIff(ensemble: string, node: string, name: string, index: int)
    ensures GenerateStandbyNodeID(node, index).None? <==> node == "" || index <= 0
    ensures GenerateManifestKey(node, name).None? <==> |node| * |name| == 0
    ensures GenerateFullAllocationID(ensemble, node, name).None? <==> "" in {ensemble, node, name}
    ensures GenerateFullAllocationID(ensemble, node, name).Some? ==>
              GenerateManifestKey(node, name).Some? &&
              GenerateFullAllocationID(ensemble, node, name).value ==
              ensemble + "_" + GenerateManifestKey(node, name).value
  {
    assert |node| * |name| == 0 <==> |node| == 0 || |name| == 0;
    if ensemble != "" && node != "" && name != "" {
      assert ensemble + "_" + node + "." + name == ensemble + "_" + (node + "." + name);
    }
  }

  /** The generators build the string that a standby identifier prints, for positive indices and
      non-empty names, exactly when the primary does not contain the marker already. */
  lemma GeneratorsAgreeIff(ensemble: string, primary: string, name: string, index: int)
    requires index >= 1 && ensemble != "" && primary != "" && name != ""
    ensures GenerateStandbyNodeID(primary, index) == Some(StandbyNode(primary, index))
    ensures GenerateFullAllocationID(ensemble, StandbyNode(primary, index), name) ==
            Some(Print(NewStandbyAllocationID(ensemble, primary, name, index)))
            <==> !Contains(primary, STANDBY)
    ensures GenerateManifestKey(StandbyNode(primary, index), name) ==
            Some(ManifestKey(NewStandbyAllocationID(ensemble, primary, name, index)))
            <==> !Contains(primary, STANDBY)
  {
    var id := NewStandbyAllocationID(ensemble, primary, name, index);
    if Contains(primary, STANDBY) {
      assert |Print(id)| < |ensemble + "_" + StandbyNode(primary, index) + "." + name|;
      assert |ManifestKey(id)| < |StandbyNode(primary, index) + "." + name|;
    } else {
      assert Print(id) == ensemble + "_" + StandbyNode(primary, index) + "." + name;
      assert ManifestKey(id) == StandbyNode(primary, index) + "." + name;
    }
  }
}
