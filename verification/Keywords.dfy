/** The keyword partition of the printer's commands into browser categories. */
module Keywords {

  predicate OccursAt(s: string, needle: string, i: int) {
    0 <= i <= |s| - |needle| && s[i..i + |needle|] == needle
  }

  /** needle occurs in s. */
  predicate Contains(s: string, needle: string) {
    exists i :: 0 <= i <= |s| - |needle| && OccursAt(s, needle, i)
  }

  predicate NoBar(keys: string, i: int, j: int)
    requires 0 <= i <= j <= |keys|
  {
    forall k :: i <= k < j ==> keys[k] != '|'
  }

  /** keys[i..j] is one whole '|'-separated field. */
  predicate IsField(keys: string, i: int, j: int) {
    && 0 <= i <= j <= |keys|
    && (i == 0 || keys[i - 1] == '|')
    && (j == |keys| || keys[j] == '|')
    && NoBar(keys, i, j)
  }

  predicate FieldMatches(cmd: string, keys: string, i: int, j: int) {
    IsField(keys, i, j) && i < j && Contains(cmd, keys[i..j])
  }

  /** Some non-empty field is a substring of the command. */
  predicate Matches(cmd: string, keys: string) {
    exists i, j :: 0 <= i <= |keys| && 0 <= j <= |keys| && FieldMatches(cmd, keys, i, j)
  }

  /** strchr from position p: the next bar, or the end of the string. */
  method NextBar(keys: string, p: nat) returns (j: nat)
    requires p <= |keys|
    ensures p <= j <= |keys| && (j < |keys| ==> keys[j] == '|') && NoBar(keys, p, j)
  {
    j := p;
    while j < |keys| && keys[j] != '|'
      invariant p <= j <= |keys| && NoBar(keys, p, j)
    {
      j := j + 1;
    }
  }

  /** matches_keys: holds exactly when some non-empty field occurs in the command. */
  method MatchesKeys(cmd: string, keys: string) returns (found: bool)
    ensures found <==> Matches(cmd, keys)
  {
    hide Contains;
    var p := 0;
    while p < |keys|
      invariant 0 <= p <= |keys| && (p == 0 || keys[p - 1] == '|')
      invariant forall i, j :: FieldMatches(cmd, keys, i, j) ==> i >= p
    {
      var bar := NextBar(keys, p);
      var k := keys[p..bar];
      assert IsField(keys, p, bar);
      if k != "" && Contains(cmd, k) {
        assert FieldMatches(cmd, keys, p, bar);
        return true;
      }
      forall i, j | FieldMatches(cmd, keys, i, j) ensures i >= bar + 1 {
        FieldAfter(keys, p, bar, i, j);
      }
      if bar == |keys| {
        return false;
      }
      p := bar + 1;
    }
    return false;
  }

  /** Fields do not overlap: another field that starts later starts behind the bar. */
  lemma FieldAfter(keys: string, p: int, bar: int, i: int, j: int)
    requires IsField(keys, p, bar) && IsField(keys, i, j) && i >= p
    ensures (i == p && j == bar) || i >= bar + 1
  {
  }

  // ---- what matching means ----

  /** A needle that occurs splits the text into what is before and after it, and only such a one does. */
  lemma ContainedIsFactor(s: string, needle: string) returns (a: string, b: string)
    requires Contains(s, needle)
    ensures s == a + needle + b
  {
    var i :| 0 <= i <= |s| - |needle| && OccursAt(s, needle, i);
    a, b := s[..i], s[i + |needle|..];
    assert s == a + s[i..i + |needle|] + b;
  }

  lemma FactorIsContained(a: string, needle: string, b: string)
    ensures Contains(a + needle + b, needle)
  {
    assert OccursAt(a + needle + b, needle, |a|);
  }

  /** A single keyword matches when it is not empty and occurs. */
  lemma OneKeyword(cmd: string, key: string)
    requires '|' !in key
    ensures Matches(cmd, key) <==> key != "" && Contains(cmd, key)
  {
    hide Contains;
    assert key[0..|key|] == key;
    if key != "" && Contains(cmd, key) {
      assert FieldMatches(cmd, key, 0, |key|);
    }
  }

  /** A field within a part of the keywords is a field of that part. */
  lemma FieldOfPart(keys: string, part: string, n: int, i: int, j: int)
    requires 0 <= n <= i <= j <= n + |part| <= |keys| && keys[n..n + |part|] == part && IsField(keys, i, j)
    ensures IsField(part, i - n, j - n) && keys[i..j] == part[i - n..j - n]
  {
    assert forall k :: n <= k < n + |part| ==> keys[k] == keys[n..n + |part|][k - n];
    assert forall k :: 0 <= k < |part| ==> part[k] == keys[n + k];
  }

  /** A field of a part that bars or ends enclose is a field of the whole. */
  lemma FieldOfWhole(keys: string, part: string, n: int, i: int, j: int)
    requires 0 <= n && n + |part| <= |keys| && keys[n..n + |part|] == part && IsField(part, i, j)
    requires (n == 0 || keys[n - 1] == '|') && (n + |part| == |keys| || keys[n + |part|] == '|')
    ensures IsField(keys, n + i, n + j) && keys[n + i..n + j] == part[i..j]
  {
    assert forall k :: n <= k < n + |part| ==> keys[k] == keys[n..n + |part|][k - n];
  }

  lemma PartMatches(cmd: string, keys: string, part: string, n: int)
    requires 0 <= n && n + |part| <= |keys| && keys[n..n + |part|] == part && Matches(cmd, part)
    requires (n == 0 || keys[n - 1] == '|') && (n + |part| == |keys| || keys[n + |part|] == '|')
    ensures Matches(cmd, keys)
  {
    hide Contains, IsField;
    var i, j :| 0 <= i <= |part| && 0 <= j <= |part| && FieldMatches(cmd, part, i, j);
    FieldOfWhole(keys, part, n, i, j);
    assert FieldMatches(cmd, keys, n + i, n + j) by {
      FieldBounds(keys, n + i, n + j);
    }
  }

  lemma FieldBounds(keys: string, i: int, j: int)
    requires IsField(keys, i, j)
    ensures 0 <= i <= j <= |keys| && forall k :: i <= k < j ==> keys[k] != '|'
  {
  }

  /** Keywords joined by a bar match when either side does. */
  lemma JoinedKeywords(cmd: string, a: string, b: string)
    ensures Matches(cmd, a + "|" + b) <==> Matches(cmd, a) || Matches(cmd, b)
  {
    hide Contains, IsField;
    var keys, n := a + "|" + b, |a| + 1;
    assert keys[0..|a|] == a && keys[n..n + |b|] == b && keys[|a|] == '|';
    if Matches(cmd, a) {
      PartMatches(cmd, keys, a, 0);
    }
    if Matches(cmd, b) {
      PartMatches(cmd, keys, b, n);
    }
    if Matches(cmd, keys) {
      var i, j :| 0 <= i <= |keys| && 0 <= j <= |keys| && FieldMatches(cmd, keys, i, j);
      FieldBounds(keys, i, j);
      if j <= |a| {
        FieldOfPart(keys, a, 0, i, j);
        assert FieldMatches(cmd, a, i, j);
      } else {
        FieldOfPart(keys, b, n, i, j);
        assert FieldMatches(cmd, b, i - n, j - n);
      }
    }
  }

  // ---- the partition ----

  /** A label and its '|'-separated keywords. */
  datatype CatDef = CatDef(name: string, keys: string)

  datatype Category = Category(name: string, cmds: seq<string>)

  const OTHER := "Other"

  /** The first group whose keywords match, or the number of groups. */
  function GroupOf(cmd: string, defs: seq<CatDef>): (g: nat)
    ensures g <= |defs|
    ensures forall i :: 0 <= i < g ==> !Matches(cmd, defs[i].keys)
    ensures g < |defs| ==> Matches(cmd, defs[g].keys)
  {
    if defs == [] then 0
    else if Matches(cmd, defs[0].keys) then 0
    else
      var g := GroupOf(cmd, defs[1..]);
      assert forall i :: 1 <= i < g + 1 ==> defs[i] == defs[1..][i - 1];
      g + 1
  }

  /** The commands of one group, in input order. */
  function Members(cmds: seq<string>, defs: seq<CatDef>, g: nat): seq<string> {
    if cmds == [] then []
    else
      var rest := Members(cmds[..|cmds| - 1], defs, g);
      var last := cmds[|cmds| - 1];
      if GroupOf(last, defs) == g then rest + [last] else rest
  }

  function NameOf(defs: seq<CatDef>, g: nat): string {
    if g < |defs| then defs[g].name else OTHER
  }

  /** The categories of the first n groups (the last of all being Other), empty ones left out. */
  function Categories(cmds: seq<string>, defs: seq<CatDef>, n: nat): seq<Category> {
    if n == 0 then []
    else
      var rest := Categories(cmds, defs, n - 1);
      var ms := Members(cmds, defs, n - 1);
      if ms == [] then rest else rest + [Category(NameOf(defs, n - 1), ms)]
  }

  /** What build_keyword_cats leaves in keyword_cats. */
  function KeywordCats(cmds: seq<string>, defs: seq<CatDef>): seq<Category> {
    Categories(cmds, defs, |defs| + 1)
  }

  /** All the commands of some categories, with repetitions. */
  function Contents(cats: seq<Category>): multiset<string> {
    if cats == [] then multiset{}
    else Contents(cats[..|cats| - 1]) + multiset(cats[|cats| - 1].cmds)
  }

  lemma MembersOfOneMore(cmds: seq<string>, c: string, defs: seq<CatDef>, g: nat)
    ensures multiset(Members(cmds + [c], defs, g))
            == multiset(Members(cmds, defs, g)) + (if GroupOf(c, defs) == g then multiset{c} else multiset{})
  {
  }

  /** The members of the groups below n. */
  function MembersBelow(cmds: seq<string>, defs: seq<CatDef>, n: nat): multiset<string> {
    if n == 0 then multiset{} else MembersBelow(cmds, defs, n - 1) + multiset(Members(cmds, defs, n - 1))
  }

  /** Leaving out the empty groups loses no command. */
  lemma {:induction false} ContentsAreMembers(cmds: seq<string>, defs: seq<CatDef>, n: nat)
    ensures Contents(Categories(cmds, defs, n)) == MembersBelow(cmds, defs, n)
  {
    hide Members;
    if n > 0 {
      ContentsAreMembers(cmds, defs, n - 1);
      var rest := Categories(cmds, defs, n - 1);
      var ms := Members(cmds, defs, n - 1);
      if ms != [] {
        var cats := rest + [Category(NameOf(defs, n - 1), ms)];
        assert cats[..|cats| - 1] == rest;
      } else {
        assert multiset(ms) == multiset{};
      }
    }
  }

  /** Adding one command adds it to exactly one group. */
  lemma {:induction false} MembersBelowOneMore(cmds: seq<string>, c: string, defs: seq<CatDef>, n: nat)
    ensures MembersBelow(cmds + [c], defs, n)
            == MembersBelow(cmds, defs, n) + (if GroupOf(c, defs) < n then multiset{c} else multiset{})
  {
    hide GroupOf, Members;
    if n > 0 {
      MembersBelowOneMore(cmds, c, defs, n - 1);
      MembersOfOneMore(cmds, c, defs, n - 1);
    }
  }

  lemma {:induction false} NoMembersOfNothing(defs: seq<CatDef>, n: nat)
    ensures MembersBelow([], defs, n) == multiset{}
  {
    if n > 0 {
      NoMembersOfNothing(defs, n - 1);
    }
  }

  lemma {:induction false} EveryCommandHasAGroup(cmds: seq<string>, defs: seq<CatDef>)
    ensures MembersBelow(cmds, defs, |defs| + 1) == multiset(cmds)
  {
    hide GroupOf, MembersBelow;
    if cmds == [] {
      NoMembersOfNothing(defs, |defs| + 1);
    } else {
      var n := |cmds| - 1;
      assert cmds[..n] + [cmds[n]] == cmds;
      EveryCommandHasAGroup(cmds[..n], defs);
      MembersBelowOneMore(cmds[..n], cmds[n], defs, |defs| + 1);
    }
  }

  /** Nothing is lost or doubled: the categories hold every command as often as the input does. */
  lemma PartitionConserves(cmds: seq<string>, defs: seq<CatDef>)
    ensures Contents(KeywordCats(cmds, defs)) == multiset(cmds)
  {
    hide Contents, Categories, MembersBelow;
    ContentsAreMembers(cmds, defs, |defs| + 1);
    EveryCommandHasAGroup(cmds, defs);
  }

  /** s is t with some elements left out, the order kept. */
  predicate Subsequence(s: seq<string>, t: seq<string>) {
    if s == [] then true
    else if t == [] then false
    else if s[|s| - 1] == t[|t| - 1] && Subsequence(s[..|s| - 1], t[..|t| - 1]) then true
    else Subsequence(s, t[..|t| - 1])
  }

  /** Each element has its place in the longer list, in increasing order. */
  predicate HasPlaces(s: seq<string>, t: seq<string>, places: seq<nat>) {
    && |places| == |s|
    && (forall i :: 0 <= i < |s| ==> places[i] < |t| && t[places[i]] == s[i])
    && forall i, j :: 0 <= i < j < |s| ==> places[i] < places[j]
  }

  lemma {:induction false} SubsequenceHasPlaces(s: seq<string>, t: seq<string>) returns (places: seq<nat>)
    requires Subsequence(s, t)
    ensures HasPlaces(s, t, places)
  {
    if s == [] {
      places := [];
    } else if s[|s| - 1] == t[|t| - 1] && Subsequence(s[..|s| - 1], t[..|t| - 1]) {
      var before := SubsequenceHasPlaces(s[..|s| - 1], t[..|t| - 1]);
      places := before + [|t| - 1];
    } else {
      places := SubsequenceHasPlaces(s, t[..|t| - 1]);
    }
  }

  /** A group lists exactly the commands whose first match it is, in input order. */
  lemma {:induction false} MembersAreFirstMatches(cmds: seq<string>, defs: seq<CatDef>, g: nat)
    ensures Subsequence(Members(cmds, defs, g), cmds)
    ensures forall c :: c in Members(cmds, defs, g) <==> c in cmds && GroupOf(c, defs) == g
  {
    hide GroupOf;
    if cmds != [] {
      var n := |cmds| - 1;
      MembersAreFirstMatches(cmds[..n], defs, g);
      assert cmds == cmds[..n] + [cmds[n]];
      var rest := Members(cmds[..n], defs, g);
      if GroupOf(cmds[n], defs) == g {
        assert (rest + [cmds[n]])[..|rest|] == rest;
      }
    }
  }

  /** The groups below n that have members, in order. */
  function ShownGroups(cmds: seq<string>, defs: seq<CatDef>, n: nat): (gs: seq<nat>)
    ensures forall i :: 0 <= i < |gs| ==> gs[i] < n && Members(cmds, defs, gs[i]) != []
    ensures forall i, j :: 0 <= i < j < |gs| ==> gs[i] < gs[j]
  {
    if n == 0 then []
    else
      var rest := ShownGroups(cmds, defs, n - 1);
      if Members(cmds, defs, n - 1) != [] then rest + [n - 1] else rest
  }

  lemma {:induction false} EveryGroupIsShown(cmds: seq<string>, defs: seq<CatDef>, n: nat, g: nat)
    requires g < n && Members(cmds, defs, g) != []
    ensures g in ShownGroups(cmds, defs, n)
  {
    hide Members;
    if g < n - 1 {
      EveryGroupIsShown(cmds, defs, n - 1, g);
    }
  }

  /**
    The categories are exactly the groups that have members, each under its own label, in the
    order of the definitions, with Other last.
   */
  lemma {:induction false} CategoriesAreGroups(cmds: seq<string>, defs: seq<CatDef>, n: nat)
    ensures |Categories(cmds, defs, n)| == |ShownGroups(cmds, defs, n)|
    ensures forall i :: 0 <= i < |ShownGroups(cmds, defs, n)| ==>
              var g := ShownGroups(cmds, defs, n)[i];
              Categories(cmds, defs, n)[i]
              == Category(if g < |defs| then defs[g].name else "Other", Members(cmds, defs, g))
  {
    hide Members;
    if n > 0 {
      CategoriesAreGroups(cmds, defs, n - 1);
    }
  }

  /** build_keyword_cats, loop by loop. */
  method BuildKeywordCats(allCommands: seq<string>, defs: seq<CatDef>) returns (keywordCats: seq<Category>)
    ensures keywordCats == KeywordCats(allCommands, defs)
  {
    hide GroupOf, Matches;
    var n := |defs|;
    var groups: seq<seq<string>> := seq(n, _ => []);
    var other: seq<string> := [];
    for i := 0 to |allCommands|
      invariant |groups| == n
      invariant forall g :: 0 <= g < n ==> groups[g] == Members(allCommands[..i], defs, g)
      invariant other == Members(allCommands[..i], defs, n)
    {
      var cmd := allCommands[i];
      assert allCommands[..i + 1][..i] == allCommands[..i];
      var hit := FirstHit(cmd, defs);
      if hit >= 0 {
        groups := groups[hit := groups[hit] + [cmd]];
      } else {
        other := other + [cmd];
      }
    }
    assert allCommands[..|allCommands|] == allCommands;
    keywordCats := [];
    for g := 0 to n
      invariant keywordCats == Categories(allCommands, defs, g)
    {
      if groups[g] != [] {
        keywordCats := keywordCats + [Category(defs[g].name, groups[g])];
      }
    }
    if other != [] {
      keywordCats := keywordCats + [Category(OTHER, other)];
    }
  }

  /** The inner loop: the first matching group, or -1. */
  method FirstHit(cmd: string, defs: seq<CatDef>) returns (hit: int)
    ensures hit == (if GroupOf(cmd, defs) < |defs| then GroupOf(cmd, defs) else -1)
  {
    hit := -1;
    for i := 0 to |defs|
      invariant hit == -1 && forall k :: 0 <= k < i ==> !Matches(cmd, defs[k].keys)
    {
      var found := MatchesKeys(cmd, defs[i].keys);
      if found {
        return i;
      }
    }
  }
}
