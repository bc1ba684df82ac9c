/** The command names offered to the user: the server's list without private helpers, sorted. */
module CommandNames {

  /** Names that start with an underscore are helpers of other macros. */
  predicate Public(name: string) {
    name != "" && name[0] != '_'
  }

  function PublicNames(names: seq<string>): seq<string> {
    if names == [] then []
    else
      var n := |names| - 1;
      if Public(names[n]) then PublicNames(names[..n]) + [names[n]] else PublicNames(names[..n])
  }

  /** Lexicographic order. */
  predicate AtMost(a: string, b: string) {
    a == "" || (b != "" && (a[0] < b[0] || (a[0] == b[0] && AtMost(a[1..], b[1..]))))
  }

  lemma {:induction false} OrderIsTotal(a: string, b: string)
    ensures AtMost(a, b) || AtMost(b, a)
    ensures AtMost(a, b) && AtMost(b, a) ==> a == b
  {
    if a != "" && b != "" {
      OrderIsTotal(a[1..], b[1..]);
      assert a == [a[0]] + a[1..] && b == [b[0]] + b[1..];
    }
  }

  lemma {:induction false} OrderIsTransitive(a: string, b: string, c: string)
    requires AtMost(a, b) && AtMost(b, c)
    ensures AtMost(a, c)
  {
    if a != "" && a[0] == b[0] == c[0] {
      OrderIsTransitive(a[1..], b[1..], c[1..]);
    }
  }

  /** A prefix comes first; otherwise the first differing character decides. */
  lemma {:induction false} OrderByFirstDifference(a: string, b: string)
    ensures AtMost(a, b) <==> a <= b || exists i :: DifferFirstAt(a, b, i) && a[i] < b[i]
  {
    if a != "" && b != "" {
      var c, d := a[1..], b[1..];
      assert a == [a[0]] + c && b == [b[0]] + d;
      OrderByFirstDifference(c, d);
      if a[0] < b[0] {
        assert DifferFirstAt(a, b, 0);
      } else if a[0] == b[0] {
        if i :| DifferFirstAt(c, d, i) && c[i] < d[i] {
          assert a[..i + 1] == [a[0]] + c[..i] && b[..i + 1] == [b[0]] + d[..i];
          assert DifferFirstAt(a, b, i + 1);
        }
      }
      if i :| DifferFirstAt(a, b, i) && a[i] < b[i] {
        if i > 0 {
          EqualStarts(a, b, i);
          assert DifferFirstAt(c, d, i - 1);
        }
      }
    }
  }

  lemma EqualStarts(a: string, b: string, i: int)
    requires 0 < i <= |a| && i <= |b| && a[..i] == b[..i]
    ensures a[0] == b[0] && a[1..][..i - 1] == b[1..][..i - 1]
  {
    assert a[0] == a[..i][0] && b[0] == b[..i][0];
    assert a[1..][..i - 1] == a[..i][1..] && b[1..][..i - 1] == b[..i][1..];
  }

  predicate DifferFirstAt(a: string, b: string, i: int) {
    0 <= i < |a| && i < |b| && a[..i] == b[..i] && a[i] != b[i]
  }

  predicate Ordered(s: seq<string>) {
    forall i, j :: 0 <= i < j < |s| ==> AtMost(s[i], s[j])
  }

  function Insert(x: string, s: seq<string>): seq<string> {
    if s == [] || AtMost(x, s[0]) then [x] + s else [s[0]] + Insert(x, s[1..])
  }

  function Sort(s: seq<string>): seq<string> {
    if s == [] then [] else Insert(s[0], Sort(s[1..]))
  }

  /** A least name in front of a sorted list. */
  lemma FrontOrders(x: string, s: seq<string>)
    requires Ordered(s) && forall c :: c in multiset(s) ==> AtMost(x, c)
    ensures Ordered([x] + s)
  {
    hide AtMost;
    forall i | 0 <= i < |s| ensures AtMost(x, s[i]) {
      assert s[i] in multiset(s);
    }
  }

  lemma HeadIsLeast(s: seq<string>, c: string)
    requires Ordered(s) && c in multiset(s)
    ensures AtMost(s[0], c)
  {
    hide AtMost;
    OrderIsTotal(c, c);
  }

  lemma SplitHead(s: seq<string>)
    requires s != []
    ensures multiset(s) == multiset{s[0]} + multiset(s[1..])
  {
    assert s == [s[0]] + s[1..];
  }

  lemma {:induction false} InsertAdds(x: string, s: seq<string>)
    ensures multiset(Insert(x, s)) == multiset(s) + multiset{x}
  {
    hide AtMost;
    if s != [] {
      SplitHead(s);
      InsertAdds(x, s[1..]);
    }
  }

  lemma {:induction false} InsertOrders(x: string, s: seq<string>)
    requires Ordered(s)
    ensures Ordered(Insert(x, s))
  {
    hide AtMost, Ordered;
    if s == [] {
      assert Insert(x, s) == [x];
      SingleIsOrdered(x);
    } else {
      OrderIsTotal(x, s[0]);
      if AtMost(x, s[0]) {
        forall c | c in multiset(s) ensures AtMost(x, c) {
          HeadIsLeast(s, c);
          OrderIsTransitive(x, s[0], c);
        }
        FrontOrders(x, s);
      } else {
        TailIsOrdered(s);
        InsertOrders(x, s[1..]);
        InsertAdds(x, s[1..]);
        forall c | c in multiset(Insert(x, s[1..])) ensures AtMost(s[0], c) {
          if c != x {
            SplitHead(s);
            HeadIsLeast(s, c);
          }
        }
        FrontOrders(s[0], Insert(x, s[1..]));
      }
    }
  }

  lemma SingleIsOrdered(x: string)
    ensures Ordered([x]) && Ordered([])
  {
  }

  lemma TailIsOrdered(s: seq<string>)
    requires Ordered(s) && s != []
    ensures Ordered(s[1..])
  {
    hide AtMost;
  }

  lemma {:induction false} SortOrders(s: seq<string>)
    ensures Ordered(Sort(s)) && multiset(Sort(s)) == multiset(s)
  {
    hide AtMost, Ordered;
    if s == [] {
      SingleIsOrdered("");
    } else {
      SplitHead(s);
      SortOrders(s[1..]);
      InsertOrders(s[0], Sort(s[1..]));
      InsertAdds(s[0], Sort(s[1..]));
    }
  }

  /** Two sorted arrangements of the same names are the same, so it does not matter how one sorts. */
  lemma {:induction false} SortedOnce(a: seq<string>, b: seq<string>)
    requires Ordered(a) && Ordered(b) && multiset(a) == multiset(b)
    ensures a == b
  {
    hide AtMost, Ordered;
    if a == [] {
      assert |multiset(b)| == 0;
    } else {
      SplitHead(a);
      assert b != [] by {
        assert a[0] in multiset(b);
      }
      SplitHead(b);
      assert b[0] in multiset(a) && a[0] in multiset(b);
      HeadIsLeast(a, b[0]);
      HeadIsLeast(b, a[0]);
      OrderIsTotal(a[0], b[0]);
      TailIsOrdered(a);
      TailIsOrdered(b);
      assert multiset(a[1..]) == multiset(a) - multiset{a[0]} == multiset(b[1..]);
      SortedOnce(a[1..], b[1..]);
      assert a == [a[0]] + a[1..] && b == [b[0]] + b[1..];
    }
  }

  lemma {:induction false} PublicNamesSelect(names: seq<string>, c: string)
    ensures multiset(PublicNames(names))[c] == if Public(c) then multiset(names)[c] else 0
  {
    if names != [] {
      var n := |names| - 1;
      PublicNamesSelect(names[..n], c);
      assert names == names[..n] + [names[n]];
    }
  }

  function CommandList(names: seq<string>): seq<string> {
    Sort(PublicNames(names))
  }

  /** The list is sorted, holds every public name as often as it was sent, and nothing else. */
  lemma CommandListSelects(names: seq<string>)
    ensures Ordered(CommandList(names))
    ensures forall c :: multiset(CommandList(names))[c]
                        == if c == "" || c[0] == '_' then 0 else multiset(names)[c]
  {
    hide Ordered;
    SortOrders(PublicNames(names));
    forall c
      ensures multiset(CommandList(names))[c] == if c == "" || c[0] == '_' then 0 else multiset(names)[c]
    {
      PublicNamesSelect(names, c);
    }
  }

  /** The loop over the server's answer, and the sort after it. */
  method CollectNames(names: seq<string>) returns (all: seq<string>)
    ensures all == CommandList(names)
  {
    hide Sort;
    all := [];
    for i := 0 to |names|
      invariant all == PublicNames(names[..i])
    {
      assert names[..i + 1][..i] == names[..i];
      if names[i] != "" && names[i][0] != '_' {
        all := all + [names[i]];
      }
    }
    assert names[..|names|] == names;
    all := Sort(all);
  }
}
