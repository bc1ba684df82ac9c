/** The bounded command history and the favourites list. */
module HistoryFavorites {
  import opened Numbers

  const HISTORY_LIMIT := 20

  // ---- history, most recent first ----

  /** push_history: a repeat of the most recent command is ignored, the oldest entry gives way. */
  function Push(h: seq<string>, cmd: string): seq<string> {
    if h != [] && h[0] == cmd then h
    else if |h| >= HISTORY_LIMIT then [cmd] + h[..|h| - 1]
    else [cmd] + h
  }

  function PushAll(h: seq<string>, sent: seq<string>): seq<string> {
    if sent == [] then h else Push(PushAll(h, sent[..|sent| - 1]), sent[|sent| - 1])
  }

  /** The same list without a limit. */
  function Unbounded(h: seq<string>, sent: seq<string>): seq<string> {
    if sent == [] then h
    else
      var before := Unbounded(h, sent[..|sent| - 1]);
      if before != [] && before[0] == sent[|sent| - 1] then before else [sent[|sent| - 1]] + before
  }

  /** Most recent first. */
  function Reversed(s: seq<string>): (r: seq<string>)
    ensures |r| == |s|
  {
    if s == [] then [] else [s[|s| - 1]] + Reversed(s[..|s| - 1])
  }

  /** Adjacent repeats collapsed. */
  function Collapse(s: seq<string>): (r: seq<string>)
    ensures s != [] ==> r != [] && r[0] == s[0]
  {
    if |s| <= 1 then s
    else if s[0] == s[1] then Collapse(s[1..])
    else [s[0]] + Collapse(s[1..])
  }

  function Take(s: seq<string>, n: nat): seq<string> {
    if |s| <= n then s else s[..n]
  }

  /**
    The bounded history is the front of the unbounded one. Started from a loaded list longer
    than the limit it keeps that length: it never shrinks to the limit by itself.
   */
  lemma {:induction false} HistoryIsFront(h: seq<string>, sent: seq<string>)
    ensures PushAll(h, sent) == Take(Unbounded(h, sent), Max(20, |h|))
  {
    if sent != [] {
      HistoryIsFront(h, sent[..|sent| - 1]);
      UnboundedGrows(h, sent[..|sent| - 1]);
      PushOnFront(Unbounded(h, sent[..|sent| - 1]), Max(HISTORY_LIMIT, |h|), sent[|sent| - 1]);
    }
  }

  lemma {:induction false} UnboundedGrows(h: seq<string>, sent: seq<string>)
    ensures |Unbounded(h, sent)| >= |h|
  {
    if sent != [] {
      UnboundedGrows(h, sent[..|sent| - 1]);
    }
  }

  /** A push on the front of a list is the front of the list with the push. */
  lemma PushOnFront(u: seq<string>, n: nat, cmd: string)
    requires n >= HISTORY_LIMIT && (n > HISTORY_LIMIT ==> |u| >= n)
    ensures Push(Take(u, n), cmd)
            == Take(if u != [] && u[0] == cmd then u else [cmd] + u, n)
  {
  }

  /** Without a limit, a history started empty lists what was sent, repeats collapsed. */
  lemma {:induction false} UnboundedIsCollapsed(sent: seq<string>)
    ensures Unbounded([], sent) == Collapse(Reversed(sent))
  {
    if sent != [] {
      var before := sent[..|sent| - 1];
      UnboundedIsCollapsed(before);
      assert Reversed(sent)[1..] == Reversed(before);
    }
  }

  /** The history of a session that starts empty. */
  lemma {:induction false} HistoryOfSession(sent: seq<string>)
    ensures PushAll([], sent) == Take(Collapse(Reversed(sent)), 20)
  {
    HistoryIsFront([], sent);
    UnboundedIsCollapsed(sent);
  }

  lemma {:induction false} CollapseHasNoRepeats(s: seq<string>, i: int)
    requires 0 <= i < |Collapse(s)| - 1
    ensures Collapse(s)[i] != Collapse(s)[i + 1]
    decreases s
  {
    if |s| > 1 {
      if s[0] == s[1] {
        CollapseHasNoRepeats(s[1..], i);
      } else if i > 0 {
        CollapseHasNoRepeats(s[1..], i - 1);
      }
    }
  }

  lemma {:induction false} CollapseKeepsMembers(s: seq<string>, x: string)
    ensures x in Collapse(s) <==> x in s
  {
    if |s| > 1 {
      CollapseKeepsMembers(s[1..], x);
      assert s == [s[0]] + s[1..];
    }
  }

  lemma {:induction false} ReversedMembers(s: seq<string>, x: string)
    ensures x in Reversed(s) <==> x in s
    ensures s != [] ==> Reversed(s)[0] == s[|s| - 1]
  {
    if s != [] {
      ReversedMembers(s[..|s| - 1], x);
      assert s == s[..|s| - 1] + [s[|s| - 1]];
    }
  }

  /**
    What the history of a session that starts empty looks like: at most 20 commands that were
    sent, the last one first, no command directly below itself.
   */
  lemma HistoryShape(sent: seq<string>)
    ensures var h := PushAll([], sent);
            && |h| <= 20 && (forall x :: x in h ==> x in sent)
            && (sent != [] ==> h != [] && h[0] == sent[|sent| - 1])
            && forall i :: 0 <= i < |h| - 1 ==> h[i] != h[i + 1]
  {
    hide Collapse, Reversed, PushAll;
    HistoryOfSession(sent);
    var h, all := PushAll([], sent), Collapse(Reversed(sent));
    ReversedMembers(sent, "");
    CollapseStarts(Reversed(sent));
    forall i | 0 <= i < |h| - 1 ensures h[i] != h[i + 1] {
      CollapseHasNoRepeats(Reversed(sent), i);
    }
    forall x | x in h ensures x in sent {
      assert x in all;
      CollapseKeepsMembers(Reversed(sent), x);
      ReversedMembers(sent, x);
    }
  }

  lemma CollapseStarts(s: seq<string>)
    ensures s != [] ==> Collapse(s) != [] && Collapse(s)[0] == s[0]
    ensures s == [] ==> Collapse(s) == []
  {
  }

  // ---- favourites ----

  predicate Distinct(s: seq<string>) {
    forall i, j :: 0 <= i < j < |s| ==> s[i] != s[j]
  }

  /** s without its first occurrence of c. */
  function RemoveFirst(s: seq<string>, c: string): seq<string> {
    if s == [] then [] else if s[0] == c then s[1..] else [s[0]] + RemoveFirst(s[1..], c)
  }

  /** toggle_favorite's effect on the list. */
  function Toggle(s: seq<string>, c: string): seq<string> {
    if c in s then RemoveFirst(s, c) else s + [c]
  }

  /** What is removed is one entry, the first that equals c. */
  lemma {:induction false} RemoveFirstAt(s: seq<string>, c: string) returns (i: nat)
    requires c in s
    ensures i < |s| && s[i] == c && c !in s[..i] && RemoveFirst(s, c) == s[..i] + s[i + 1..]
  {
    if s[0] == c {
      i := 0;
    } else {
      var j := RemoveFirstAt(s[1..], c);
      i := j + 1;
      assert s[..i] == [s[0]] + s[1..][..j];
      assert s[1..][j + 1..] == s[i + 1..];
    }
  }

  lemma WithoutIndex(s: seq<string>, i: nat)
    requires Distinct(s) && i < |s|
    ensures Distinct(s[..i] + s[i + 1..])
  {
  }

  lemma MembersWithoutIndex(s: seq<string>, i: nat, x: string)
    requires Distinct(s) && i < |s|
    ensures x in s[..i] + s[i + 1..] <==> x in s && x != s[i]
  {
  }

  /** Distinct favourites stay distinct, and exactly the toggled command changes sides. */
  lemma ToggleKeepsDistinct(s: seq<string>, c: string)
    requires Distinct(s)
    ensures Distinct(Toggle(s, c))
    ensures forall x :: x in Toggle(s, c) <==> if x == c then c !in s else x in s
  {
    if c in s {
      var i := RemoveFirstAt(s, c);
      WithoutIndex(s, i);
      hide Distinct, RemoveFirst;
      forall x ensures x in Toggle(s, c) <==> if x == c then c !in s else x in s {
        MembersWithoutIndex(s, i, x);
      }
    }
  }

  lemma {:induction false} RemoveLast(s: seq<string>, c: string)
    requires c !in s
    ensures RemoveFirst(s + [c], c) == s
  {
    if s == [] {
      assert s + [c] == [c];
    } else {
      assert (s + [c])[1..] == s[1..] + [c];
      RemoveLast(s[1..], c);
    }
  }

  /** Moving an entry to the end changes nothing exactly when it was there already. */
  lemma MoveToEnd(s: seq<string>, i: nat, c: string)
    requires Distinct(s) && i < |s| && s[i] == c
    ensures s[..i] + s[i + 1..] + [c] == s <==> s[|s| - 1] == c
  {
  }

  /**
    Toggling twice restores the list exactly when the command was no favourite or was the
    last one; otherwise it has moved to the end.
   */
  lemma ToggleTwice(s: seq<string>, c: string)
    requires Distinct(s)
    ensures Toggle(Toggle(s, c), c) == s <==> c !in s || s[|s| - 1] == c
    ensures c in s ==> Toggle(Toggle(s, c), c) == RemoveFirst(s, c) + [c]
  {
    hide Distinct, RemoveFirst;
    if c !in s {
      RemoveLast(s, c);
    } else {
      ToggleKeepsDistinct(s, c);
      var i := RemoveFirstAt(s, c);
      MoveToEnd(s, i, c);
    }
  }
}
