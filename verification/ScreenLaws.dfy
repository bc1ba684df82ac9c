/** What the keys and taps of the command browser do, told by what the user then sees. */
module ScreenLaws {
  import opened Numbers
  import opened Options
  import opened Keywords
  import opened HistoryFavorites
  import opened CommandNames
  import opened Screens

  // ---- up and down ----

  /** How many rows there are to move over. */
  function Rows(s: Screen): int {
    if s.level == CategoryLevel then |s.displayCats| else |Shown(s)|
  }

  function Repeated(e: UiEvent, k: nat): seq<UiEvent> {
    seq(k, _ => e)
  }

  /** From row h, k taps on Down lead k rows further, or to the last row; nothing else changes. */
  lemma {:induction false} DownsMove(s: Screen, k: nat, defs: seq<CatDef>)
    requires 0 <= s.highlight < Rows(s)
    ensures After(s, Repeated(TapDown, k), defs) == s.(highlight := Min(s.highlight + k, Rows(s) - 1))
  {
    hide Matching, ToUpper, Take;
    if k > 0 {
      assert Repeated(TapDown, k)[..k - 1] == Repeated(TapDown, k - 1);
      DownsMove(s, k - 1, defs);
    }
  }

  /** And k taps on Up lead k rows back, or to the first row. */
  lemma {:induction false} UpsMove(s: Screen, k: nat, defs: seq<CatDef>)
    requires 0 <= s.highlight < Rows(s)
    ensures After(s, Repeated(TapUp, k), defs) == s.(highlight := Max(s.highlight - k, 0))
  {
    hide Matching, ToUpper, Take;
    if k > 0 {
      assert Repeated(TapUp, k)[..k - 1] == Repeated(TapUp, k - 1);
      UpsMove(s, k - 1, defs);
    }
  }

  /** Up undoes a Down that moved, and Down an Up that moved. */
  lemma UpUndoesDown(s: Screen, defs: seq<CatDef>)
    requires 0 <= s.highlight < Rows(s)
    ensures s.highlight + 1 < Rows(s) ==> After(s, [TapDown, TapUp], defs) == s
    ensures s.highlight > 0 ==> After(s, [TapUp, TapDown], defs) == s
  {
    hide Matching, ToUpper, Take;
    AfterTwo(s, TapDown, TapUp, defs);
    AfterTwo(s, TapUp, TapDown, defs);
  }

  /** With no row highlighted either key highlights the first; without rows neither does anything. */
  lemma FirstKey(s: Screen, e: UiEvent, defs: seq<CatDef>)
    requires e == TapUp || e == TapDown
    ensures s.highlight < 0 < Rows(s) ==> After(s, [e], defs) == s.(highlight := 0)
    ensures Rows(s) == 0 ==> After(s, [e], defs) == s
  {
    hide Matching, ToUpper, Take;
    AfterOne(s, e, defs);
  }

  lemma AfterOne(s: Screen, e: UiEvent, defs: seq<CatDef>)
    ensures After(s, [e], defs) == Next(s, e, defs)
  {
    assert [e][..0] == [];
  }

  lemma AfterTwo(s: Screen, e: UiEvent, f: UiEvent, defs: seq<CatDef>)
    ensures After(s, [e, f], defs) == Next(Next(s, e, defs), f, defs)
  {
    hide Next;
    assert [e, f][..1] == [e];
    AfterOne(s, e, defs);
  }

  // ---- the menu and the lists ----

  /**
    The menu lists the favourites first, then the recent commands, the keyword categories in
    their order and all commands last; opening it highlights its first line and changes nothing
    else, and so does going back to it from a list.
   */
  lemma MenuIsOpened(s: Screen, defs: seq<CatDef>)
    ensures var t, n := After(s, [OpenCommands], defs), |s.keywordCats|;
            && t.mode == Commands && t.level == CategoryLevel && t.highlight == 0 && |t.displayCats| == n + 3
            && t.displayCats[0] == Category("Favorites", s.favorites)
            && t.displayCats[1] == Category("Recent", s.history)
            && (forall i :: 0 <= i < n ==> t.displayCats[i + 2] == s.keywordCats[i])
            && t.displayCats[n + 2] == Category("All commands", s.allCommands)
            && t == s.(mode := Commands, level := CategoryLevel, highlight := 0, stars := [],
                       displayCats := t.displayCats)
            && (s.level == CommandListLevel ==> After(s, [TapBack], defs) == t.(mode := s.mode))
            && (s.level == CategoryLevel ==> After(s, [TapBack], defs) == s.(mode := Terminal))
  {
    AfterOne(s, OpenCommands, defs);
    AfterOne(s, TapBack, defs);
  }

  lemma {:induction false} NoFilter(cmds: seq<string>)
    ensures Matching(cmds, "") == cmds
  {
    if cmds != [] {
      NoFilter(cmds[..|cmds| - 1]);
    }
  }

  /**
    Tapping a line of the menu opens its list, whether with the finger or, on the highlighted
    line, with OK: unfiltered, the first 60 commands in order, every star drawn, the first row
    highlighted. Any other index is ignored.
   */
  lemma CategoryIsOpened(s: Screen, idx: int, defs: seq<CatDef>)
    requires s.level == CategoryLevel
    ensures var t := After(s, [TapCategory(idx)], defs);
            if 0 <= idx < |s.displayCats| then
              var cmds := s.displayCats[idx].cmds;
              && t.level == CommandListLevel && t.activeCat == idx && t.filter == ""
              && Shown(t) == cmds[..Min(|cmds|, 60)]
              && t.highlight == (if cmds == [] then -1 else 0)
              && |t.stars| == |Shown(t)|
              && (forall i :: 0 <= i < |t.stars| ==> (t.stars[i] <==> cmds[i] in s.favorites))
              && t == s.(level := CommandListLevel, activeCat := idx, filter := "",
                         highlight := t.highlight, stars := t.stars)
            else t == s
    ensures After(s, [TapOk], defs) == After(s, [TapCategory(s.highlight)], defs)
  {
    hide Matching, ToUpper, StarsFor;
    AfterOne(s, TapCategory(idx), defs);
    AfterOne(s, TapCategory(s.highlight), defs);
    AfterOne(s, TapOk, defs);
    EmptyFilter();
    if 0 <= idx < |s.displayCats| {
      NoFilter(s.displayCats[idx].cmds);
      assert s.displayCats[idx].cmds[..|s.displayCats[idx].cmds|] == s.displayCats[idx].cmds;
    }
  }

  lemma EmptyFilter()
    ensures ToUpper("") == ""
  {
  }

  /**
    Tapping a row puts its command into the input line and brings the terminal to the front; OK
    does it for the highlighted row. Elsewhere nothing changes.
   */
  lemma RowIsChosen(s: Screen, row: int, defs: seq<CatDef>)
    requires s.level == CommandListLevel
    ensures After(s, [TapRow(row)], defs)
            == if 0 <= row < |Shown(s)| then s.(input := Shown(s)[row], mode := Terminal) else s
    ensures After(s, [TapOk], defs) == After(s, [TapRow(s.highlight)], defs)
  {
    hide Matching, ToUpper, Take;
    AfterOne(s, TapRow(row), defs);
    AfterOne(s, TapRow(s.highlight), defs);
    AfterOne(s, TapOk, defs);
  }

  /** A star makes its command a favourite if it was none, the last one, and else none. */
  lemma StarIsToggled(s: Screen, row: int, x: string, defs: seq<CatDef>)
    requires 0 <= row < |Shown(s)| && Distinct(s.favorites)
    ensures var t, cmd := After(s, [TapStar(row)], defs), Shown(s)[row];
            && (x in t.favorites <==> if x == cmd then cmd !in s.favorites else x in s.favorites)
            && (cmd !in s.favorites ==> t.favorites == s.favorites + [cmd])
            && t.displayCats == if OnFavorites(s)
                                then s.displayCats[s.activeCat := Category("Favorites", t.favorites)] else s.displayCats
  {
    hide Matching, ToUpper, Take, Shown;
    AfterOne(s, TapStar(row), defs);
    ToggleKeepsDistinct(s.favorites, Shown(s)[row]);
    ShownOnList(s);
  }

  lemma ShownOnList(s: Screen)
    requires Shown(s) != []
    ensures s.level == CommandListLevel && 0 <= s.activeCat < |s.displayCats|
  {
  }

  /** The terminal's own events leave the browser alone, and loading data leaves all that is shown. */
  lemma BrowserIsLeftAlone(s: Screen, e: UiEvent, defs: seq<CatDef>)
    requires e.TypeInput? || e.ClearInput? || e.Send? || e.LoadData? || e.Leave?
    ensures var t := After(s, [e], defs);
            && t.displayCats == s.displayCats && t.level == s.level && t.highlight == s.highlight
            && t.activeCat == s.activeCat && t.filter == s.filter && t.stars == s.stars && Shown(t) == Shown(s)
            && t.mode == (if e.Leave? then Terminal else s.mode)
            && (e.LoadData? ==> t.input == s.input)
  {
    hide Matching, ToUpper, Take, KeywordCats, CommandList, Push;
    AfterOne(s, e, defs);
  }

  // ---- the filter ----

  /** The same letter, in either case; other characters only equal themselves. */
  predicate SameLetter(a: char, b: char) {
    a == b || ('a' <= a <= 'z' && a as int - 32 == b as int) || ('a' <= b <= 'z' && b as int - 32 == a as int)
  }

  predicate SameIgnoringCase(s: string, t: string) {
    |s| == |t| && forall i :: 0 <= i < |s| ==> SameLetter(s[i], t[i])
  }

  lemma UpperIgnoresCase(s: string, t: string)
    ensures ToUpper(s) == ToUpper(t) <==> SameIgnoringCase(s, t)
  {
    if ToUpper(s) == ToUpper(t) {
      forall i | 0 <= i < |s| ensures SameLetter(s[i], t[i]) {
        assert ToUpper(s)[i] == ToUpper(t)[i];
      }
    }
  }

  predicate FoundAt(cmd: string, text: string, i: int) {
    0 <= i <= |cmd| - |text| && SameIgnoringCase(cmd[i..i + |text|], text)
  }

  /** A command passes the filter when the text typed occurs in it somewhere, upper or lower case. */
  lemma FilterIgnoresCase(cmd: string, text: string)
    ensures PassesFilter(cmd, ToUpper(text)) <==> exists i :: FoundAt(cmd, text, i)
  {
    hide ToUpper, SameIgnoringCase;
    forall i | 0 <= i <= |cmd| - |text|
      ensures OccursAt(ToUpper(cmd), ToUpper(text), i) <==> FoundAt(cmd, text, i)
    {
      UpperOfPart(cmd, i, i + |text|);
      UpperIgnoresCase(cmd[i..i + |text|], text);
    }
    if text == "" {
      UpperOfPart(cmd, 0, 0);
      UpperIgnoresCase(cmd[0..0], text);
      assert FoundAt(cmd, text, 0);
    }
    if i :| FoundAt(cmd, text, i) {
      assert OccursAt(ToUpper(cmd), ToUpper(text), i);
    }
  }

  lemma UpperOfPart(s: string, i: int, j: int)
    requires 0 <= i <= j <= |s|
    ensures ToUpper(s)[i..j] == ToUpper(s[i..j])
  {
  }

  /** Typing into the filter keeps, in order, the commands of the open list that pass it, the first 60. */
  lemma FilterIsTyped(s: Screen, text: string, defs: seq<CatDef>)
    requires s.level == CommandListLevel && 0 <= s.activeCat < |s.displayCats|
    ensures var t, src := After(s, [TypeFilter(text)], defs), s.displayCats[s.activeCat].cmds;
            var all := Matching(src, ToUpper(text));
            && Shown(t) == all[..Min(|all|, 60)] && t.filter == text && t.displayCats == s.displayCats
            && t.highlight == (if all == [] then -1 else 0)
            && Subsequence(all, src)
            && forall c :: multiset(all)[c]
                           == if exists i :: FoundAt(c, text, i) then multiset(src)[c] else 0
  {
    hide Matching, ToUpper, StarsFor, PassesFilter, FoundAt, Subsequence;
    AfterOne(s, TypeFilter(text), defs);
    var src := s.displayCats[s.activeCat].cmds;
    var all := Matching(src, ToUpper(text));
    assert all[..|all|] == all;
    MatchingSelects(src, ToUpper(text));
    forall c ensures multiset(all)[c] == if exists i :: FoundAt(c, text, i) then multiset(src)[c] else 0 {
      FilterIgnoresCase(c, text);
    }
  }
}
