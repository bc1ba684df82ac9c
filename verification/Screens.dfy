/**
  What the command browser shows and remembers, as a value: the step each event makes, and what
  every run of events keeps.
 */
module Screens {
  import opened Numbers
  import opened Options
  import opened Keywords
  import opened HistoryFavorites
  import opened CommandNames

  const POOL_SIZE := 60

  datatype Mode = Terminal | Commands
  datatype Level = CategoryLevel | CommandListLevel

  function UpperChar(c: char): char {
    if 'a' <= c <= 'z' then c - 'a' + 'A' else c
  }

  function ToUpper(s: string): (u: string)
    ensures |u| == |s|
  {
    seq(|s|, i requires 0 <= i < |s| => UpperChar(s[i]))
  }

  predicate PassesFilter(cmd: string, upperFilter: string) {
    upperFilter == "" || Contains(ToUpper(cmd), upperFilter)
  }

  /** The commands that pass the filter, in order. */
  function Matching(src: seq<string>, upperFilter: string): seq<string> {
    if src == [] then []
    else
      var rest := Matching(src[..|src| - 1], upperFilter);
      if PassesFilter(src[|src| - 1], upperFilter) then rest + [src[|src| - 1]] else rest
  }

  /** Matching selects exactly the passing commands and keeps their order and number. */
  lemma {:induction false} MatchingSelects(src: seq<string>, upperFilter: string)
    ensures Subsequence(Matching(src, upperFilter), src)
    ensures forall c :: multiset(Matching(src, upperFilter))[c]
                        == if PassesFilter(c, upperFilter) then multiset(src)[c] else 0
  {
    hide PassesFilter;
    if src != [] {
      var n := |src| - 1;
      MatchingSelects(src[..n], upperFilter);
      assert src == src[..n] + [src[n]];
      var rest := Matching(src[..n], upperFilter);
      if PassesFilter(src[n], upperFilter) {
        assert (rest + [src[n]])[..|rest|] == rest;
      }
    }
  }

  /** What a user or the server can do. TypeInput: the keyboard left this text in the input line. */
  datatype UiEvent =
    | OpenCommands
    | TapCategory(idx: int)
    | TapBack
    | TypeFilter(text: string)
    | TapUp
    | TapDown
    | TapOk
    | TapRow(row: int)
    | TapStar(row: int)
    | TypeInput(line: string)
    | ClearInput
    | Send
    | LoadData(history: Option<seq<string>>, favorites: Option<seq<string>>, names: Option<seq<string>>)
    | Leave

  /** Everything shown or remembered; stars are those on the rows of level 2. */
  datatype Screen = Screen(
    history: seq<string>, favorites: seq<string>, allCommands: seq<string>, keywordCats: seq<Category>,
    displayCats: seq<Category>, mode: Mode, level: Level, highlight: int, activeCat: int,
    filter: string, input: string, stars: seq<bool>)

  /** The commands on the rows of level 2: the first 60 matches of the active category. */
  function Shown(s: Screen): seq<string> {
    if s.level.CommandListLevel? && 0 <= s.activeCat < |s.displayCats|
    then Take(Matching(s.displayCats[s.activeCat].cmds, ToUpper(s.filter)), POOL_SIZE) else []
  }

  function RowCount(s: Screen): int {
    if s.level.CategoryLevel? then |s.displayCats| else |Shown(s)|
  }

  function StarsFor(rows: seq<string>, favorites: seq<string>): (stars: seq<bool>)
    ensures |stars| == |rows| && forall i :: 0 <= i < |rows| ==> (stars[i] <==> rows[i] in favorites)
  {
    seq(|rows|, i requires 0 <= i < |rows| => rows[i] in favorites)
  }

  /** A new list: the highlight goes to its first row and every star is drawn. */
  function Rebuilt(s: Screen): Screen {
    s.(highlight := if Shown(s) == [] then -1 else 0, stars := StarsFor(Shown(s), s.favorites))
  }

  /** What the category menu shows. */
  function MenuOf(favorites: seq<string>, history: seq<string>, keywordCats: seq<Category>, all: seq<string>)
    : seq<Category>
  {
    [Category("Favorites", favorites), Category("Recent", history)] + keywordCats + [Category("All commands", all)]
  }

  function ToMenu(s: Screen): Screen {
    s.(level := CategoryLevel, highlight := 0, stars := [],
       displayCats := MenuOf(s.favorites, s.history, s.keywordCats, s.allCommands))
  }

  function Entered(s: Screen, idx: int): Screen {
    if 0 <= idx < |s.displayCats| then Rebuilt(s.(level := CommandListLevel, activeCat := idx, filter := "")) else s
  }

  function Filtered(s: Screen, text: string): Screen {
    if s.level.CommandListLevel? then Rebuilt(s.(filter := text)) else s
  }

  function Moved(s: Screen, delta: int): Screen {
    if RowCount(s) == 0 then s
    else s.(highlight := if s.highlight < 0 then 0 else Max(0, Min(RowCount(s) - 1, s.highlight + delta)))
  }

  function Chosen(s: Screen, row: int): Screen {
    if 0 <= row < |Shown(s)| then s.(input := Shown(s)[row], mode := Terminal) else s
  }

  function Redrawn(stars: seq<bool>, row: int, on: bool): seq<bool> {
    if 0 <= row < |stars| then stars[row := on] else stars
  }

  /** The open category is the Favorites list. */
  predicate OnFavorites(s: Screen) {
    s.level.CommandListLevel? && 0 <= s.activeCat < |s.displayCats| && s.displayCats[s.activeCat].name == "Favorites"
  }

  /** The tapped command changes sides; the Favorites list is shown anew, elsewhere its star is redrawn. */
  function Starred(s: Screen, row: int): Screen {
    if 0 <= row < |Shown(s)| then
      var cmd := Shown(s)[row];
      var t := s.(favorites := Toggle(s.favorites, cmd));
      if OnFavorites(s)
      then Rebuilt(t.(displayCats := s.displayCats[s.activeCat := s.displayCats[s.activeCat].(cmds := t.favorites)]))
      else t.(stars := Redrawn(s.stars, row, cmd !in s.favorites))
    else s
  }

  function Loaded(s: Screen, h: Option<seq<string>>, f: Option<seq<string>>, names: Option<seq<string>>,
                  defs: seq<CatDef>): Screen {
    var all := if names.Some? then CommandList(names.value) else s.allCommands;
    s.(history := if h.Some? then h.value else s.history, favorites := if f.Some? then f.value else s.favorites,
       allCommands := all, keywordCats := KeywordCats(all, defs))
  }

  /** The input line is sent and emptied; an empty one is not sent. */
  function Sent(s: Screen): Screen {
    if s.input == "" then s else s.(history := Push(s.history, s.input), input := "")
  }

  /** What one event does. */
  function Next(s: Screen, e: UiEvent, defs: seq<CatDef>): Screen {
    match e
    case OpenCommands => ToMenu(s.(mode := Commands))
    case TapCategory(idx) => if s.level.CategoryLevel? then Entered(s, idx) else s
    case TapBack => if s.level.CommandListLevel? then ToMenu(s) else s.(mode := Terminal)
    case TypeFilter(text) => Filtered(s, text)
    case TapUp => Moved(s, -1)
    case TapDown => Moved(s, 1)
    case TapOk => if s.level.CategoryLevel? then Entered(s, s.highlight) else Chosen(s, s.highlight)
    case TapRow(row) => Chosen(s, row)
    case TapStar(row) => Starred(s, row)
    case TypeInput(line) => s.(input := line)
    case ClearInput => s.(input := "")
    case Send => Sent(s)
    case LoadData(h, f, names) => Loaded(s, h, f, names, defs)
    case Leave => s.(mode := Terminal)
  }

  /** What a run of events does. */
  function After(s: Screen, es: seq<UiEvent>, defs: seq<CatDef>): Screen {
    if es == [] then s else Next(After(s, es[..|es| - 1], defs), es[|es| - 1], defs)
  }

  // ---- the history of a run ----

  predicate LoadsHistory(e: UiEvent) {
    e.LoadData? && e.history.Some?
  }

  /** The commands sent since a history was last loaded: the input line at each Send, unless empty. */
  function SentCommands(s: Screen, es: seq<UiEvent>, defs: seq<CatDef>): seq<string> {
    if es == [] then []
    else
      var e, before := es[|es| - 1], SentCommands(s, es[..|es| - 1], defs);
      var line := After(s, es[..|es| - 1], defs).input;
      if LoadsHistory(e) then [] else if e.Send? && line != "" then before + [line] else before
  }

  /** The history last loaded, or the one at the start. */
  function BaseHistory(h: seq<string>, es: seq<UiEvent>): seq<string> {
    if es == [] then h
    else if LoadsHistory(es[|es| - 1]) then es[|es| - 1].history.value
    else BaseHistory(h, es[..|es| - 1])
  }

  /** Nothing but sending and loading touches the history. */
  lemma NextHistory(s: Screen, e: UiEvent, defs: seq<CatDef>)
    ensures Next(s, e, defs).history == if LoadsHistory(e) then e.history.value
                                        else if e.Send? && s.input != "" then Push(s.history, s.input) else s.history
  {
    hide Shown, MenuOf, KeywordCats, Toggle, Push, CommandList, StarsFor;
  }

  lemma {:induction false} HistoryIsPushed(s: Screen, es: seq<UiEvent>, defs: seq<CatDef>)
    ensures After(s, es, defs).history == PushAll(BaseHistory(s.history, es), SentCommands(s, es, defs))
  {
    hide Next, Push;
    if es != [] {
      var before, e := es[..|es| - 1], es[|es| - 1];
      HistoryIsPushed(s, before, defs);
      NextHistory(After(s, before, defs), e, defs);
      if e.Send? && After(s, before, defs).input != "" {
        var sent := SentCommands(s, es, defs);
        assert sent[..|sent| - 1] == SentCommands(s, before, defs);
      }
    }
  }

  /**
    After any run, whatever else was tapped: the history is the front of the last loaded (or
    first) one with everything sent since on top, of length 20 or of that one's if larger.
    Where that one was empty it is the first 20 of the sent commands, most recent first, with
    adjacent repeats collapsed.
   */
  lemma HistoryOfRun(s: Screen, es: seq<UiEvent>, defs: seq<CatDef>)
    ensures var h, sent, base := After(s, es, defs).history, SentCommands(s, es, defs), BaseHistory(s.history, es);
            && h == Take(Unbounded(base, sent), Max(20, |base|))
            && (base == [] ==> h == Take(Collapse(Reversed(sent)), 20))
  {
    hide After, Take, Collapse, Reversed, Unbounded;
    HistoryIsPushed(s, es, defs);
    HistoryIsFront(BaseHistory(s.history, es), SentCommands(s, es, defs));
    HistoryOfSession(SentCommands(s, es, defs));
  }

  // ---- the input line of a run ----

  /** x is a command of the open category that passes the filter. */
  predicate IsChoice(s: Screen, x: string) {
    && s.level.CommandListLevel? && 0 <= s.activeCat < |s.displayCats|
    && x in s.displayCats[s.activeCat].cmds && PassesFilter(x, ToUpper(s.filter))
  }

  lemma ShownIsChoice(s: Screen, x: string)
    requires x in Shown(s)
    ensures IsChoice(s, x)
  {
    hide Matching, PassesFilter, ToUpper, Subsequence;
    var src, f := s.displayCats[s.activeCat].cmds, ToUpper(s.filter);
    MatchingSelects(src, f);
    assert x in multiset(Matching(src, f));
  }

  /** The events that write the input line. */
  predicate WritesLine(s: Screen, e: UiEvent) {
    match e
    case TypeInput(_) => true
    case ClearInput => true
    case Send => true
    case TapRow(row) => 0 <= row < |Shown(s)|
    case TapOk => 0 <= s.highlight < |Shown(s)|
    case _ => false
  }

  /** What such an event writes: the text typed, nothing, or a command chosen from the open list. */
  predicate Writes(s: Screen, e: UiEvent, x: string) {
    match e
    case TypeInput(line) => x == line
    case ClearInput => x == ""
    case Send => x == ""
    case TapRow(_) => IsChoice(s, x)
    case TapOk => IsChoice(s, x)
    case _ => false
  }

  lemma NextInput(s: Screen, e: UiEvent, defs: seq<CatDef>)
    ensures if WritesLine(s, e) then Writes(s, e, Next(s, e, defs).input) else Next(s, e, defs).input == s.input
  {
    hide MenuOf, KeywordCats, Toggle, Push, CommandList, StarsFor, IsChoice, Matching, ToUpper;
    if (e.TapRow? || e.TapOk?) && WritesLine(s, e) {
      ShownIsChoice(s, Next(s, e, defs).input);
    }
  }

  /** x was written by event i, or for i = -1 stood in the line at the start. */
  predicate ComesFrom(s: Screen, es: seq<UiEvent>, defs: seq<CatDef>, i: int, x: string) {
    if i == -1 then x == s.input
    else 0 <= i < |es| && Writes(After(s, es[..i], defs), es[i], x)
  }

  predicate Untouched(s: Screen, es: seq<UiEvent>, defs: seq<CatDef>, j: int) {
    0 <= j < |es| ==> !WritesLine(After(s, es[..j], defs), es[j])
  }

  /**
    After any run the input line is what its last writer left: the line at the start, the text
    last typed, nothing after Clear or Send, or a command chosen from the list then open, which
    passed the filter then set.
   */
  lemma {:induction false} LineOfRun(s: Screen, es: seq<UiEvent>, defs: seq<CatDef>) returns (i: int)
    ensures -1 <= i < |es| && ComesFrom(s, es, defs, i, After(s, es, defs).input)
    ensures forall j :: i < j < |es| ==> Untouched(s, es, defs, j)
  {
    hide Next, Writes, WritesLine;
    i := -1;
    if es != [] {
      var n := |es| - 1;
      var t := After(s, es[..n], defs);
      NextInput(t, es[n], defs);
      if WritesLine(t, es[n]) {
        i := n;
      } else {
        i := LineOfRun(s, es[..n], defs);
        assert i >= 0 ==> es[..n][..i] == es[..i];
        forall j | i < j < n ensures Untouched(s, es, defs, j) {
          assert Untouched(s, es[..n], defs, j) && es[..n][..j] == es[..j];
        }
      }
    }
  }

  /** Everything sent stood in the input line at its Send. */
  lemma {:induction false} SentStoodInLine(s: Screen, es: seq<UiEvent>, defs: seq<CatDef>, c: string) returns (j: nat)
    requires c in SentCommands(s, es, defs)
    ensures j < |es| && es[j].Send? && After(s, es[..j], defs).input == c && c != ""
  {
    hide After;
    var n := |es| - 1;
    var line := After(s, es[..n], defs).input;
    if es[n].Send? && line == c && c != "" {
      j := n;
    } else {
      j := SentStoodInLine(s, es[..n], defs, c);
      assert es[..n][..j] == es[..j];
    }
  }

  /**
    So everything sent in a run is the line at the start, a text that was typed, or a command
    chosen from a list while it passed the filter; nothing wrote the line in between.
   */
  lemma SentHasSource(s: Screen, es: seq<UiEvent>, defs: seq<CatDef>, c: string) returns (i: int, j: int)
    requires c in SentCommands(s, es, defs)
    ensures -1 <= i < j < |es| && es[j].Send? && c != "" && After(s, es[..j], defs).input == c
    ensures if i == -1 then c == s.input
            else es[i] == TypeInput(c) || ((es[i].TapRow? || es[i].TapOk?) && IsChoice(After(s, es[..i], defs), c))
    ensures forall k :: i < k < j ==> Untouched(s, es, defs, k)
  {
    hide After, SentCommands, WritesLine, IsChoice;
    j := SentStoodInLine(s, es, defs, c);
    i := LineOfRun(s, es[..j], defs);
    assert i >= 0 ==> es[..j][..i] == es[..i];
    forall k | i < k < j ensures Untouched(s, es, defs, k) {
      assert Untouched(s, es[..j], defs, k) && es[..j][..k] == es[..k];
    }
  }

  // ---- favourites and stars of a run ----

  predicate LoadsDistinct(es: seq<UiEvent>) {
    forall i :: 0 <= i < |es| && es[i].LoadData? && es[i].favorites.Some? ==> Distinct(es[i].favorites.value)
  }

  /** Nothing but a star and loading touches the favourites. */
  lemma NextFavorites(s: Screen, e: UiEvent, defs: seq<CatDef>)
    ensures Next(s, e, defs).favorites
            == if e.LoadData? && e.favorites.Some? then e.favorites.value
               else if e.TapStar? && 0 <= e.row < |Shown(s)| then Toggle(s.favorites, Shown(s)[e.row]) else s.favorites
  {
    hide Shown, MenuOf, KeywordCats, Toggle, Push, CommandList, StarsFor;
  }

  /** Favourites without repeats stay so in every run. */
  lemma {:induction false} FavoritesStayDistinct(s: Screen, es: seq<UiEvent>, defs: seq<CatDef>)
    requires Distinct(s.favorites) && LoadsDistinct(es)
    ensures Distinct(After(s, es, defs).favorites)
  {
    hide Next, Shown, Toggle, Distinct;
    if es != [] {
      var before, e := es[..|es| - 1], es[|es| - 1];
      FavoritesStayDistinct(s, before, defs);
      var t := After(s, before, defs);
      NextFavorites(t, e, defs);
      if e.TapStar? && 0 <= e.row < |Shown(t)| {
        ToggleKeepsDistinct(t.favorites, Shown(t)[e.row]);
      }
    }
  }

  /** The events after which the rows were drawn anew. */
  predicate Rebuilds(s: Screen, e: UiEvent) {
    match e
    case OpenCommands => true
    case TapCategory(idx) => s.level.CategoryLevel? && 0 <= idx < |s.displayCats|
    case TapBack => s.level.CommandListLevel?
    case TypeFilter(_) => s.level.CommandListLevel?
    case TapOk => s.level.CategoryLevel? && 0 <= s.highlight < |s.displayCats|
    case TapStar(row) => 0 <= row < |Shown(s)| && OnFavorites(s)
    case _ => false
  }

  /** Favourites were loaded after the rows were last drawn. */
  predicate Outdated(s: Screen, es: seq<UiEvent>, defs: seq<CatDef>) {
    es != [] &&
    var before, e := es[..|es| - 1], es[|es| - 1];
    !Rebuilds(After(s, before, defs), e) && ((e.LoadData? && e.favorites.Some?) || Outdated(s, before, defs))
  }

  predicate StarsRight(s: Screen) {
    s.stars == StarsFor(Shown(s), s.favorites)
  }

  lemma RebuildRightsStars(s: Screen, e: UiEvent, defs: seq<CatDef>)
    requires Rebuilds(s, e)
    ensures StarsRight(Next(s, e, defs))
  {
    hide MenuOf, KeywordCats, Toggle, Matching, ToUpper, Take;
  }

  /** Without a rebuild the same rows stay, and at most the tapped star changes. */
  lemma RowsStay(s: Screen, e: UiEvent, defs: seq<CatDef>)
    requires !Rebuilds(s, e)
    ensures Shown(Next(s, e, defs)) == Shown(s)
    ensures Next(s, e, defs).stars == if e.TapStar? && 0 <= e.row < |Shown(s)|
                                      then Redrawn(s.stars, e.row, Shown(s)[e.row] !in s.favorites) else s.stars
  {
    hide MenuOf, KeywordCats, Toggle, Matching, ToUpper, Take, CommandList, Push, StarsFor;
  }

  /** On rows without repeats redrawing the tapped star is enough. */
  lemma OneStarIsEnough(rows: seq<string>, favorites: seq<string>, row: int)
    requires Distinct(rows) && Distinct(favorites) && 0 <= row < |rows|
    ensures Redrawn(StarsFor(rows, favorites), row, rows[row] !in favorites)
            == StarsFor(rows, Toggle(favorites, rows[row]))
  {
    hide Toggle;
    ToggleKeepsDistinct(favorites, rows[row]);
    assert forall i :: 0 <= i < |rows| && i != row ==> rows[i] != rows[row];
  }

  /**
    After any run, if no favourites were loaded since the rows were last drawn and the open
    list shows no command twice, every visible star is right.
   */
  lemma {:induction false} StarsOfRun(s: Screen, es: seq<UiEvent>, defs: seq<CatDef>)
    requires StarsRight(s) && Distinct(s.favorites) && LoadsDistinct(es)
    requires !Outdated(s, es, defs) && Distinct(Shown(After(s, es, defs)))
    ensures StarsRight(After(s, es, defs))
  {
    hide Next, Shown, Toggle, Distinct, Rebuilds, Redrawn, StarsFor;
    if es != [] {
      var before, e := es[..|es| - 1], es[|es| - 1];
      var t := After(s, before, defs);
      if Rebuilds(t, e) {
        RebuildRightsStars(t, e, defs);
      } else {
        RowsStay(t, e, defs);
        StarsOfRun(s, before, defs);
        FavoritesStayDistinct(s, before, defs);
        NextFavorites(t, e, defs);
        if e.TapStar? && 0 <= e.row < |Shown(t)| {
          OneStarIsEnough(Shown(t), t.favorites, e.row);
        }
      }
    }
  }

  // ---- the commands on offer ----

  /** The names the server last sent. */
  function LastNames(es: seq<UiEvent>): Option<seq<string>> {
    if es == [] then None
    else if es[|es| - 1].LoadData? && es[|es| - 1].names.Some? then es[|es| - 1].names
    else LastNames(es[..|es| - 1])
  }

  lemma NextCommands(s: Screen, e: UiEvent, defs: seq<CatDef>)
    ensures var t := Next(s, e, defs);
            && t.allCommands == (if e.LoadData? && e.names.Some? then CommandList(e.names.value) else s.allCommands)
            && t.keywordCats == (if e.LoadData? then KeywordCats(t.allCommands, defs) else s.keywordCats)
  {
    hide Shown, MenuOf, KeywordCats, Toggle, Push, CommandList, StarsFor;
  }

  lemma {:induction false} CommandsAreLoaded(s: Screen, es: seq<UiEvent>, defs: seq<CatDef>)
    requires LastNames(es).Some?
    ensures var t := After(s, es, defs);
            t.allCommands == CommandList(LastNames(es).value) && t.keywordCats == KeywordCats(t.allCommands, defs)
  {
    hide Next, CommandList, KeywordCats;
    var before, e := es[..|es| - 1], es[|es| - 1];
    NextCommands(After(s, before, defs), e, defs);
    if !(e.LoadData? && e.names.Some?) {
      CommandsAreLoaded(s, before, defs);
    }
  }

  /**
    After any run the full list is sorted, and it and the keyword categories taken together
    hold exactly the public names the server last sent, each as often as it was sent.
   */
  lemma CommandsOfRun(s: Screen, es: seq<UiEvent>, defs: seq<CatDef>)
    requires LastNames(es).Some?
    ensures var t, names := After(s, es, defs), LastNames(es).value;
            && Ordered(t.allCommands) && Contents(t.keywordCats) == multiset(t.allCommands)
            && forall c :: multiset(t.allCommands)[c] == if c == "" || c[0] == '_' then 0 else multiset(names)[c]
  {
    hide After, Ordered, Contents, KeywordCats, CommandList;
    CommandsAreLoaded(s, es, defs);
    CommandListSelects(LastNames(es).value);
    PartitionConserves(After(s, es, defs).allCommands, defs);
  }
}
