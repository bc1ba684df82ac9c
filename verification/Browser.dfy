/** The two-level command browser: categories, a pool of command rows, filter and highlight. */
module Browser {
  import opened Numbers
  import opened Options
  import opened Keywords
  import opened HistoryFavorites
  import opened CommandNames
  import opened Screens

  /** A pooled command row. */
  datatype Row = Row(cmd: string, favorite: bool, highlighted: bool, visible: bool)

  /** The stars on some pool rows. */
  function StarsOn(rows: seq<Row>, items: seq<int>): (stars: seq<bool>)
    ensures |stars| == |items|
    ensures forall i :: 0 <= i < |items| && 0 <= items[i] < |rows| ==> stars[i] == rows[items[i]].favorite
  {
    seq(|items|, i requires 0 <= i < |items| => 0 <= items[i] < |rows| && rows[items[i]].favorite)
  }

  class CommandBrowser {
    var history: seq<string>
    var favorites: seq<string>
    var allCommands: seq<string>
    var keywordCats: seq<Category>
    var displayCats: seq<Category>
    var mode: Mode
    var level: Level
    var highlightIndex: int
    var activeCat: int
    var filter: string
    var input: string
    /** The level-1 rows, each highlighted or not. */
    var catRows: seq<bool>
    const pool: array<Row>
    /** The keyword table the categories are built from. */
    const catDefs: seq<CatDef>
    /** Pool positions of the rows shown at level 2. */
    var visibleItems: seq<int>

    /** Level 1: one row per category, at most one highlighted, no command row visible. */
    ghost predicate CategoryView()
      reads `catRows, `displayCats, `highlightIndex, pool
    {
      && |catRows| == |displayCats| && -1 <= highlightIndex < |catRows|
      && (forall i :: 0 <= i < |catRows| ==> (catRows[i] <==> i == highlightIndex))
      && (forall i :: 0 <= i < pool.Length ==> !pool[i].visible)
    }

    /** The commands level 2 has to show. */
    function Wanted(): seq<string>
      requires 0 <= activeCat < |displayCats|
      reads `activeCat, `displayCats, `filter
    {
      Matching(displayCats[activeCat].cmds, ToUpper(filter))
    }

    /** Level 2: the first 60 matches in order, one of them highlighted, nothing else visible. */
    ghost predicate ListView()
      reads `activeCat, `displayCats, `filter, `visibleItems, `highlightIndex, pool
    {
      && 0 <= activeCat < |displayCats| && pool.Length == POOL_SIZE
      && |visibleItems| == Min(|Wanted()|, POOL_SIZE)
      && (if visibleItems == [] then highlightIndex == -1 else 0 <= highlightIndex < |visibleItems|)
      && (forall i :: 0 <= i < |visibleItems| ==>
                        && visibleItems[i] == i && pool[i].visible && pool[i].cmd == Wanted()[i]
                        && (pool[i].highlighted <==> i == highlightIndex))
      && (forall i :: |visibleItems| <= i < POOL_SIZE ==> !pool[i].visible)
    }

    /** What the fields and the visible rows say. */
    ghost function State(): Screen
      reads this, pool
    {
      Screen(history, favorites, allCommands, keywordCats, displayCats, mode, level, highlightIndex, activeCat,
             filter, input, if level.CategoryLevel? then [] else StarsOn(pool[..], visibleItems))
    }

    ghost predicate Valid()
      reads `level, `catRows, `displayCats, `highlightIndex, `activeCat, `filter, `visibleItems, pool
    {
      pool.Length == POOL_SIZE && (if level.CategoryLevel? then CategoryView() else ListView())
    }

    /** Every visible star says whether its command is a favourite. */
    ghost predicate StarsMatch()
      reads `favorites, pool
      requires pool.Length == POOL_SIZE
    {
      forall i :: 0 <= i < POOL_SIZE && pool[i].visible ==> (pool[i].favorite <==> pool[i].cmd in favorites)
    }

    constructor (defs: seq<CatDef>)
      ensures catDefs == defs && Valid() && StarsMatch() && fresh(pool)
      ensures mode == Terminal && level == CategoryLevel && highlightIndex == -1
      ensures history == [] && favorites == []
    {
      catDefs := defs;
      history, favorites, allCommands := [], [], [];
      keywordCats, displayCats := [], [];
      mode, level := Terminal, CategoryLevel;
      highlightIndex, activeCat := -1, -1;
      filter, input := "", "";
      catRows, visibleItems := [], [];
      pool := new Row[POOL_SIZE](_ => Row("", false, false, false));
    }

    // ---- highlight ----

    function NavCount(): int
      reads this
    {
      if level.CategoryLevel? then |catRows| else |visibleItems|
    }

    /** The rows are those of the specification. */
    lemma RowsAreShown()
      requires Valid()
      ensures NavCount() == RowCount(State())
      ensures level.CommandListLevel? ==>
                forall i :: 0 <= i < |visibleItems| ==> visibleItems[i] == i && pool[i].cmd == Shown(State())[i]
    {
      hide Matching, ToUpper;
    }

    /** The stars on the rows are right exactly when those of the specification are. */
    lemma StarsAreState()
      requires Valid()
      ensures StarsMatch() <==> StarsRight(State())
    {
      hide Matching, ToUpper;
      RowsAreShown();
    }

    /** Clears the highlight of the active level and moves it to idx, if there is such a row. */
    method SetHighlight(idx: int)
      requires pool.Length == POOL_SIZE
      requires level.CommandListLevel? ==> forall i :: 0 <= i < |visibleItems| ==> 0 <= visibleItems[i] < POOL_SIZE
      modifies `highlightIndex, `catRows, pool
      ensures highlightIndex == idx && |catRows| == |old(catRows)|
      ensures level.CategoryLevel? ==>
                (forall i :: 0 <= i < |catRows| ==> (catRows[i] <==> i == idx)) && pool[..] == old(pool[..])
      ensures level.CommandListLevel? ==> catRows == old(catRows)
      ensures level.CommandListLevel? ==>
                forall j :: 0 <= j < POOL_SIZE ==>
                  pool[j] == old(pool[j]).(highlighted := 0 <= idx < |visibleItems| && j == visibleItems[idx])
    {
      if level.CategoryLevel? {
        catRows := seq(|catRows|, _ => false);
      } else {
        forall j | 0 <= j < pool.Length {
          pool[j] := pool[j].(highlighted := false);
        }
      }
      highlightIndex := idx;
      if idx < 0 || idx >= NavCount() {
        return;
      }
      if level.CategoryLevel? {
        catRows := catRows[idx := true];
      } else {
        pool[visibleItems[idx]] := pool[visibleItems[idx]].(highlighted := true);
      }
    }

    /** Up and down stop at the ends of whichever level is active. */
    method MoveHighlight(delta: int)
      requires Valid()
      modifies `highlightIndex, `catRows, pool
      ensures Valid() && State() == Moved(old(State()), delta)
      ensures old(StarsMatch()) ==> StarsMatch()
    {
      hide Matching, ToUpper;
      RowsAreShown();
      var cnt := NavCount();
      if cnt == 0 {
        return;
      }
      var idx := if highlightIndex < 0 then 0 else highlightIndex + delta;
      if idx < 0 {
        idx := 0;
      } else if idx >= cnt {
        idx := cnt - 1;
      }
      SetHighlight(idx);
    }

    // ---- level 1 ----

    /** show_categories: the menu is rebuilt from current data and its first row highlighted. */
    method ShowCategories()
      requires pool.Length == POOL_SIZE
      modifies `level, `displayCats, `catRows, `highlightIndex, pool
      ensures Valid() && StarsMatch() && State() == ToMenu(old(State()))
    {
      hide MenuOf, Matching, ToUpper;
      level := CategoryLevel;
      forall j | 0 <= j < pool.Length {
        pool[j] := pool[j].(visible := false);
      }
      RebuildMenu();
      catRows := seq(|displayCats|, _ => false);
      highlightIndex := -1;
      if displayCats != [] {
        SetHighlight(0);
      }
    }

    method RebuildMenu()
      modifies `displayCats
      ensures displayCats == MenuOf(favorites, history, keywordCats, allCommands) && displayCats != []
    {
      displayCats := [];
      displayCats := displayCats + [Category("Favorites", favorites)];
      displayCats := displayCats + [Category("Recent", history)];
      for i := 0 to |keywordCats|
        invariant displayCats == [Category("Favorites", favorites), Category("Recent", history)] + keywordCats[..i]
      {
        displayCats := displayCats + [keywordCats[i]];
      }
      assert keywordCats[..|keywordCats|] == keywordCats;
      displayCats := displayCats + [Category("All commands", allCommands)];
    }

    /** show_mode: the commands view always starts at the category menu. */
    method ShowMode(m: Mode)
      requires Valid()
      modifies `mode, `level, `displayCats, `catRows, `highlightIndex, pool
      ensures Valid()
      ensures State() == (if m.Terminal? then old(State()).(mode := m) else ToMenu(old(State()).(mode := m)))
    {
      hide Matching, ToUpper, ToMenu;
      mode := m;
      if m.Commands? {
        ShowCategories();
      }
    }

    // ---- level 2 ----

    /**
      rebuild_command_list: fills the pool with the first 60 matches of the active category;
      without an active category nothing happens. It runs only while level 2 is shown.
     */
    method RebuildCommandList()
      requires pool.Length == POOL_SIZE && level == CommandListLevel
      modifies `visibleItems, `highlightIndex, `catRows, pool
      ensures 0 <= activeCat < |displayCats| ==> Valid() && StarsMatch() && State() == Rebuilt(old(State()))
      ensures !(0 <= activeCat < |displayCats|) ==> unchanged(this) && unchanged(pool)
    {
      hide Matching, ToUpper, StarsFor, StarsOn;
      if activeCat < 0 || activeCat >= |displayCats| {
        return;
      }
      var src := displayCats[activeCat].cmds;
      var matches := ComputeMatches(src);
      var shown := Min(|matches|, POOL_SIZE);
      FillPool(matches, shown);
      highlightIndex := -1;
      if visibleItems != [] {
        SetHighlight(0);
      }
      RowsAreShown();
      StarsAreState();
    }

    method ComputeMatches(src: seq<string>) returns (matches: seq<string>)
      ensures matches == Matching(src, ToUpper(filter))
    {
      hide PassesFilter, ToUpper;
      var f := ToUpper(filter);
      matches := [];
      for i := 0 to |src|
        invariant matches == Matching(src[..i], f)
      {
        assert src[..i + 1][..i] == src[..i];
        if PassesFilter(src[i], f) {
          matches := matches + [src[i]];
        }
      }
      assert src[..|src|] == src;
    }

    method FillPool(matches: seq<string>, shown: int)
      requires pool.Length == POOL_SIZE && 0 <= shown <= |matches| && shown <= POOL_SIZE
      modifies `visibleItems, pool
      ensures |visibleItems| == shown
      ensures forall i :: 0 <= i < shown ==>
                visibleItems[i] == i && pool[i] == Row(matches[i], matches[i] in favorites, false, true)
      ensures forall i :: shown <= i < POOL_SIZE ==> !pool[i].visible
    {
      visibleItems := [];
      for i := 0 to POOL_SIZE
        invariant |visibleItems| == Min(i, shown)
        invariant forall j :: 0 <= j < i && j < shown ==>
                    visibleItems[j] == j && pool[j] == Row(matches[j], matches[j] in favorites, false, true)
        invariant forall j :: shown <= j < i ==> !pool[j].visible
      {
        if i < shown {
          pool[i] := Row(matches[i], matches[i] in favorites, false, true);
          visibleItems := visibleItems + [i];
        } else {
          pool[i] := pool[i].(visible := false);
        }
      }
    }

    /** enter_category: an index outside the menu is ignored. */
    method EnterCategory(idx: int)
      requires Valid()
      modifies `activeCat, `level, `filter, `visibleItems, `highlightIndex, `catRows, pool
      ensures Valid() && State() == Entered(old(State()), idx)
      ensures !(0 <= idx < |displayCats|) ==> unchanged(this) && unchanged(pool)
    {
      if idx < 0 || idx >= |displayCats| {
        return;
      }
      activeCat := idx;
      level := CommandListLevel;
      filter := "";
      RebuildCommandList();
    }

    // ---- favourites ----

    /**
      toggle_favorite on a visible row: the list changes as Toggle says and the browser stays
      consistent. Outside the Favorites list only the tapped row's star is redrawn, so all
      stars are right afterwards exactly when no other visible row shows the same command.
     */
    method ToggleFavorite(row: int)
      requires Valid() && level == CommandListLevel && 0 <= row < |visibleItems|
      modifies `favorites, `displayCats, `visibleItems, `highlightIndex, `catRows, pool
      ensures Valid() && State() == Starred(old(State()), row)
      ensures old(displayCats[activeCat].name) == "Favorites" ==> StarsMatch()
      ensures old(displayCats[activeCat].name) != "Favorites" && old(Distinct(favorites)) && old(StarsMatch()) ==>
                (StarsMatch() <==> forall i :: 0 <= i < |visibleItems| && i != row ==> pool[i].cmd != pool[row].cmd)
    {
      hide Distinct, Toggle, Matching, ToUpper, StarsOn, StarsFor, Redrawn;
      RowsAreShown();
      ghost var before := favorites;
      FlipStar(row);
      if 0 <= activeCat < |displayCats| && displayCats[activeCat].name == "Favorites" {
        ReshowFavorites();
      } else {
        StarsAfterToggle(row, before);
      }
    }

    /** On the Favorites list a toggled row appears or disappears at once. */
    method ReshowFavorites()
      requires Valid() && level == CommandListLevel
      modifies `displayCats, `visibleItems, `highlightIndex, `catRows, pool
      ensures Valid() && StarsMatch()
      ensures State() == Rebuilt(old(State()).(displayCats :=
                                   old(displayCats)[activeCat := old(displayCats)[activeCat].(cmds := favorites)]))
    {
      hide Matching, ToUpper, Rebuilt, StarsOn;
      ghost var reduced := State().(displayCats :=
                                      displayCats[activeCat := displayCats[activeCat].(cmds := favorites)]);
      displayCats := displayCats[activeCat := displayCats[activeCat].(cmds := favorites)];
      assert State() == reduced;
      RebuildCommandList();
    }

    /** The tapped command changes sides and its own star is redrawn. */
    method FlipStar(row: int)
      requires Valid() && level == CommandListLevel && 0 <= row < |visibleItems|
      modifies `favorites, pool
      ensures Valid() && favorites == Toggle(old(favorites), old(pool[row].cmd))
      ensures pool[row] == old(pool[row]).(favorite := old(pool[row].cmd) !in old(favorites))
      ensures forall i :: 0 <= i < POOL_SIZE && i != row ==> pool[i] == old(pool[i])
      ensures StarsOn(pool[..], visibleItems)
              == Redrawn(old(StarsOn(pool[..], visibleItems)), row, old(pool[row].cmd) !in old(favorites))
    {
      hide Toggle, Matching, ToUpper;
      var nowFav := ChangeFavorites(pool[row].cmd);
      pool[row] := pool[row].(favorite := nowFav);
    }

    /** Only the tapped row's star was redrawn. */
    lemma StarsAfterToggle(row: int, before: seq<string>)
      requires Valid() && level == CommandListLevel && 0 <= row < |visibleItems|
      requires pool[row].favorite <==> pool[row].cmd !in before
      ensures Distinct(before) && favorites == Toggle(before, pool[row].cmd)
              && (forall i :: 0 <= i < |visibleItems| && i != row ==> (pool[i].favorite <==> pool[i].cmd in before)) ==>
                (StarsMatch() <==> forall i :: 0 <= i < |visibleItems| && i != row ==> pool[i].cmd != pool[row].cmd)
    {
      hide Toggle, Distinct, Matching;
      if Distinct(before) && favorites == Toggle(before, pool[row].cmd) {
        ToggleKeepsDistinct(before, pool[row].cmd);
      }
    }

    method ChangeFavorites(cmd: string) returns (nowFav: bool)
      modifies `favorites
      ensures favorites == Toggle(old(favorites), cmd) && (nowFav <==> cmd !in old(favorites))
    {
      if cmd in favorites {
        favorites := RemoveFirst(favorites, cmd);
        nowFav := false;
      } else {
        favorites := favorites + [cmd];
        nowFav := true;
      }
    }

    // ---- terminal and data ----

    /** send_command with push_history. */
    method SendCommand(cmd: string)
      modifies `history
      ensures history == (if cmd == "" then old(history) else Push(old(history), cmd))
    {
      if cmd == "" {
        return;
      }
      if history != [] && history[0] == cmd {
        return;
      }
      if |history| >= HISTORY_LIMIT {
        history := history[..|history| - 1];
      }
      history := [cmd] + history;
    }

    /** handle_send: the input line is sent and emptied. */
    method HandleSend()
      requires Valid()
      modifies `history, `input
      ensures Valid() && State() == Sent(old(State()))
    {
      hide Push, Valid;
      if input == "" {
        return;
      }
      SendCommand(input);
      input := "";
    }

    /** handle_clear, and every edit the keyboard makes. */
    method SetInput(line: string)
      requires Valid()
      modifies `input
      ensures Valid() && State() == old(State()).(input := line)
    {
      input := line;
    }

    /** select_command: the command goes to the input line and the terminal comes to front. */
    method SelectCommand(row: int)
      requires Valid() && level == CommandListLevel && 0 <= row < |visibleItems|
      modifies `input, `mode
      ensures Valid() && State() == Chosen(old(State()), row)
    {
      hide Matching, ToUpper;
      RowsAreShown();
      input := pool[visibleItems[row]].cmd;
      mode := Terminal;
    }

    /** handle_macros: new data never touches what is on display. */
    method LoadAll(h: Option<seq<string>>, f: Option<seq<string>>, names: Option<seq<string>>)
      requires Valid()
      modifies `history, `favorites, `allCommands, `keywordCats
      ensures Valid() && State() == Loaded(old(State()), h, f, names, catDefs)
    {
      hide KeywordCats, CommandList, Valid;
      if h.Some? {
        history := h.value;
      }
      if f.Some? {
        favorites := f.value;
      }
      if names.Some? {
        allCommands := CollectNames(names.value);
      }
      keywordCats := BuildKeywordCats(allCommands, catDefs);
    }

    /** The filter was edited; it is on screen only at level 2. */
    method ChangeFilter(text: string)
      requires Valid()
      modifies `filter, `visibleItems, `highlightIndex, `catRows, pool
      ensures Valid() && State() == Filtered(old(State()), text)
    {
      hide Matching, ToUpper;
      if level == CommandListLevel {
        filter := text;
        RebuildCommandList();
      }
    }

    /** The OK button: opens the highlighted category or takes the highlighted command. */
    method Confirm()
      requires Valid()
      modifies `activeCat, `level, `filter, `visibleItems, `highlightIndex, `catRows, `input, `mode, pool
      ensures Valid()
      ensures State() == (if old(level) == CategoryLevel then Entered(old(State()), old(highlightIndex))
                          else Chosen(old(State()), old(highlightIndex)))
    {
      hide Matching, ToUpper, Rebuilt;
      RowsAreShown();
      if highlightIndex < 0 || highlightIndex >= NavCount() {
        return;
      }
      if level == CategoryLevel {
        EnterCategory(highlightIndex);
      } else {
        SelectCommand(highlightIndex);
      }
    }

    /** One event; a widget that is hidden on the current level cannot be touched. */
    method HandleEvent(e: UiEvent)
      requires Valid()
      modifies this, pool
      ensures Valid() && State() == Next(old(State()), e, catDefs)
    {
      hide ToMenu, Entered, Filtered, Moved, Chosen, Starred, Loaded, Sent, CategoryView, ListView;
      match e {
        case OpenCommands => ShowMode(Commands);
        case TapCategory(idx) =>
          if level == CategoryLevel {
            EnterCategory(idx);
          }
        case TapBack =>
          if level == CommandListLevel {
            ShowCategories();
          } else {
            ShowMode(Terminal);
          }
        case TypeFilter(text) => ChangeFilter(text);
        case TapUp => MoveHighlight(-1);
        case TapDown => MoveHighlight(1);
        case TapOk => Confirm();
        case TapRow(row) => TapRowAt(row);
        case TapStar(row) => TapStarAt(row);
        case TypeInput(line) => SetInput(line);
        case ClearInput => SetInput("");
        case Send => HandleSend();
        case LoadData(h, f, names) => LoadAll(h, f, names);
        case Leave => ShowMode(Terminal);
      }
    }

    /** A tap on a row that is not shown does nothing. */
    method TapRowAt(row: int)
      requires Valid()
      modifies `input, `mode
      ensures Valid() && State() == Chosen(old(State()), row)
    {
      hide Matching, ToUpper;
      RowsAreShown();
      if level == CommandListLevel && 0 <= row < |visibleItems| {
        SelectCommand(row);
      }
    }

    method TapStarAt(row: int)
      requires Valid()
      modifies `favorites, `displayCats, `visibleItems, `highlightIndex, `catRows, pool
      ensures Valid() && State() == Starred(old(State()), row)
    {
      hide Matching, ToUpper;
      RowsAreShown();
      if level == CommandListLevel && 0 <= row < |visibleItems| {
        ToggleFavorite(row);
      }
    }

    /** Any run of events, by what every run keeps. */
    method Run(es: seq<UiEvent>)
      requires Valid()
      modifies this, pool
      ensures Valid() && State() == After(old(State()), es, catDefs)
      ensures BaseHistory(old(history), es) == [] ==>
                history == Take(Collapse(Reversed(SentCommands(old(State()), es, catDefs))), 20)
      ensures old(Distinct(favorites)) && LoadsDistinct(es) ==> Distinct(favorites)
      ensures (old(StarsMatch() && Distinct(favorites)) && LoadsDistinct(es)
               && !Outdated(old(State()), es, catDefs) && Distinct(Shown(State())))
              ==> StarsMatch()
    {
      hide Distinct, Next, Take, Collapse, Reversed, SentCommands, BaseHistory, Outdated, Shown, StarsMatch;
      StarsAreState();
      for i := 0 to |es|
        invariant Valid() && State() == After(old(State()), es[..i], catDefs)
      {
        assert es[..i + 1][..i] == es[..i];
        HandleEvent(es[i]);
      }
      assert es[..|es|] == es;
      StarsAreState();
      HistoryOfRun(old(State()), es, catDefs);
      if old(Distinct(favorites)) && LoadsDistinct(es) {
        FavoritesStayDistinct(old(State()), es, catDefs);
        if old(StarsMatch()) && !Outdated(old(State()), es, catDefs) && Distinct(Shown(State())) {
          StarsOfRun(old(State()), es, catDefs);
        }
      }
    }
  }
}
