/*******************************************************************************
 *  The main loop of the launcher: which pane handles a key, how the browser
 *  cursor moves between lines and pages, and when the program stops
 *  (main.c, input.h, ui.h).
 *******************************************************************************/

/** One pass of `main`'s `while (exit == 0)` loop.

    The pass reads a key and runs the pane blocks in source order: CONFIRM,
    LAUNCH, HELP, FILTER_PRE, FILTER, BROWSER.  They are separate `if`s, so a
    block that switches to a later pane hands the same key on to that pane's
    block, and the FILTER_PRE and FILTER blocks read a fresh key before they
    do.  Keys come from a sequence; an exhausted sequence reads as no key,
    as `input_get` returns `input_none` when nothing is pressed.

    Drawing, the popups' own cursor handling and the reload of metadata and
    artwork after the selected game changes are not part of this model; the
    launch metadata of the selected game and the length of its artwork list
    are inputs of the pass. */
module Nav {
  import opened Base
  import opened Data
  import opened Filter
  import opened Ui

  /*--------------------------------------------------------------------------
   *  Keys and panes
   *--------------------------------------------------------------------------*/

  /** The keys `main` tests for.  `Help` and `FilterKey` stand for
      `input_help` and `input_filter`, which the loop handles but `input.h`
      does not define and `input_get` never returns. */
  datatype Key = NoKey | Select | Cancel | Switch | Up | Down | Left | Right
               | ScrollUp | ScrollDown | Quit | Help | FilterKey

  /** The code `input_get` returns for a key (input.h), none for the two the
      header lacks. */
  function KeyCode(k: Key): (c: Option<int>)
    ensures c.None? <==> k == Help || k == FilterKey
    ensures k == NoKey <==> c == Some(0)
  {
    match k
    case NoKey => Some(0x00)
    case Select => Some(0x1C0D)
    case Cancel => Some(0x11B)
    case Switch => Some(0xF09)
    case Up => Some(0x48E0)
    case Down => Some(0x50E0)
    case Left => Some(0x4BE0)
    case Right => Some(0x4DE0)
    case ScrollUp => Some(0x49E0)
    case ScrollDown => Some(0x51E0)
    case Quit => Some(0x1071)
    case Help => None
    case FilterKey => None
  }

  /** Distinct keys have distinct codes, so the `switch` on the code is a
      match on the key. */
  lemma KeyCodesDistinct(a: Key, b: Key)
    requires KeyCode(a).Some? && KeyCode(a) == KeyCode(b)
    ensures a == b
  {
  }

  /** The panes of ui.h. */
  datatype Pane = Browser | Artwork | Info | Launch | Confirm | FilterPre | FilterPick | HelpPane

  /** `BROWSER_PANE` .. `HELP_PANE`. */
  function PaneCode(p: Pane): (c: uint32)
    ensures 1 <= c <= 8
  {
    match p
    case Browser => 0x01
    case Artwork => 0x02
    case Info => 0x03
    case Launch => 0x04
    case Confirm => 0x05
    case FilterPre => 0x06
    case FilterPick => 0x07
    case HelpPane => 0x08
  }

  /** `active_pane` tells the panes apart. */
  lemma PaneCodesDistinct(a: Pane, b: Pane)
    requires PaneCode(a) == PaneCode(b)
    ensures a == b
  {
  }

  /** What the pass did to `run.bat`: nothing, `zeroRunBat`, or
      `writeRunBat` with the chosen start file. */
  datatype Bat = Untouched | Zeroed | Written(start: uint32)

  /** The loop's variables: the state, the active pane, the `exit` flag, the
      `run.bat` effect and the artwork cursor `imagefile`.  The cursor is
      None for `NULL`, else a position in the artwork list: 0 is the list's
      head node, which names no file, and 1 to n are the artwork files. */
  datatype Screen = Screen(state: State, pane: Pane, exit: bool, bat: Bat, image: Option<nat>)

  /** What the pass reads but does not change: the games, the metadata
      oracle, the metadata loaded for the selected game, the number of
      artwork files in its list, and the popup oracle.  Up and Down inside a
      popup call its drawing routine, which is not part of this model and
      stores its highlight in the popup's selection field; `toggle` gives
      the value it stores on that pane, from that state, for that key. */
  datatype Env = Env(games: seq<Game>, meta: Game -> Option<LaunchDat>, launchdat: LaunchDat, images: nat,
                     toggle: (Pane, State, Key) -> uint32)

  /** `input_get` on the pending keys. */
  function Read(keys: seq<Key>): (Key, seq<Key>)
  {
    if keys == [] then (NoKey, []) else (keys[0], keys[1..])
  }

  /*--------------------------------------------------------------------------
   *  Browser navigation
   *--------------------------------------------------------------------------*/

  /** The four keys that move the browser cursor. */
  predicate IsNav(k: Key)
  {
    k == Up || k == Down || k == ScrollUp || k == ScrollDown
  }

  /** The page before `page`, from the first page to the last (`total`). */
  function PrevPage(page: uint32, total: uint32): uint32
  {
    if page == 1 then total else Wrap32(page as int - 1)
  }

  /** The page after `page`, from the last page to the first. */
  function NextPage(page: uint32, total: uint32): uint32
  {
    if page == total then 1 else Wrap32(page as int + 1)
  }

  /** `input_up`: on line 0 to line 0 of the previous page, else one line
      up. */
  function MoveUp(s: State): (r: State)
    ensures r == s.(selectedPage := r.selectedPage, selectedLine := r.selectedLine)
    ensures s.selectedLine == 0 ==> r.selectedLine == 0 && r.selectedPage == PrevPage(s.selectedPage, s.totalPages)
    ensures s.selectedLine != 0 ==> r.selectedLine as int == s.selectedLine as int - 1 && r.selectedPage == s.selectedPage
  {
    if s.selectedLine == 0 then s.(selectedPage := PrevPage(s.selectedPage, s.totalPages), selectedLine := 0)
    else s.(selectedLine := s.selectedLine - 1)
  }

  /** The line `input_down` treats as the last of the page: line 13, or the
      line equal to `selected_max - 1` in unsigned arithmetic, which counts
      from the start of the whole list and not of the page. */
  predicate AtLastLine(s: State)
  {
    s.selectedLine as int == BROWSER_MAX_LINES - 1 || s.selectedLine == Wrap32(s.selectedMax as int - 1)
  }

  /** `input_down`: from the last line to line 0 of the next page, else one
      line down. */
  function MoveDown(s: State): (r: State)
    ensures r == s.(selectedPage := r.selectedPage, selectedLine := r.selectedLine)
    ensures AtLastLine(s) ==> r.selectedLine == 0 && r.selectedPage == NextPage(s.selectedPage, s.totalPages)
    ensures !AtLastLine(s) ==> r.selectedLine == Wrap32(s.selectedLine as int + 1) && r.selectedPage == s.selectedPage
  {
    if AtLastLine(s) then s.(selectedPage := NextPage(s.selectedPage, s.totalPages), selectedLine := 0)
    else s.(selectedLine := Wrap32(s.selectedLine as int + 1))
  }

  /** `input_scroll_up`: line 0 of the previous page. */
  function PageBack(s: State): State
  {
    s.(selectedPage := PrevPage(s.selectedPage, s.totalPages), selectedLine := 0)
  }

  /** `input_scroll_down`: line 0 of the next page. */
  function PageForward(s: State): State
  {
    s.(selectedPage := NextPage(s.selectedPage, s.totalPages), selectedLine := 0)
  }

  /** The position after a navigation key. */
  function Moved(s: State, k: Key): State
    requires IsNav(k)
  {
    match k
    case Up => MoveUp(s)
    case Down => MoveDown(s)
    case ScrollUp => PageBack(s)
    case ScrollDown => PageForward(s)
  }

  /** The browser's invariant: the arrays have their sizes, the selection
      fits the list, `total_pages` is what the filters set, and the page and
      line are in range. */
  predicate Browsable(s: State)
  {
    && Shaped(s) && s.selectedMax as int <= SELECTION_LIST_SIZE
    && s.totalPages as int == s.selectedMax as int / BROWSER_MAX_LINES + 1
    && 1 <= s.selectedPage <= s.totalPages
    && s.selectedLine as int < BROWSER_MAX_LINES
  }

  /** A browsable state's window is computed without overflow. */
  lemma BrowsablePaged(s: State)
    requires Browsable(s)
    ensures Paged(s)
    ensures StartPos(s.selectedPage) == (s.selectedPage as int - 1) * BROWSER_MAX_LINES <= s.selectedMax as int
  {
    assert (s.selectedPage as int - 1) * BROWSER_MAX_LINES <= (s.selectedMax as int / BROWSER_MAX_LINES) * BROWSER_MAX_LINES;
  }

  /** The four navigation keys keep the page within `1..total_pages` and
      the line within `0..13`. */
  lemma NavKeepsBrowsable(s: State, k: Key)
    requires Browsable(s) && IsNav(k)
    ensures Browsable(Moved(s, k))
  {
  }

  /** A selection shorter than the list is never scanned past its end. */
  lemma ShortListInBounds(s: State)
    requires Browsable(s) && s.selectedMax as int < SELECTION_LIST_SIZE
    ensures Paged(s) && ReselectInBounds(s)
  {
    BrowsablePaged(s);
  }

  /** Right after a filter, every navigation key lands on a position whose
      scan stays inside the list. */
  lemma RestartNavInBounds(s: State, k: Key)
    requires Browsable(s) && s.selectedPage == 1 && s.selectedLine == 0 && IsNav(k)
    ensures Paged(Moved(s, k)) && ReselectInBounds(Moved(s, k))
  {
    NavKeepsBrowsable(s, k);
    var t := Moved(s, k);
    BrowsablePaged(t);
    if t.selectedPage == s.totalPages {
      assert StartPos(t.selectedPage) <= (SELECTION_LIST_SIZE / BROWSER_MAX_LINES) * BROWSER_MAX_LINES;
    }
  }

  /** Down then Up returns to the same line inside a page. */
  lemma DownThenUp(s: State)
    requires Browsable(s) && !AtLastLine(s)
    ensures MoveUp(MoveDown(s)) == s
  {
  }

  /** Up then Down returns to the same line when the cursor is on an entry
      below the top of the page. */
  lemma UpThenDown(s: State)
    requires Browsable(s) && s.selectedLine > 0
    requires StartPos(s.selectedPage) + s.selectedLine as int < s.selectedMax as int
    ensures MoveDown(MoveUp(s)) == s
  {
    BrowsablePaged(s);
  }

  /** Paging forward then back returns to the same page, on line 0. */
  lemma PageForwardThenBack(s: State)
    requires Browsable(s)
    ensures PageBack(PageForward(s)) == s.(selectedLine := 0)
    ensures PageForward(PageBack(s)) == s.(selectedLine := 0)
  {
  }

  /** The cursor is on an entry of the selection. */
  predicate OnList(s: State)
    requires Paged(s)
  {
    StartPos(s.selectedPage) + s.selectedLine as int < s.selectedMax as int
  }

  /** Up and both page keys keep the cursor on an entry, as long as the
      last page is not empty, that is, as long as the selection is not a
      multiple of 14 long. */
  lemma NavKeepsOnList(s: State, k: Key)
    requires Browsable(s) && s.selectedMax as int % BROWSER_MAX_LINES != 0
    requires k == Up || k == ScrollUp || k == ScrollDown
    requires Paged(s) && OnList(s)
    ensures Paged(Moved(s, k)) && OnList(Moved(s, k))
  {
    NavKeepsBrowsable(s, k);
    BrowsablePaged(s);
    BrowsablePaged(Moved(s, k));
    var t := Moved(s, k);
    assert (t.selectedPage as int - 1) * BROWSER_MAX_LINES <= (s.selectedMax as int / BROWSER_MAX_LINES) * BROWSER_MAX_LINES;
  }

  /** On the first page Down also keeps the cursor on an entry. */
  lemma DownKeepsOnListOnFirstPage(s: State)
    requires Browsable(s) && s.selectedMax as int % BROWSER_MAX_LINES != 0
    requires s.selectedPage == 1 && Paged(s) && OnList(s)
    ensures Paged(MoveDown(s)) && OnList(MoveDown(s))
  {
    NavKeepsBrowsable(s, Down);
    BrowsablePaged(MoveDown(s));
  }

  /** On a later, partly filled page Down can leave the list: with 20
      entries, Down from line 5 of page 2 (entry 19, the last) moves to
      line 6, whose scan picks slot 20, past the selection. */
  lemma DownLeavesPartialPage(s: State)
    requires Shaped(s) && s.selectedMax == 20 && s.totalPages == 2
    requires s.selectedPage == 2 && s.selectedLine == 5
    ensures Browsable(s) && Paged(s) && OnList(s)
    ensures var t := MoveDown(s);
            Paged(t) && !OnList(t) && t.selectedLine == 6 && Picked(t) == Some(20)
  {
  }

  /** A selection a multiple of 14 long has an empty last page: from the
      first page, Up lands on it, where the cursor names the slot just past
      the selection. */
  lemma UpToEmptyLastPage(s: State)
    requires Shaped(s) && s.selectedMax == 28 && s.totalPages == 3
    requires s.selectedPage == 1 && s.selectedLine == 0
    ensures Browsable(s)
    ensures var t := MoveUp(s);
            t.selectedPage == 3 && Paged(t) && !OnList(t) && Picked(t) == Some(28)
  {
  }

  /** With all 999 slots in use, Down from line 4 of the last page moves to
      line 5, and the scan then reads slot 999, past the end of the list. */
  lemma FullListDownOverruns(s: State)
    requires Shaped(s) && s.selectedMax == 999 && s.totalPages == 72
    requires s.selectedPage == 72 && s.selectedLine == 4
    ensures Browsable(s) && Paged(s) && ReselectInBounds(s) && OnList(s)
    ensures var t := MoveDown(s);
            Paged(t) && !ReselectInBounds(t) && Picked(t) == Some(SELECTION_LIST_SIZE)
  {
  }

  /*--------------------------------------------------------------------------
   *  Artwork cursor
   *--------------------------------------------------------------------------*/

  /** `input_left`: to the previous node.  The head node's `prev` is never
      set, so Left from the head is excluded. */
  function ImageLeft(pos: nat): (r: nat)
    requires pos > 0
    ensures r < pos
  {
    pos - 1
  }

  /** `input_right`: to the next node, from the last file back to the
      head. */
  function ImageRight(pos: nat, n: nat): (r: nat)
    requires pos <= n
    ensures r <= n
    ensures r == 0 <==> pos == n
  {
    if pos < n then pos + 1 else 0
  }

  /** Left undoes Right, and Right undoes Left. */
  lemma ImageLeftRight(pos: nat, n: nat)
    requires pos <= n
    ensures pos < n ==> ImageLeft(ImageRight(pos, n)) == pos
    ensures pos > 0 ==> ImageRight(ImageLeft(pos), n) == pos
  {
  }

  /** `t` presses of Right. */
  function RightTimes(pos: nat, n: nat, t: nat): (r: nat)
    requires pos <= n
    ensures r <= n
  {
    if t == 0 then pos else ImageRight(RightTimes(pos, n, t - 1), n)
  }

  /** Right from the head visits file `t` after `t` presses. */
  lemma {:induction false} RightWalks(n: nat, t: nat)
    requires t <= n
    ensures RightTimes(0, n, t) == t
  {
    if t > 0 {
      RightWalks(n, t - 1);
    }
  }

  /** Right cycles through the head and the `n` files: `n + 1` presses come
      back to the start. */
  lemma {:induction false} RightCycles(pos: nat, n: nat)
    requires pos <= n
    ensures RightTimes(pos, n, n + 1) == pos
  {
    RightReach(pos, n, n - pos);
    assert RightTimes(pos, n, n - pos + 1) == 0;
    RightAfter(pos, n, n - pos + 1, pos);
  }

  /** `t` presses from `pos` reach `pos + t` while that is a file. */
  lemma {:induction false} RightReach(pos: nat, n: nat, t: nat)
    requires pos + t <= n
    ensures RightTimes(pos, n, t) == pos + t
  {
    if t > 0 {
      RightReach(pos, n, t - 1);
    }
  }

  /** After reaching the head, `j` more presses reach file `j`. */
  lemma {:induction false} RightAfter(pos: nat, n: nat, t: nat, j: nat)
    requires pos <= n && j <= n && RightTimes(pos, n, t) == 0
    ensures RightTimes(pos, n, t + j) == j
  {
    if j > 0 {
      RightAfter(pos, n, t, j - 1);
    }
  }

  /*--------------------------------------------------------------------------
   *  The pane blocks
   *--------------------------------------------------------------------------*/

  /** `input_quit`, in every block that handles it: stop and empty
      `run.bat`. */
  function Quitting(u: Screen): (v: Screen)
    ensures v.exit && v.bat == Zeroed && v.state == u.state && v.pane == u.pane
  {
    u.(exit := true, bat := Zeroed)
  }

  /** The blocks that act on `input_quit`. */
  predicate QuitHandled(p: Pane)
  {
    p == Confirm || p == Launch || p == HelpPane || p == FilterPre || p == FilterPick || p == Browser
  }

  /** The keyword field of a filter mode, none for `FILTER_NONE` and for
      values no popup sets. */
  function KeywordField(filter: uint32): (r: Option<Field>)
    ensures r.Some? <==> filter == FILTER_GENRE || filter == FILTER_SERIES
    ensures r.Some? ==> (r.value == Genre <==> filter == FILTER_GENRE) && (r.value == Series <==> filter == FILTER_SERIES)
  {
    if filter == FILTER_GENRE then Some(Genre) else if filter == FILTER_SERIES then Some(Series) else None
  }

  /** What the keyword collection needs of the metadata: every keyword
      shorter than its 32-byte slot, and at most 32 distinct ones. */
  predicate KeywordsFit(env: Env, f: Field)
    requires f == Genre || f == Series
  {
    KeywordsTerminated(env.games, env.meta, f) && |Keywords(env.games, env.meta, f)| <= MAXIMUM_FILTER_STRINGS
  }

  /** Closing a popup: back to the browser, where the cursor's game is picked
      again. */
  method CloseToBrowser(u: Screen) returns (v: Screen)
    requires Browsable(u.state) && Paged(u.state) && ReselectInBounds(u.state)
    ensures v == u.(pane := Browser, state := v.state) && Reselected(u.state, v.state)
    ensures Browsable(v.state)
  {
    var st, _ := ReselectCurrentGame(u.state);
    v := u.(pane := Browser, state := st);
  }

  /** A state just restarted by a filter: the cursor's scan stays inside the
      list, and picking the cursor's game again changes nothing. */
  lemma RestartedStable(r: State, t: State)
    requires Browsable(r) && r.selectedPage == 1 && r.selectedLine == 0
    requires r.selectedGameid == ToSigned32(r.selectedList[0])
    ensures Paged(r) && ReselectInBounds(r)
    ensures Reselected(r, t) ==> t == r
  {
  }

  /** The CONFIRM block: Quit stops; Cancel closes the popup; Select writes
      `run.bat` for the chosen start file and stops. */
  method ConfirmBlock(u: Screen, k: Key) returns (v: Screen)
    requires u.pane == Confirm && Browsable(u.state) && Paged(u.state)
    requires k == Cancel ==> ReselectInBounds(u.state)
    ensures Browsable(v.state)
    ensures k == Quit ==> v == Quitting(u)
    ensures k == Cancel ==> v == u.(pane := Browser, state := v.state) && Reselected(u.state, v.state)
    ensures k == Select ==> v == u.(exit := true, bat := Written(u.state.selectedStart))
    ensures k != Quit && k != Cancel && k != Select ==> v == u
  {
    v := u;
    if k == Quit {
      v := Quitting(u);
    } else if k == Cancel {
      v := CloseToBrowser(u);
    } else if k == Select {
      v := u.(exit := true, bat := Written(u.state.selectedStart));
    }
  }

  /** The LAUNCH block: Quit stops; Cancel closes the popup; Select moves to
      the confirmation popup.  Up and Down let the popup routine flip the
      start file, and change nothing else. */
  method LaunchBlock(u: Screen, k: Key, env: Env) returns (v: Screen)
    requires u.pane == Launch && Browsable(u.state) && Paged(u.state)
    requires k == Cancel ==> ReselectInBounds(u.state)
    ensures Browsable(v.state)
    ensures k == Quit ==> v == Quitting(u)
    ensures k == Cancel ==> v == u.(pane := Browser, state := v.state) && Reselected(u.state, v.state)
    ensures k == Select ==> v == u.(pane := Confirm)
    ensures k == Up || k == Down ==> v == u.(state := u.state.(selectedStart := env.toggle(Launch, u.state, k)))
    ensures k != Quit && k != Cancel && k != Select && k != Up && k != Down ==> v == u
  {
    v := u;
    if k == Quit {
      v := Quitting(u);
    } else if k == Cancel {
      v := CloseToBrowser(u);
    } else if k == Select {
      v := u.(pane := Confirm);
    } else if k == Up || k == Down {
      v := u.(state := u.state.(selectedStart := env.toggle(Launch, u.state, k)));
    }
  }

  /** The HELP block: only Quit. */
  method HelpBlock(u: Screen, k: Key) returns (v: Screen)
    requires u.pane == HelpPane
    ensures k == Quit ==> v == Quitting(u)
    ensures k != Quit ==> v == u
  {
    v := if k == Quit then Quitting(u) else u;
  }

  /** The FILTER_PRE block.  Select with `FILTER_NONE` selects every game and
      returns to the browser; with a keyword mode it collects that mode's
      keywords and opens the keyword popup.  Both read the next key.  Up and
      Down let the popup routine move the filter mode. */
  method FilterPreBlock(u: Screen, k: Key, ks: seq<Key>, env: Env) returns (v: Screen, k': Key, ks': seq<Key>)
    requires u.pane == FilterPre && Browsable(u.state) && Paged(u.state)
    requires IdsInt(env.games) && |env.games| <= SELECTION_LIST_SIZE
    requires k == Cancel ==> ReselectInBounds(u.state)
    requires k == Select && KeywordField(u.state.selectedFilter).Some? ==> KeywordsFit(env, KeywordField(u.state.selectedFilter).value)
    ensures Browsable(v.state)
    ensures k == Quit ==> v == Quitting(u) && k' == k && ks' == ks
    ensures k == Cancel ==> v == u.(pane := Browser, state := v.state) && Reselected(u.state, v.state) && k' == k && ks' == ks
    ensures k == Select && u.state.selectedFilter == FILTER_NONE ==>
              && v == u.(pane := Browser, state := v.state) && AllSelected(u.state, v.state, env.games)
              && (k', ks') == Read(ks)
    ensures k == Select && u.state.selectedFilter != FILTER_NONE ==>
              && v == u.(pane := FilterPick, state := v.state) && (k', ks') == Read(ks)
              && (var f := KeywordField(u.state.selectedFilter);
                  && (f.Some? ==> v.state == u.state.(filterStrings := KeywordSlots(env.games, env.meta, f.value),
                                                      availableFilterStrings := v.state.availableFilterStrings)
                                  && v.state.availableFilterStrings as int == |Keywords(env.games, env.meta, f.value)|)
                  && (f.None? ==> v.state == u.state))
    ensures k == Up || k == Down ==>
              v == u.(state := u.state.(selectedFilter := env.toggle(FilterPre, u.state, k))) && k' == k && ks' == ks
    ensures k != Quit && k != Cancel && k != Select && k != Up && k != Down ==> v == u && k' == k && ks' == ks
  {
    v, k', ks' := u, k, ks;
    if k == Quit {
      v := Quitting(u);
    } else if k == Up || k == Down {
      v := u.(state := u.state.(selectedFilter := env.toggle(FilterPre, u.state, k)));
    } else if k == Select {
      if u.state.selectedFilter == FILTER_NONE {
        var st, _ := FilterNone(u.state, env.games);
        RestartedStable(st, st);
        var st2, _ := ReselectCurrentGame(st);
        RestartedStable(st, st2);
        v := u.(pane := Browser, state := st2);
      } else {
        var st := u.state;
        if u.state.selectedFilter == FILTER_GENRE {
          var next, _ := GetGenres(st, env.games, env.meta);
          st := next;
        }
        if u.state.selectedFilter == FILTER_SERIES {
          var next, _ := GetSeries(st, env.games, env.meta);
          st := next;
        }
        v := u.(pane := FilterPick, state := st);
      }
      k', ks' := Read(ks).0, Read(ks).1;
    } else if k == Cancel {
      v := CloseToBrowser(u);
    }
  }

  /** The FILTER block.  Select applies the keyword filter of the current
      mode, returns to the browser and reads the next key.  Up and Down let
      the popup routine move the keyword highlight. */
  method FilterBlock(u: Screen, k: Key, ks: seq<Key>, env: Env) returns (v: Screen, k': Key, ks': seq<Key>)
    requires u.pane == FilterPick && Browsable(u.state) && Paged(u.state)
    requires IdsInt(env.games) && |env.games| <= SELECTION_LIST_SIZE
    requires k == Cancel ==> ReselectInBounds(u.state)
    requires k == Select && KeywordField(u.state.selectedFilter).Some? ==> u.state.selectedFilterString as int < MAXIMUM_FILTER_STRINGS
    requires k == Select && KeywordField(u.state.selectedFilter).None? ==> ReselectInBounds(u.state)
    ensures Browsable(v.state)
    ensures k == Quit ==> v == Quitting(u) && k' == k && ks' == ks
    ensures k == Cancel ==> v == u.(pane := Browser, state := v.state) && Reselected(u.state, v.state) && k' == k && ks' == ks
    ensures k == Select ==> v == u.(pane := Browser, state := v.state) && (k', ks') == Read(ks)
    ensures k == Select ==>
              var f := KeywordField(u.state.selectedFilter);
              && (f.Some? ==> KeywordSelected(u.state, v.state, env.games, env.meta, f.value,
                                              Trunc(u.state.filterStrings[u.state.selectedFilterString], MAX_STRING_SIZE)))
              && (f.None? ==> Reselected(u.state, v.state))
    ensures k == Up || k == Down ==>
              v == u.(state := u.state.(selectedFilterString := env.toggle(FilterPick, u.state, k))) && k' == k && ks' == ks
    ensures k != Quit && k != Cancel && k != Select && k != Up && k != Down ==> v == u && k' == k && ks' == ks
  {
    v, k', ks' := u, k, ks;
    if k == Quit {
      v := Quitting(u);
    } else if k == Up || k == Down {
      v := u.(state := u.state.(selectedFilterString := env.toggle(FilterPick, u.state, k)));
    } else if k == Select {
      var st := u.state;
      var f := KeywordField(u.state.selectedFilter);
      if f.Some? {
        var filter := Trunc(st.filterStrings[st.selectedFilterString], MAX_STRING_SIZE);
        KeptShort(env.games, env.meta, f.value, filter);
        if u.state.selectedFilter == FILTER_GENRE {
          var next, _ := FilterGenre(st, env.games, env.meta);
          st := next;
        }
        if u.state.selectedFilter == FILTER_SERIES {
          var next, _ := FilterSeries(st, env.games, env.meta);
          st := next;
        }
        RestartedStable(st, st);
        var st2, _ := ReselectCurrentGame(st);
        RestartedStable(st, st2);
        v := u.(pane := Browser, state := st2);
      } else {
        v := CloseToBrowser(u);
      }
      k', ks' := Read(ks).0, Read(ks).1;
    } else if k == Cancel {
      v := CloseToBrowser(u);
    }
  }

  /** The start file a confirmation would launch is present. */
  predicate StartChosen(s: State, ld: LaunchDat)
  {
    (s.selectedStart == START_MAIN && ld.start != []) || (s.selectedStart == START_ALT && ld.altStart != [])
  }

  /** The BROWSER block on its command keys: Quit stops, the filter key
      opens the filter-mode popup, Select offers the game's start files.
      Every other key but the cursor keys leaves the screen alone. */
  method BrowserBlock(u: Screen, k: Key, env: Env) returns (v: Screen)
    requires u.pane == Browser && Browsable(u.state)
    requires k == Select ==> u.state.selectedGame.Some? && u.state.selectedGame.value < |env.games|
    ensures Browsable(v.state) && v.image == u.image
    ensures k == Quit ==> v == Quitting(u)
    ensures k == FilterKey ==> v == u.(pane := FilterPre)
    ensures k == Select ==>
              var ld := env.launchdat;
              var has := env.games[u.state.selectedGame.value].hasDat != 0;
              && (has && ld.start != [] && ld.altStart != [] ==>
                    v == u.(pane := Launch, state := u.state.(selectedStart := START_MAIN)))
              && (has && ld.start != [] && ld.altStart == [] ==>
                    v == u.(pane := Confirm, state := u.state.(selectedStart := START_MAIN)))
              && (has && ld.start == [] && ld.altStart != [] ==>
                    v == u.(pane := Confirm, state := u.state.(selectedStart := START_ALT)))
              && (!has || (ld.start == [] && ld.altStart == []) ==> v == u)
    ensures k == Select && v.pane != Browser ==> StartChosen(v.state, env.launchdat)
    ensures k != Quit && k != FilterKey && k != Select ==> v == u
  {
    v := u;
    if k == Quit {
      v := Quitting(u);
    } else if k == FilterKey {
      v := u.(pane := FilterPre);
    } else if k == Select {
      v := ChooseStart(u, env);
    }
  }

  /** The keys that move a cursor of the browser pane. */
  predicate IsMove(k: Key)
  {
    IsNav(k) || k == Left || k == Right
  }

  /** The BROWSER block on its cursor keys: the navigation keys move the
      list cursor and pick its game again; Left and Right step through the
      game's artwork, when it has any. */
  method BrowserMove(u: Screen, k: Key, env: Env) returns (v: Screen)
    requires u.pane == Browser && Browsable(u.state) && IsMove(k)
    requires IsNav(k) ==> Paged(Moved(u.state, k)) && ReselectInBounds(Moved(u.state, k))
    requires k == Left && u.image.Some? ==> u.image.value > 0
    requires u.image.Some? ==> u.image.value <= env.images
    ensures Browsable(v.state)
    ensures v.image.Some? ==> v.image.value <= env.images
    ensures IsNav(k) ==> v == u.(state := v.state) && Reselected(Moved(u.state, k), v.state)
    ensures k == Left ==> v == u.(image := if u.image.Some? then Some(ImageLeft(u.image.value)) else None)
    ensures k == Right ==> v == u.(image := if u.image.Some? then Some(ImageRight(u.image.value, env.images)) else None)
  {
    v := u;
    if IsNav(k) {
      v := Navigate(u, k);
    } else if u.image.Some? {
      if k == Left {
        v := u.(image := Some(ImageLeft(u.image.value)));
      } else {
        v := u.(image := Some(ImageRight(u.image.value, env.images)));
      }
    }
  }

  /** Select in the browser: a game with a `launch.dat` opens the start-file
      popup when it has both start files, the confirmation for the one it
      has otherwise, and nothing when it has neither. */
  method ChooseStart(u: Screen, env: Env) returns (v: Screen)
    requires u.state.selectedGame.Some? && u.state.selectedGame.value < |env.games|
    ensures var ld := env.launchdat;
            var has := env.games[u.state.selectedGame.value].hasDat != 0;
            && (has && ld.start != [] && ld.altStart != [] ==>
                  v == u.(pane := Launch, state := u.state.(selectedStart := START_MAIN)))
            && (has && ld.start != [] && ld.altStart == [] ==>
                  v == u.(pane := Confirm, state := u.state.(selectedStart := START_MAIN)))
            && (has && ld.start == [] && ld.altStart != [] ==>
                  v == u.(pane := Confirm, state := u.state.(selectedStart := START_ALT)))
            && (!has || (ld.start == [] && ld.altStart == []) ==> v == u)
    ensures v.pane != u.pane ==> StartChosen(v.state, env.launchdat)
  {
    v := u;
    var ld := env.launchdat;
    if env.games[u.state.selectedGame.value].hasDat != 0 {
      if |ld.start| > 0 && |ld.altStart| > 0 {
        v := u.(pane := Launch, state := u.state.(selectedStart := START_MAIN));
      } else if StrCmp(ld.start, []) != 0 {
        StrCmpZero(ld.start, []);
        v := u.(pane := Confirm, state := u.state.(selectedStart := START_MAIN));
      } else if StrCmp(ld.altStart, []) != 0 {
        StrCmpZero(ld.start, []);
        StrCmpZero(ld.altStart, []);
        v := u.(pane := Confirm, state := u.state.(selectedStart := START_ALT));
      } else {
        StrCmpZero(ld.start, []);
        StrCmpZero(ld.altStart, []);
      }
    }
  }

  /** A navigation key: move, then pick the cursor's game again. */
  method Navigate(u: Screen, k: Key) returns (v: Screen)
    requires Browsable(u.state) && IsNav(k)
    requires Paged(Moved(u.state, k)) && ReselectInBounds(Moved(u.state, k))
    ensures v == u.(state := v.state) && Reselected(Moved(u.state, k), v.state)
    ensures Browsable(v.state)
  {
    NavKeepsBrowsable(u.state, k);
    var st, _ := ReselectCurrentGame(Moved(u.state, k));
    v := u.(state := st);
  }

  /*--------------------------------------------------------------------------
   *  One pass of the main loop
   *--------------------------------------------------------------------------*/

  /** Which filter a pass applies before its browser block: none, every
      game, or the keyword filter of a field, on the keyword list the pass
      itself rebuilt or on the one the state holds. */
  datatype Refilter = NoFilter | AllGames | ByKeyword(field: Field, rebuilt: bool)

  /** The course of a pass, read off the pane, the filter mode and the keys
      alone: the key its browser block sees, if it reaches that block; the
      filter applied before; the keyword list it collects; and whether it
      closes a popup by picking the cursor's game of the state it starts
      with. */
  datatype Route = Route(browserKey: Option<Key>, refilter: Refilter, rebuilds: Option<Field>, reselectsFirst: bool)

  /** The keyword popup's part of a pass, on key `k` followed by `rest`. */
  function PickRoute(filter: uint32, k: Key, rest: seq<Key>, rebuilt: bool): (r: Route)
    ensures r.rebuilds.None?
    ensures r.refilter.ByKeyword? ==> KeywordField(filter) == Some(r.refilter.field) && r.refilter.rebuilt == rebuilt
  {
    if k == Select then
      if KeywordField(filter).Some? then Route(Some(Read(rest).0), ByKeyword(KeywordField(filter).value, rebuilt), None, false)
      else Route(Some(Read(rest).0), NoFilter, None, true)
    else if k == Cancel then Route(Some(Cancel), NoFilter, None, true)
    else Route(None, NoFilter, None, false)
  }

  /** The course of a pass that starts on `pane` with filter mode `filter`
      and reads key `k`, followed by `rest`. */
  function RouteOf(pane: Pane, filter: uint32, k: Key, rest: seq<Key>): (r: Route)
    ensures r.refilter.ByKeyword? ==> KeywordField(filter) == Some(r.refilter.field)
    ensures r.refilter.ByKeyword? && r.refilter.rebuilt ==> r.rebuilds == Some(r.refilter.field)
    ensures r.rebuilds.Some? ==> KeywordField(filter) == r.rebuilds
  {
    match pane
    case Confirm =>
      if k == Cancel then Route(Some(Cancel), NoFilter, None, true) else Route(None, NoFilter, None, false)
    case Launch =>
      if k == Cancel then Route(Some(Cancel), NoFilter, None, true) else Route(None, NoFilter, None, false)
    case FilterPre =>
      if k == Select then
        if filter == FILTER_NONE then Route(Some(Read(rest).0), AllGames, None, false)
        else PickRoute(filter, Read(rest).0, Read(rest).1, KeywordField(filter).Some?).(rebuilds := KeywordField(filter))
      else if k == Cancel then Route(Some(Cancel), NoFilter, None, true)
      else Route(None, NoFilter, None, false)
    case FilterPick => PickRoute(filter, k, rest, false)
    case Browser => Route(Some(k), NoFilter, None, false)
    case _ => Route(None, NoFilter, None, false)
  }

  /** The game a filter of the pass puts first: its id is the one the
      browser block then finds selected. */
  function FirstSelected(s: State, env: Env, rf: Refilter): int
    requires Shaped(s) && rf != NoFilter
    requires rf.ByKeyword? ==> (rf.field == Genre || rf.field == Series) && s.selectedFilterString as int < MAXIMUM_FILTER_STRINGS
    requires rf.ByKeyword? && rf.rebuilt ==> KeywordsFit(env, rf.field)
  {
    match rf
    case AllGames => if |env.games| > 0 then env.games[0].gameid else 0
    case ByKeyword(f, rebuilt) =>
      var strings := if rebuilt then KeywordSlots(env.games, env.meta, f) else s.filterStrings;
      var sel := Kept(env.games, env.meta, f, Trunc(strings[s.selectedFilterString], MAX_STRING_SIZE));
      if |sel| > 0 then sel[0] else 0
  }

  /** What the browser block demands on key `k` after filter `rf`: a cursor
      move must not scan past the list; Select needs a selected game, which
      the source dereferences; Left needs the artwork cursor past the list's
      head, whose `prev` is never set. */
  predicate BrowserKeyDefined(u: Screen, k: Key, rf: Refilter, env: Env)
    requires Browsable(u.state)
    requires rf.ByKeyword? ==> (rf.field == Genre || rf.field == Series) && u.state.selectedFilterString as int < MAXIMUM_FILTER_STRINGS
    requires rf.ByKeyword? && rf.rebuilt ==> KeywordsFit(env, rf.field)
  {
    && (rf == NoFilter && IsNav(k) ==> Paged(Moved(u.state, k)) && ReselectInBounds(Moved(u.state, k)))
    && (k == Select ==>
          if rf == NoFilter then u.state.selectedGame.Some? && u.state.selectedGame.value < |env.games|
          else GetGameid(FirstSelected(u.state, env, rf), env.games).Some?)
    && (k == Left && u.image.Some? ==> u.image.value > 0)
  }

  /** What a pass that reads key `k`, followed by `rest`, demands of the
      screen and the environment: every array read inside its bounds, every
      pointer it follows set. */
  predicate PassDefined(u: Screen, k: Key, rest: seq<Key>, env: Env)
  {
    && !u.exit && Browsable(u.state)
    && IdsInt(env.games) && |env.games| <= SELECTION_LIST_SIZE
    && (u.image.Some? ==> u.image.value <= env.images)
    && var r := RouteOf(u.pane, u.state.selectedFilter, k, rest);
    && (r.reselectsFirst ==> Paged(u.state) && ReselectInBounds(u.state))
    && (r.rebuilds.Some? ==> KeywordsFit(env, r.rebuilds.value))
    && (r.refilter.ByKeyword? ==> u.state.selectedFilterString as int < MAXIMUM_FILTER_STRINGS)
    && (r.browserKey.Some? ==> BrowserKeyDefined(u, r.browserKey.value, r.refilter, env))
  }

  /** The panes whose popup Cancel closes. */
  predicate Closes(p: Pane)
  {
    p == Confirm || p == Launch || p == FilterPre || p == FilterPick
  }

  /** What every pass promises, for key `k` followed by `rest`: the browser
      state stays browsable and the artwork cursor in its list; only keys
      after `k` are left unread; Quit stops and empties `run.bat`; Cancel
      closes a popup; `run.bat` changes only when the launcher stops, and is
      written only by Select on the confirmation popup; a confirmation opened
      from the browser has its start file. */
  predicate PassEnds(u: Screen, k: Key, rest: seq<Key>, env: Env, v: Screen, left: seq<Key>)
  {
    && Browsable(v.state)
    && (v.image.Some? ==> v.image.value <= env.images)
    && |left| <= |rest| && left == rest[|rest| - |left|..]
    && (k == Quit && QuitHandled(u.pane) ==> v.exit && v.bat == Zeroed)
    && (k == Cancel && Closes(u.pane) ==> v.pane == Browser && !v.exit && v.bat == u.bat)
    && (!v.exit ==> v.bat == u.bat)
    && (v.exit ==> v.bat == Zeroed || (u.pane == Confirm && k == Select && v.bat == Written(u.state.selectedStart)))
    && (u.pane == Browser && v.pane == Confirm ==> StartChosen(v.state, env.launchdat))
  }

  /** A suffix of a suffix is a suffix. */
  lemma SuffixTrans(a: seq<Key>, b: seq<Key>, c: seq<Key>)
    requires |b| <= |a| && b == a[|a| - |b|..]
    requires |c| <= |b| && c == b[|b| - |c|..]
    ensures |c| <= |a| && c == a[|a| - |c|..]
  {
  }

  /** Reading one key leaves a suffix of the keys. */
  lemma ReadSuffix(keys: seq<Key>)
    ensures |Read(keys).1| <= |keys| && Read(keys).1 == keys[|keys| - |Read(keys).1|..]
  {
  }

  /** The BROWSER block, on its command keys and its cursor keys. */
  method BrowserPass(u: Screen, k: Key, rest: seq<Key>, env: Env) returns (v: Screen, left: seq<Key>)
    requires u.pane == Browser && PassDefined(u, k, rest, env)
    ensures PassEnds(u, k, rest, env, v, left)
    ensures k == Cancel ==> v == u
  {
    if IsMove(k) {
      v := BrowserMove(u, k, env);
    } else {
      v := BrowserBlock(u, k, env);
    }
    left := rest;
  }

  /** A filter leaves the browser ready for any key: the cursor on the first
      line of the first page, and the first selected game looked up. */
  lemma RestartedReachesBrowser(w: Screen, k: Key, rest: seq<Key>, env: Env)
    requires w.pane == Browser && !w.exit && Browsable(w.state)
    requires w.state.selectedPage == 1 && w.state.selectedLine == 0
    requires IdsInt(env.games) && |env.games| <= SELECTION_LIST_SIZE
    requires w.image.Some? ==> w.image.value <= env.images
    requires w.state.selectedGame == GetGameid(w.state.selectedGameid, env.games)
    requires k == Select ==> w.state.selectedGame.Some?
    requires k == Left && w.image.Some? ==> w.image.value > 0
    ensures PassDefined(w, k, rest, env)
  {
    if IsNav(k) {
      RestartNavInBounds(w.state, k);
    }
  }

  /** The navigation keys do not look at the selected game's id. */
  lemma MovedIgnoresGameid(s: State, g: int, k: Key)
    requires IsNav(k)
    ensures Moved(s.(selectedGameid := g), k) == Moved(s, k).(selectedGameid := g)
  {
  }

  /** The page window depends on the page, the line and the list length
      alone. */
  lemma SameWindow(s: State, t: State)
    requires Paged(s)
    requires t.selectedPage == s.selectedPage && t.selectedLine == s.selectedLine && t.selectedMax == s.selectedMax
    ensures Paged(t) && ReselectInBounds(t) == ReselectInBounds(s)
  {
  }

  /** Picking the cursor's game again keeps whatever the browser block
      demands of the screen. */
  lemma ReselectedReachesBrowser(u: Screen, w: Screen, k: Key, rest: seq<Key>, env: Env)
    requires Browsable(u.state) && !u.exit
    requires w == u.(pane := Browser, state := u.state.(selectedGameid := w.state.selectedGameid))
    requires IdsInt(env.games) && |env.games| <= SELECTION_LIST_SIZE
    requires u.image.Some? ==> u.image.value <= env.images
    requires BrowserKeyDefined(u, k, NoFilter, env)
    ensures PassDefined(w, k, rest, env)
  {
    if IsNav(k) {
      MovedIgnoresGameid(u.state, w.state.selectedGameid, k);
      SameWindow(Moved(u.state, k), Moved(w.state, k));
    }
  }

  /** A pass that continues from block state `w` with key `k'` keeps the
      promises of the pass that started on `u` with key `k`. */
  lemma EndsCarry(u: Screen, w: Screen, k: Key, rest: seq<Key>, k': Key, rest': seq<Key>, env: Env, v: Screen, left: seq<Key>)
    requires PassEnds(w, k', rest', env, v, left)
    requires |rest'| <= |rest| && rest' == rest[|rest| - |rest'|..]
    requires w.bat == u.bat && (w.pane == Browser || w.pane == FilterPick) && u.pane != Browser
    requires k != Quit
    requires k == Cancel ==> v == w && w.pane == Browser && !w.exit
    ensures PassEnds(u, k, rest, env, v, left)
  {
    SuffixTrans(rest, rest', left);
  }

  /** After the keyword filter, the browser block gets what it demands: the
      game it finds selected is the one the route names. */
  lemma KeywordReachesBrowser(u: Screen, w: Screen, rest: seq<Key>, env: Env)
    requires u.pane == FilterPick && PassDefined(u, Select, rest, env)
    requires KeywordField(u.state.selectedFilter).Some?
    requires w == u.(pane := Browser, state := w.state) && Browsable(w.state)
    requires KeywordSelected(u.state, w.state, env.games, env.meta, KeywordField(u.state.selectedFilter).value,
                             Trunc(u.state.filterStrings[u.state.selectedFilterString], MAX_STRING_SIZE))
    ensures PassDefined(w, Read(rest).0, Read(rest).1, env)
  {
    RestartedReachesBrowser(w, Read(rest).0, Read(rest).1, env);
  }

  /** After selecting every game, likewise. */
  lemma AllReachesBrowser(u: Screen, w: Screen, rest: seq<Key>, env: Env)
    requires u.pane == FilterPre && u.state.selectedFilter == FILTER_NONE && PassDefined(u, Select, rest, env)
    requires w == u.(pane := Browser, state := w.state) && Browsable(w.state)
    requires AllSelected(u.state, w.state, env.games)
    ensures PassDefined(w, Read(rest).0, Read(rest).1, env)
  {
    RestartedReachesBrowser(w, Read(rest).0, Read(rest).1, env);
  }

  /** Select in the keyword popup on a keyword mode: filter, return to the
      browser and hand it the next key. */
  method PickKeywordPass(u: Screen, rest: seq<Key>, env: Env) returns (v: Screen, left: seq<Key>)
    requires u.pane == FilterPick && KeywordField(u.state.selectedFilter).Some? && PassDefined(u, Select, rest, env)
    ensures PassEnds(u, Select, rest, env, v, left)
  {
    BrowsablePaged(u.state);
    var w, k', rest' := FilterBlock(u, Select, rest, env);
    ReadSuffix(rest);
    KeywordReachesBrowser(u, w, rest, env);
    v, left := BrowserPass(w, k', rest', env);
    EndsCarry(u, w, Select, rest, k', rest', env, v, left);
  }

  /** Select in the keyword popup on a mode without keywords: no filter;
      back to the browser, which gets the next key. */
  method PickNothingPass(u: Screen, rest: seq<Key>, env: Env) returns (v: Screen, left: seq<Key>)
    requires u.pane == FilterPick && KeywordField(u.state.selectedFilter).None? && PassDefined(u, Select, rest, env)
    ensures PassEnds(u, Select, rest, env, v, left)
  {
    BrowsablePaged(u.state);
    var w, k', rest' := FilterBlock(u, Select, rest, env);
    ReadSuffix(rest);
    ReselectedReachesBrowser(u, w, k', rest', env);
    v, left := BrowserPass(w, k', rest', env);
    EndsCarry(u, w, Select, rest, k', rest', env, v, left);
  }

  /** The FILTER block, then the BROWSER block when it returns there. */
  method PickPass(u: Screen, k: Key, rest: seq<Key>, env: Env) returns (v: Screen, left: seq<Key>)
    requires u.pane == FilterPick && PassDefined(u, k, rest, env)
    ensures PassEnds(u, k, rest, env, v, left)
  {
    if k == Select && KeywordField(u.state.selectedFilter).Some? {
      v, left := PickKeywordPass(u, rest, env);
    } else if k == Select {
      v, left := PickNothingPass(u, rest, env);
    } else {
      BrowsablePaged(u.state);
      var w, k', rest' := FilterBlock(u, k, rest, env);
      v, left := w, rest';
      if w.pane == Browser {
        ReselectedReachesBrowser(u, w, k', rest', env);
        v, left := BrowserPass(w, k', rest', env);
      }
    }
  }

  /** The CONFIRM block, then the BROWSER block when Cancel returns there. */
  method ConfirmPass(u: Screen, k: Key, rest: seq<Key>, env: Env) returns (v: Screen, left: seq<Key>)
    requires u.pane == Confirm && PassDefined(u, k, rest, env)
    ensures PassEnds(u, k, rest, env, v, left)
  {
    BrowsablePaged(u.state);
    var w := ConfirmBlock(u, k);
    v, left := w, rest;
    if w.pane == Browser {
      ReselectedReachesBrowser(u, w, k, rest, env);
      v, left := BrowserPass(w, k, rest, env);
    }
  }

  /** The LAUNCH block, then the BROWSER block when Cancel returns there.
      Select opens the confirmation popup, whose block has already run. */
  method LaunchPass(u: Screen, k: Key, rest: seq<Key>, env: Env) returns (v: Screen, left: seq<Key>)
    requires u.pane == Launch && PassDefined(u, k, rest, env)
    ensures PassEnds(u, k, rest, env, v, left)
  {
    BrowsablePaged(u.state);
    var w := LaunchBlock(u, k, env);
    v, left := w, rest;
    if w.pane == Browser {
      ReselectedReachesBrowser(u, w, k, rest, env);
      v, left := BrowserPass(w, k, rest, env);
    }
  }

  /** Opening the keyword popup keeps what the rest of the pass demands: the
      popup then reads the keyword list just collected. */
  lemma RebuiltReachesPick(u: Screen, w: Screen, rest: seq<Key>, env: Env)
    requires u.pane == FilterPre && PassDefined(u, Select, rest, env) && u.state.selectedFilter != FILTER_NONE
    requires w.pane == FilterPick && !w.exit && Browsable(w.state) && w.image == u.image
    requires w.state == u.state.(filterStrings := w.state.filterStrings, availableFilterStrings := w.state.availableFilterStrings)
    requires KeywordField(u.state.selectedFilter).Some? ==>
               w.state.filterStrings == KeywordSlots(env.games, env.meta, KeywordField(u.state.selectedFilter).value)
    requires KeywordField(u.state.selectedFilter).None? ==> w.state == u.state
    ensures PassDefined(w, Read(rest).0, Read(rest).1, env)
  {
    var filter := u.state.selectedFilter;
    var (k, rest') := Read(rest);
    var before := RouteOf(FilterPre, filter, Select, rest);
    var after := RouteOf(FilterPick, filter, k, rest');
    if KeywordField(filter).None? {
      assert after == before;
    } else if after.reselectsFirst {
      BrowsablePaged(u.state);
      SameWindow(u.state, w.state);
    } else {
      var f := KeywordField(filter).value;
      assert before == after.(rebuilds := Some(f), refilter := before.refilter);
      if after.refilter.ByKeyword? {
        assert before.refilter == ByKeyword(f, true) && after.refilter == ByKeyword(f, false);
        assert FirstSelected(w.state, env, after.refilter) == FirstSelected(u.state, env, before.refilter);
      }
    }
  }

  /** Select in the filter-mode popup on `FILTER_NONE`: every game, back to
      the browser, which gets the next key. */
  method AllGamesPass(u: Screen, rest: seq<Key>, env: Env) returns (v: Screen, left: seq<Key>)
    requires u.pane == FilterPre && u.state.selectedFilter == FILTER_NONE && PassDefined(u, Select, rest, env)
    ensures PassEnds(u, Select, rest, env, v, left)
  {
    BrowsablePaged(u.state);
    var w, k', rest' := FilterPreBlock(u, Select, rest, env);
    ReadSuffix(rest);
    AllReachesBrowser(u, w, rest, env);
    v, left := BrowserPass(w, k', rest', env);
    EndsCarry(u, w, Select, rest, k', rest', env, v, left);
  }

  /** Select in the filter-mode popup on a keyword mode: collect the
      keywords and open the keyword popup, which gets the next key. */
  method PrePickPass(u: Screen, rest: seq<Key>, env: Env) returns (v: Screen, left: seq<Key>)
    requires u.pane == FilterPre && u.state.selectedFilter != FILTER_NONE && PassDefined(u, Select, rest, env)
    ensures PassEnds(u, Select, rest, env, v, left)
  {
    BrowsablePaged(u.state);
    var w, k', rest' := FilterPreBlock(u, Select, rest, env);
    ReadSuffix(rest);
    RebuiltReachesPick(u, w, rest, env);
    v, left := PickPass(w, k', rest', env);
    EndsCarry(u, w, Select, rest, k', rest', env, v, left);
  }

  /** The FILTER_PRE block, then the FILTER or the BROWSER block, on the key
      read after Select, or on Cancel. */
  method FilterPrePass(u: Screen, k: Key, rest: seq<Key>, env: Env) returns (v: Screen, left: seq<Key>)
    requires u.pane == FilterPre && PassDefined(u, k, rest, env)
    ensures PassEnds(u, k, rest, env, v, left)
  {
    if k == Select && u.state.selectedFilter == FILTER_NONE {
      v, left := AllGamesPass(u, rest, env);
    } else if k == Select {
      v, left := PrePickPass(u, rest, env);
    } else {
      BrowsablePaged(u.state);
      var w, k', rest' := FilterPreBlock(u, k, rest, env);
      v, left := w, rest';
      if w.pane == Browser {
        ReselectedReachesBrowser(u, w, k', rest', env);
        v, left := BrowserPass(w, k', rest', env);
      }
    }
  }

  /** The HELP block. */
  method HelpPass(u: Screen, k: Key, rest: seq<Key>, env: Env) returns (v: Screen, left: seq<Key>)
    requires u.pane == HelpPane && PassDefined(u, k, rest, env)
    ensures PassEnds(u, k, rest, env, v, left)
  {
    v := HelpBlock(u, k);
    left := rest;
  }

  /** A pass on a pane no block handles leaves the screen as it is. */
  method IdlePass(u: Screen, k: Key, rest: seq<Key>, env: Env) returns (v: Screen, left: seq<Key>)
    requires !QuitHandled(u.pane) && PassDefined(u, k, rest, env)
    ensures PassEnds(u, k, rest, env, v, left)
    ensures v == u
  {
    v, left := u, rest;
  }

  /** What a pass demands: `PassDefined` for the first key it reads. */
  predicate StepDefined(u: Screen, keys: seq<Key>, env: Env)
  {
    PassDefined(u, Read(keys).0, Read(keys).1, env)
  }

  /** One pass of the main loop: read a key (none when there are no keys
      left), then run the blocks of the CONFIRM, LAUNCH, HELP, FILTER_PRE,
      FILTER and BROWSER panes in that order, each when its pane is the
      active one.  A block that switches to a later pane hands its key on,
      or the next key when it read one.  Returns the keys not read. */
  method Step(u: Screen, keys: seq<Key>, env: Env) returns (v: Screen, rest: seq<Key>)
    requires StepDefined(u, keys, env)
    ensures PassEnds(u, Read(keys).0, Read(keys).1, env, v, rest)
    ensures |rest| <= |keys| && rest == keys[|keys| - |rest|..]
  {
    var k, ks := Read(keys).0, Read(keys).1;
    if u.pane == Confirm {
      v, rest := ConfirmPass(u, k, ks, env);
    } else if u.pane == Launch {
      v, rest := LaunchPass(u, k, ks, env);
    } else if u.pane == HelpPane {
      v, rest := HelpPass(u, k, ks, env);
    } else if u.pane == FilterPre {
      v, rest := FilterPrePass(u, k, ks, env);
    } else if u.pane == FilterPick {
      v, rest := PickPass(u, k, ks, env);
    } else if u.pane == Browser {
      v, rest := BrowserPass(u, k, ks, env);
    } else {
      v, rest := IdlePass(u, k, ks, env);
    }
    ReadSuffix(keys);
    SuffixTrans(keys, ks, rest);
  }
}
