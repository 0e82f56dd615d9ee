/*******************************************************************************
 *  Building the browser's selection list and its filter keywords (filter.c).
 *******************************************************************************/

/** `filter_None`, `filter_Genre`, `filter_Series`, `filter_GetGenres`,
    `filter_GetSeries` and `sortFilterKeys`, over the part of `state_t`
    (main.h) that they and the browser use.

    Launch metadata comes from `Data.LoadMeta` and its `meta` oracle. */
module Filter {
  import opened Base
  import opened Data

  const SELECTION_LIST_SIZE: nat := 999
  const MAXIMUM_FILTER_STRINGS: nat := 32
  const FILTER_NONE: uint32 := 0
  const FILTER_GENRE: uint32 := 1
  const FILTER_SERIES: uint32 := 2
  const START_MAIN: uint32 := 0
  const START_ALT: uint32 := 1
  const FILTER_OK: int := 0

  /** `ui_browser_max_lines` (ui.h): entries on one browser page. */
  const BROWSER_MAX_LINES: nat := 14

  /** `state_t`, without the artwork and info-pane bookkeeping.
      `selectedGame` is the node `selected_game` points at. */
  datatype State = State(
    selectedList: seq<uint32>, selectedMax: uint32, selectedPage: uint32,
    selectedLine: uint32, totalPages: uint32, selectedStart: uint32,
    selectedFilter: uint32, selectedFilterString: uint32,
    availableFilterStrings: uint32, selectedGameid: int,
    selectedGame: Option<nat>, filterStrings: seq<seq<char>>)

  /** The two arrays have their declared sizes. */
  predicate Shaped(s: State)
  {
    |s.selectedList| == SELECTION_LIST_SIZE && |s.filterStrings| == MAXIMUM_FILTER_STRINGS
  }

  /** Game ids are C `int`s. */
  predicate IdsInt(games: seq<Game>)
  {
    forall k :: 0 <= k < |games| ==> Int32(games[k].gameid)
  }

  /** An id stored in the `unsigned` selection list reads back unchanged. */
  lemma IdRoundTrip(id: int)
    requires Int32(id)
    ensures ToSigned32(Wrap32(id)) == id
  {
    if id < 0 {
      Wrap32Near(id);
    }
  }

  /** The page count loop shared by the three filters: one page for every
      `i` in `0..selected_max` that is a multiple of 14. */
  method CountPages(max: nat) returns (pages: nat)
    ensures pages == max / BROWSER_MAX_LINES + 1
    ensures (pages - 1) * BROWSER_MAX_LINES <= max < pages * BROWSER_MAX_LINES
  {
    pages := 0;
    var i := 0;
    while i <= max
      invariant 0 <= i <= max + 1
      invariant pages == (i + 13) / 14
    {
      if i % BROWSER_MAX_LINES == 0 {
        pages := pages + 1;
      }
      i := i + 1;
    }
  }

  /** What every filter leaves behind, given the list it built: page 1,
      line 0, keyword 0, the page count, the first list entry selected (the
      cleared value 0 when the list is empty), the keyword list cleared, and
      the modes untouched. */
  predicate Restarted(s: State, r: State, games: seq<Game>)
  {
    && Shaped(r)
    && r.selectedPage == 1 && r.selectedLine == 0 && r.selectedFilterString == 0
    && r.totalPages as int == r.selectedMax as int / BROWSER_MAX_LINES + 1
    && r.selectedGameid == ToSigned32(r.selectedList[0])
    && r.selectedGame == GetGameid(r.selectedGameid, games)
    && (forall k :: 0 <= k < MAXIMUM_FILTER_STRINGS ==> r.filterStrings[k] == [])
    && r.selectedStart == s.selectedStart && r.selectedFilter == s.selectedFilter
    && r.availableFilterStrings == s.availableFilterStrings
  }

  /** The closing statements of the three filters, for a list of `count`
      entries. */
  method Conclude(s: State, list: seq<uint32>, count: nat, games: seq<Game>) returns (r: State)
    requires |list| == SELECTION_LIST_SIZE && count <= SELECTION_LIST_SIZE
    ensures r.selectedList == list && r.selectedMax as int == count
    ensures Restarted(s, r, games)
  {
    var pages := CountPages(count);
    var id := ToSigned32(list[0]);
    r := s.(selectedList := list, selectedMax := count, selectedPage := 1, selectedLine := 0,
            totalPages := pages, selectedFilterString := 0, selectedGameid := id,
            selectedGame := GetGameid(id, games),
            filterStrings := seq(MAXIMUM_FILTER_STRINGS, _ => []));
  }

  /** `r` is `s` restarted on a selection of every game, in list order. */
  predicate AllSelected(s: State, r: State, games: seq<Game>)
  {
    && Restarted(s, r, games) && |games| <= SELECTION_LIST_SIZE
    && r.selectedMax as int == |games|
    && (forall k :: 0 <= k < |games| ==> r.selectedList[k] == Wrap32(games[k].gameid))
    && (forall k :: |games| <= k < SELECTION_LIST_SIZE ==> r.selectedList[k] == 0)
    && r.selectedGameid == (if |games| > 0 then games[0].gameid else 0)
  }

  /** `filter_None`: every game, in list order.  More games than the
      999-entry list holds would overrun it. */
  method FilterNone(s: State, games: seq<Game>) returns (r: State, ret: int)
    requires IdsInt(games) && |games| <= SELECTION_LIST_SIZE
    ensures ret == FILTER_OK && AllSelected(s, r, games)
  {
    var list: seq<uint32> := seq(SELECTION_LIST_SIZE, _ => 0);
    var i := 0;
    while i < |games|
      invariant 0 <= i <= |games| && |list| == SELECTION_LIST_SIZE
      invariant forall k :: 0 <= k < i ==> list[k] == Wrap32(games[k].gameid)
      invariant forall k :: i <= k < SELECTION_LIST_SIZE ==> list[k] == 0
    {
      list := list[i := Wrap32(games[i].gameid)];
      i := i + 1;
    }
    r := Conclude(s, list, i, games);
    ret := FILTER_OK;
    if |games| > 0 {
      IdRoundTrip(games[0].gameid);
    }
  }

  /** The keyword field a filter looks at. */
  function Keyword(ld: LaunchDat, f: Field): seq<char>
    requires f == Genre || f == Series
  {
    if f == Genre then ld.genre else ld.series
  }

  /** `r` is `s` restarted on the games that pass the keyword filter, in list
      order. */
  predicate KeywordSelected(s: State, r: State, games: seq<Game>, meta: Game -> Option<LaunchDat>, f: Field, filter: seq<char>)
    requires f == Genre || f == Series
  {
    var sel := Kept(games, meta, f, filter);
    && Restarted(s, r, games) && |sel| <= SELECTION_LIST_SIZE
    && r.selectedMax as int == |sel|
    && (forall k :: 0 <= k < |sel| ==> r.selectedList[k] == Wrap32(sel[k]))
    && (forall k :: |sel| <= k < SELECTION_LIST_SIZE ==> r.selectedList[k] == 0)
    && r.selectedGameid == (if |sel| > 0 then sel[0] else 0)
  }

  /** A game passes the genre or series filter: its metadata loads and the
      field agrees with the chosen keyword on the first 32 characters. */
  predicate Keeps(meta: Game -> Option<LaunchDat>, g: Game, f: Field, filter: seq<char>)
    requires f == Genre || f == Series
  {
    var m := LoadMeta(meta, g);
    m.Some? && StrNCmp(Keyword(m.value, f), filter, MAX_STRING_SIZE) == 0
  }

  /** The reference selection: the ids of the games that pass, in list order. */
  function Kept(games: seq<Game>, meta: Game -> Option<LaunchDat>, f: Field, filter: seq<char>): seq<int>
    requires f == Genre || f == Series
  {
    if |games| == 0 then []
    else
      var last := games[|games| - 1];
      Kept(games[..|games| - 1], meta, f, filter) + (if Keeps(meta, last, f, filter) then [last.gameid] else [])
  }

  /** Passing the filter means a loaded keyword equal to the chosen one up to
      32 characters; in particular an empty keyword lets through every game
      whose metadata has no value there. */
  lemma KeepsMeaning(meta: Game -> Option<LaunchDat>, g: Game, f: Field, filter: seq<char>)
    requires f == Genre || f == Series
    ensures Keeps(meta, g, f, filter) <==>
              && g.hasDat == 1 && meta(g).Some?
              && Trunc(Keyword(meta(g).value, f), MAX_STRING_SIZE) == Trunc(filter, MAX_STRING_SIZE)
  {
    var m := LoadMeta(meta, g);
    if m.Some? {
      StrNCmpZero(Keyword(m.value, f), filter, MAX_STRING_SIZE);
    }
  }

  /** `filter_Genre` and `filter_Series`, which differ only in the field:
      the chosen keyword is copied before the keyword list is cleared, then
      every game that passes is appended to the selection list.  The keyword
      index and the number of games selected must stay inside their arrays. */
  method FilterKeyword(s: State, games: seq<Game>, meta: Game -> Option<LaunchDat>, f: Field) returns (r: State, ret: int)
    requires Shaped(s) && IdsInt(games) && (f == Genre || f == Series)
    requires s.selectedFilterString as int < MAXIMUM_FILTER_STRINGS
    requires |Kept(games, meta, f, Trunc(s.filterStrings[s.selectedFilterString], MAX_STRING_SIZE))| <= SELECTION_LIST_SIZE
    ensures ret == FILTER_OK
    ensures KeywordSelected(s, r, games, meta, f, Trunc(s.filterStrings[s.selectedFilterString], MAX_STRING_SIZE))
  {
    var filter := Trunc(s.filterStrings[s.selectedFilterString], MAX_STRING_SIZE);
    ghost var sel := Kept(games, meta, f, filter);
    var list, i := SelectKeyword(games, meta, f, filter);
    r := Conclude(s, list, i, games);
    ret := FILTER_OK;
    if i > 0 {
      KeptIds(games, meta, f, filter);
      IdRoundTrip(sel[0]);
    }
  }

  /** The selection loop of the keyword filter: the ids of the games that
      pass, in list order, then zeros. */
  method SelectKeyword(games: seq<Game>, meta: Game -> Option<LaunchDat>, f: Field, filter: seq<char>)
    returns (list: seq<uint32>, count: nat)
    requires f == Genre || f == Series
    requires |Kept(games, meta, f, filter)| <= SELECTION_LIST_SIZE
    ensures |list| == SELECTION_LIST_SIZE && count == |Kept(games, meta, f, filter)|
    ensures forall k :: 0 <= k < count ==> list[k] == Wrap32(Kept(games, meta, f, filter)[k])
    ensures forall k :: count <= k < SELECTION_LIST_SIZE ==> list[k] == 0
  {
    list := seq(SELECTION_LIST_SIZE, _ => 0);
    count := 0;
    var c := 0;
    ghost var kept: seq<int> := [];
    while c < |games|
      invariant 0 <= c <= |games| && |list| == SELECTION_LIST_SIZE
      invariant kept == Kept(games[..c], meta, f, filter)
      invariant count == |kept| <= |Kept(games, meta, f, filter)|
      invariant forall k :: 0 <= k < count ==> list[k] == Wrap32(kept[k])
      invariant forall k :: count <= k < SELECTION_LIST_SIZE ==> list[k] == 0
    {
      KeptStep(games, meta, f, filter, c);
      KeptGrows(games, meta, f, filter, c + 1);
      list, count := SelectIfKept(list, count, games[c], meta, f, filter);
      kept := kept + (if Keeps(meta, games[c], f, filter) then [games[c].gameid] else []);
      c := c + 1;
    }
    assert games[..c] == games;
  }

  /** The loop body of the keyword filter for one game: its id goes into the
      next free slot when it passes. */
  method SelectIfKept(list: seq<uint32>, i: nat, g: Game, meta: Game -> Option<LaunchDat>, f: Field, filter: seq<char>)
    returns (list': seq<uint32>, i': nat)
    requires f == Genre || f == Series
    requires i <= |list| && (Keeps(meta, g, f, filter) ==> i < |list|)
    ensures Keeps(meta, g, f, filter) ==> list' == list[i := Wrap32(g.gameid)] && i' == i + 1
    ensures !Keeps(meta, g, f, filter) ==> list' == list && i' == i
  {
    list', i' := list, i;
    if g.hasDat != 0 {
      var m := LoadMeta(meta, g);
      if m.Some? && StrNCmp(Keyword(m.value, f), filter, MAX_STRING_SIZE) == 0 {
        list' := list[i := Wrap32(g.gameid)];
        i' := i + 1;
      }
    }
  }

  /** The selection is never longer than the list of games. */
  lemma {:induction false} KeptShort(games: seq<Game>, meta: Game -> Option<LaunchDat>, f: Field, filter: seq<char>)
    requires f == Genre || f == Series
    ensures |Kept(games, meta, f, filter)| <= |games|
    decreases |games|
  {
    if |games| > 0 {
      KeptShort(games[..|games| - 1], meta, f, filter);
    }
  }

  /** One more game appends its id when it passes. */
  lemma KeptStep(games: seq<Game>, meta: Game -> Option<LaunchDat>, f: Field, filter: seq<char>, c: nat)
    requires f == Genre || f == Series
    requires c < |games|
    ensures Kept(games[..c + 1], meta, f, filter)
            == Kept(games[..c], meta, f, filter) + (if Keeps(meta, games[c], f, filter) then [games[c].gameid] else [])
  {
    assert games[..c + 1][..c] == games[..c];
  }

  /** The selection holds game ids only. */
  lemma {:induction false} KeptIds(games: seq<Game>, meta: Game -> Option<LaunchDat>, f: Field, filter: seq<char>)
    requires f == Genre || f == Series
    requires IdsInt(games)
    ensures forall k :: 0 <= k < |Kept(games, meta, f, filter)| ==> Int32(Kept(games, meta, f, filter)[k])
    decreases |games|
  {
    if |games| > 0 {
      KeptIds(games[..|games| - 1], meta, f, filter);
    }
  }

  /** A longer prefix of the list selects at least as many games. */
  lemma {:induction false} KeptGrows(games: seq<Game>, meta: Game -> Option<LaunchDat>, f: Field, filter: seq<char>, n: nat)
    requires f == Genre || f == Series
    requires n <= |games|
    ensures |Kept(games[..n], meta, f, filter)| <= |Kept(games, meta, f, filter)|
    decreases |games| - n
  {
    if n < |games| {
      KeptGrows(games, meta, f, filter, n + 1);
      assert games[..n + 1][..n] == games[..n];
    } else {
      assert games[..n] == games;
    }
  }

  /** `filter_Genre`. */
  method FilterGenre(s: State, games: seq<Game>, meta: Game -> Option<LaunchDat>) returns (r: State, ret: int)
    requires Shaped(s) && IdsInt(games)
    requires s.selectedFilterString as int < MAXIMUM_FILTER_STRINGS
    requires |Kept(games, meta, Genre, Trunc(s.filterStrings[s.selectedFilterString], MAX_STRING_SIZE))| <= SELECTION_LIST_SIZE
    ensures ret == FILTER_OK
    ensures KeywordSelected(s, r, games, meta, Genre, Trunc(s.filterStrings[s.selectedFilterString], MAX_STRING_SIZE))
  {
    r, ret := FilterKeyword(s, games, meta, Genre);
  }

  /** `filter_Series`. */
  method FilterSeries(s: State, games: seq<Game>, meta: Game -> Option<LaunchDat>) returns (r: State, ret: int)
    requires Shaped(s) && IdsInt(games)
    requires s.selectedFilterString as int < MAXIMUM_FILTER_STRINGS
    requires |Kept(games, meta, Series, Trunc(s.filterStrings[s.selectedFilterString], MAX_STRING_SIZE))| <= SELECTION_LIST_SIZE
    ensures ret == FILTER_OK
    ensures KeywordSelected(s, r, games, meta, Series, Trunc(s.filterStrings[s.selectedFilterString], MAX_STRING_SIZE))
  {
    r, ret := FilterKeyword(s, games, meta, Series);
  }

  /*--------------------------------------------------------------------------
   *  Keyword lists
   *--------------------------------------------------------------------------*/

  /** The non-empty keywords of the games whose metadata loads, in list order. */
  function Values(games: seq<Game>, meta: Game -> Option<LaunchDat>, f: Field): seq<seq<char>>
    requires f == Genre || f == Series
  {
    if |games| == 0 then []
    else
      var m := LoadMeta(meta, games[|games| - 1]);
      Values(games[..|games| - 1], meta, f)
        + (if m.Some? && Keyword(m.value, f) != [] then [Keyword(m.value, f)] else [])
  }

  /** First occurrences, in order. */
  function Dedup(xs: seq<seq<char>>): seq<seq<char>>
  {
    if |xs| == 0 then []
    else
      var d := Dedup(xs[..|xs| - 1]);
      if xs[|xs| - 1] in d then d else d + [xs[|xs| - 1]]
  }

  predicate NoDup(xs: seq<seq<char>>)
  {
    forall i, j :: 0 <= i < j < |xs| ==> xs[i] != xs[j]
  }

  /** Dropping repeats keeps every value once. */
  lemma {:induction false} DedupMeaning(xs: seq<seq<char>>)
    ensures forall x :: x in Dedup(xs) <==> x in xs
    ensures NoDup(Dedup(xs))
    decreases |xs|
  {
    if |xs| > 0 {
      var init := xs[..|xs| - 1];
      DedupMeaning(init);
      assert xs == init + [xs[|xs| - 1]];
    }
  }

  /** The distinct keywords. */
  function Keywords(games: seq<Game>, meta: Game -> Option<LaunchDat>, f: Field): seq<seq<char>>
    requires f == Genre || f == Series
  {
    Dedup(Values(games, meta, f))
  }

  /** A longer prefix of the list has at least as many distinct keywords. */
  lemma {:induction false} KeywordsGrow(games: seq<Game>, meta: Game -> Option<LaunchDat>, f: Field, n: nat)
    requires f == Genre || f == Series
    requires n <= |games|
    ensures |Keywords(games[..n], meta, f)| <= |Keywords(games, meta, f)|
    decreases |games| - n
  {
    if n < |games| {
      KeywordsGrow(games, meta, f, n + 1);
      assert games[..n + 1][..n] == games[..n];
      KeywordsStep(games, meta, f, n);
    } else {
      assert games[..n] == games;
    }
  }

  /** Looking at one more game adds its keyword when it is new. */
  lemma KeywordsStep(games: seq<Game>, meta: Game -> Option<LaunchDat>, f: Field, n: nat)
    requires f == Genre || f == Series
    requires n < |games|
    ensures Keywords(games[..n + 1], meta, f) == Added(Keywords(games[..n], meta, f), games[n], meta, f)
  {
    assert games[..n + 1][..n] == games[..n];
    var m := LoadMeta(meta, games[n]);
    var v := Values(games[..n], meta, f);
    if m.Some? && Keyword(m.value, f) != [] {
      assert Values(games[..n + 1], meta, f) == v + [Keyword(m.value, f)];
      assert (v + [Keyword(m.value, f)])[..|v|] == v;
    } else {
      assert Values(games[..n + 1], meta, f) == v;
    }
  }

  /** Strictly increasing under `strcmp`. */
  predicate StrictlySorted(xs: seq<seq<char>>)
  {
    forall k :: 0 < k < |xs| ==> StrCmp(xs[k - 1], xs[k]) < 0
  }

  /** Insertion of `x` before the first element not below it. */
  function Insert(x: seq<char>, xs: seq<seq<char>>): (r: seq<seq<char>>)
    ensures |r| == |xs| + 1
  {
    if |xs| == 0 then [x]
    else if StrCmp(x, xs[0]) <= 0 then [x] + xs
    else [xs[0]] + Insert(x, xs[1..])
  }

  lemma {:induction false} InsertMeaning(x: seq<char>, xs: seq<seq<char>>)
    requires StrictlySorted(xs) && x !in xs
    ensures forall y :: y in Insert(x, xs) <==> y == x || y in xs
    ensures StrictlySorted(Insert(x, xs))
    ensures |Insert(x, xs)| > 0 && (Insert(x, xs)[0] == x || Insert(x, xs)[0] == xs[0])
    decreases |xs|
  {
    if |xs| > 0 {
      StrCmpZero(x, xs[0]);
      if StrCmp(x, xs[0]) > 0 {
        var rest := xs[1..];
        InsertMeaning(x, rest);
        StrCmpFlip(x, xs[0]);
        assert xs == [xs[0]] + rest;
      }
    }
  }

  /** `qsort` with `strcmp` on distinct keywords, which have exactly one
      sorted order. */
  function SortStrings(xs: seq<seq<char>>): (r: seq<seq<char>>)
    ensures |r| == |xs|
  {
    if |xs| == 0 then [] else Insert(xs[0], SortStrings(xs[1..]))
  }

  /** Sorting distinct keywords keeps exactly those keywords and orders them
      strictly. */
  lemma {:induction false} SortMeaning(xs: seq<seq<char>>)
    requires NoDup(xs)
    ensures forall y :: y in SortStrings(xs) <==> y in xs
    ensures StrictlySorted(SortStrings(xs))
    decreases |xs|
  {
    if |xs| > 0 {
      var rest := xs[1..];
      assert NoDup(rest);
      SortMeaning(rest);
      assert xs == [xs[0]] + rest;
      assert xs[0] !in rest;
      InsertMeaning(xs[0], SortStrings(rest));
    }
  }

  /** Every keyword of the loaded metadata fits its 32-byte field with the
      terminator, as `strcmp` needs. */
  predicate KeywordsTerminated(games: seq<Game>, meta: Game -> Option<LaunchDat>, f: Field)
    requires f == Genre || f == Series
  {
    forall k :: 0 <= k < |games| ==>
      (LoadMeta(meta, games[k]).Some? ==> |Keyword(LoadMeta(meta, games[k]).value, f)| < MAX_STRING_SIZE)
  }

  /** The sorted keyword list holds each non-empty keyword once, in strictly
      increasing order. */
  lemma SortedKeywords(games: seq<Game>, meta: Game -> Option<LaunchDat>, f: Field)
    requires f == Genre || f == Series
    ensures var sorted := SortStrings(Keywords(games, meta, f));
            && |sorted| == |Keywords(games, meta, f)|
            && (forall x :: x in sorted <==> x in Values(games, meta, f))
            && StrictlySorted(sorted)
  {
    DedupMeaning(Values(games, meta, f));
    SortMeaning(Keywords(games, meta, f));
  }

  /** The 32 keyword slots as the keyword collection leaves them: the sorted
      keywords, then empty strings. */
  function KeywordSlots(games: seq<Game>, meta: Game -> Option<LaunchDat>, f: Field): (r: seq<seq<char>>)
    requires f == Genre || f == Series
    requires |Keywords(games, meta, f)| <= MAXIMUM_FILTER_STRINGS
    ensures |r| == MAXIMUM_FILTER_STRINGS
  {
    SortStrings(Keywords(games, meta, f)) + seq(MAXIMUM_FILTER_STRINGS - |Keywords(games, meta, f)|, _ => [])
  }

  /** `filter_GetGenres` and `filter_GetSeries`, which differ only in the
      field: the 32 keyword slots are cleared, each new non-empty keyword is
      appended, and the first `available_filter_strings` slots are sorted.
      A 33rd distinct keyword would overrun the slots. */
  method GetKeywords(s: State, games: seq<Game>, meta: Game -> Option<LaunchDat>, f: Field) returns (r: State, ret: int)
    requires Shaped(s) && (f == Genre || f == Series) && KeywordsTerminated(games, meta, f)
    requires |Keywords(games, meta, f)| <= MAXIMUM_FILTER_STRINGS
    ensures ret == FILTER_OK && Shaped(r)
    ensures r == s.(filterStrings := r.filterStrings, availableFilterStrings := r.availableFilterStrings)
    ensures var n := r.availableFilterStrings as int;
            && n <= MAXIMUM_FILTER_STRINGS
            && (forall x :: x in r.filterStrings[..n] <==> x in Values(games, meta, f))
            && StrictlySorted(r.filterStrings[..n])
            && (forall k :: n <= k < MAXIMUM_FILTER_STRINGS ==> r.filterStrings[k] == [])
    ensures r.availableFilterStrings as int == |Keywords(games, meta, f)|
    ensures r.filterStrings == KeywordSlots(games, meta, f)
  {
    var slots, next := CollectKeywords(games, meta, f);
    var keys := slots[..next];
    SortedKeywords(games, meta, f);
    assert slots[next..] == seq(MAXIMUM_FILTER_STRINGS - next, _ => []);
    slots := SortStrings(keys) + slots[next..];
    assert slots[..next] == SortStrings(keys);
    r := s.(filterStrings := slots, availableFilterStrings := next);
    ret := FILTER_OK;
  }

  /** The collection loop of `filter_GetGenres` and `filter_GetSeries`: the
      distinct non-empty keywords in order of first appearance, then empty
      slots. */
  method CollectKeywords(games: seq<Game>, meta: Game -> Option<LaunchDat>, f: Field)
    returns (slots: seq<seq<char>>, next: nat)
    requires f == Genre || f == Series
    requires KeywordsTerminated(games, meta, f) && |Keywords(games, meta, f)| <= MAXIMUM_FILTER_STRINGS
    ensures |slots| == MAXIMUM_FILTER_STRINGS && next == |Keywords(games, meta, f)|
    ensures slots[..next] == Keywords(games, meta, f)
    ensures forall k :: next <= k < MAXIMUM_FILTER_STRINGS ==> slots[k] == []
  {
    slots := seq(MAXIMUM_FILTER_STRINGS, _ => []);
    next := 0;
    var c := 0;
    ghost var keys: seq<seq<char>> := [];
    while c < |games|
      invariant 0 <= c <= |games| && |slots| == MAXIMUM_FILTER_STRINGS
      invariant keys == Keywords(games[..c], meta, f)
      invariant next == |keys| <= |Keywords(games, meta, f)|
      invariant slots[..next] == keys
      invariant forall k :: next <= k < MAXIMUM_FILTER_STRINGS ==> slots[k] == []
    {
      KeywordsStep(games, meta, f, c);
      KeywordsGrow(games, meta, f, c + 1);
      assert LoadMeta(meta, games[c]).Some? ==> |Keyword(LoadMeta(meta, games[c]).value, f)| < MAX_STRING_SIZE;
      slots, next := CollectKeyword(slots, next, games[c], meta, f);
      keys := Added(keys, games[c], meta, f);
      c := c + 1;
    }
    assert games[..c] == games;
  }

  /** The keyword list after one more game. */
  function Added(keys: seq<seq<char>>, g: Game, meta: Game -> Option<LaunchDat>, f: Field): seq<seq<char>>
    requires f == Genre || f == Series
  {
    var m := LoadMeta(meta, g);
    if m.Some? && Keyword(m.value, f) != [] && Keyword(m.value, f) !in keys
    then keys + [Keyword(m.value, f)] else keys
  }

  /** The loop body of the keyword collection for one game: its keyword is
      appended when the metadata loads, the keyword is not empty, and no slot
      holds it yet. */
  method CollectKeyword(slots: seq<seq<char>>, next: nat, g: Game, meta: Game -> Option<LaunchDat>, f: Field)
    returns (slots': seq<seq<char>>, next': nat)
    requires f == Genre || f == Series
    requires |slots| == MAXIMUM_FILTER_STRINGS && next <= MAXIMUM_FILTER_STRINGS
    requires forall k :: next <= k < MAXIMUM_FILTER_STRINGS ==> slots[k] == []
    requires LoadMeta(meta, g).Some? ==> |Keyword(LoadMeta(meta, g).value, f)| < MAX_STRING_SIZE
    requires |Added(slots[..next], g, meta, f)| <= MAXIMUM_FILTER_STRINGS
    ensures |slots'| == MAXIMUM_FILTER_STRINGS && next' <= MAXIMUM_FILTER_STRINGS
    ensures forall k :: next' <= k < MAXIMUM_FILTER_STRINGS ==> slots'[k] == []
    ensures slots'[..next'] == Added(slots[..next], g, meta, f)
  {
    slots', next' := slots, next;
    if g.hasDat != 0 {
      var m := LoadMeta(meta, g);
      if m.Some? && StrCmp(Keyword(m.value, f), []) != 0 {
        var v := Keyword(m.value, f);
        StrCmpZero(v, []);
        assert v in slots <==> v in slots[..next];
        if v !in slots {
          assert Trunc(v, MAX_STRING_SIZE) == v;
          slots' := slots[next := Trunc(v, MAX_STRING_SIZE)];
          next' := next + 1;
          assert slots'[..next'] == slots[..next] + [v];
        }
      } else if m.Some? {
        StrCmpZero(Keyword(m.value, f), []);
      }
    }
  }

  /** `filter_GetGenres`. */
  method GetGenres(s: State, games: seq<Game>, meta: Game -> Option<LaunchDat>) returns (r: State, ret: int)
    requires Shaped(s) && KeywordsTerminated(games, meta, Genre)
    requires |Keywords(games, meta, Genre)| <= MAXIMUM_FILTER_STRINGS
    ensures ret == FILTER_OK && Shaped(r)
    ensures r == s.(filterStrings := r.filterStrings, availableFilterStrings := r.availableFilterStrings)
    ensures var n := r.availableFilterStrings as int;
            && n == |Keywords(games, meta, Genre)|
            && (forall x :: x in r.filterStrings[..n] <==> x in Values(games, meta, Genre))
            && StrictlySorted(r.filterStrings[..n])
            && (forall k :: n <= k < MAXIMUM_FILTER_STRINGS ==> r.filterStrings[k] == [])
    ensures r.filterStrings == KeywordSlots(games, meta, Genre)
  {
    r, ret := GetKeywords(s, games, meta, Genre);
  }

  /** `filter_GetSeries`. */
  method GetSeries(s: State, games: seq<Game>, meta: Game -> Option<LaunchDat>) returns (r: State, ret: int)
    requires Shaped(s) && KeywordsTerminated(games, meta, Series)
    requires |Keywords(games, meta, Series)| <= MAXIMUM_FILTER_STRINGS
    ensures ret == FILTER_OK && Shaped(r)
    ensures r == s.(filterStrings := r.filterStrings, availableFilterStrings := r.availableFilterStrings)
    ensures var n := r.availableFilterStrings as int;
            && n == |Keywords(games, meta, Series)|
            && (forall x :: x in r.filterStrings[..n] <==> x in Values(games, meta, Series))
            && StrictlySorted(r.filterStrings[..n])
            && (forall k :: n <= k < MAXIMUM_FILTER_STRINGS ==> r.filterStrings[k] == [])
    ensures r.filterStrings == KeywordSlots(games, meta, Series)
  {
    r, ret := GetKeywords(s, games, meta, Series);
  }
}
