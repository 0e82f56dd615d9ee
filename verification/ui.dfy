/*******************************************************************************
 *  Paging of the game browser: which slice of the selection list a page
 *  shows, which game the cursor names, and where the cursor is drawn
 *  (ui.c / ui.h).
 *******************************************************************************/

/** `ui_ReselectCurrentGame`, the `startpos`/`endpos` window shared with
    `ui_UpdateBrowserPane`, and the cursor offset of
    `ui_UpdateBrowserPaneStatus`.

    The page and line counters are `unsigned int`; `startpos`, `endpos` and
    the offsets are `int`.  The conversions between them are written out:
    unsigned arithmetic wraps modulo 2^32 and an unsigned value stored into
    an `int` is reinterpreted in two's complement. */
module Ui {
  import opened Base
  import opened Data
  import opened Filter

  const UI_OK: int := 0
  /** `ui_browser_font_y_pos`: the y position of the first browser row. */
  const BROWSER_FONT_Y_POS: int := 16
  /** The gap between two browser rows, added to the font height. */
  const ROW_GAP: int := 2

  /** `startpos`: `(selected_page - 1) * 14` in unsigned arithmetic, stored
      in an `int` and raised to 0 when that reads as negative. */
  function StartPos(page: uint32): (r: int)
    ensures 0 <= r < TWO_31
    ensures page == 0 ==> r == 0
    ensures 1 <= page && (page as int - 1) * BROWSER_MAX_LINES < TWO_31 ==> r == (page as int - 1) * BROWSER_MAX_LINES
  {
    var p := ToSigned32(Wrap32((page as int - 1) * BROWSER_MAX_LINES));
    if page == 0 then
      Wrap32Near(-(BROWSER_MAX_LINES as int));
      if p < 0 then 0 else p
    else if p < 0 then 0 else p
  }

  /** `endpos`: one past the last row of the page, the end of the list on
      the last page.  `startpos + 14` must not overflow an `int`. */
  function EndPos(start: int, max: uint32): (r: int)
    requires 0 <= start && start + BROWSER_MAX_LINES < TWO_31
    ensures r <= start + BROWSER_MAX_LINES
    ensures max < TWO_31 ==> r == Min(start + BROWSER_MAX_LINES, max as int)
  {
    if start + BROWSER_MAX_LINES > max as int then ToSigned32(max) else start + BROWSER_MAX_LINES
  }

  /** The page window of a state is computable without overflow. */
  predicate Paged(s: State)
  {
    StartPos(s.selectedPage) + BROWSER_MAX_LINES < TWO_31
  }

  /** The list slot the cursor names: line `selected_line` of the window,
      counting the slot at `endpos` too, since the scan runs up to and
      including `endpos`.  None when the line is past it. */
  function Picked(s: State): (r: Option<int>)
    requires Paged(s)
    ensures r.Some? ==> StartPos(s.selectedPage) <= r.value <= EndPos(StartPos(s.selectedPage), s.selectedMax)
  {
    var start := StartPos(s.selectedPage);
    var end := EndPos(start, s.selectedMax);
    if s.selectedLine as int <= end - start then Some(start + s.selectedLine as int) else None
  }

  /** What `ui_ReselectCurrentGame` reads: every slot from `startpos` up to
      the named one, or up to `endpos` when none is named, lies inside the
      999-entry list. */
  predicate ReselectInBounds(s: State)
    requires Paged(s)
  {
    var start := StartPos(s.selectedPage);
    var end := EndPos(start, s.selectedMax);
    start <= end ==> Min(end, start + s.selectedLine as int) < SELECTION_LIST_SIZE
  }

  /** `r` is `s` with the id of the slot the cursor names, or unchanged when
      it names none. */
  predicate Reselected(s: State, r: State)
    requires Shaped(s) && Paged(s) && ReselectInBounds(s)
  {
    var p := Picked(s);
    && r == s.(selectedGameid := r.selectedGameid)
    && (p.Some? ==> 0 <= p.value < SELECTION_LIST_SIZE && r.selectedGameid == ToSigned32(s.selectedList[p.value]))
    && (p.None? ==> r.selectedGameid == s.selectedGameid)
  }

  /** `ui_ReselectCurrentGame`: walks the window from `startpos` to
      `endpos` inclusive and takes the id in the slot whose position in the
      window equals `selected_line`; when the line is past `endpos` the id
      stays as it was.  It always returns `UI_OK`. */
  method ReselectCurrentGame(s: State) returns (r: State, ret: int)
    requires Shaped(s) && Paged(s) && ReselectInBounds(s)
    ensures ret == UI_OK
    ensures Reselected(s, r)
  {
    var start := StartPos(s.selectedPage);
    var end := EndPos(start, s.selectedMax);
    r := s;
    ret := UI_OK;
    var selected := 0;
    var i := start;
    while i <= end
      invariant i == start + selected && selected <= s.selectedLine as int
      invariant r == s
      decreases end + 1 - i
    {
      var gameid := ToSigned32(s.selectedList[i]);
      if selected == s.selectedLine as int {
        r := s.(selectedGameid := gameid);
        return;
      }
      selected := selected + 1;
      i := i + 1;
    }
  }

  /** One drawn row of the browser pane. */
  datatype Row = Row(y: int, gameid: int, name: seq<char>)

  /** The y position of row `k` of the browser pane. */
  function RowY(k: nat, fontHeight: uint8): int
  {
    BROWSER_FONT_Y_POS + Mul(k, fontHeight as int + ROW_GAP)
  }

  /** Every id `ui_UpdateBrowserPane` draws is in the list of games: the
      routine dereferences the node it looks up. */
  predicate DrawableWindow(s: State, games: seq<Game>)
    requires Shaped(s) && Paged(s)
  {
    var start := StartPos(s.selectedPage);
    var end := EndPos(start, s.selectedMax);
    && end <= SELECTION_LIST_SIZE
    && forall i :: start <= i < end ==> GetGameid(ToSigned32(s.selectedList[i]), games).Some?
  }

  /** The rows of `ui_UpdateBrowserPane`: slots `startpos` to `endpos - 1`,
      each drawn with the name of the first game holding its id, one font
      height plus two pixels below the previous row. */
  method UpdateBrowserPane(s: State, games: seq<Game>, fontHeight: uint8) returns (rows: seq<Row>, ret: int)
    requires Shaped(s) && Paged(s) && DrawableWindow(s, games)
    ensures ret == UI_OK
    ensures var start := StartPos(s.selectedPage);
            var end := EndPos(start, s.selectedMax);
            && |rows| == Max(0, end - start)
            && forall k :: 0 <= k < |rows| ==>
                 && rows[k].gameid == ToSigned32(s.selectedList[start + k])
                 && rows[k].y == RowY(k, fontHeight)
                 && GetGameid(rows[k].gameid, games).Some?
                 && rows[k].name == games[GetGameid(rows[k].gameid, games).value].name
  {
    var start := StartPos(s.selectedPage);
    var end := EndPos(start, s.selectedMax);
    rows := [];
    ret := UI_OK;
    var y := BROWSER_FONT_Y_POS;
    var i := start;
    while i < end
      invariant start <= i && (i <= end || i == start) && |rows| == i - start
      invariant y == RowY(i - start, fontHeight)
      invariant forall k :: 0 <= k < |rows| ==>
                  && rows[k].gameid == ToSigned32(s.selectedList[start + k])
                  && rows[k].y == RowY(k, fontHeight)
                  && GetGameid(rows[k].gameid, games).Some?
                  && rows[k].name == games[GetGameid(rows[k].gameid, games).value].name
    {
      var gameid := ToSigned32(s.selectedList[i]);
      var game := GetGameid(gameid, games).value;
      rows := rows + [Row(y, gameid, games[game].name)];
      y := y + fontHeight as int + ROW_GAP;
      i := i + 1;
    }
  }

  /** The cursor offset of `ui_UpdateBrowserPaneStatus`: 0 on line 0, else
      `(height + 2) * selected_line` in unsigned arithmetic, stored in an
      `int`. */
  function CursorOffset(line: uint32, fontHeight: uint8): (y: int)
    ensures Int32(y)
    ensures line as int * (fontHeight as int + ROW_GAP) < TWO_31 ==> y == line as int * (fontHeight as int + ROW_GAP)
  {
    var step := fontHeight as int + ROW_GAP;
    MulMono(0, line as int, step);
    if line == 0 then 0
    else ToSigned32(Wrap32(line as int * step))
  }

  /** On every line a page can show, the cursor is drawn level with the row
      of that line. */
  lemma CursorOnRow(line: uint32, fontHeight: uint8)
    requires line as int < BROWSER_MAX_LINES
    ensures BROWSER_FONT_Y_POS + CursorOffset(line, fontHeight) == RowY(line as nat, fontHeight)
  {
    var step := fontHeight as int + ROW_GAP;
    MulMono(line as int, BROWSER_MAX_LINES, step);
    MulMono(step, 257, BROWSER_MAX_LINES);
    MulIsProduct(line as nat, step);
  }

  /** The pages tile the list: entry `i` is on page `i / 14 + 1`, at line
      `i % 14`, inside that page's window, and that page is within
      `total_pages`. */
  lemma PagesTileList(i: nat, max: uint32)
    requires i < max as int < TWO_31 - BROWSER_MAX_LINES
    ensures var page := i / BROWSER_MAX_LINES + 1;
            var start := StartPos(page as uint32);
            && page <= max as int / BROWSER_MAX_LINES + 1
            && start <= i < EndPos(start, max)
            && i - start == i % BROWSER_MAX_LINES
  {
    var page := i / BROWSER_MAX_LINES + 1;
    assert (page - 1) * BROWSER_MAX_LINES == i - i % BROWSER_MAX_LINES;
  }

  /** When the cursor is on a drawn row, the game it names is the one drawn
      on that row; the cursor is then level with it. */
  lemma PickedIsDrawn(s: State, games: seq<Game>, fontHeight: uint8)
    requires Shaped(s) && Paged(s)
    requires s.selectedLine as int < EndPos(StartPos(s.selectedPage), s.selectedMax) - StartPos(s.selectedPage)
    ensures Picked(s) == Some(StartPos(s.selectedPage) + s.selectedLine as int)
    ensures StartPos(s.selectedPage) <= Picked(s).value < EndPos(StartPos(s.selectedPage), s.selectedMax)
    ensures BROWSER_FONT_Y_POS + CursorOffset(s.selectedLine, fontHeight) == RowY(s.selectedLine as nat, fontHeight)
  {
    CursorOnRow(s.selectedLine, fontHeight);
  }

  /** On a page that shows fewer than 14 entries, the line just past the last
      one still names a slot: the slot at `endpos`, one past the end of the
      selection, which holds 0.  With 20 games on page 2, line 6 names slot
      20. */
  lemma PastLastRowPicksEnd(s: State)
    requires Shaped(s) && s.selectedMax == 20 && s.selectedPage == 2 && s.selectedLine == 6
    ensures Paged(s)
    ensures EndPos(StartPos(s.selectedPage), s.selectedMax) == 20
    ensures Picked(s) == Some(20)
  {
  }
}
