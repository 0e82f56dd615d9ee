/*******************************************************************************
 *  Game list, launch metadata and image list (data.c / data.h).
 *******************************************************************************/

/** The game list and the `launch.dat` / `launcher.ini` key handlers.

    A linked list is a sequence in list order: node `k` is position `k` and
    its `next` is node `k + 1`, or `NULL` after the last one.  Since the
    nodes never move, exchanging two payloads (`swapGamedata`) is exchanging
    two elements of the sequence.

    C strings are their contents up to the terminator.  A fixed-size field
    filled with `strncpy(field, value, n)` reads back as the first `n`
    characters of `value`; when `value` has `n` characters or more the field
    holds no terminator, and that case is read as the truncated text. */
module Data {
  import opened Base
  import Fstools

  const MAX_IMAGES: nat := 16
  const IMAGE_BUFFER_SIZE: nat := 256
  const MAX_FILENAME_SIZE: nat := 13
  const MAX_STRING_SIZE: nat := 32
  const MAX_SEARCHDIRS_SIZE: nat := 1024
  const DEFAULT_YEAR: int := 0

  /** `gamedata_t` without its `next` link. */
  datatype Game = Game(gameid: int, drive: char, path: seq<char>, name: seq<char>, hasDat: int)

  /*--------------------------------------------------------------------------
   *  C string comparison
   *--------------------------------------------------------------------------*/

  /** `strcmp`, normalised to its sign: characters compare by code and the
      terminator sorts before every other character. */
  function StrCmp(a: seq<char>, b: seq<char>): (r: int)
    ensures r == -1 || r == 0 || r == 1
  {
    if |a| == 0 && |b| == 0 then 0
    else if |a| == 0 then -1
    else if |b| == 0 then 1
    else if a[0] < b[0] then -1
    else if a[0] > b[0] then 1
    else StrCmp(a[1..], b[1..])
  }

  /** `strcmp` reports equality exactly for equal strings. */
  lemma {:induction false} StrCmpZero(a: seq<char>, b: seq<char>)
    ensures StrCmp(a, b) == 0 <==> a == b
    decreases |a|
  {
    if |a| > 0 && |b| > 0 && a[0] == b[0] {
      StrCmpZero(a[1..], b[1..]);
      assert a == [a[0]] + a[1..] && b == [b[0]] + b[1..];
    }
  }

  /** Swapping the arguments flips the sign. */
  lemma {:induction false} StrCmpFlip(a: seq<char>, b: seq<char>)
    ensures StrCmp(b, a) == -StrCmp(a, b)
    decreases |a|
  {
    if |a| > 0 && |b| > 0 && a[0] == b[0] {
      StrCmpFlip(a[1..], b[1..]);
    }
  }

  /** "Not after" is transitive, so sortedness of neighbours is an order. */
  lemma {:induction false} StrCmpTrans(a: seq<char>, b: seq<char>, c: seq<char>)
    requires StrCmp(a, b) <= 0 && StrCmp(b, c) <= 0
    ensures StrCmp(a, c) <= 0
    decreases |a|
  {
    if |a| > 0 && |b| > 0 && |c| > 0 && a[0] == b[0] == c[0] {
      StrCmpTrans(a[1..], b[1..], c[1..]);
    }
  }

  /** Any two strings are ordered one way or the other. */
  lemma StrCmpTotal(a: seq<char>, b: seq<char>)
    ensures StrCmp(a, b) <= 0 || StrCmp(b, a) <= 0
  {
    StrCmpFlip(a, b);
  }

  /** The text a field of `n` characters keeps of `s`. */
  function Trunc(s: seq<char>, n: nat): (t: seq<char>)
    ensures |t| == Min(|s|, n) && t == s[..|t|]
  {
    s[..Min(|s|, n)]
  }

  /** `strncmp(a, b, n)`: at most `n` characters take part. */
  function StrNCmp(a: seq<char>, b: seq<char>, n: nat): int
  {
    StrCmp(Trunc(a, n), Trunc(b, n))
  }

  /** `strncmp` reports equality exactly when the first `n` characters agree. */
  lemma StrNCmpZero(a: seq<char>, b: seq<char>, n: nat)
    ensures StrNCmp(a, b, n) == 0 <==> Trunc(a, n) == Trunc(b, n)
  {
    StrCmpZero(Trunc(a, n), Trunc(b, n));
  }

  /*--------------------------------------------------------------------------
   *  List walking
   *--------------------------------------------------------------------------*/

  /** The `next` link of node `k` in a list of `len` nodes. */
  function Next(len: nat, k: nat): Option<nat>
  {
    if k + 1 < len then Some(k + 1) else None
  }

  /** `getGameid`, walking from node `k`: the first node from there on that
      carries `id`, or `NULL`. */
  function FindFrom(id: int, games: seq<Game>, k: nat): (r: Option<nat>)
    requires k <= |games|
    ensures r.Some? ==> k <= r.value < |games| && games[r.value].gameid == id
                        && forall j :: k <= j < r.value ==> games[j].gameid != id
    ensures r.None? <==> forall j :: k <= j < |games| ==> games[j].gameid != id
    decreases |games| - k
  {
    if k == |games| then None
    else if games[k].gameid == id then Some(k)
    else FindFrom(id, games, k + 1)
  }

  /** `getGameid`: the first node of the list carrying `id`, or `NULL`. */
  function GetGameid(id: int, games: seq<Game>): (r: Option<nat>)
    ensures r.Some? ==> r.value < |games| && games[r.value].gameid == id
                        && forall j :: 0 <= j < r.value ==> games[j].gameid != id
    ensures r.None? <==> forall j :: 0 <= j < |games| ==> games[j].gameid != id
  {
    FindFrom(id, games, 0)
  }

  /** `getLastGamedata`, `getLastImage` and `getLastGameDir`, which are the
      same walk over three node types: follow `next` from node `start` until
      it is `NULL`.  The start node is dereferenced, so it must exist. */
  method LastNode(len: nat, start: nat) returns (r: nat)
    requires start < len
    ensures start <= r < len && Next(len, r).None?
    ensures forall k :: start <= k < r ==> Next(len, k) == Some(k + 1)
    ensures r == len - 1
  {
    r := start;
    while Next(len, r).Some?
      invariant start <= r < len
      invariant forall k :: start <= k < r ==> Next(len, k) == Some(k + 1)
      decreases len - r
    {
      r := Next(len, r).value;
    }
  }

  /*--------------------------------------------------------------------------
   *  Sorting by name
   *--------------------------------------------------------------------------*/

  /** `a` does not come after `b` by name. */
  predicate NameLe(a: Game, b: Game)
  {
    StrCmp(a.name, b.name) <= 0
  }

  /** The first `n` nodes have non-decreasing names. */
  predicate SortedPrefix(l: seq<Game>, n: nat)
    requires n <= |l|
  {
    forall k :: 0 < k < n ==> NameLe(l[k - 1], l[k])
  }

  predicate Sorted(l: seq<Game>)
  {
    SortedPrefix(l, |l|)
  }

  /** `swapGamedata`: the two nodes exchange gameid, drive, path, name and
      `has_dat`; the links stay, so every other node keeps its payload. */
  function Swap(l: seq<Game>, i: nat, j: nat): (r: seq<Game>)
    requires i < |l| && j < |l|
    ensures |r| == |l| && r[i] == l[j] && r[j] == l[i]
    ensures forall k :: 0 <= k < |l| && k != i && k != j ==> r[k] == l[k]
    ensures multiset(r) == multiset(l)
  {
    l[i := l[j]][j := l[i]]
  }

  /** Swapping twice restores the list. */
  lemma SwapTwice(l: seq<Game>, i: nat, j: nat)
    requires i < |l| && j < |l|
    ensures Swap(Swap(l, i, j), i, j) == l
  {
  }

  /** A name bound some prefix keeps, when there is one. */
  predicate Below(g: Game, bound: Option<seq<char>>)
  {
    bound.Some? ==> StrCmp(g.name, bound.value) <= 0
  }

  /** One pass of the bubble sort in `sortGamedata`: neighbours `i`, `i + 1`
      are compared and swapped while node `i + 1` is not the stop node `end`
      (`gdata2`, the length standing for `NULL`).  The largest name of the
      prefix ends at `end - 1`; no swap means the prefix was sorted. */
  method BubblePass(l: seq<Game>, end: nat, ghost bound: Option<seq<char>>) returns (r: seq<Game>, swapped: bool)
    requires 1 <= end <= |l|
    requires forall k :: 0 <= k < end ==> Below(l[k], bound)
    ensures |r| == |l| && multiset(r) == multiset(l)
    ensures forall k :: end <= k < |l| ==> r[k] == l[k]
    ensures forall k :: 0 <= k < end - 1 ==> NameLe(r[k], r[end - 1])
    ensures forall k :: 0 <= k < end ==> Below(r[k], bound)
    ensures !swapped ==> r == l && SortedPrefix(l, end)
    ensures SortedPrefix(l, end) ==> !swapped
    ensures swapped ==> end >= 2
  {
    r := l;
    swapped := false;
    var i := 0;
    while i + 1 != end
      invariant PassInv(l, r, i, end, bound, swapped)
      decreases end - i
    {
      if StrCmp(r[i].name, r[i + 1].name) > 0 {
        PassSwaps(l, r, i, end, bound, swapped);
        r := Swap(r, i, i + 1);
        swapped := true;
      } else {
        PassKeeps(l, r, i, end, bound, swapped);
      }
      i := i + 1;
    }
  }

  /** What a pass of `BubblePass` keeps when node `i` is the one it carries. */
  predicate PassInv(l: seq<Game>, r: seq<Game>, i: nat, end: nat, bound: Option<seq<char>>, swapped: bool)
  {
    && i < end <= |l|
    && |r| == |l| && multiset(r) == multiset(l)
    && (forall k :: end <= k < |l| ==> r[k] == l[k])
    && (forall k :: 0 <= k < i ==> NameLe(r[k], r[i]))
    && (forall k :: 0 <= k < end ==> Below(r[k], bound))
    && (!swapped ==> r == l && SortedPrefix(l, i + 1))
    && (SortedPrefix(l, end) ==> !swapped)
  }

  /** Swapping an out-of-order neighbour pair carries the larger name one step on. */
  lemma PassSwaps(l: seq<Game>, r: seq<Game>, i: nat, end: nat, bound: Option<seq<char>>, swapped: bool)
    requires PassInv(l, r, i, end, bound, swapped) && i + 1 < end
    requires StrCmp(r[i].name, r[i + 1].name) > 0
    ensures PassInv(l, Swap(r, i, i + 1), i + 1, end, bound, true)
  {
    StrCmpFlip(r[i].name, r[i + 1].name);
    var s := Swap(r, i, i + 1);
    forall k | 0 <= k < i + 1
      ensures NameLe(s[k], s[i + 1])
    {
      if k < i {
        assert s[k] == r[k];
      }
    }
    forall k | 0 <= k < end
      ensures Below(s[k], bound)
    {
      if k != i && k != i + 1 {
        assert s[k] == r[k];
      }
    }
    if !swapped {
      assert !NameLe(l[i], l[i + 1]);
      assert !SortedPrefix(l, end);
    }
  }

  /** An in-order pair is left alone; the larger name is already at `i + 1`. */
  lemma PassKeeps(l: seq<Game>, r: seq<Game>, i: nat, end: nat, bound: Option<seq<char>>, swapped: bool)
    requires PassInv(l, r, i, end, bound, swapped) && i + 1 < end
    requires StrCmp(r[i].name, r[i + 1].name) <= 0
    ensures PassInv(l, r, i + 1, end, bound, swapped)
  {
    forall k | 0 <= k < i + 1
      ensures NameLe(r[k], r[i + 1])
    {
      if k < i {
        StrCmpTrans(r[k].name, r[i].name, r[i + 1].name);
      }
    }
  }


  /** `sortGamedata`: bubble sort by name through payload swaps, repeated
      until a pass makes no swap, each pass stopping one node earlier.  The
      head is dereferenced, so the list is not empty. */
  method SortGamedata(l0: seq<Game>) returns (l: seq<Game>, ret: int)
    requires |l0| >= 1
    ensures ret == 0
    ensures |l| == |l0| && multiset(l) == multiset(l0)
    ensures Sorted(l)
    ensures Sorted(l0) ==> l == l0
  {
    l := l0;
    ret := 0;
    if Next(|l|, 0).None? {
      return;
    }
    var end := |l|;
    var swapped := true;
    while swapped
      invariant 0 <= end <= |l| == |l0| && multiset(l) == multiset(l0)
      invariant swapped ==> end >= 1
      invariant forall k :: end < k < |l| ==> NameLe(l[k - 1], l[k])
      invariant end < |l| ==> forall k :: 0 <= k < end ==> NameLe(l[k], l[end])
      invariant !swapped ==> Sorted(l)
      invariant Sorted(l0) ==> l == l0
      decreases end
    {
      var bound := if end < |l| then Some(l[end].name) else None;
      var l' := l;
      l, swapped := BubblePass(l, end, bound);
      if !swapped {
        assert SortedPrefix(l, end);
        assert end < |l| ==> NameLe(l[end - 1], l[end]);
      }
      end := end - 1;
    }
  }

  /*--------------------------------------------------------------------------
   *  Image list
   *--------------------------------------------------------------------------*/

  /** The separators `getImageList` hands to `strtok`. */
  predicate IsDelim(c: char)
  {
    c == ',' || c == ';' || c == ' '
  }

  /** A token: at least one character, and no separator. */
  predicate Word(w: seq<char>)
  {
    |w| > 0 && forall k :: 0 <= k < |w| ==> !IsDelim(w[k])
  }

  /** The end of the run of non-separators that starts at `i`. */
  function TokenEnd(s: seq<char>, i: nat): (e: nat)
    requires i <= |s|
    ensures i <= e <= |s| && (e < |s| ==> IsDelim(s[e]))
    ensures forall k :: i <= k < e ==> !IsDelim(s[k])
    decreases |s| - i
  {
    if i == |s| || IsDelim(s[i]) then i else TokenEnd(s, i + 1)
  }

  /** The first non-separator at or after `i`, or the end. */
  function SkipDelims(s: seq<char>, i: nat): (j: nat)
    requires i <= |s|
    ensures i <= j <= |s| && (j < |s| ==> !IsDelim(s[j]))
    ensures forall k :: i <= k < j ==> IsDelim(s[k])
    decreases |s| - i
  {
    if i == |s| || !IsDelim(s[i]) then i else SkipDelims(s, i + 1)
  }

  /** The reference split: the maximal runs of non-separators from `i` on. */
  function Tokens(s: seq<char>, i: nat): seq<seq<char>>
    requires i <= |s|
    decreases |s| - i
  {
    if i == |s| then []
    else if IsDelim(s[i]) then Tokens(s, i + 1)
    else var e := TokenEnd(s, i); [s[i..e]] + Tokens(s, e)
  }

  /** What one `strtok` call finds: where the token starts and ends, and
      where the next call resumes (past the separator it overwrote). */
  datatype Token = Token(start: nat, end: nat, resume: nat)

  /** `strtok(..., ",; ")` with its saved position at `i`. */
  function StrTok(s: seq<char>, i: nat): (t: Option<Token>)
    requires i <= |s|
    ensures t.Some? ==> i <= t.value.start < t.value.end <= t.value.resume <= |s|
  {
    var j := SkipDelims(s, i);
    if j == |s| then None
    else
      var e := TokenEnd(s, j);
      Some(Token(j, e, if e == |s| then e else e + 1))
  }

  /** Leading separators do not change the split. */
  lemma {:induction false} TokensSkip(s: seq<char>, i: nat)
    requires i <= |s|
    ensures Tokens(s, i) == Tokens(s, SkipDelims(s, i))
    decreases |s| - i
  {
    if i < |s| && IsDelim(s[i]) {
      TokensSkip(s, i + 1);
    }
  }

  /** Each `strtok` call yields the next token of the reference split, and
      `NULL` exactly when none is left. */
  lemma StrTokStep(s: seq<char>, i: nat)
    requires i <= |s|
    ensures StrTok(s, i).None? <==> Tokens(s, i) == []
    ensures StrTok(s, i).Some? ==>
              var t := StrTok(s, i).value;
              Tokens(s, i) == [s[t.start..t.end]] + Tokens(s, t.resume)
  {
    TokensSkip(s, i);
    var j := SkipDelims(s, i);
    if j < |s| {
      var e := TokenEnd(s, j);
      assert Tokens(s, j) == [s[j..e]] + Tokens(s, e);
    }
  }

  /** Every token of the split is a word. */
  lemma {:induction false} TokensAreWords(s: seq<char>, i: nat)
    requires i <= |s|
    ensures forall k :: 0 <= k < |Tokens(s, i)| ==> Word(Tokens(s, i)[k])
    decreases |s| - i
  {
    if i < |s| {
      if IsDelim(s[i]) {
        TokensAreWords(s, i + 1);
      } else {
        TokensAreWords(s, TokenEnd(s, i));
      }
    }
  }

  /** The split of `p + q` past `p` is the split of `q`. */
  lemma {:induction false} TokensShift(p: seq<char>, q: seq<char>, i: nat)
    requires i <= |q|
    ensures Tokens(p + q, |p| + i) == Tokens(q, i)
    decreases |q| - i
  {
    var s := p + q;
    if i < |q| {
      assert s[|p| + i] == q[i];
      if IsDelim(q[i]) {
        TokensShift(p, q, i + 1);
      } else {
        var e := TokenEnd(q, i);
        TokenEndShift(p, q, i);
        assert s[|p| + i..|p| + e] == q[i..e];
        TokensShift(p, q, e);
      }
    }
  }

  lemma TokenEndShift(p: seq<char>, q: seq<char>, i: nat)
    requires i <= |q|
    ensures TokenEnd(p + q, |p| + i) == |p| + TokenEnd(q, i)
  {
    var s := p + q;
    var f := TokenEnd(q, i);
    assert forall k :: |p| <= k < |s| ==> s[k] == q[k - |p|];
    TokenEndUnique(s, |p| + i, |p| + f);
  }

  /** The run of non-separators from `i` ends at the first separator. */
  lemma {:induction false} TokenEndUnique(s: seq<char>, i: nat, e: nat)
    requires i <= e <= |s| && (e < |s| ==> IsDelim(s[e]))
    requires forall k :: i <= k < e ==> !IsDelim(s[k])
    ensures TokenEnd(s, i) == e
    decreases e - i
  {
    if i < e {
      TokenEndUnique(s, i + 1, e);
    }
  }

  /** Words joined by commas. */
  function Join(ws: seq<seq<char>>): seq<char>
  {
    if |ws| == 0 then []
    else if |ws| == 1 then ws[0]
    else ws[0] + [','] + Join(ws[1..])
  }

  /** The token run of a word followed by the end or a separator is the word. */
  lemma WordEnd(s: seq<char>, w: seq<char>)
    requires Word(w) && |w| <= |s| && s[..|w|] == w && (|w| < |s| ==> IsDelim(s[|w|]))
    ensures TokenEnd(s, 0) == |w|
  {
    assert forall k :: 0 <= k < |w| ==> s[k] == w[k];
    TokenEndUnique(s, 0, |w|);
  }

  /** Splitting undoes joining: a comma-separated list of words splits back
      into the same words. */
  lemma {:induction false} JoinSplits(ws: seq<seq<char>>)
    requires forall k :: 0 <= k < |ws| ==> Word(ws[k])
    ensures Tokens(Join(ws), 0) == ws
    decreases |ws|
  {
    if |ws| == 1 {
      var w := ws[0];
      WordEnd(w, w);
      assert w[0..|w|] == w;
    } else if |ws| > 1 {
      var w := ws[0];
      var rest := Join(ws[1..]);
      var s := w + [','] + rest;
      assert s[..|w|] == w && s[|w|] == ',';
      WordEnd(s, w);
      assert s[0..|w|] == w;
      assert Tokens(s, 0) == [w] + Tokens(s, |w|);
      assert Tokens(s, |w|) == Tokens(s, |w| + 1);
      assert s == (w + [',']) + rest;
      TokensShift(w + [','], rest, 0);
      JoinSplits(ws[1..]);
      assert ws == [w] + ws[1..];
    }
  }

  /** `getImageList`: the `images` text is split on `,`, `;` and space; each
      token, cut to a file name, is appended after the last node of `list`,
      up to `MAX_IMAGES` of them.  The count is returned.  The text must
      fit the 256-byte work buffer with its terminator. */
  method GetImageList(images: seq<char>, list: seq<seq<char>>) returns (found: int, out: seq<seq<char>>)
    requires Fstools.CString(images) && |images| < IMAGE_BUFFER_SIZE
    ensures found == Min(MAX_IMAGES, |Tokens(images, 0)|)
    ensures |out| == |list| + found && out[..|list|] == list
    ensures forall k :: 0 <= k < found ==> out[|list| + k] == Trunc(Tokens(images, 0)[k], MAX_FILENAME_SIZE)
  {
    found := 0;
    out := list;
    var pos := 0;
    ghost var done: seq<seq<char>> := [];
    var tok := StrTok(images, pos);
    while tok.Some?
      invariant pos <= |images| && tok == StrTok(images, pos)
      invariant 0 <= found < MAX_IMAGES && |done| == found
      invariant Tokens(images, 0) == done + Tokens(images, pos)
      invariant |out| == |list| + found && out[..|list|] == list
      invariant forall k :: 0 <= k < found ==> out[|list| + k] == Trunc(done[k], MAX_FILENAME_SIZE)
      decreases |images| - pos
    {
      var t := tok.value;
      var word := images[t.start..t.end];
      StrTokStep(images, pos);
      found := found + 1;
      out := out + [Trunc(word, MAX_FILENAME_SIZE)];
      done := done + [word];
      assert Tokens(images, 0) == done + Tokens(images, t.resume);
      if found >= MAX_IMAGES {
        assert done == Tokens(images, 0)[..found];
        return;
      }
      pos := t.resume;
      tok := StrTok(images, pos);
    }
    StrTokStep(images, pos);
  }

  /*--------------------------------------------------------------------------
   *  atoi
   *--------------------------------------------------------------------------*/

  predicate IsSpace(c: char)
  {
    c == ' ' || 9 <= c as int <= 13
  }

  predicate IsDigit(c: char)
  {
    '0' <= c <= '9'
  }

  function SkipSpace(s: seq<char>, i: nat): (j: nat)
    requires i <= |s|
    ensures i <= j <= |s| && (j < |s| ==> !IsSpace(s[j]))
    decreases |s| - i
  {
    if i == |s| || !IsSpace(s[i]) then i else SkipSpace(s, i + 1)
  }

  /** The end of the run of digits that starts at `i`. */
  function DigitsEnd(s: seq<char>, i: nat): (e: nat)
    requires i <= |s|
    ensures i <= e <= |s| && (e < |s| ==> !IsDigit(s[e]))
    ensures forall k :: i <= k < e ==> IsDigit(s[k])
    decreases |s| - i
  {
    if i == |s| || !IsDigit(s[i]) then i else DigitsEnd(s, i + 1)
  }

  /** The number a string of decimal digits spells. */
  function DecValue(d: seq<char>): nat
  {
    if |d| == 0 then 0
    else 10 * DecValue(d[..|d| - 1]) + (d[|d| - 1] as int - '0' as int) % 10
  }

  /** `atoi`: blanks, an optional sign, then as many digits as follow. */
  function Atoi(s: seq<char>): int
  {
    var i := SkipSpace(s, 0);
    var neg := i < |s| && s[i] == '-';
    var j := if i < |s| && (s[i] == '-' || s[i] == '+') then i + 1 else i;
    var v: int := DecValue(s[j..DigitsEnd(s, j)]);
    if neg then -v else v
  }

  /** `%d`: the decimal text of a number. */
  function Decimal(n: nat): (d: seq<char>)
    ensures |d| > 0 && forall k :: 0 <= k < |d| ==> IsDigit(d[k])
  {
    var c := ('0' as int + n % 10) as char;
    if n < 10 then [c] else Decimal(n / 10) + [c]
  }

  function Show(n: int): seq<char>
  {
    if n < 0 then ['-'] + Decimal(-n) else Decimal(n)
  }

  lemma {:induction false} DecValueDecimal(n: nat)
    ensures DecValue(Decimal(n)) == n
  {
    var d := Decimal(n);
    if n >= 10 {
      DecValueDecimal(n / 10);
      assert d[..|d| - 1] == Decimal(n / 10);
    }
  }

  /** A digit string runs to the end, or to the first non-digit after it. */
  lemma DigitsRun(d: seq<char>, rest: seq<char>, i: nat)
    requires i <= |d| && forall k :: i <= k < |d| ==> IsDigit(d[k])
    requires |rest| > 0 ==> !IsDigit(rest[0])
    ensures DigitsEnd(d + rest, i) == |d|
  {
    var s := d + rest;
    assert forall k :: 0 <= k < |d| ==> s[k] == d[k];
    assert |rest| > 0 ==> s[|d|] == rest[0];
  }

  /** `atoi` reads back what `%d` printed, whatever non-digit follows. */
  lemma AtoiShow(n: int, rest: seq<char>)
    requires |rest| > 0 ==> !IsDigit(rest[0])
    ensures Atoi(Show(n) + rest) == n
  {
    var s := Show(n) + rest;
    var d := Decimal(if n < 0 then -n else n);
    var j := if n < 0 then 1 else 0;
    assert s[j..j + |d|] == d;
    DigitsRun(Show(n), rest, j);
    DecValueDecimal(if n < 0 then -n else n);
  }

  /*--------------------------------------------------------------------------
   *  launch.dat
   *--------------------------------------------------------------------------*/

  /** `launchdat_t`. */
  datatype LaunchDat = LaunchDat(
    realname: seq<char>, genre: seq<char>, year: int, midi: int, midiSerial: int,
    series: seq<char>, publisher: seq<char>, developer: seq<char>,
    start: seq<char>, altStart: seq<char>, images: seq<char>)

  /** The fields of `launchdat_t`. */
  datatype Field = Realname | Genre | Year | Midi | MidiSerial | Series
                 | Publisher | Developer | Start | AltStart | Images

  datatype Val = Str(s: seq<char>) | Num(n: int)

  function Get(ld: LaunchDat, f: Field): Val
  {
    match f
    case Realname => Str(ld.realname)
    case Genre => Str(ld.genre)
    case Year => Num(ld.year)
    case Midi => Num(ld.midi)
    case MidiSerial => Num(ld.midiSerial)
    case Series => Str(ld.series)
    case Publisher => Str(ld.publisher)
    case Developer => Str(ld.developer)
    case Start => Str(ld.start)
    case AltStart => Str(ld.altStart)
    case Images => Str(ld.images)
  }

  /** The size of each text field. */
  function Capacity(f: Field): nat
  {
    match f
    case Start => MAX_FILENAME_SIZE
    case AltStart => MAX_FILENAME_SIZE
    case Images => IMAGE_BUFFER_SIZE
    case _ => MAX_STRING_SIZE
  }

  /** The keys of the `[default]` section `launchdatHandler` accepts. */
  const LAUNCHDAT_KEYS: seq<seq<char>> :=
    ["name", "genre", "developer", "publisher", "year", "midi_mpu", "midi_serial",
     "start", "alt_start", "images", "series"]

  /** The field each key writes: "developer" writes the publisher. */
  function KeyField(name: seq<char>): Option<Field>
  {
    if name == "name" then Some(Realname)
    else if name == "genre" then Some(Genre)
    else if name == "developer" then Some(Publisher)
    else if name == "publisher" then Some(Publisher)
    else if name == "year" then Some(Year)
    else if name == "midi_mpu" then Some(Midi)
    else if name == "midi_serial" then Some(MidiSerial)
    else if name == "start" then Some(Start)
    else if name == "alt_start" then Some(AltStart)
    else if name == "images" then Some(Images)
    else if name == "series" then Some(Series)
    else None
  }

  /** Field `f` set to `v` (a text for text fields, a number otherwise). */
  function Set(ld: LaunchDat, f: Field, v: Val): LaunchDat
    requires v.Str? <==> Get(ld, f).Str?
  {
    match f
    case Realname => ld.(realname := v.s)
    case Genre => ld.(genre := v.s)
    case Year => ld.(year := v.n)
    case Midi => ld.(midi := v.n)
    case MidiSerial => ld.(midiSerial := v.n)
    case Series => ld.(series := v.s)
    case Publisher => ld.(publisher := v.s)
    case Developer => ld.(developer := v.s)
    case Start => ld.(start := v.s)
    case AltStart => ld.(altStart := v.s)
    case Images => ld.(images := v.s)
  }

  /** The numeric keys, whose value goes through `atoi`. */
  predicate NumericKey(name: seq<char>)
  {
    name == "year" || name == "midi_mpu" || name == "midi_serial"
  }

  /** The result of an ini handler: its return value and the record. */
  datatype Handled<T> = Handled(status: int, value: T)

  /** `launchdatHandler`: a known `[default]` key sets its field to the
      value (text cut to the field's size, numbers through `atoi`, the MIDI
      flags only when the value reads as 1) and returns 1; anything else
      returns 0 and changes nothing.  A number `atoi` cannot represent is
      undefined. */
  function LaunchdatHandler(ld: LaunchDat, section: seq<char>, name: seq<char>, value: seq<char>): (r: Handled<LaunchDat>)
    requires section == "default" && NumericKey(name) ==> Int32(Atoi(value))
    ensures r.status == 1 <==> section == "default" && name in LAUNCHDAT_KEYS
    ensures r.status != 1 ==> r.status == 0 && r.value == ld
    ensures r.status == 1 ==>
              var f := KeyField(name).value;
              && (forall g: Field :: g != f ==> Get(r.value, g) == Get(ld, g))
              && (Get(ld, f).Str? ==> Get(r.value, f) == Str(Trunc(value, Capacity(f))))
              && (f == Year ==> r.value.year == Atoi(value))
              && (f == Midi ==> r.value.midi == if Atoi(value) == 1 then 1 else ld.midi)
              && (f == MidiSerial ==> r.value.midiSerial == if Atoi(value) == 1 then 1 else ld.midiSerial)
  {
    if section != "default" || KeyField(name).None? then Handled(0, ld)
    else
      var f := KeyField(name).value;
      var v := match f
               case Year => Num(Atoi(value))
               case Midi => Num(if Atoi(value) == 1 then 1 else ld.midi)
               case MidiSerial => Num(if Atoi(value) == 1 then 1 else ld.midiSerial)
               case _ => Str(Trunc(value, Capacity(f)));
      SetFrame(ld, f, v);
      Handled(1, Set(ld, f, v))
  }

  /** Setting a field changes that field and no other. */
  lemma SetFrame(ld: LaunchDat, f: Field, v: Val)
    requires v.Str? <==> Get(ld, f).Str?
    ensures Get(Set(ld, f, v), f) == v
    ensures forall g: Field :: g != f ==> Get(Set(ld, f, v), g) == Get(ld, g)
  {
  }

  /** The "developer" key fills the publisher and leaves the developer alone. */
  lemma DeveloperFillsPublisher(ld: LaunchDat, value: seq<char>)
    ensures var r := LaunchdatHandler(ld, "default", "developer", value);
            r.status == 1 && r.value.publisher == Trunc(value, MAX_STRING_SIZE)
            && r.value.developer == ld.developer
  {
    var r := LaunchdatHandler(ld, "default", "developer", value);
    assert Get(r.value, Developer) == Get(ld, Developer);
  }

  /** A year written with `%d` is read back exactly. */
  lemma YearRoundTrip(ld: LaunchDat, n: int)
    requires Int32(n)
    ensures Atoi(Show(n)) == n
    ensures LaunchdatHandler(ld, "default", "year", Show(n)).value.year == n
  {
    AtoiShow(n, []);
    assert Show(n) + [] == Show(n);
  }

  /** `launchdataDefaults`: every text field read as empty and every number
      zero. `alt_start` itself is not reset. It is cleared only when `start`
      fills its 13 bytes without a terminator: `strlen(start)` then runs on
      into the packed `alt_start` that follows, and the `memset` clears that
      too. `images` must hold a terminator, or its `strlen` leaves the record
      (see `Packed.ResetBytesMeaning` for the byte-level account). */
  function LaunchdataDefaults(ld: LaunchDat): (r: LaunchDat)
    requires |ld.images| < IMAGE_BUFFER_SIZE
    ensures forall f: Field :: f != AltStart ==> Get(r, f) == (if Get(ld, f).Str? then Str([]) else Num(0))
    ensures |ld.start| < MAX_FILENAME_SIZE ==> r.altStart == ld.altStart
    ensures |ld.start| >= MAX_FILENAME_SIZE ==> r.altStart == []
  {
    var altStart := if |ld.start| >= MAX_FILENAME_SIZE then [] else ld.altStart;
    LaunchDat([], [], DEFAULT_YEAR, 0, 0, [], [], [], [], altStart, [])
  }

  /** Resetting twice is resetting once. */
  lemma DefaultsIdempotent(ld: LaunchDat)
    requires |ld.images| < IMAGE_BUFFER_SIZE
    ensures LaunchdataDefaults(LaunchdataDefaults(ld)) == LaunchdataDefaults(ld)
  {
  }

  /** A `start` value of 13 characters or more, stored by the handler,
      leaves `start` without a terminator, and the next reset clears
      `alt_start` along with it. */
  lemma FullStartClearsAltStart(ld: LaunchDat, value: seq<char>)
    requires |ld.images| < IMAGE_BUFFER_SIZE && |value| >= MAX_FILENAME_SIZE
    ensures LaunchdatHandler(ld, "default", "start", value).status == 1
    ensures LaunchdataDefaults(LaunchdatHandler(ld, "default", "start", value).value).altStart == []
  {
    assert KeyField("start") == Some(Start);
  }

  /** One `name = value` line of a `[section]`. */
  datatype Entry = Entry(section: seq<char>, name: seq<char>, value: seq<char>)

  predicate EntriesDefined(es: seq<Entry>)
  {
    forall k :: 0 <= k < |es| ==> (es[k].section == "default" && NumericKey(es[k].name) ==> Int32(Atoi(es[k].value)))
  }

  /** The handler applied to each line in turn. */
  function ApplyEntries(ld: LaunchDat, es: seq<Entry>): LaunchDat
    requires EntriesDefined(es)
    decreases |es|
  {
    if |es| == 0 then ld
    else ApplyEntries(LaunchdatHandler(ld, es[0].section, es[0].name, es[0].value).value, es[1..])
  }

  /** The record `getLaunchdata` fills: reset, then every line handled. */
  function LoadDat(prev: LaunchDat, es: seq<Entry>): LaunchDat
    requires |prev.images| < IMAGE_BUFFER_SIZE && EntriesDefined(es)
  {
    ApplyEntries(LaunchdataDefaults(prev), es)
  }

  /** Lines that never set `alt_start` leave it as it was. */
  lemma {:induction false} ApplyKeepsAltStart(ld: LaunchDat, es: seq<Entry>)
    requires EntriesDefined(es)
    requires forall k :: 0 <= k < |es| ==> !(es[k].section == "default" && es[k].name == "alt_start")
    ensures ApplyEntries(ld, es).altStart == ld.altStart
    decreases |es|
  {
    if |es| > 0 {
      var r := LaunchdatHandler(ld, es[0].section, es[0].name, es[0].value);
      if r.status == 1 {
        assert KeyField(es[0].name).value != AltStart;
        assert Get(r.value, AltStart) == Get(ld, AltStart);
      }
      ApplyKeepsAltStart(r.value, es[1..]);
    }
  }

  /** Loading a file without an `alt_start` line into a record that still
      holds an earlier game's data, as the filter loops reuse one record,
      keeps that game's alternative start file, unless the earlier game's
      `start` filled its field and the reset cleared `alt_start` with it. */
  lemma StaleAltStart(prev: LaunchDat, es: seq<Entry>)
    requires |prev.images| < IMAGE_BUFFER_SIZE && EntriesDefined(es)
    requires forall k :: 0 <= k < |es| ==> !(es[k].section == "default" && es[k].name == "alt_start")
    ensures |prev.start| < MAX_FILENAME_SIZE ==> LoadDat(prev, es).altStart == prev.altStart
    ensures |prev.start| >= MAX_FILENAME_SIZE ==> LoadDat(prev, es).altStart == []
  {
    ApplyKeepsAltStart(LaunchdataDefaults(prev), es);
  }

  /** `getLaunchdata`: only a game with `has_dat == 1` is looked up; what the
      file yields is the `meta` oracle (file reading and ini parsing are not
      modelled). */
  function LoadMeta(meta: Game -> Option<LaunchDat>, g: Game): (r: Option<LaunchDat>)
    ensures g.hasDat != 1 ==> r.None?
    ensures g.hasDat == 1 ==> r == meta(g)
  {
    if g.hasDat != 1 then None else meta(g)
  }

  /*--------------------------------------------------------------------------
   *  launcher.ini
   *--------------------------------------------------------------------------*/

  /** `config_t` without its directory list. */
  datatype Config = Config(verbose: int, save: int, preloadNames: int, dirs: seq<char>)

  const CONFIG_KEYS: seq<seq<char>> := ["verbose", "gamedirs", "savedirs", "preload_names"]

  /** `configHandler`: "verbose", "savedirs" (into `save`) and
      "preload_names" through `atoi`, "gamedirs" cut to the 1024-byte field;
      1 for those, 0 and no change otherwise. */
  function ConfigHandler(c: Config, section: seq<char>, name: seq<char>, value: seq<char>): (r: Handled<Config>)
    requires section == "default" && (name == "verbose" || name == "savedirs" || name == "preload_names")
             ==> Int32(Atoi(value))
    ensures r.status == 1 <==> section == "default" && name in CONFIG_KEYS
    ensures r.status != 1 ==> r.status == 0 && r.value == c
    ensures r.status == 1 && name == "gamedirs" ==>
              r.value == c.(dirs := Trunc(value, MAX_SEARCHDIRS_SIZE))
    ensures r.status == 1 && name != "gamedirs" ==>
              r.value.dirs == c.dirs
              && r.value.verbose == (if name == "verbose" then Atoi(value) else c.verbose)
              && r.value.save == (if name == "savedirs" then Atoi(value) else c.save)
              && r.value.preloadNames == (if name == "preload_names" then Atoi(value) else c.preloadNames)
  {
    if section != "default" then Handled(0, c)
    else if name == "verbose" then Handled(1, c.(verbose := Atoi(value)))
    else if name == "gamedirs" then Handled(1, c.(dirs := Trunc(value, MAX_SEARCHDIRS_SIZE)))
    else if name == "savedirs" then Handled(1, c.(save := Atoi(value)))
    else if name == "preload_names" then Handled(1, c.(preloadNames := Atoi(value)))
    else Handled(0, c)
  }
}
