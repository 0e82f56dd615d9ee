/*******************************************************************************
 *  Drive letters and path splitting of the game-directory scanner
 *  (fstools.c / fstools.h).
 *******************************************************************************/

/** `drvNumToLetter`, `drvLetterToNum`, `drvLetterFromPath` and `dirFromPath`.

    C strings are sequences of characters with no NUL inside; the terminator
    is implicit, and `At` reads it back at index `|s|`. */
module Fstools {

  const MAX_DRIVES: nat := 26
  const DIR_BUFFER_SIZE: nat := 65

  /** `DRIVE_LETTERS`, the initialiser of both `mapper` tables. */
  const DRIVE_LETTERS: seq<char> :=
    ['A', 'B', 'C', 'D', 'E', 'F', 'G', 'H', 'I', 'J', 'K', 'L', 'M',
     'N', 'O', 'P', 'Q', 'R', 'S', 'T', 'U', 'V', 'W', 'X', 'Y', 'Z']

  /** A C string: no NUL before the terminator. */
  predicate CString(s: seq<char>)
  {
    forall i :: 0 <= i < |s| ==> s[i] != '\0'
  }

  /** Character `i` of a C string, the terminator included. */
  function At(s: seq<char>, i: nat): char
    requires i <= |s|
  {
    if i == |s| then '\0' else s[i]
  }

  /** Drive `n` counted from `A`. */
  function Letter(n: int): char
    requires 0 <= n < 26
  {
    ('A' as int + n) as char
  }

  predicate IsDriveLetter(c: char)
  {
    'A' <= c <= 'Z'
  }

  /** The table holds the letters in alphabetical order. */
  lemma DriveLettersInOrder(n: int)
    requires 0 <= n < MAX_DRIVES
    ensures |DRIVE_LETTERS| == MAX_DRIVES && DRIVE_LETTERS[n] == Letter(n)
  {
  }

  /** `drvNumToLetter`: the letter of drive `n`, or NUL past the table.
      Drive 26 reads one past the 26-entry table and a negative drive reads
      before it, so both are excluded. */
  function DrvNumToLetter(n: int): (c: char)
    requires 0 <= n && n != MAX_DRIVES
    ensures n < MAX_DRIVES ==> c == Letter(n) && IsDriveLetter(c)
    ensures n > MAX_DRIVES ==> c == '\0'
  {
    DriveLettersInOrder(if n < MAX_DRIVES then n else 0);
    if n > MAX_DRIVES then '\0' else DRIVE_LETTERS[n]
  }

  /** The search loop of `drvLetterToNum` from position `c`, over the table
      extended by `stray`: the byte that follows `mapper` in memory, which
      the loop bound `c < MAX_DRIVES + 1` also reads. */
  function Scan(table: seq<char>, letter: char, c: nat): (r: int)
    requires c <= |table|
    ensures r == -1 || (c <= r < |table| && table[r] == letter)
    ensures r == -1 <==> forall j :: c <= j < |table| ==> table[j] != letter
    ensures r != -1 ==> forall j :: c <= j < r ==> table[j] != letter
    decreases |table| - c
  {
    if c == |table| then -1
    else if table[c] == letter then c
    else Scan(table, letter, c + 1)
  }

  /** `drvLetterToNum`: the position of the first match in `mapper`, or -1. */
  function DrvLetterToNum(letter: char, stray: char): (r: int)
  {
    Scan(DRIVE_LETTERS + [stray], letter, 0)
  }

  /** Capital letters give their drive number; any other character gives -1,
      unless it happens to equal the byte after the table. */
  lemma DrvLetterToNumMeaning(letter: char, stray: char)
    ensures IsDriveLetter(letter) ==> DrvLetterToNum(letter, stray) == letter as int - 'A' as int
    ensures !IsDriveLetter(letter) && letter != stray ==> DrvLetterToNum(letter, stray) == -1
    ensures !IsDriveLetter(letter) && letter == stray ==> DrvLetterToNum(letter, stray) == MAX_DRIVES
  {
    var table := DRIVE_LETTERS + [stray];
    var r := DrvLetterToNum(letter, stray);
    forall j | 0 <= j < MAX_DRIVES
      ensures table[j] == Letter(j) && IsDriveLetter(table[j])
    {
      DriveLettersInOrder(j);
    }
    if IsDriveLetter(letter) {
      var k := letter as int - 'A' as int;
      assert table[k] == letter;
      assert r != -1;
    } else if letter == stray {
      assert table[MAX_DRIVES] == letter;
    }
  }

  /** The two conversions invert each other on drives `A` to `Z`. */
  lemma DriveRoundTrip(n: int, letter: char, stray: char)
    requires 0 <= n < MAX_DRIVES && IsDriveLetter(letter)
    ensures DrvLetterToNum(DrvNumToLetter(n), stray) == n
    ensures var k := DrvLetterToNum(letter, stray);
            0 <= k < MAX_DRIVES && DrvNumToLetter(k) == letter
  {
    DrvLetterToNumMeaning(DrvNumToLetter(n), stray);
    DrvLetterToNumMeaning(letter, stray);
  }

  /** The guard shared by both path routines: at least `X:?`, with a colon
      second (`strncmp(path + 1, ":", 1) == 0`). */
  predicate Qualified(path: seq<char>)
  {
    |path| >= 3 && path[1] == ':'
  }

  /** `drvLetterFromPath`: the leading drive letter of a qualified path. */
  function DrvLetterFromPath(path: seq<char>): (c: char)
    requires CString(path)
    ensures c != '\0' <==> Qualified(path)
    ensures Qualified(path) ==> c == path[0]
  {
    if |path| >= 3 then
      if At(path, 1) == ':' then path[0] else '\0'
    else '\0'
  }

  /** `strncpy(dest, src, n)`: up to `n` characters of `src`, then NULs up to
      `n`; the rest of `dest` is untouched, and no terminator is added when
      `src` is `n` characters or longer. */
  function StrNCopy(dest: seq<char>, src: seq<char>, n: nat): (r: seq<char>)
    requires n <= |dest|
    ensures |r| == |dest| && r[n..] == dest[n..]
    ensures forall i :: 0 <= i < n ==> r[i] == (if i < |src| then src[i] else '\0')
  {
    seq(|dest|, i requires 0 <= i < |dest| => if i >= n then dest[i] else if i < |src| then src[i] else '\0')
  }

  datatype DirOutcome = DirOutcome(status: int, buffer: seq<char>)

  /** `dirFromPath`: the part of a qualified path after `X:\` is copied into
      `buffer`, which must have room for it.  The branch meant for a trailing
      backslash tests the terminator, so it is never taken. */
  function DirFromPath(path: seq<char>, buffer: seq<char>): (r: DirOutcome)
    requires CString(path)
    requires Qualified(path) ==> |path| - 3 <= |buffer|
    ensures r.status == 0 <==> Qualified(path)
    ensures r.status != 0 ==> r.status == -1 && r.buffer == buffer
    ensures r.status == 0 ==> |r.buffer| == |buffer| && r.buffer[..|path| - 3] == path[3..]
                              && r.buffer[|path| - 3..] == buffer[|path| - 3..]
  {
    if |path| >= 3 then
      if At(path, 1) == ':' then
        var sz := |path|;
        if At(path, sz) == '\\' then
          // meant to drop a trailing backslash; it reads the terminator
          assert false; DirOutcome(0, buffer)
        else
          DirOutcome(0, StrNCopy(buffer, path[3..], sz - 3))
      else DirOutcome(-1, buffer)
    else DirOutcome(-1, buffer)
  }

  /** The drive letter, `:`, the separator and the copied directory give the
      path back. */
  lemma PathSplits(path: seq<char>, buffer: seq<char>)
    requires CString(path) && Qualified(path) && |path| - 3 <= |buffer|
    ensures var r := DirFromPath(path, buffer);
            [DrvLetterFromPath(path), ':', path[2]] + r.buffer[..|path| - 3] == path
  {
  }

  /** A directory that ends in a backslash keeps it: the trailing separator
      is copied like any other character. */
  lemma TrailingSeparatorKept(path: seq<char>, buffer: seq<char>)
    requires CString(path) && Qualified(path) && |path| >= 4 && path[|path| - 1] == '\\'
    requires |path| - 3 <= |buffer|
    ensures DirFromPath(path, buffer).buffer[|path| - 4] == '\\'
  {
  }
}
