/*******************************************************************************
 *  The packed `launchdat_t` record (data.h) as the bytes it occupies, and
 *  `launchdataDefaults` (data.c) as it runs over them.
 *******************************************************************************/

/** `launchdataDefaults` as the C writes it: each text field cleared with
    `memset(field, '\0', strlen(field))`, in the order of the source, on one
    run of memory.  A text field that fills its size has no terminator, so
    its `strlen` reads on into the field after it.

    This module is the byte-level reference that `Data.LaunchdataDefaults`
    is proved against. */
module Packed {
  import opened Base
  import opened Data
  import Fstools

  const NUL: char := '\0'
  /** `sizeof(int)` on the target. */
  const INT_SIZE: nat := 4

  // Byte offsets of the fields; `__attribute__((__packed__))` leaves no gaps.
  const REALNAME_AT: nat := 0
  const GENRE_AT: nat := REALNAME_AT + MAX_STRING_SIZE
  const YEAR_AT: nat := GENRE_AT + MAX_STRING_SIZE
  const SERIES_AT: nat := YEAR_AT + 3 * INT_SIZE
  const PUBLISHER_AT: nat := SERIES_AT + MAX_STRING_SIZE
  const DEVELOPER_AT: nat := PUBLISHER_AT + MAX_STRING_SIZE
  const START_AT: nat := DEVELOPER_AT + MAX_STRING_SIZE
  const ALT_START_AT: nat := START_AT + MAX_FILENAME_SIZE
  const IMAGES_AT: nat := ALT_START_AT + MAX_FILENAME_SIZE
  const LAUNCHDAT_SIZE: nat := IMAGES_AT + IMAGE_BUFFER_SIZE

  /** The text `s` sits in the `cap`-byte field at `at`: its characters,
      then a terminator unless it fills the field. */
  predicate Stored(m: seq<char>, at: nat, cap: nat, s: seq<char>)
  {
    && at + cap <= |m| && |s| <= cap && Fstools.CString(s)
    && m[at..at + |s|] == s
    && (|s| < cap ==> m[at + |s|] == NUL)
  }

  /** The bytes of an `int`, little-endian, after the conversion to 32 bits. */
  function IntChars(n: int): (r: seq<char>)
    ensures |r| == INT_SIZE
  {
    var u := Wrap32(n);
    [(u % 256) as char, (u / 0x100 % 256) as char, (u / 0x1_0000 % 256) as char, (u / 0x100_0000) as char]
  }

  /** `m` is a packed record holding `ld`. */
  predicate Holds(m: seq<char>, ld: LaunchDat)
  {
    && |m| == LAUNCHDAT_SIZE
    && Stored(m, REALNAME_AT, MAX_STRING_SIZE, ld.realname)
    && Stored(m, GENRE_AT, MAX_STRING_SIZE, ld.genre)
    && m[YEAR_AT..SERIES_AT] == IntChars(ld.year) + IntChars(ld.midi) + IntChars(ld.midiSerial)
    && Stored(m, SERIES_AT, MAX_STRING_SIZE, ld.series)
    && Stored(m, PUBLISHER_AT, MAX_STRING_SIZE, ld.publisher)
    && Stored(m, DEVELOPER_AT, MAX_STRING_SIZE, ld.developer)
    && Stored(m, START_AT, MAX_FILENAME_SIZE, ld.start)
    && Stored(m, ALT_START_AT, MAX_FILENAME_SIZE, ld.altStart)
    && Stored(m, IMAGES_AT, IMAGE_BUFFER_SIZE, ld.images)
  }

  /** A field's bytes determine the text it holds. */
  lemma StoredUnique(m: seq<char>, at: nat, cap: nat, s: seq<char>, t: seq<char>)
    requires Stored(m, at, cap, s) && Stored(m, at, cap, t)
    ensures s == t
  {
    assert |s| == |t|;
    assert s == m[at..at + |s|];
  }

  /** A record's bytes determine every text field of the record. */
  lemma HoldsUnique(m: seq<char>, ld: LaunchDat, ld': LaunchDat)
    requires Holds(m, ld) && Holds(m, ld')
    ensures ld.realname == ld'.realname && ld.genre == ld'.genre && ld.series == ld'.series
    ensures ld.publisher == ld'.publisher && ld.developer == ld'.developer
    ensures ld.start == ld'.start && ld.altStart == ld'.altStart && ld.images == ld'.images
  {
    StoredUnique(m, REALNAME_AT, MAX_STRING_SIZE, ld.realname, ld'.realname);
    StoredUnique(m, GENRE_AT, MAX_STRING_SIZE, ld.genre, ld'.genre);
    StoredUnique(m, SERIES_AT, MAX_STRING_SIZE, ld.series, ld'.series);
    StoredUnique(m, PUBLISHER_AT, MAX_STRING_SIZE, ld.publisher, ld'.publisher);
    StoredUnique(m, DEVELOPER_AT, MAX_STRING_SIZE, ld.developer, ld'.developer);
    StoredUnique(m, START_AT, MAX_FILENAME_SIZE, ld.start, ld'.start);
    StoredUnique(m, ALT_START_AT, MAX_FILENAME_SIZE, ld.altStart, ld'.altStart);
    StoredUnique(m, IMAGES_AT, IMAGE_BUFFER_SIZE, ld.images, ld'.images);
  }

  /** A terminator at `i` or later, inside the record. */
  predicate NulFrom(m: seq<char>, i: nat)
    decreases |m| - i
  {
    i < |m| && (m[i] == NUL || NulFrom(m, i + 1))
  }

  lemma {:induction false} NulFromAt(m: seq<char>, i: nat, z: nat)
    requires i <= z < |m| && m[z] == NUL
    ensures NulFrom(m, i)
    decreases z - i
  {
    if i < z {
      NulFromAt(m, i + 1, z);
    }
  }

  /** `strlen(m + i)`: the characters before the first terminator. Reading
      stops at the end of the record, where the C would read on; the reset
      below is only defined when no run gets there (`ResetInRecord`). */
  function StrLen(m: seq<char>, i: nat): (n: nat)
    requires i <= |m|
    ensures i + n <= |m|
    ensures i + n < |m| ==> m[i + n] == NUL
    ensures forall k :: i <= k < i + n ==> m[k] != NUL
    ensures NulFrom(m, i) ==> i + n < |m|
    decreases |m| - i
  {
    if i == |m| || m[i] == NUL then 0 else 1 + StrLen(m, i + 1)
  }

  /** `memset(m + i, '\0', n)`. */
  function Memset(m: seq<char>, i: nat, n: nat): (r: seq<char>)
    requires i + n <= |m|
    ensures |r| == |m|
    ensures forall k :: 0 <= k < |m| ==> r[k] == if i <= k < i + n then NUL else m[k]
    decreases n
  {
    if n == 0 then m else Memset(m[i := NUL], i + 1, n - 1)
  }

  /** `memset(m + i, '\0', strlen(m + i))`. */
  function Clear(m: seq<char>, i: nat): (r: seq<char>)
    requires i <= |m|
    ensures |r| == |m|
  {
    Memset(m, i, StrLen(m, i))
  }

  /** The three `int` assignments. */
  function SetInts(m: seq<char>, year: int, midi: int, midiSerial: int): (r: seq<char>)
    requires |m| == LAUNCHDAT_SIZE
    ensures |r| == |m|
  {
    m[..YEAR_AT] + IntChars(year) + IntChars(midi) + IntChars(midiSerial) + m[SERIES_AT..]
  }

  /** `launchdataDefaults` on the packed record, statement by statement in
      the order of the source. It is defined when `images` holds a
      terminator; otherwise its `strlen` reads past the record. */
  function ResetBytes(m: seq<char>): (r: seq<char>)
    requires |m| == LAUNCHDAT_SIZE && NulFrom(m, IMAGES_AT)
    ensures |r| == LAUNCHDAT_SIZE
  {
    var m1 := Clear(m, REALNAME_AT);
    var m2 := Clear(m1, GENRE_AT);
    var m3 := SetInts(m2, DEFAULT_YEAR, 0, 0);
    var m4 := Clear(m3, PUBLISHER_AT);
    var m5 := Clear(m4, DEVELOPER_AT);
    var m6 := Clear(m5, START_AT);
    var m7 := Clear(m6, IMAGES_AT);
    Clear(m7, SERIES_AT)
  }

  /** The memory before the reset (`m0`) and after each of its statements. */
  datatype Run = Run(m0: seq<char>, m1: seq<char>, m2: seq<char>, m3: seq<char>, m4: seq<char>,
                     m5: seq<char>, m6: seq<char>, m7: seq<char>, m8: seq<char>)

  /** `s` is the run of the reset on `m`. */
  predicate Chain(m: seq<char>, s: Run)
  {
    && |m| == LAUNCHDAT_SIZE && s.m0 == m
    && s.m1 == Clear(s.m0, REALNAME_AT)
    && s.m2 == Clear(s.m1, GENRE_AT)
    && |s.m2| == LAUNCHDAT_SIZE && s.m3 == SetInts(s.m2, DEFAULT_YEAR, 0, 0)
    && s.m4 == Clear(s.m3, PUBLISHER_AT)
    && s.m5 == Clear(s.m4, DEVELOPER_AT)
    && s.m6 == Clear(s.m5, START_AT)
    && s.m7 == Clear(s.m6, IMAGES_AT)
    && s.m8 == Clear(s.m7, SERIES_AT)
  }

  lemma ChainOf(m: seq<char>) returns (s: Run)
    requires |m| == LAUNCHDAT_SIZE && NulFrom(m, IMAGES_AT)
    ensures Chain(m, s) && s.m8 == ResetBytes(m)
  {
    var m1 := Clear(m, REALNAME_AT);
    var m2 := Clear(m1, GENRE_AT);
    var m3 := SetInts(m2, DEFAULT_YEAR, 0, 0);
    var m4 := Clear(m3, PUBLISHER_AT);
    var m5 := Clear(m4, DEVELOPER_AT);
    var m6 := Clear(m5, START_AT);
    var m7 := Clear(m6, IMAGES_AT);
    s := Run(m, m1, m2, m3, m4, m5, m6, m7, Clear(m7, SERIES_AT));
  }

  // Facts about one statement.

  /** A cleared run starts at `i` and only ever writes terminators. */
  lemma ClearBytes(m: seq<char>, i: nat, k: nat)
    requires i <= |m| && k < |m|
    ensures Clear(m, i)[k] == NUL || Clear(m, i)[k] == m[k]
    ensures k < i ==> Clear(m, i)[k] == m[k]
    ensures k == i ==> Clear(m, i)[k] == NUL
  {
  }

  /** No run turns a terminator back into text. */
  lemma ClearKeepsNuls(m: seq<char>, i: nat)
    requires i <= |m|
    ensures forall k :: 0 <= k < |m| && m[k] == NUL ==> Clear(m, i)[k] == NUL
    ensures forall k :: 0 <= k < i && k < |m| ==> Clear(m, i)[k] == m[k]
  {
  }

  /** A run from `i` stops at the first terminator: bytes from a terminator
      at `z >= i` on are untouched. */
  lemma ClearStopsAt(m: seq<char>, i: nat, z: nat)
    requires i <= z < |m| && m[z] == NUL
    ensures forall k :: z <= k < |m| ==> Clear(m, i)[k] == m[k]
  {
    assert i + StrLen(m, i) <= z;
  }

  /** The `int` assignments touch only the `int` bytes. */
  lemma SetIntsKeeps(m: seq<char>, year: int, midi: int, midiSerial: int)
    requires |m| == LAUNCHDAT_SIZE
    ensures forall k :: 0 <= k < |m| && !(YEAR_AT <= k < SERIES_AT) ==> SetInts(m, year, midi, midiSerial)[k] == m[k]
    ensures SetInts(m, year, midi, midiSerial)[YEAR_AT..SERIES_AT] == IntChars(year) + IntChars(midi) + IntChars(midiSerial)
  {
  }

  /** While every `start` byte is set and `alt_start` is not empty, a run
      either stops before `start` or goes through `alt_start`'s first byte;
      a run from `start` itself always does the latter. */
  predicate AltOpen(m: seq<char>)
    requires |m| == LAUNCHDAT_SIZE
  {
    (forall k :: START_AT <= k < ALT_START_AT ==> m[k] != NUL) || m[ALT_START_AT] == NUL
  }

  lemma ClearKeepsAltOpen(m: seq<char>, i: nat)
    requires |m| == LAUNCHDAT_SIZE && i <= START_AT && AltOpen(m)
    ensures AltOpen(Clear(m, i))
    ensures i == START_AT ==> Clear(m, i)[ALT_START_AT] == NUL
  {
    var n := StrLen(m, i);
    if m[ALT_START_AT] == NUL {
      ClearBytes(m, i, ALT_START_AT);
    } else if i + n < START_AT {
      ClearStopsAt(m, i, i + n);
    } else {
      assert i + n > ALT_START_AT;
    }
  }

  // The whole reset.

  /** Every run of the reset meets a terminator inside the record when
      `images` holds one: the `strlen` calls of `launchdataDefaults` are
      then all defined. */
  lemma ResetInRecord(m: seq<char>, s: Run)
    requires Chain(m, s) && NulFrom(m, IMAGES_AT)
    ensures NulFrom(s.m0, REALNAME_AT) && NulFrom(s.m1, GENRE_AT)
    ensures NulFrom(s.m3, PUBLISHER_AT) && NulFrom(s.m4, DEVELOPER_AT) && NulFrom(s.m5, START_AT)
    ensures NulFrom(s.m6, IMAGES_AT) && NulFrom(s.m7, SERIES_AT)
  {
    var z := IMAGES_AT + StrLen(m, IMAGES_AT);
    NulFromAt(s.m0, REALNAME_AT, z);
    ClearKeepsNuls(s.m0, REALNAME_AT);
    NulFromAt(s.m1, GENRE_AT, z);
    ClearKeepsNuls(s.m1, GENRE_AT);
    SetIntsKeeps(s.m2, DEFAULT_YEAR, 0, 0);
    ClearKeepsNuls(s.m3, PUBLISHER_AT);
    NulFromAt(s.m3, PUBLISHER_AT, z);
    ClearKeepsNuls(s.m4, DEVELOPER_AT);
    NulFromAt(s.m4, DEVELOPER_AT, z);
    ClearKeepsNuls(s.m5, START_AT);
    NulFromAt(s.m5, START_AT, z);
    ClearKeepsNuls(s.m6, IMAGES_AT);
    NulFromAt(s.m6, IMAGES_AT, z);
    NulFromAt(s.m7, SERIES_AT, z);
  }

  /** Outside the `int` bytes a terminator, once written, stays to the end. */
  lemma NulsStay(m: seq<char>, s: Run)
    requires Chain(m, s)
    ensures forall k :: 0 <= k < LAUNCHDAT_SIZE && !(YEAR_AT <= k < SERIES_AT) && s.m1[k] == NUL ==> s.m8[k] == NUL
    ensures forall k :: 0 <= k < LAUNCHDAT_SIZE && !(YEAR_AT <= k < SERIES_AT) && s.m2[k] == NUL ==> s.m8[k] == NUL
    ensures forall k :: 0 <= k < LAUNCHDAT_SIZE && s.m3[k] == NUL ==> s.m8[k] == NUL
    ensures forall k :: 0 <= k < LAUNCHDAT_SIZE && s.m6[k] == NUL ==> s.m8[k] == NUL
  {
    ClearKeepsNuls(s.m1, GENRE_AT);
    SetIntsKeeps(s.m2, DEFAULT_YEAR, 0, 0);
    ClearKeepsNuls(s.m3, PUBLISHER_AT);
    ClearKeepsNuls(s.m4, DEVELOPER_AT);
    ClearKeepsNuls(s.m5, START_AT);
    ClearKeepsNuls(s.m6, IMAGES_AT);
    ClearKeepsNuls(s.m7, SERIES_AT);
  }

  /** Each text field but `alt_start` reads back as empty after the reset. */
  lemma ResetEmpties(m: seq<char>, s: Run)
    requires Chain(m, s)
    ensures s.m8[REALNAME_AT] == NUL && s.m8[GENRE_AT] == NUL && s.m8[SERIES_AT] == NUL
    ensures s.m8[PUBLISHER_AT] == NUL && s.m8[DEVELOPER_AT] == NUL && s.m8[START_AT] == NUL
    ensures s.m8[IMAGES_AT] == NUL
  {
    NulsStay(m, s);
    ClearBytes(s.m0, REALNAME_AT, REALNAME_AT);
    ClearBytes(s.m1, GENRE_AT, GENRE_AT);
    ClearBytes(s.m3, PUBLISHER_AT, PUBLISHER_AT);
    ClearKeepsNuls(s.m4, DEVELOPER_AT);
    ClearKeepsNuls(s.m5, START_AT);
    ClearBytes(s.m4, DEVELOPER_AT, DEVELOPER_AT);
    ClearBytes(s.m5, START_AT, START_AT);
    ClearBytes(s.m6, IMAGES_AT, IMAGES_AT);
    ClearBytes(s.m7, SERIES_AT, SERIES_AT);
  }

  /** A `start` shorter than its field keeps its terminator at `z`, which
      every run from before it stops at; the run from `images` starts after
      `alt_start`. So `alt_start`'s bytes are untouched. */
  lemma ResetKeepsAlt(m: seq<char>, s: Run, z: nat)
    requires Chain(m, s) && START_AT <= z < ALT_START_AT && m[z] == NUL
    ensures forall k :: z <= k < IMAGES_AT ==> s.m8[k] == m[k]
  {
    ClearStopsAt(s.m0, REALNAME_AT, z);
    ClearStopsAt(s.m1, GENRE_AT, z);
    SetIntsKeeps(s.m2, DEFAULT_YEAR, 0, 0);
    ClearStopsAt(s.m3, PUBLISHER_AT, z);
    ClearStopsAt(s.m4, DEVELOPER_AT, z);
    ClearStopsAt(s.m5, START_AT, z);
    ClearKeepsNuls(s.m6, IMAGES_AT);
    ClearStopsAt(s.m7, SERIES_AT, z);
  }

  /** A `start` that fills its field has no terminator: the run from
      `start` goes on into `alt_start` and leaves its first byte cleared. */
  lemma ResetClearsAlt(m: seq<char>, s: Run, ld: LaunchDat)
    requires Chain(m, s) && Holds(m, ld) && |ld.start| == MAX_FILENAME_SIZE
    ensures s.m8[ALT_START_AT] == NUL
  {
    assert m[START_AT..ALT_START_AT] == ld.start;
    forall k | START_AT <= k < ALT_START_AT
      ensures m[k] != NUL
    {
      assert m[k] == ld.start[k - START_AT];
    }
    ClearKeepsAltOpen(s.m0, REALNAME_AT);
    ClearKeepsAltOpen(s.m1, GENRE_AT);
    SetIntsKeeps(s.m2, DEFAULT_YEAR, 0, 0);
    assert AltOpen(s.m3) by {
      assert s.m3[ALT_START_AT] == s.m2[ALT_START_AT];
    }
    ClearKeepsAltOpen(s.m3, PUBLISHER_AT);
    ClearKeepsAltOpen(s.m4, DEVELOPER_AT);
    ClearKeepsAltOpen(s.m5, START_AT);
    NulsStay(m, s);
  }

  /** A run from `i` leaves the bytes before `i` as they were. */
  lemma ClearKeepsBefore(m: seq<char>, i: nat, a: nat, b: nat)
    requires a <= b <= i <= |m|
    ensures Clear(m, i)[a..b] == m[a..b]
  {
    ClearKeepsNuls(m, i);
  }

  /** The `int` bytes after the reset are the defaults. */
  lemma ResetInts(m: seq<char>, s: Run)
    requires Chain(m, s)
    ensures s.m8[YEAR_AT..SERIES_AT] == IntChars(DEFAULT_YEAR) + IntChars(0) + IntChars(0)
  {
    SetIntsKeeps(s.m2, DEFAULT_YEAR, 0, 0);
    ClearKeepsBefore(s.m3, PUBLISHER_AT, YEAR_AT, SERIES_AT);
    ClearKeepsBefore(s.m4, DEVELOPER_AT, YEAR_AT, SERIES_AT);
    ClearKeepsBefore(s.m5, START_AT, YEAR_AT, SERIES_AT);
    ClearKeepsBefore(s.m6, IMAGES_AT, YEAR_AT, SERIES_AT);
    ClearKeepsBefore(s.m7, SERIES_AT, YEAR_AT, SERIES_AT);
  }

  /** A record `r` whose text fields but `alt_start` start with a
      terminator, whose `int` bytes are the defaults and whose `alt_start`
      is either the one of `m` or starts with a terminator, holds
      `LaunchdataDefaults(ld)`. */
  lemma DefaultsStored(m: seq<char>, r: seq<char>, ld: LaunchDat)
    requires Holds(m, ld) && |ld.images| < IMAGE_BUFFER_SIZE && |r| == LAUNCHDAT_SIZE
    requires r[REALNAME_AT] == NUL && r[GENRE_AT] == NUL && r[SERIES_AT] == NUL
    requires r[PUBLISHER_AT] == NUL && r[DEVELOPER_AT] == NUL && r[START_AT] == NUL
    requires r[IMAGES_AT] == NUL
    requires r[YEAR_AT..SERIES_AT] == IntChars(DEFAULT_YEAR) + IntChars(0) + IntChars(0)
    requires |ld.start| < MAX_FILENAME_SIZE ==> forall k :: ALT_START_AT <= k < IMAGES_AT ==> r[k] == m[k]
    requires |ld.start| >= MAX_FILENAME_SIZE ==> r[ALT_START_AT] == NUL
    ensures Holds(r, LaunchdataDefaults(ld))
  {
    var d := LaunchdataDefaults(ld);
    if |ld.start| < MAX_FILENAME_SIZE {
      assert r[ALT_START_AT..ALT_START_AT + |d.altStart|] == m[ALT_START_AT..ALT_START_AT + |d.altStart|];
    }
  }

  /** The reset reads back as `Data.LaunchdataDefaults`: if the record holds
      `ld` with a terminated `images`, the reset is defined and the record
      afterwards holds `LaunchdataDefaults(ld)`, including the `alt_start`
      cleared by a full `start`. */
  lemma ResetBytesMeaning(m: seq<char>, ld: LaunchDat)
    requires Holds(m, ld) && |ld.images| < IMAGE_BUFFER_SIZE
    ensures NulFrom(m, IMAGES_AT)
    ensures Holds(ResetBytes(m), LaunchdataDefaults(ld))
  {
    NulFromAt(m, IMAGES_AT, IMAGES_AT + |ld.images|);
    var s := ChainOf(m);
    ResetEmpties(m, s);
    ResetInts(m, s);
    if |ld.start| < MAX_FILENAME_SIZE {
      assert m[START_AT + |ld.start|] == NUL;
      ResetKeepsAlt(m, s, START_AT + |ld.start|);
    } else {
      ResetClearsAlt(m, s, ld);
    }
    DefaultsStored(m, s.m8, ld);
  }
}
