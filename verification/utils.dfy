/*******************************************************************************
 *  Binary formatting of bytes and shorts for debug output (utils.c).
 *******************************************************************************/

/** `byte2bin` and `short2bin`.

    Both take a signed C integer (`char`, `short`) and shift it right one bit
    per digit; on the x86 compilers the launcher targets, `>>` on a negative
    value is an arithmetic shift, that is, division by 2 rounding down, which
    is Dafny's `/ 2`.  `n & 1` is then `n % 2` in two's complement. */
module Utils {
  import opened Base

  const BYTE_BITS: nat := 8
  const SHORT_BITS: nat := 16

  function Pow2(k: nat): (r: nat)
    ensures r >= 1
  {
    if k == 0 then 1 else 2 * Pow2(k - 1)
  }

  /** Bit `k` of the two's complement representation of `n`. */
  function Bit(n: int, k: nat): (b: int)
    ensures b == 0 || b == 1
  {
    (n / Pow2(k)) % 2
  }

  /** The character printed for a bit. */
  function Digit(b: int): char
  {
    if b == 1 then '1' else '0'
  }

  /** The reference text: the `bits` low bits of `n`, most significant first. */
  function Binary(n: int, bits: nat): (s: seq<char>)
    ensures |s| == bits
  {
    seq(bits, i requires 0 <= i < bits => Digit(Bit(n, bits - 1 - i)))
  }

  /** The value a string of binary digits spells, most significant first. */
  function Value(s: seq<char>): nat
  {
    if |s| == 0 then 0 else 2 * Value(s[..|s| - 1]) + (if s[|s| - 1] == '1' then 1 else 0)
  }

  /** Shifting right `k + 1` times is halving the `k`-times-shifted value. */
  lemma ShiftStep(n: int, k: nat)
    ensures n / Pow2(k + 1) == (n / Pow2(k)) / 2
  {
    var p := Pow2(k);
    var q := n / p;
    var r := n % p;
    assert n == q * p + r && 0 <= r < p;
    var q2 := q / 2;
    var r2 := q % 2;
    assert n == q2 * (2 * p) + (r2 * p + r);
    assert 0 <= r2 * p + r < 2 * p;
    DivUnique(n, 2 * p, q2, r2 * p + r);
  }

  lemma DivUnique(n: int, d: int, q: int, r: int)
    requires d > 0 && n == q * d + r && 0 <= r < d
    ensures n / d == q
  {
    var q' := n / d;
    var r' := n % d;
    if q' < q {
      MulMono(q' + 1, q, d);
    } else if q' > q {
      MulMono(q + 1, q', d);
    }
  }

  /** Reading the text back as binary gives `n` modulo `2^bits`: the digits
      are exactly the low `bits` bits of `n`. */
  lemma {:induction false} BinaryValue(n: int, bits: nat)
    ensures Value(Binary(n, bits)) == n % Pow2(bits)
    decreases bits
  {
    if bits > 0 {
      var s := Binary(n, bits);
      var h := Binary(n / 2, bits - 1);
      BinaryShift(n, bits - 1);
      assert s[..bits - 1] == h;
      assert Value(s) == 2 * Value(h) + n % 2;
      BinaryValue(n / 2, bits - 1);
      ModHalf(n, bits - 1);
    }
  }

  /** Bit `k + 1` of `n` is bit `k` of `n / 2`. */
  lemma BitOfHalf(n: int, k: nat)
    ensures Bit(n, k + 1) == Bit(n / 2, k)
  {
    ShiftStep(n, k);
    ShiftCommutes(n, k);
  }

  /** Halving first and shifting `k` times is shifting `k + 1` times. */
  lemma {:induction false} ShiftCommutes(n: int, k: nat)
    ensures (n / 2) / Pow2(k) == n / Pow2(k + 1)
  {
    if k > 0 {
      ShiftCommutes(n, k - 1);
      ShiftStep(n / 2, k - 1);
      ShiftStep(n, k);
    }
  }

  /** `n mod 2^(k+1)` is twice `(n / 2) mod 2^k` plus the low bit. */
  lemma ModHalf(n: int, k: nat)
    ensures n % Pow2(k + 1) == 2 * ((n / 2) % Pow2(k)) + n % 2
  {
    var p := Pow2(k);
    var h := n / 2;
    var b := n % 2;
    var q := h / p;
    var r := h % p;
    assert n == q * (2 * p) + (2 * r + b);
    DivUnique(n, 2 * p, q, 2 * r + b);
  }

  /** The text of `v` is the text of `v / 2` followed by `v`'s low bit. */
  lemma BinaryShift(v: int, k: nat)
    ensures Binary(v, k + 1) == Binary(v / 2, k) + [Digit(v % 2)]
  {
    forall i | 0 <= i < k
      ensures Binary(v, k + 1)[i] == Binary(v / 2, k)[i]
    {
      BitOfHalf(v, k - 1 - i);
    }
    assert Pow2(0) == 1 && v / Pow2(0) == v;
    assert Binary(v, k + 1)[k] == Digit(Bit(v, 0)) == Digit(v % 2);
  }

  /** The digits spelling a value below `2^bits` are its own text: the other
      direction of the round trip. */
  lemma {:induction false} ValueBinary(s: seq<char>)
    requires forall i :: 0 <= i < |s| ==> s[i] == '0' || s[i] == '1'
    ensures Value(s) < Pow2(|s|)
    ensures Binary(Value(s), |s|) == s
    decreases |s|
  {
    if |s| > 0 {
      var t := s[..|s| - 1];
      ValueBinary(t);
      var v := Value(s);
      var low := if s[|s| - 1] == '1' then 1 else 0;
      assert v == 2 * Value(t) + low;
      assert v / 2 == Value(t) && v % 2 == low;
      BinaryShift(v, |t|);
      assert s == t + [s[|s| - 1]];
    }
  }

  /** The text of a C `char` or `short` is its two's complement pattern:
      a negative value reads back as itself plus `2^bits`. */
  lemma TwosComplement(n: int, bits: nat)
    requires bits == BYTE_BITS || bits == SHORT_BITS
    requires 0 <= n + Pow2(bits) / 2 && n < Pow2(bits) / 2
    ensures Value(Binary(n, bits)) == if n < 0 then n + Pow2(bits) else n
  {
    BinaryValue(n, bits);
    ModInRange(n, Pow2(bits));
  }

  /** Reducing a value within one modulus of zero adds the modulus to a
      negative value and keeps any other. */
  lemma ModInRange(n: int, p: int)
    requires p > 0 && -p <= n < p
    ensures n % p == if n < 0 then n + p else n
  {
    if n < 0 {
      DivUnique(n, p, -1, n + p);
    } else {
      DivUnique(n, p, 0, n);
    }
  }

  /** The digit loop shared by both routines: from `i = bits - 1` down to 0,
      `buf[i]` takes the low bit and `n` is shifted right. */
  method Digits(n0: int, bits: nat, buf: seq<char>) returns (r: seq<char>)
    requires bits <= |buf|
    ensures |r| == |buf| && r[..bits] == Binary(n0, bits) && r[bits..] == buf[bits..]
  {
    r := buf;
    var n := n0;
    var i := bits - 1;
    while i >= 0
      invariant -1 <= i < bits
      invariant |r| == |buf| && r[bits..] == buf[bits..]
      invariant n == n0 / Pow2(bits - 1 - i)
      invariant forall j :: i < j < bits ==> r[j] == Digit(Bit(n0, bits - 1 - j))
      invariant forall j :: 0 <= j <= i ==> r[j] == buf[j]
    {
      r := r[i := if n % 2 == 1 then '1' else '0'];
      ShiftStep(n0, bits - 1 - i);
      n := n / 2;
      i := i - 1;
    }
  }

  /** Where the text goes: the routine's own static buffer when the caller
      passes `NULL`, the caller's buffer otherwise. */
  datatype Buffers = Buffers(own: seq<char>, caller: Option<seq<char>>)

  /** The result: which buffer is returned, and both buffers afterwards. */
  datatype BinOutcome = BinOutcome(returnsStatic: bool, after: Buffers)

  /** What both routines demand: a value of the argument's C type and a
      buffer with room for the digits and the terminator. */
  predicate BinCallable(n: int, bits: nat, bufs: Buffers)
  {
    && 0 <= n + Pow2(bits) / 2 && n < Pow2(bits) / 2
    && |bufs.own| == bits + 1
    && (bufs.caller.Some? ==> |bufs.caller.value| >= bits + 1)
  }

  /** `bits` digits, most significant first, then a NUL, written to the
      chosen buffer; the other buffer is untouched. */
  method ToBin(n: int, bits: nat, bufs: Buffers) returns (r: BinOutcome)
    requires BinCallable(n, bits, bufs)
    ensures r.returnsStatic <==> bufs.caller.None?
    ensures r.returnsStatic ==> r.after.caller == bufs.caller
    ensures !r.returnsStatic ==> r.after.own == bufs.own && r.after.caller.Some?
    ensures var out := if r.returnsStatic then r.after.own else r.after.caller.value;
            var before := if r.returnsStatic then bufs.own else bufs.caller.value;
            && |out| == |before| && out[..bits] == Binary(n, bits) && out[bits] == '\0'
            && out[bits + 1..] == before[bits + 1..]
  {
    var buf := if bufs.caller.None? then bufs.own else bufs.caller.value;
    var text := Digits(n, bits, buf);
    text := text[bits := '\0'];
    if bufs.caller.None? {
      r := BinOutcome(true, bufs.(own := text));
    } else {
      r := BinOutcome(false, bufs.(caller := Some(text)));
    }
  }

  /** `byte2bin`. */
  method Byte2Bin(n: int, bufs: Buffers) returns (r: BinOutcome)
    requires BinCallable(n, BYTE_BITS, bufs)
    ensures r.returnsStatic <==> bufs.caller.None?
    ensures r.returnsStatic ==> r.after.caller == bufs.caller
    ensures !r.returnsStatic ==> r.after.own == bufs.own && r.after.caller.Some?
    ensures var out := if r.returnsStatic then r.after.own else r.after.caller.value;
            var before := if r.returnsStatic then bufs.own else bufs.caller.value;
            && |out| == |before| && out[..8] == Binary(n, 8) && out[8] == '\0'
            && out[9..] == before[9..]
  {
    r := ToBin(n, BYTE_BITS, bufs);
  }

  /** `short2bin`. */
  method Short2Bin(n: int, bufs: Buffers) returns (r: BinOutcome)
    requires BinCallable(n, SHORT_BITS, bufs)
    ensures r.returnsStatic <==> bufs.caller.None?
    ensures r.returnsStatic ==> r.after.caller == bufs.caller
    ensures !r.returnsStatic ==> r.after.own == bufs.own && r.after.caller.Some?
    ensures var out := if r.returnsStatic then r.after.own else r.after.caller.value;
            var before := if r.returnsStatic then bufs.own else bufs.caller.value;
            && |out| == |before| && out[..16] == Binary(n, 16) && out[16] == '\0'
            && out[17..] == before[17..]
  {
    r := ToBin(n, SHORT_BITS, bufs);
  }
}
