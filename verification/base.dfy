/*******************************************************************************
 *  Machine integers, optional values and little-endian field decoding shared by
 *  every module of the launcher model.
 *******************************************************************************/

/** C integer widths of the 32-bit DOS target, `Option`, and the little-endian
    decoding that `fread` into a native integer performs on x86. */
module Base {

  type uint8 = x: int | 0 <= x < 0x100
  type uint16 = x: int | 0 <= x < 0x1_0000
  type uint32 = x: int | 0 <= x < 0x1_0000_0000

  const TWO_32: int := 0x1_0000_0000
  const TWO_31: int := 0x8000_0000

  datatype Option<+T> = None | Some(value: T)

  function Min(a: int, b: int): int { if a <= b then a else b }
  function Max(a: int, b: int): int { if a <= b then b else a }

  /** Unsigned 32-bit wrap-around, as C performs on `unsigned int` arithmetic. */
  function Wrap32(x: int): (r: uint32)
    ensures 0 <= x < TWO_32 ==> r == x
    ensures (r - x) % TWO_32 == 0
  {
    if 0 <= x < TWO_32 then x else x % TWO_32
  }

  /** A value of C `int` (32 bits on the target). */
  predicate Int32(x: int)
  {
    -TWO_31 <= x < TWO_31
  }

  /** Wrap-around of a value at most one modulus away from the range. */
  lemma Wrap32Near(x: int)
    requires -TWO_32 <= x < 2 * TWO_32
    ensures x < 0 ==> Wrap32(x) == x + TWO_32
    ensures x >= TWO_32 ==> Wrap32(x) == x - TWO_32
  {
    if x < 0 {
      assert (x + TWO_32) % TWO_32 == x % TWO_32;
    } else if x >= TWO_32 {
      assert (x - TWO_32) % TWO_32 == x % TWO_32;
    }
  }

  /** Two's-complement reinterpretation of a 32-bit pattern as a C `int`/`long`. */
  function ToSigned32(u: uint32): (r: int)
    ensures -TWO_31 <= r < TWO_31
    ensures Wrap32(r) == u
    ensures u < TWO_31 ==> r == u
  {
    if u < TWO_31 then u else u - TWO_32
  }

  /** Integer ceiling of a / b: the source's `ceil` of a quotient `float`
      division computes exactly. */
  function CeilDiv(a: nat, b: nat): (r: nat)
    requires b > 0
    ensures r * b >= a
    ensures r > 0 ==> (r - 1) * b < a
  {
    (a + b - 1) / b
  }

  function Pow256(n: nat): (r: nat)
    ensures r >= 1
  {
    if n == 0 then 1 else 256 * Pow256(n - 1)
  }

  /** Field widths the source reads: one, two and four bytes. */
  lemma Pow256Widths()
    ensures Pow256(1) == 0x100 && Pow256(2) == 0x1_0000 && Pow256(4) == TWO_32
  {
    assert Pow256(2) == 256 * Pow256(1);
    assert Pow256(3) == 256 * Pow256(2);
    assert Pow256(4) == 256 * Pow256(3);
  }

  /** `n` zero bytes, as `calloc` and a cleared buffer hold. */
  function Zeros(n: nat): (z: seq<uint8>)
    ensures |z| == n
  {
    seq(n, _ => 0)
  }

  /** Multiplying by a non-negative factor keeps order. */
  lemma MulMono(a: int, b: int, c: int)
    requires a <= b && 0 <= c
    ensures a * c <= b * c
  {
    assert b * c - a * c == (b - a) * c;
  }

  /** `n` copies of `k` added up.  Row and slot offsets are written with it so
      that proofs about them stay linear; `MulIsProduct` ties it to `*`. */
  function Mul(n: nat, k: nat): nat
  {
    if n == 0 then 0 else Mul(n - 1, k) + k
  }

  lemma {:induction false} MulIsProduct(n: nat, k: nat)
    ensures Mul(n, k) == n * k
  {
    if n > 0 {
      MulIsProduct(n - 1, k);
    }
  }

  lemma {:induction false} MulAscending(a: nat, b: nat, k: nat)
    requires a <= b
    ensures Mul(a, k) <= Mul(b, k)
    decreases b - a
  {
    if a < b {
      MulAscending(a, b - 1, k);
    }
  }

  lemma {:induction false} MulAdd(a: nat, b: nat, k: nat)
    ensures Mul(a + b, k) == Mul(a, k) + Mul(b, k)
    decreases b
  {
    if b > 0 {
      MulAdd(a, b - 1, k);
    }
  }

  /** Value of a little-endian byte string (least significant byte first). */
  function LittleEndian(bytes: seq<uint8>): (v: nat)
    ensures v < Pow256(|bytes|)
  {
    if |bytes| == 0 then 0 else bytes[0] + 256 * LittleEndian(bytes[1..])
  }

  /** The n bytes that store v least significant byte first. */
  function EncodeLittleEndian(v: nat, n: nat): (bytes: seq<uint8>)
    ensures |bytes| == n
  {
    if n == 0 then [] else [v % 256] + EncodeLittleEndian(v / 256, n - 1)
  }

  /** Decoding inverts encoding for every value that fits in the field. */
  lemma {:induction false} LittleEndianRoundTrip(v: nat, n: nat)
    requires v < Pow256(n)
    ensures LittleEndian(EncodeLittleEndian(v, n)) == v
  {
    if n > 0 {
      var bytes := EncodeLittleEndian(v, n);
      assert bytes[1..] == EncodeLittleEndian(v / 256, n - 1);
      LittleEndianRoundTrip(v / 256, n - 1);
    }
  }

  /** Encoding inverts decoding: a field's bytes are determined by its value. */
  lemma {:induction false} LittleEndianInjective(bytes: seq<uint8>)
    ensures EncodeLittleEndian(LittleEndian(bytes), |bytes|) == bytes
  {
    if |bytes| > 0 {
      var v := LittleEndian(bytes);
      assert v % 256 == bytes[0];
      assert v / 256 == LittleEndian(bytes[1..]);
      LittleEndianInjective(bytes[1..]);
    }
  }
}
