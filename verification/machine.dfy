/** Fixed-width machine integers of the Win32 build: `uint32_t`/`UINT`/`DWORD`,
    `int32_t`/`LONG`, and the `WPARAM`/`LPARAM` message words, with the
    wrap-around that C's unsigned arithmetic and narrowing casts perform. */
module Machine {

  const TWO_32: int := 0x1_0000_0000
  const TWO_64: int := 0x1_0000_0000_0000_0000

  type U32 = x: int | 0 <= x < 0x1_0000_0000
  type I32 = x: int | -0x8000_0000 <= x < 0x8000_0000

  /** WPARAM is an unsigned pointer-sized word (64-bit build). */
  type WParam = x: int | 0 <= x < 0x1_0000_0000_0000_0000
  /** LPARAM is a signed pointer-sized word (64-bit build). */
  type LParam = x: int | -0x8000_0000_0000_0000 <= x < 0x8000_0000_0000_0000

  /** Reduction modulo 2^32: unsigned 32-bit arithmetic and `(uint32_t)` casts. */
  function WrapU32(x: int): (r: U32)
    ensures 0 <= x < TWO_32 ==> r == x
    ensures 0 <= x ==> r <= x
    ensures (x - r) % TWO_32 == 0
  {
    x % TWO_32
  }

  /** Two's-complement narrowing to 32 bits: `(LONG)` and `(int32_t)` casts. */
  function WrapI32(x: int): (r: I32)
    ensures -0x8000_0000 <= x < 0x8000_0000 ==> r == x
    ensures (x - r) % TWO_32 == 0
  {
    var u := x % TWO_32;
    if u < 0x8000_0000 then u else u - TWO_32
  }

  /** `LOWORD`: the low 16 bits of a message word (two's complement for negatives). */
  function LoWord(x: int): (r: int)
    ensures 0 <= r < 0x1_0000
    ensures 0 <= x < 0x1_0000 ==> r == x
  {
    x % 0x1_0000
  }

  /** `HIWORD`: bits 16..31 of a message word. */
  function HiWord(x: int): (r: int)
    ensures 0 <= r < 0x1_0000
    ensures 0 <= x < 0x1_0000 ==> r == 0
  {
    (x / 0x1_0000) % 0x1_0000
  }

  /** `MAKELONG`/`MAKEWPARAM`: how the window system packs two 16-bit halves. */
  function MakeLong(lo: int, hi: int): (r: int)
    requires 0 <= lo < 0x1_0000 && 0 <= hi < 0x1_0000
    ensures 0 <= r < TWO_32
  {
    lo + hi * 0x1_0000
  }

  /** Unpacking a packed word gives back both halves. */
  lemma WordsRoundTrip(lo: int, hi: int)
    requires 0 <= lo < 0x1_0000 && 0 <= hi < 0x1_0000
    ensures LoWord(MakeLong(lo, hi)) == lo
    ensures HiWord(MakeLong(lo, hi)) == hi
  {
    var x := MakeLong(lo, hi);
    assert x / 0x1_0000 == hi;
  }

  /** Every 32-bit word is the packing of its two halves. */
  lemma WordsSplit(x: int)
    requires 0 <= x < TWO_32
    ensures MakeLong(LoWord(x), HiWord(x)) == x
  {
    assert x / 0x1_0000 < 0x1_0000;
  }

  /** Truncating division never rounds up: q = a / b satisfies q * b <= a. */
  lemma DivMulBound(a: nat, b: nat)
    requires b > 0
    ensures (a / b) * b <= a < (a / b + 1) * b
  {
  }

  /** Truncating division is monotone in the dividend. */
  lemma DivMonotone(x: nat, y: nat, d: nat)
    requires d > 0 && x <= y
    ensures x / d <= y / d
  {
    if x / d > y / d {
      DivMulBound(x, d);
      DivMulBound(y, d);
      assert false;
    }
  }

  /** Multiplication by a natural number is monotone. */
  lemma MulMonotone(a: nat, b: nat, c: nat)
    requires a <= b
    ensures a * c <= b * c
  {
    assert b * c == a * c + (b - a) * c;
  }
}
