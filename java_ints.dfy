/**
 * Java's fixed-width two's-complement integers, written out over Dafny's unbounded `int`:
 * each `WrapN` is the value a narrowing cast to an N-bit type yields.
 */
module JavaInts {

  const TWO_32: int := 0x1_0000_0000

  /** The values of Java's `int`. */
  newtype int32 = x: int | -0x8000_0000 <= x < 0x8000_0000

  predicate InByte(x: int) { -0x80 <= x < 0x80 }
  predicate InShort(x: int) { -0x8000 <= x < 0x8000 }
  predicate InInt(x: int) { -0x8000_0000 <= x < 0x8000_0000 }
  predicate InLong(x: int) { -0x8000_0000_0000_0000 <= x < 0x8000_0000_0000_0000 }
  predicate InChar(x: int) { 0 <= x < 0x1_0000 }

  /** `(byte) x` */
  function Wrap8(x: int): (r: int)
    ensures InByte(r)
    ensures InByte(x) ==> r == x
  {
    (x + 0x80) % 0x100 - 0x80
  }

  /** `(short) x` */
  function Wrap16(x: int): (r: int)
    ensures InShort(r)
    ensures InShort(x) ==> r == x
  {
    (x + 0x8000) % 0x1_0000 - 0x8000
  }

  /** `(int) x` */
  function Wrap32(x: int): (r: int32)
    ensures InInt(x) ==> r as int == x
  {
    ((x + 0x8000_0000) % TWO_32 - 0x8000_0000) as int32
  }

  /** `(long) x` */
  function Wrap64(x: int): (r: int)
    ensures InLong(r)
    ensures InLong(x) ==> r == x
  {
    (x + 0x8000_0000_0000_0000) % 0x1_0000_0000_0000_0000 - 0x8000_0000_0000_0000
  }

  /** `(char) x`: the low 16 bits, read as an unsigned value. */
  function WrapChar(x: int): (r: int)
    ensures InChar(r)
    ensures InChar(x) ==> r == x
  {
    x % 0x1_0000
  }

  /** Adding a multiple of 2^32 does not change the 32-bit value. */
  lemma {:induction false} Wrap32Shift(x: int, k: int)
    ensures Wrap32(x + k * TWO_32) == Wrap32(x)
    decreases if k < 0 then -k else k
  {
    if k > 0 {
      Wrap32Shift(x, k - 1);
      assert x + k * TWO_32 == (x + (k - 1) * TWO_32) + TWO_32;
    } else if k < 0 {
      Wrap32Shift(x, k + 1);
      assert x + k * TWO_32 == (x + (k + 1) * TWO_32) - TWO_32;
    }
  }

  /** Adding a multiple of 2^8 does not change the 8-bit value. */
  lemma {:induction false} Wrap8Shift(x: int, k: int)
    ensures Wrap8(x + k * 0x100) == Wrap8(x)
    decreases if k < 0 then -k else k
  {
    if k > 0 {
      Wrap8Shift(x, k - 1);
      assert x + k * 0x100 == (x + (k - 1) * 0x100) + 0x100;
    } else if k < 0 {
      Wrap8Shift(x, k + 1);
      assert x + k * 0x100 == (x + (k + 1) * 0x100) - 0x100;
    }
  }

  /** Adding a multiple of 2^16 does not change the 16-bit value. */
  lemma {:induction false} Wrap16Shift(x: int, k: int)
    ensures Wrap16(x + k * 0x1_0000) == Wrap16(x)
    decreases if k < 0 then -k else k
  {
    if k > 0 {
      Wrap16Shift(x, k - 1);
      assert x + k * 0x1_0000 == (x + (k - 1) * 0x1_0000) + 0x1_0000;
    } else if k < 0 {
      Wrap16Shift(x, k + 1);
      assert x + k * 0x1_0000 == (x + (k + 1) * 0x1_0000) - 0x1_0000;
    }
  }

  /** A 32-bit value differs from the exact value by a multiple of 2^32. */
  lemma Wrap32Offset(x: int) returns (k: int)
    ensures x == Wrap32(x) as int + k * TWO_32
  {
    k := (x + 0x8000_0000) / TWO_32;
  }

  /** Reducing an intermediate result first does not change a later `31 * h + v`. */
  lemma Wrap32MulAdd(h: int, v: int)
    ensures Wrap32(31 * (Wrap32(h) as int) + v) == Wrap32(31 * h + v)
  {
    var w := Wrap32(h) as int;
    var k := Wrap32Offset(h);
    assert 31 * h + v == (31 * w + v) + (31 * k) * TWO_32;
    Wrap32Shift(31 * w + v, 31 * k);
  }
}
