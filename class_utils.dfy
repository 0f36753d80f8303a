/** `ClassUtils`: primitive/wrapper conversion of classes and of values. */
module ClassUtils {
  import opened JavaInts
  import opened JavaLang
  import opened Wrappers

  /** `box(clazz)`: the wrapper of a primitive type; any other class is returned as it is. */
  function Box(c: ClassId): (r: ClassId)
    ensures IsPrimitive(c) ==> r == c + (BYTE_BOX - BYTE) && IsWrapper(r)
    ensures !IsPrimitive(c) ==> r == c
  {
    if IsPrimitive(c) then c + (BYTE_BOX - BYTE) else c
  }

  /** `unbox(clazz)`: the primitive type of a wrapper; any other class is returned as it is. */
  function Unbox(c: ClassId): (r: ClassId)
    ensures IsWrapper(c) ==> r == c - (BYTE_BOX - BYTE) && IsPrimitive(r)
    ensures !IsWrapper(c) ==> r == c
  {
    if IsWrapper(c) then c - (BYTE_BOX - BYTE) else c
  }

  /** `box` and `unbox` are inverse on the nine primitive/wrapper pairs. */
  lemma BoxUnboxInverse(c: ClassId)
    ensures IsPrimitive(c) ==> Unbox(Box(c)) == c
    ensures IsWrapper(c) ==> Box(Unbox(c)) == c
    ensures !IsPrimitive(Box(c))
  {
  }

  /** The zero-value table as the static initialiser fills it: keyed by the primitive types. */
  function ZeroValues(): (m: map<ClassId, Value>)
    ensures forall c :: c in m <==> IsPrimitive(c)
  {
    map[BYTE := IntV(Byte, 0), SHORT := IntV(Short, 0), INT := IntV(Int, 0), LONG := IntV(Long, 0),
        FLOAT := FloatV(Float, Finite(0.0)), DOUBLE := FloatV(Double, Finite(0.0)), BOOLEAN := BoolV(false),
        CHAR := CharV(0), VOID := Null]
  }

  /** `getDefaultValue(clazz)`: looks the boxed class up in the zero-value table. */
  function GetDefaultValue(c: ClassId): Value {
    var key := Box(c);
    if key in ZeroValues() then ZeroValues()[key] else Null
  }

  /** The table is keyed by primitive types but queried with a boxed one, so every class gets null. */
  lemma DefaultValueIsAlwaysNull(c: ClassId)
    ensures GetDefaultValue(c) == Null
  {
    BoxUnboxInverse(c);
  }

  /** What `convertPrimitiveTo` produces. */
  datatype Conversion =
    | Converted(value: Value)
      /** `clazz.cast(value)` on a primitive class throws `ClassCastException`. */
    | CastFails
      /** A conversion that needs floating-point rounding, which this model does not compute. */
    | NotModelled

  /** Rounding toward zero. */
  function Trunc(r: real): int {
    if r >= 0.0 then r.Floor else -((-r).Floor)
  }

  function Clamp(x: int, lo: int, hi: int): int
    requires lo <= hi
  {
    if x < lo then lo else if x > hi then hi else x
  }

  /** Java's narrowing of a floating-point number to `int` or `long`: NaN is 0, the rest saturates. */
  function FloatToIntegral(f: FloatVal, lo: int, hi: int): (r: int)
    requires lo <= 0 <= hi
    ensures lo <= r <= hi
  {
    match f
    case NaN => 0
    case PosInf => hi
    case NegInf => lo
    case Finite(x) => Clamp(Trunc(x), lo, hi)
  }

  predicate IsNumber(v: Value) { v.IntV? || v.FloatV? }

  /** `Number.intValue()`. */
  function IntValue(v: Value): (r: int)
    requires IsNumber(v)
    ensures InInt(r)
  {
    if v.IntV? then Wrap32(v.n) as int else FloatToIntegral(v.f, -0x8000_0000, 0x7FFF_FFFF)
  }

  /** `Number.longValue()`. */
  function LongValue(v: Value): (r: int)
    requires IsNumber(v)
    ensures InLong(r)
  {
    if v.IntV? then Wrap64(v.n) else FloatToIntegral(v.f, -0x8000_0000_0000_0000, 0x7FFF_FFFF_FFFF_FFFF)
  }

  /** `Number.byteValue()` and `Number.shortValue()`: the low bits of the `int` value. */
  function ByteValue(v: Value): int requires IsNumber(v) { Wrap8(IntValue(v)) }
  function ShortValue(v: Value): int requires IsNumber(v) { Wrap16(IntValue(v)) }

  /** `Number.doubleValue()` where it is exact: integers up to 2^53, every float widened. */
  function DoubleValue(v: Value): Option<FloatVal>
    requires IsNumber(v)
  {
    if v.FloatV? then Some(v.f)
    else if -0x20_0000_0000_0000 <= v.n <= 0x20_0000_0000_0000 then Some(Finite(v.n as real))
    else None
  }

  /** `Number.floatValue()` where it is exact: integers up to 2^24, floats, and non-finite doubles. */
  function FloatValue(v: Value): Option<FloatVal>
    requires IsNumber(v)
  {
    if v.FloatV? then (if v.fkind == Float || !v.f.Finite? then Some(v.f) else None)
    else if -0x100_0000 <= v.n <= 0x100_0000 then Some(Finite(v.n as real))
    else None
  }

  function FromOption(kind: FloatKind, o: Option<FloatVal>): Conversion {
    if o.Some? then Converted(FloatV(kind, o.value)) else NotModelled
  }

  /**
   * `convertPrimitiveTo(value, target)`. A number goes through `byteValue()` ... `doubleValue()`;
   * a boolean becomes 1 or 0; anything else is cast to the primitive class, which always throws.
   */
  function ConvertPrimitiveTo(v: Value, target: ClassId): (r: Conversion)
    requires WellFormed(v)
    ensures v == Null ==> r == Converted(Null)
    ensures v != Null && !IsPrimitive(Unbox(target)) ==> r == Converted(v)
    ensures r.Converted? ==> WellFormed(r.value)
  {
    if v == Null then Converted(Null)
    else if !IsPrimitive(Unbox(target)) then Converted(v)
    else if IsNumber(v) then
      if target == BYTE then Converted(IntV(Byte, ByteValue(v)))
      else if target == SHORT then Converted(IntV(Short, ShortValue(v)))
      else if target == INT then Converted(IntV(Int, IntValue(v)))
      else if target == LONG then Converted(IntV(Long, LongValue(v)))
      else if target == FLOAT then FromOption(Float, FloatValue(v))
      else if target == DOUBLE then FromOption(Double, DoubleValue(v))
      else if target == BOOLEAN then Converted(BoolV(IntValue(v) != 0))
      else if target == CHAR then Converted(CharV(WrapChar(IntValue(v))))
      else Converted(v)
    else if v.BoolV? then
      var bit := if v.b then 1 else 0;
      if target == BYTE then Converted(IntV(Byte, bit))
      else if target == SHORT then Converted(IntV(Short, bit))
      else if target == INT then Converted(IntV(Int, bit))
      else if target == LONG then Converted(IntV(Long, bit))
      else if target == FLOAT then Converted(FloatV(Float, Finite(bit as real)))
      else if target == DOUBLE then Converted(FloatV(Double, Finite(bit as real)))
      else if target == BOOLEAN then Converted(v)
      else if target == CHAR then Converted(CharV(bit))
      else CastFails
    else CastFails
  }

  predicate IsIntegral(c: ClassId) { c == BYTE || c == SHORT || c == INT || c == LONG }

  function KindOf(c: ClassId): IntKind
    requires IsIntegral(c)
  {
    if c == BYTE then Byte else if c == SHORT then Short else if c == INT then Int else Long
  }

  /** Java's narrowing of an integer to the width of an integral primitive. */
  function Narrow(c: ClassId, n: int): int
    requires IsIntegral(c)
  {
    if c == BYTE then Wrap8(n) else if c == SHORT then Wrap16(n) else if c == INT then Wrap32(n) as int else Wrap64(n)
  }

  /** A boolean becomes 1 or 0 for an integral target, and stays as it is for a boolean target. */
  lemma BooleanSource(t: ClassId, b: bool)
    ensures IsIntegral(t) ==> ConvertPrimitiveTo(BoolV(b), t) == Converted(IntV(KindOf(t), if b then 1 else 0))
    ensures ConvertPrimitiveTo(BoolV(b), BOOLEAN) == Converted(BoolV(b))
  {
  }

  /** Narrowing to the low 8 or 16 bits does not depend on an intermediate narrowing to 32 bits. */
  lemma LowBitsThroughInt(n: int)
    ensures Wrap8(Wrap32(n) as int) == Wrap8(n)
    ensures Wrap16(Wrap32(n) as int) == Wrap16(n)
  {
    var k := Wrap32Offset(n);
    var w := Wrap32(n) as int;
    assert w == n + (-k * 0x100_0000) * 0x100;
    Wrap8Shift(n, -k * 0x100_0000);
    assert w == n + (-k * 0x1_0000) * 0x1_0000;
    Wrap16Shift(n, -k * 0x1_0000);
  }

  /** A boxed integer is narrowed for an integral target and compared with zero for a boolean one. */
  lemma NumberSource(t: ClassId, k: IntKind, n: int)
    requires WellFormed(IntV(k, n))
    ensures IsIntegral(t) ==> ConvertPrimitiveTo(IntV(k, n), t) == Converted(IntV(KindOf(t), Narrow(t, n)))
    ensures ConvertPrimitiveTo(IntV(k, n), BOOLEAN) == Converted(BoolV(Wrap32(n) != 0))
  {
    LowBitsThroughInt(n);
    var v := IntV(k, n);
    if t == BYTE {
      assert ConvertPrimitiveTo(v, t) == Converted(IntV(Byte, ByteValue(v)));
    } else if t == SHORT {
      assert ConvertPrimitiveTo(v, t) == Converted(IntV(Short, ShortValue(v)));
    }
  }

  /** Any other value (a character, a string, the unset marker) cannot be cast to a primitive class. */
  lemma OtherSourceFails(t: ClassId, v: Value)
    requires WellFormed(v) && IsPrimitive(Unbox(t))
    requires v != Null && !IsNumber(v) && !v.BoolV?
    ensures ConvertPrimitiveTo(v, t) == CastFails
  {
  }

  /** In particular a `Character` is rejected even for the `char` target. */
  lemma CharacterToCharFails(c: int)
    requires InChar(c)
    ensures ConvertPrimitiveTo(CharV(c), CHAR) == CastFails
  {
  }

  /**
   * For every primitive target but `void`, a successful conversion of a non-null value yields an
   * instance of the target's wrapper class, so a property of that wrapper type accepts it.
   */
  lemma ConversionFitsTarget(tree: ClassTree, v: Value, t: ClassId)
    requires WellFormed(v) && v != Null && IsPrimitive(t) && t != VOID
    requires ConvertPrimitiveTo(v, t).Converted?
    ensures IsInstance(tree, Box(t), ConvertPrimitiveTo(v, t).value)
  {
    var w := ConvertPrimitiveTo(v, t).value;
    assert ClassOf(w) == Box(t);
    assert Chain(tree, ClassOf(w))[0] == Box(t);
  }

  /** Converting an already converted value to the same target again changes nothing, except for `char`. */
  lemma ConversionIdempotent(v: Value, t: ClassId)
    requires WellFormed(v) && t != CHAR
    requires ConvertPrimitiveTo(v, t).Converted?
    ensures ConvertPrimitiveTo(ConvertPrimitiveTo(v, t).value, t) == ConvertPrimitiveTo(v, t)
  {
    var w := ConvertPrimitiveTo(v, t).value;
    if w.IntV? && IsPrimitive(Unbox(t)) && IsIntegral(t) {
      LowBitsThroughInt(w.n);
    }
  }
}
