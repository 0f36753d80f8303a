/**
 * The slice of the Java runtime the framework relies on: classes with their superclass chains,
 * `Class.isInstance`, and the values a property can hold (null, boxed primitives, objects).
 */
module JavaLang {
  import opened Wrappers
  import opened JavaInts
  import opened JavaUtil

  /** Classes are identified by number. The first twenty are the built-in ones the framework names. */
  type ClassId = nat

  const OBJECT: ClassId := 0
  const NUMBER: ClassId := 1
  // The nine primitive types (`Byte.TYPE` ... `Void.TYPE`).
  const BYTE: ClassId := 2
  const SHORT: ClassId := 3
  const INT: ClassId := 4
  const LONG: ClassId := 5
  const FLOAT: ClassId := 6
  const DOUBLE: ClassId := 7
  const BOOLEAN: ClassId := 8
  const CHAR: ClassId := 9
  const VOID: ClassId := 10
  // Their wrapper classes (`Byte.class` ... `Void.class`), in the same order.
  const BYTE_BOX: ClassId := 11
  const SHORT_BOX: ClassId := 12
  const INT_BOX: ClassId := 13
  const LONG_BOX: ClassId := 14
  const FLOAT_BOX: ClassId := 15
  const DOUBLE_BOX: ClassId := 16
  const BOOLEAN_BOX: ClassId := 17
  const CHAR_BOX: ClassId := 18
  const VOID_BOX: ClassId := 19
  /** `java.util.Collection`, an interface, modelled as the superclass of `ArrayList`. */
  const COLLECTION: ClassId := 20
  const ARRAY_LIST: ClassId := 21
  /** Every id from here on is a class of the program itself (or of its libraries). */
  const FIRST_USER: ClassId := 22

  predicate IsPrimitive(c: ClassId) { BYTE <= c <= VOID }
  predicate IsWrapper(c: ClassId) { BYTE_BOX <= c <= VOID_BOX }

  /**
   * The superclass table of the program's classes: each one extends `Object` or a class with a
   * smaller id. Interfaces a class implements are folded into this chain.
   */
  type ClassTree = m: map<ClassId, ClassId> | forall c :: c in m ==> c >= FIRST_USER && (m[c] == OBJECT || FIRST_USER <= m[c] < c)
    witness map[]

  /** `Class.getSuperclass()`; a program class missing from the table extends `Object`. */
  function SuperOf(t: ClassTree, c: ClassId): (r: Option<ClassId>)
    ensures r.Some? ==> Rank(r.value) < Rank(c)
    ensures r.None? <==> c == OBJECT || IsPrimitive(c)
  {
    if c >= FIRST_USER then Some(if c in t then t[c] else OBJECT)
    else if BYTE_BOX <= c <= DOUBLE_BOX then Some(NUMBER)
    else if IsWrapper(c) || c == NUMBER || c == COLLECTION then Some(OBJECT)
    else if c == ARRAY_LIST then Some(COLLECTION)
    else None
  }

  /** The height of a class above `Object`'s level, for termination of chain walks. */
  function Rank(c: ClassId): nat {
    if c >= FIRST_USER then c else if IsWrapper(c) || c == ARRAY_LIST then 2 else if c == NUMBER || c == COLLECTION then 1 else 0
  }

  /** The class followed by its superclasses, ending at `Object` (or at the primitive itself). */
  function Chain(t: ClassTree, c: ClassId): (r: seq<ClassId>)
    ensures |r| > 0 && r[0] == c
    ensures r[|r| - 1] == OBJECT || IsPrimitive(r[|r| - 1])
    decreases Rank(c)
  {
    match SuperOf(t, c)
    case None => [c]
    case Some(s) => [c] + Chain(t, s)
  }

  /** `d.isAssignableFrom(c)`: `d` is `c` or one of its superclasses. */
  predicate IsSubclassOf(t: ClassTree, c: ClassId, d: ClassId) {
    d in Chain(t, c)
  }

  /** Every class other than a primitive type is a subclass of `Object`. */
  lemma {:induction false} EverythingIsAnObject(t: ClassTree, c: ClassId)
    requires !IsPrimitive(c)
    ensures IsSubclassOf(t, c, OBJECT)
    decreases Rank(c)
  {
    match SuperOf(t, c)
    case None =>
    case Some(s) => EverythingIsAnObject(t, s);
  }

  /** Subclassing is transitive. */
  lemma {:induction false} SubclassTransitive(t: ClassTree, a: ClassId, b: ClassId, c: ClassId)
    requires IsSubclassOf(t, a, b) && IsSubclassOf(t, b, c)
    ensures IsSubclassOf(t, a, c)
    decreases Rank(a)
  {
    if a != b {
      SubclassTransitive(t, SuperOf(t, a).value, b, c);
    }
  }

  datatype IntKind = Byte | Short | Int | Long
  datatype FloatKind = Float | Double
  /** A floating-point number: finite values are held exactly, rounding is not modelled. */
  datatype FloatVal = Finite(r: real) | NaN | PosInf | NegInf

  /** A Java reference as a property sees it. */
  datatype Value =
    | Null
      /** `DependencyProperty.UNSET_VALUE`, a bare `Object` used as a marker. */
    | Unset
    | BoolV(b: bool)
      /** A boxed `Byte`, `Short`, `Integer` or `Long`. */
    | IntV(kind: IntKind, n: int)
    | CharV(code: int)
      /** A boxed `Float` or `Double`. */
    | FloatV(fkind: FloatKind, f: FloatVal)
      /** Any other object (a string, an enum constant, a `Thickness`), by class and identity. */
    | Obj(cls: ClassId, id: nat)
      /** A raw `ArrayList` of values. */
    | ListRef(list: ArrayList<Value>)
      /** An object of the model itself (an element), by reference. */
    | Ref(obj: object, cls: ClassId)

  /** The values that can exist: boxed numbers within their width, objects of non-built-in classes. */
  predicate WellFormed(v: Value) {
    match v
    case IntV(k, n) =>
      (match k
       case Byte => InByte(n)
       case Short => InShort(n)
       case Int => InInt(n)
       case Long => InLong(n))
    case CharV(c) => InChar(c)
    case Obj(c, _) => c == OBJECT || c >= FIRST_USER
    case Ref(_, c) => c == OBJECT || c >= FIRST_USER
    case _ => true
  }

  /** `value.getClass()` of a non-null value. */
  function ClassOf(v: Value): (r: ClassId)
    requires v != Null
    ensures !IsPrimitive(r)
  {
    match v
    case Unset => OBJECT
    case BoolV(_) => BOOLEAN_BOX
    case IntV(k, _) =>
      (match k
       case Byte => BYTE_BOX
       case Short => SHORT_BOX
       case Int => INT_BOX
       case Long => LONG_BOX)
    case CharV(_) => CHAR_BOX
    case ListRef(_) => ARRAY_LIST
    case FloatV(k, _) => if k == Float then FLOAT_BOX else DOUBLE_BOX
    case Obj(c, _) => if IsPrimitive(c) then OBJECT else c
    case Ref(_, c) => if IsPrimitive(c) then OBJECT else c
  }

  /** `c.isInstance(v)`: false for null, otherwise whether `v`'s class is `c` or below it. */
  predicate IsInstance(t: ClassTree, c: ClassId, v: Value) {
    v != Null && IsSubclassOf(t, ClassOf(v), c)
  }

  /** No value is an instance of a primitive type. */
  lemma NoInstanceOfPrimitive(t: ClassTree, c: ClassId, v: Value)
    requires IsPrimitive(c)
    ensures !IsInstance(t, c, v)
  {
    if v != Null {
      PrimitiveNotInChain(t, ClassOf(v), c);
    }
  }

  lemma {:induction false} PrimitiveNotInChain(t: ClassTree, a: ClassId, c: ClassId)
    requires IsPrimitive(c) && !IsPrimitive(a)
    ensures c !in Chain(t, a)
    decreases Rank(a)
  {
    match SuperOf(t, a)
    case None =>
    case Some(s) => PrimitiveNotInChain(t, s, c);
  }

  /** `value instanceof Number` holds exactly for boxed integers and floats. */
  lemma IsNumberExactly(t: ClassTree, v: Value)
    requires WellFormed(v)
    ensures IsInstance(t, NUMBER, v) <==> v.IntV? || v.FloatV?
  {
    if v != Null && !v.IntV? && !v.FloatV? {
      NumberNotAbove(t, ClassOf(v));
    }
  }

  lemma {:induction false} NumberNotAbove(t: ClassTree, a: ClassId)
    requires a == OBJECT || a >= FIRST_USER || a == BOOLEAN_BOX || a == CHAR_BOX || a == ARRAY_LIST || a == COLLECTION
    ensures NUMBER !in Chain(t, a)
    decreases Rank(a)
  {
    match SuperOf(t, a)
    case None =>
    case Some(s) => NumberNotAbove(t, s);
  }
}
