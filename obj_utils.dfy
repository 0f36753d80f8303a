/**
 * `ObjUtils`: null-safe equality tests against one or several targets, with `Object.equals`
 * or with a caller-supplied equality tester.
 *
 * A Java reference is an `Option<T>` (`None` is null). `Object.equals` on a non-null source is
 * modelled as `==` on `T`, so `source.equals(null)` is false; `==` on references is also `==`,
 * which for class types is identity.
 */
module ObjUtils {
  import opened Wrappers

  /** `requireOr`: the value when it is non-null, otherwise whatever the supplier returns. */
  function RequireOr<T>(value: Option<T>, supplier: () -> Option<T>): (r: Option<T>)
    ensures value.Some? ==> r == value
    ensures value.None? ==> r == supplier()
  {
    if value.Some? then value else supplier()
  }

  /** `Object.equals` of a non-null source against a nullable target. */
  predicate SourceEquals<T(==)>(source: T, target: Option<T>) {
    target == Some(source)
  }

  /** `equals(source, a)`, which is `Objects.equals`. */
  function Equals1<T(==)>(source: Option<T>, a: Option<T>): (r: bool)
    ensures r <==> source == a
  {
    source == a || (source.Some? && SourceEquals(source.value, a))
  }

  /** `equals(source, a, b)`. */
  function Equals2<T(==)>(source: Option<T>, a: Option<T>, b: Option<T>): (r: bool)
    ensures r <==> source == a || source == b
  {
    if source.None? then a.None? || b.None?
    else SourceEquals(source.value, a) || SourceEquals(source.value, b)
  }

  /** `equals(source, a, b, c)`. */
  function Equals3<T(==)>(source: Option<T>, a: Option<T>, b: Option<T>, c: Option<T>): (r: bool)
    ensures r <==> source in [a, b, c]
  {
    if source.None? then a.None? || b.None? || c.None?
    else SourceEquals(source.value, a) || SourceEquals(source.value, b) || SourceEquals(source.value, c)
  }

  /** `equals(source, a, b, c, d)`. */
  function Equals4<T(==)>(source: Option<T>, a: Option<T>, b: Option<T>, c: Option<T>, d: Option<T>): (r: bool)
    ensures r <==> source in [a, b, c, d]
  {
    if source.None? then a.None? || b.None? || c.None? || d.None?
    else (SourceEquals(source.value, a) || SourceEquals(source.value, b) || SourceEquals(source.value, c) ||
          SourceEquals(source.value, d))
  }

  /** The first loop of the varargs overloads: is some target null? */
  function HasNull<T>(targets: seq<Option<T>>): (r: bool)
    ensures r <==> exists i :: 0 <= i < |targets| && targets[i].None?
  {
    if |targets| == 0 then false
    else targets[0].None? || HasNull(targets[1..])
  }

  /** The second loop of the `Object` varargs overload: does the source equal some target? */
  function HasEqual<T(==)>(source: T, targets: seq<Option<T>>): (r: bool)
    ensures r <==> Some(source) in targets
  {
    if |targets| == 0 then false
    else SourceEquals(source, targets[0]) || HasEqual(source, targets[1..])
  }

  /** `equals(source, targets...)` as written: every path returns true, including the fall-through. */
  function EqualsVarargsAsWritten<T(==)>(source: Option<T>, targets: seq<Option<T>>): (r: bool)
    ensures r
  {
    if source.None? then (if HasNull(targets) then true else true)
    else (if HasEqual(source.value, targets) then true else true)
  }

  /** The overload as evidently intended (the fall-through returns false, like the tester overload). */
  function EqualsVarargs<T(==)>(source: Option<T>, targets: seq<Option<T>>): (r: bool)
    ensures r <==> source in targets
  {
    if source.None? then HasNull(targets) else HasEqual(source.value, targets)
  }

  /** The as-written overload claims a match where there is none. */
  lemma EqualsVarargsAsWrittenMatchesNothing()
    ensures EqualsVarargsAsWritten(Some(1), [Some(2), None])
    ensures !EqualsVarargs(Some(1), [Some(2), None])
  {
    assert Some(1) != Some(2);
  }

  /** The fixed-arity overloads agree with the corrected varargs overload. */
  lemma FixedArityAgreesWithVarargs<T>(s: Option<T>, a: Option<T>, b: Option<T>, c: Option<T>, d: Option<T>)
    ensures Equals1(s, a) == EqualsVarargs(s, [a])
    ensures Equals2(s, a, b) == EqualsVarargs(s, [a, b])
    ensures Equals3(s, a, b, c) == EqualsVarargs(s, [a, b, c])
    ensures Equals4(s, a, b, c, d) == EqualsVarargs(s, [a, b, c, d])
  {
  }

  /** `test(tester, source, target)`: false for a null target, without calling the tester. */
  function Test<T>(tester: (T, T) -> bool, source: T, target: Option<T>): (r: bool)
    ensures target.None? ==> !r
    ensures target.Some? ==> (r <==> tester(source, target.value))
  {
    target.Some? && tester(source, target.value)
  }

  /** `equals(tester, source, a)`: the same reference, or a non-null source the tester accepts. */
  function EqualsWith1<T(==)>(tester: (T, T) -> bool, source: Option<T>, a: Option<T>): (r: bool)
    ensures r <==> source == a || (source.Some? && a.Some? && tester(source.value, a.value))
  {
    source == a || (source.Some? && Test(tester, source.value, a))
  }

  /** `equals(tester, source, a, b)`. */
  function EqualsWith2<T>(tester: (T, T) -> bool, source: Option<T>, a: Option<T>, b: Option<T>): (r: bool)
  {
    if source.None? then a.None? || b.None?
    else Test(tester, source.value, a) || Test(tester, source.value, b)
  }

  /** `equals(tester, source, a, b, c)`. */
  function EqualsWith3<T>(tester: (T, T) -> bool, source: Option<T>, a: Option<T>, b: Option<T>, c: Option<T>): (r: bool)
  {
    if source.None? then a.None? || b.None? || c.None?
    else Test(tester, source.value, a) || Test(tester, source.value, b) || Test(tester, source.value, c)
  }

  /** `equals(tester, source, a, b, c, d)`. */
  function EqualsWith4<T>(tester: (T, T) -> bool, source: Option<T>, a: Option<T>, b: Option<T>, c: Option<T>,
                          d: Option<T>): (r: bool)
  {
    if source.None? then a.None? || b.None? || c.None? || d.None?
    else (Test(tester, source.value, a) || Test(tester, source.value, b) || Test(tester, source.value, c) ||
          Test(tester, source.value, d))
  }

  /** The second loop of the tester varargs overload: does the tester accept some target? */
  function SomeAccepted<T>(tester: (T, T) -> bool, source: T, targets: seq<Option<T>>): (r: bool)
    ensures r <==> exists i :: 0 <= i < |targets| && Test(tester, source, targets[i])
  {
    if |targets| == 0 then false
    else Test(tester, source, targets[0]) || SomeAccepted(tester, source, targets[1..])
  }

  /** `equals(tester, source, targets...)`: false when no target matches. */
  function EqualsWithVarargs<T>(tester: (T, T) -> bool, source: Option<T>, targets: seq<Option<T>>): (r: bool)
    ensures source.None? ==> (r <==> exists i :: 0 <= i < |targets| && targets[i].None?)
    ensures source.Some? ==>
      (r <==> exists i :: 0 <= i < |targets| && targets[i].Some? && tester(source.value, targets[i].value))
  {
    if source.None? then HasNull(targets) else SomeAccepted(tester, source.value, targets)
  }

  /** The two- to four-target tester overloads agree with the varargs overload. */
  lemma TesterFixedArityAgreesWithVarargs<T>(t: (T, T) -> bool, s: Option<T>, a: Option<T>, b: Option<T>,
                                             c: Option<T>, d: Option<T>)
    ensures EqualsWith2(t, s, a, b) == EqualsWithVarargs(t, s, [a, b])
    ensures EqualsWith3(t, s, a, b, c) == EqualsWithVarargs(t, s, [a, b, c])
    ensures EqualsWith4(t, s, a, b, c, d) == EqualsWithVarargs(t, s, [a, b, c, d])
  {
    assert [a, b][0] == a && [a, b][1] == b;
    assert [a, b, c][0] == a && [a, b, c][1] == b && [a, b, c][2] == c;
    assert [a, b, c, d][0] == a && [a, b, c, d][1] == b && [a, b, c, d][2] == c && [a, b, c, d][3] == d;
  }

  /**
   * The one-target tester overload first compares references, so it departs from the others only
   * when the tester rejects a non-null source compared with itself.
   */
  lemma OneTargetTesterAgreesWhenReflexive<T>(t: (T, T) -> bool, s: Option<T>, a: Option<T>)
    requires s.Some? ==> t(s.value, s.value)
    ensures EqualsWith1(t, s, a) == EqualsWithVarargs(t, s, [a])
  {
    assert [a][0] == a;
  }

  /** The first loop of `equalsAll`: is every target null? */
  function AllNull<T>(targets: seq<Option<T>>): (r: bool)
    ensures r <==> forall i :: 0 <= i < |targets| ==> targets[i].None?
  {
    if |targets| == 0 then true
    else targets[0].None? && AllNull(targets[1..])
  }

  /** The second loop of `equalsAll`: does the tester accept every target? */
  function AllAccepted<T>(tester: (T, T) -> bool, source: T, targets: seq<Option<T>>): (r: bool)
    ensures r <==> forall i :: 0 <= i < |targets| ==> Test(tester, source, targets[i])
  {
    if |targets| == 0 then true
    else Test(tester, source, targets[0]) && AllAccepted(tester, source, targets[1..])
  }

  /** `equalsAll(tester, source, targets...)`: every target matches; vacuously true without targets. */
  function EqualsAll<T>(tester: (T, T) -> bool, source: Option<T>, targets: seq<Option<T>>): (r: bool)
    ensures |targets| == 0 ==> r
    ensures source.None? ==> (r <==> forall i :: 0 <= i < |targets| ==> targets[i].None?)
    ensures source.Some? ==>
      (r <==> forall i :: 0 <= i < |targets| ==> targets[i].Some? && tester(source.value, targets[i].value))
  {
    if source.None? then AllNull(targets) else AllAccepted(tester, source.value, targets)
  }
}
