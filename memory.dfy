/** `Memory`: copying between primitive arrays and arrays of their boxed wrappers, and list-to-array. */
module Memory {
  import opened Wrappers

  /** The boxed copy of a sequence. */
  function Boxed<T>(s: seq<T>): (r: seq<Option<T>>)
    ensures |r| == |s| && forall i :: 0 <= i < |s| ==> r[i] == Some(s[i])
  {
    if |s| == 0 then [] else Boxed(s[..|s| - 1]) + [Some(s[|s| - 1])]
  }

  predicate NoNull<T>(s: seq<Option<T>>) {
    forall i :: 0 <= i < |s| ==> s[i].Some?
  }

  /** The unboxed copy of a sequence without nulls. */
  function Unboxed<T>(s: seq<Option<T>>): (r: seq<T>)
    requires NoNull(s)
    ensures |r| == |s| && forall i :: 0 <= i < |s| ==> Some(r[i]) == s[i]
  {
    if |s| == 0 then [] else Unboxed(s[..|s| - 1]) + [s[|s| - 1].value]
  }

  /** The eight `wrap` overloads: a new wrapper array holding the same items in order. */
  method Wrap<T>(a: array<T>) returns (r: array<Option<T>>)
    ensures fresh(r)
    ensures r[..] == Boxed(a[..])
  {
    r := new Option<T>[a.Length](_ => None);
    var i := 0;
    while i < a.Length
      invariant 0 <= i <= a.Length
      invariant forall k :: 0 <= k < i ==> r[k] == Some(a[k])
      modifies r
    {
      r[i] := Some(a[i]);
      i := i + 1;
    }
  }

  /**
   * The eight `unwrap` overloads: a new primitive array holding the same items in order.
   * Unboxing a null item throws `NullPointerException`.
   */
  method Unwrap<T(0)>(a: array<Option<T>>) returns (r: Result<array<T>, string>)
    ensures r.Err? <==> !NoNull(a[..])
    ensures r.Ok? ==> fresh(r.value) && r.value[..] == Unboxed(a[..])
  {
    var arr := new T[a.Length];
    var i := 0;
    while i < a.Length
      invariant 0 <= i <= a.Length
      invariant forall k :: 0 <= k < i ==> a[k].Some? && Some(arr[k]) == a[k]
      modifies arr
    {
      if a[i].None? {
        return Err("NullPointerException");
      }
      arr[i] := a[i].value;
      i := i + 1;
    }
    return Ok(arr);
  }

  /** `toArray(list, clazz)`: a new array of the list's size holding its items in order. */
  method ToArray<T(0)>(list: seq<T>) returns (r: array<T>)
    ensures fresh(r)
    ensures r[..] == list
  {
    r := new T[|list|];
    var i := 0;
    while i < |list|
      invariant 0 <= i <= |list|
      invariant r[..i] == list[..i]
      modifies r
    {
      r[i] := list[i];
      i := i + 1;
    }
  }

  /** Unboxing undoes boxing. */
  lemma {:induction false} UnboxedBoxed<T>(s: seq<T>)
    ensures NoNull(Boxed(s)) && Unboxed(Boxed(s)) == s
  {
    if |s| > 0 {
      UnboxedBoxed(s[..|s| - 1]);
    }
  }

  /** Boxing undoes unboxing. */
  lemma BoxedUnboxed<T>(s: seq<Option<T>>)
    requires NoNull(s)
    ensures Boxed(Unboxed(s)) == s
  {
  }
}
