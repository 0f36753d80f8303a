/** The part of `java.util.ArrayList` the model relies on: append, membership, remove-first-equal. */
module JavaUtil {

  class ArrayList<T(==)> {
    var items: seq<T>

    constructor()
      ensures items == []
    {
      items := [];
    }

    function Size(): nat
      reads this
    {
      |items|
    }

    predicate Contains(x: T)
      reads this
    {
      x in items
    }

    /** `add(x)`: appends and reports a change. */
    method Add(x: T) returns (changed: bool)
      modifies this
      ensures items == old(items) + [x]
      ensures changed
    {
      items := items + [x];
      changed := true;
    }

    /** `remove(Object)`: deletes the first equal item and reports whether there was one. */
    method Remove(x: T) returns (removed: bool)
      modifies this
      ensures removed <==> x in old(items)
      ensures removed ==> items == WithoutFirst(old(items), x)
      ensures !removed ==> items == old(items)
    {
      removed := x in items;
      if removed {
        items := WithoutFirst(items, x);
      }
    }
  }

  /** `s` with its first occurrence of `x` deleted. */
  function WithoutFirst<T(==)>(s: seq<T>, x: T): (r: seq<T>)
    ensures x in s ==> |r| == |s| - 1 && multiset(r) == multiset(s) - multiset{x}
    ensures x !in s ==> r == s
  {
    if |s| == 0 then s
    else
      assert s == [s[0]] + s[1..];
      if s[0] == x then s[1..] else [s[0]] + WithoutFirst(s[1..], x)
  }
}
