/** `ClassInheritanceMap`: a class-keyed table whose lookups fall back along the superclass chain. */
module ClassInheritance {
  import opened Wrappers
  import opened JavaLang

  /** A non-null entry for `c`. */
  predicate HasEntry<T>(entries: map<ClassId, Option<T>>, c: ClassId) {
    c in entries && entries[c].Some?
  }

  /** The entry of the nearest class on `c`'s chain that has a non-null one. */
  function Nearest<T>(entries: map<ClassId, Option<T>>, t: ClassTree, c: ClassId): Option<T>
    decreases Rank(c)
  {
    if HasEntry(entries, c) then entries[c]
    else match SuperOf(t, c)
      case None => None
      case Some(s) => Nearest(entries, t, s)
  }

  class ClassInheritanceMap<T> {
    /** The backing map; `put(c, null)` stores a null entry, which lookups pass over. */
    var entries: map<ClassId, Option<T>>

    constructor()
      ensures entries == map[]
    {
      entries := map[];
    }

    /** `get(Class)`: walks from `c` up the superclass chain; a null class has no entry. */
    method Get(t: ClassTree, c: Option<ClassId>) returns (r: Option<T>)
      ensures c.None? ==> r.None?
      ensures c.Some? ==> r == Nearest(entries, t, c.value)
    {
      var cur := c;
      while cur.Some?
        invariant c.Some? ==> Nearest(entries, t, c.value) == (if cur.Some? then Nearest(entries, t, cur.value) else None)
        invariant c.None? ==> cur.None?
        decreases if cur.Some? then Rank(cur.value) + 1 else 0
      {
        var k := cur.value;
        if k in entries && entries[k].Some? {
          return entries[k];
        }
        cur := SuperOf(t, k);
      }
      return None;
    }

    /** `get(Object)`: null for a null instance, otherwise the lookup for its class. */
    method GetFor(t: ClassTree, v: Value) returns (r: Option<T>)
      ensures v == Null ==> r.None?
      ensures v != Null ==> r == Nearest(entries, t, ClassOf(v))
    {
      if v == Null {
        return None;
      }
      r := Get(t, Some(ClassOf(v)));
    }

    /** `put(clazz, value)`: sets or replaces the entry for exactly that class. */
    method Put(c: ClassId, value: Option<T>)
      modifies this
      ensures entries == old(entries)[c := value]
    {
      entries := entries[c := value];
    }

    /** `clear()`. */
    method Clear()
      modifies this
      ensures entries == map[]
      ensures Size() == 0
    {
      entries := map[];
    }

    /** `size()`: the number of classes with an entry, null entries included. */
    function Size(): nat
      reads this
    {
      |entries|
    }
  }

  /** The lookup is null exactly when no class on the chain has a non-null entry. */
  lemma {:induction false} NearestNoneIffNoEntry<T>(entries: map<ClassId, Option<T>>, t: ClassTree, c: ClassId)
    ensures Nearest(entries, t, c).None? <==> forall d :: d in Chain(t, c) ==> !HasEntry(entries, d)
    decreases Rank(c)
  {
    match SuperOf(t, c)
    case None =>
      assert Chain(t, c) == [c];
    case Some(s) =>
      assert Chain(t, c) == [c] + Chain(t, s);
      NearestNoneIffNoEntry(entries, t, s);
  }

  /**
   * The lookup finds the first class on the chain with a non-null entry, and is null exactly when
   * no class on the chain has one.
   */
  lemma {:induction false} NearestIsFirstOnChain<T>(entries: map<ClassId, Option<T>>, t: ClassTree, c: ClassId)
    ensures Nearest(entries, t, c).None? <==> forall i :: 0 <= i < |Chain(t, c)| ==> !HasEntry(entries, Chain(t, c)[i])
    ensures Nearest(entries, t, c).Some? ==>
      exists i :: 0 <= i < |Chain(t, c)| && HasEntry(entries, Chain(t, c)[i]) &&
        entries[Chain(t, c)[i]] == Nearest(entries, t, c) &&
        forall j :: 0 <= j < i ==> !HasEntry(entries, Chain(t, c)[j])
    decreases Rank(c)
  {
    NearestNoneIffNoEntry(entries, t, c);
    var ch := Chain(t, c);
    assert (forall d :: d in ch ==> !HasEntry(entries, d)) <==> forall i :: 0 <= i < |ch| ==> !HasEntry(entries, ch[i]);
    if HasEntry(entries, c) {
      assert ch[0] == c;
    } else if Nearest(entries, t, c).Some? {
      var s := SuperOf(t, c).value;
      NearestIsFirstOnChain(entries, t, s);
      assert ch == [c] + Chain(t, s);
      var i :| 0 <= i < |Chain(t, s)| && HasEntry(entries, Chain(t, s)[i]) &&
        entries[Chain(t, s)[i]] == Nearest(entries, t, s) &&
        forall j :: 0 <= j < i ==> !HasEntry(entries, Chain(t, s)[j]);
      assert ch[i + 1] == Chain(t, s)[i];
      forall j | 0 <= j < i + 1 ensures !HasEntry(entries, ch[j]) {
        if j > 0 { assert ch[j] == Chain(t, s)[j - 1]; }
      }
    }
  }

  /** The entry of the first class on the chain that has one is what the lookup returns. */
  lemma {:induction false} NearestIsFirstEntry<T>(entries: map<ClassId, Option<T>>, t: ClassTree, c: ClassId, i: nat)
    requires i < |Chain(t, c)| && HasEntry(entries, Chain(t, c)[i])
    requires forall j :: 0 <= j < i ==> !HasEntry(entries, Chain(t, c)[j])
    ensures Nearest(entries, t, c) == entries[Chain(t, c)[i]]
    decreases Rank(c)
  {
    if i > 0 {
      assert Chain(t, c)[0] == c;
      var s := SuperOf(t, c).value;
      assert Chain(t, c) == [c] + Chain(t, s);
      forall j | 0 <= j < i - 1 ensures !HasEntry(entries, Chain(t, s)[j]) {
        assert Chain(t, s)[j] == Chain(t, c)[j + 1];
      }
      NearestIsFirstEntry(entries, t, s, i - 1);
    }
  }

  /** A lookup after `put(c, v)` with non-null `v` finds `v` for `c` itself. */
  lemma GetAfterPut<T>(entries: map<ClassId, Option<T>>, t: ClassTree, c: ClassId, v: T)
    ensures Nearest(entries[c := Some(v)], t, c) == Some(v)
  {
  }

  /** `put(c, v)` changes no lookup for a class whose chain does not pass through `c`. */
  lemma {:induction false} PutElsewhere<T>(entries: map<ClassId, Option<T>>, t: ClassTree, c: ClassId, v: Option<T>, d: ClassId)
    requires !IsSubclassOf(t, d, c)
    ensures Nearest(entries[c := v], t, d) == Nearest(entries, t, d)
    decreases Rank(d)
  {
    match SuperOf(t, d)
    case None =>
    case Some(s) =>
      assert Chain(t, d) == [d] + Chain(t, s);
      PutElsewhere(entries, t, c, v, s);
  }

  /** `put(c, v)` with non-null `v` makes `v` the lookup for every subclass of `c` with no nearer entry. */
  lemma {:induction false} PutReachesSubclasses<T>(entries: map<ClassId, Option<T>>, t: ClassTree, c: ClassId, v: T, d: ClassId)
    requires IsSubclassOf(t, d, c)
    requires forall i :: 0 <= i < |Chain(t, d)| && Chain(t, d)[i] != c ==> !HasEntry(entries, Chain(t, d)[i])
    ensures Nearest(entries[c := Some(v)], t, d) == Some(v)
    decreases Rank(d)
  {
    if d != c {
      assert Chain(t, d)[0] == d;
      var s := SuperOf(t, d).value;
      assert Chain(t, d) == [d] + Chain(t, s);
      forall i | 0 <= i < |Chain(t, s)| && Chain(t, s)[i] != c ensures !HasEntry(entries, Chain(t, s)[i]) {
        assert Chain(t, s)[i] == Chain(t, d)[i + 1];
      }
      PutReachesSubclasses(entries, t, c, v, s);
    }
  }

  /** After `clear()` every lookup is null. */
  lemma {:induction false} ClearedFindsNothing<T>(empty: map<ClassId, Option<T>>, t: ClassTree, c: ClassId)
    requires empty == map[]
    ensures Nearest(empty, t, c).None?
    decreases Rank(c)
  {
    match SuperOf(t, c)
    case None =>
    case Some(s) => ClearedFindsNothing(empty, t, s);
  }

  /** Every class on `c`'s chain is `c` or ranks below it. */
  lemma {:induction false} ChainDescends(t: ClassTree, c: ClassId)
    ensures forall d :: d in Chain(t, c) ==> Rank(d) <= Rank(c)
    decreases Rank(c)
  {
    match SuperOf(t, c)
    case None =>
      assert Chain(t, c) == [c];
    case Some(s) =>
      ChainDescends(t, s);
      assert Chain(t, c) == [c] + Chain(t, s);
  }

  /** With a single entry, the lookup finds it exactly for the subclasses of its class. */
  lemma {:induction false} NearestOfOne<T>(t: ClassTree, a: ClassId, x: T, c: ClassId)
    ensures Nearest(map[a := Some(x)], t, c) == if IsSubclassOf(t, c, a) then Some(x) else None
    decreases Rank(c)
  {
    if c != a {
      match SuperOf(t, c)
      case None =>
        assert Chain(t, c) == [c];
      case Some(s) =>
        NearestOfOne(t, a, x, s);
        assert Chain(t, c) == [c] + Chain(t, s);
    }
  }

  /**
   * An entry for `a` overridden by one for `b` further down: the subclasses of `b` find `b`'s entry,
   * the other subclasses of `a` find `a`'s, and every other class finds nothing.
   */
  lemma {:induction false} NearestOfTwo<T>(t: ClassTree, a: ClassId, x: T, b: ClassId, y: T, c: ClassId)
    requires Rank(a) < Rank(b)
    ensures Nearest(map[a := Some(x), b := Some(y)], t, c) ==
      if IsSubclassOf(t, c, b) then Some(y) else if IsSubclassOf(t, c, a) then Some(x) else None
    decreases Rank(c)
  {
    if c == a {
      ChainDescends(t, a);
    } else if c != b {
      match SuperOf(t, c)
      case None =>
        assert Chain(t, c) == [c];
      case Some(s) =>
        NearestOfTwo(t, a, x, b, y, s);
        assert Chain(t, c) == [c] + Chain(t, s);
    }
  }
}
