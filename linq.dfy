/**
 * `Linq<E>`: a fluent wrapper around an `ArrayList` that filters and trims its own list in place,
 * and answers folds, joins and equality over it.
 */
module Linq {
  import opened Wrappers
  import opened JavaInts

  /* ---------------------------------------------------------------------------------------------
   * Specification functions
   * ------------------------------------------------------------------------------------------- */

  /** The items whose predicate result equals `complement`, in their original order. */
  function Kept<E>(s: seq<E>, p: E -> bool, complement: bool): seq<E>
  {
    if |s| == 0 then []
    else Kept(s[..|s| - 1], p, complement) + (if p(s[|s| - 1]) == complement then [s[|s| - 1]] else [])
  }

  /** The index of the first item satisfying `p`, or -1. */
  function FirstMatch<E>(s: seq<E>, p: E -> bool): (r: int)
    ensures -1 <= r < |s|
    ensures r == -1 <==> forall i :: 0 <= i < |s| ==> !p(s[i])
    ensures r != -1 ==> p(s[r]) && forall i :: 0 <= i < r ==> !p(s[i])
  {
    if |s| == 0 then -1
    else if p(s[0]) then 0
    else
      var k := FirstMatch(s[1..], p);
      if k == -1 then -1 else k + 1
  }

  /** The index of the last item satisfying `p`, or -1. */
  function LastMatch<E>(s: seq<E>, p: E -> bool): (r: int)
    ensures -1 <= r < |s|
    ensures r == -1 <==> forall i :: 0 <= i < |s| ==> !p(s[i])
    ensures r != -1 ==> p(s[r]) && forall i :: r < i < |s| ==> !p(s[i])
  {
    if |s| == 0 then -1
    else if p(s[|s| - 1]) then |s| - 1
    else LastMatch(s[..|s| - 1], p)
  }

  /** `s` without the item at index `k`; unchanged for `k == -1`. */
  function RemoveAt<E>(s: seq<E>, k: int): seq<E>
    requires -1 <= k < |s|
  {
    if k == -1 then s else s[..k] + s[k + 1..]
  }

  /** The left fold `aggregate` computes: `f(s[n-1], ... f(s[0], acc))`. */
  function FoldLeft<E, T>(s: seq<E>, acc: T, f: (E, T) -> T): T
  {
    if |s| == 0 then acc else f(s[|s| - 1], FoldLeft(s[..|s| - 1], acc, f))
  }

  /** The left fold `reduce` computes: `f(... f(s[0], s[1]) ..., s[n-1])`. */
  function Reduction<E>(s: seq<E>, f: (E, E) -> E): E
    requires |s| > 0
  {
    if |s| == 1 then s[0] else f(Reduction(s[..|s| - 1], f), s[|s| - 1])
  }

  /** The accumulation of `getHashCode(op)`: `op` applied left to right, starting from 0. */
  function HashFold<E>(s: seq<E>, op: (E, int32) -> int32): int32
  {
    if |s| == 0 then 0 else op(s[|s| - 1], HashFold(s[..|s| - 1], op))
  }

  /** `IntAggregateOperator.hash()`: `31 * h + Objects.hashCode(o)` in Java `int` arithmetic. */
  function StandardHash<E>(hashCode: E -> int32): (E, int32) -> int32
  {
    (o: E, h: int32) => Wrap32(31 * (h as int) + (hashCode(o) as int))
  }

  /** The polynomial `sum hashCode(s[i]) * 31^(n-1-i)` over unbounded integers. */
  function Polynomial<E>(s: seq<E>, hashCode: E -> int32): int
  {
    if |s| == 0 then 0 else 31 * Polynomial(s[..|s| - 1], hashCode) + hashCode(s[|s| - 1]) as int
  }

  /** Mapped items each followed by the delimiter: what the join loop has appended so far. */
  function Terminated<E>(s: seq<E>, mapper: E -> string, delimiter: string): string
  {
    if |s| == 0 then "" else Terminated(s[..|s| - 1], mapper, delimiter) + mapper(s[|s| - 1]) + delimiter
  }

  /** The mapped items separated by the delimiter. */
  function Join<E>(s: seq<E>, mapper: E -> string, delimiter: string): string
    requires |s| > 0
  {
    if |s| == 1 then mapper(s[0]) else Join(s[..|s| - 1], mapper, delimiter) + delimiter + mapper(s[|s| - 1])
  }

  /** `toString(delimiter, mapper, emptyValue)`; a null delimiter means ", ". */
  function JoinedString<E>(s: seq<E>, delimiter: Option<string>, mapper: E -> string, emptyValue: string): string
  {
    if |s| == 0 then emptyValue else Join(s, mapper, GetOr(delimiter, ", "))
  }

  /** `toAdvancedString(delimiter, finalDelimiter, emptyValue, mapper)`. */
  function AdvancedString<E>(s: seq<E>, delimiter: Option<string>, finalDelimiter: string, emptyValue: string,
                             mapper: E -> string): string
  {
    if |s| == 0 then emptyValue
    else if |s| == 1 then mapper(s[0])
    else Join(s[..|s| - 1], mapper, GetOr(delimiter, ", ")) + finalDelimiter + mapper(s[|s| - 1])
  }

  /** One step of the compaction loop of `filter`: the item at `i` is copied to the cursor when it is kept. */
  lemma CompactStep<E>(items: seq<E>, original: seq<E>, p: E -> bool, complement: bool, cursor: nat, i: nat)
    requires cursor <= i < |items| == |original|
    requires items[..cursor] == Kept(original[..i], p, complement)
    requires items[i..] == original[i..]
    ensures var next := if p(items[i]) == complement then items[cursor := items[i]] else items;
            var c := if p(items[i]) == complement then cursor + 1 else cursor;
            |next| == |items| && next[..c] == Kept(original[..i + 1], p, complement) && next[i + 1..] == original[i + 1..]
  {
    assert items[i] == items[i..][0] == original[i..][0] == original[i];
    assert original[..i + 1][..i] == original[..i];
    assert items[i + 1..] == items[i..][1..] == original[i..][1..] == original[i + 1..];
    if p(items[i]) == complement {
      var next := items[cursor := items[i]];
      assert next[..cursor + 1] == items[..cursor] + [items[i]];
      assert next[i + 1..] == items[i + 1..];
    }
  }

  /* ---------------------------------------------------------------------------------------------
   * The list wrapper
   * ------------------------------------------------------------------------------------------- */

  class Linq<E> {
    /** The wrapped `ArrayList`. */
    var items: seq<E>

    constructor(items: seq<E>)
      ensures this.items == items
    {
      this.items := items;
    }

    /**
     * `filter(predicate, complement)`: compacts the kept items to the front with a write cursor,
     * then removes the tail from the end.
     */
    method Filter(p: E -> bool, complement: bool)
      modifies this
      ensures items == Kept(old(items), p, complement)
    {
      ghost var original := items;
      var size := |items|;
      var i := 0;
      var cursor := 0;
      while i < size
        invariant 0 <= cursor <= i <= size == |items|
        invariant items[..cursor] == Kept(original[..i], p, complement)
        invariant items[i..] == original[i..]
      {
        var value := items[i];
        CompactStep(items, original, p, complement, cursor, i);
        i := i + 1;
        if p(value) == complement {
          items := items[cursor := value];
          cursor := cursor + 1;
        }
      }
      assert original[..size] == original;
      if i != cursor {
        var k := size - 1;
        while k >= cursor
          invariant cursor - 1 <= k < size
          invariant |items| == k + 1
          invariant items[..cursor] == Kept(original, p, complement)
        {
          items := items[..k];
          k := k - 1;
        }
      }
    }

    /** `where(predicate)`: keeps the items the predicate accepts. */
    method Where(p: E -> bool)
      modifies this
      ensures items == Kept(old(items), p, true)
    {
      Filter(p, true);
    }

    /** `removeIf(predicate)`: removes the items the predicate accepts. */
    method RemoveIf(p: E -> bool)
      modifies this
      ensures items == Kept(old(items), p, false)
    {
      Filter(p, false);
    }

    /** `take(count)`: keeps at most the first `count` items; a negative count throws. */
    method Take(count: int) returns (r: Result<(), string>)
      modifies this
      ensures count < 0 <==> r.Err?
      ensures 0 < count < |old(items)| ==> items == old(items)[..count]
      ensures !(0 < count < |old(items)|) ==> items == old(items)
    {
      r := Ok(());
      if count > 0 {
        var size := |items|;
        if count < size {
          items := items[..count];
        }
      } else if count != 0 {
        r := Err("Cannot take a negative number");
      }
    }

    /** `skip(count)`: drops the first `count` items. */
    method Skip(count: int)
      modifies this
      ensures count >= |old(items)| ==> items == []
      ensures 0 < count < |old(items)| ==> items == old(items)[count..]
      ensures count <= 0 ==> items == old(items)
    {
      if count >= |items| {
        items := [];
      } else if count > 0 {
        items := items[count..];
      }
    }

    /** `skipWhile(predicate)`: drops the items before the first one the predicate rejects. */
    method SkipWhile(p: E -> bool)
      modifies this
      ensures items == SkippedWhile(old(items), p)
    {
      var size := |items|;
      var i := 0;
      while i < size
        invariant 0 <= i <= size == |items|
        invariant items == old(items)
        invariant forall j :: 0 <= j < i ==> p(items[j])
      {
        if !p(items[i]) {
          FirstMatchIs(items, NotOf(p), i);
          items := items[i..];
          return;
        }
        i := i + 1;
      }
      FirstMatchIs(items, NotOf(p), -1);
    }

    /** `removeFirst(predicate)`: deletes the first matching item, if any. */
    method RemoveFirst(p: E -> bool)
      modifies this
      ensures items == RemoveAt(old(items), FirstMatch(old(items), p))
    {
      var size := |items|;
      var i := 0;
      while i < size
        invariant 0 <= i <= size == |items|
        invariant items == old(items)
        invariant forall j :: 0 <= j < i ==> !p(items[j])
      {
        if p(items[i]) {
          FirstMatchIs(items, p, i);
          items := items[..i] + items[i + 1..];
          return;
        }
        i := i + 1;
      }
      FirstMatchIs(items, p, -1);
    }

    /** `removeLast(predicate)`: scans the whole list, then deletes the last matching item, if any. */
    method RemoveLast(p: E -> bool)
      modifies this
      ensures items == RemoveAt(old(items), LastMatch(old(items), p))
    {
      var lastPass := -1;
      var size := |items|;
      var i := 0;
      while i < size
        invariant 0 <= i <= size == |items|
        invariant items == old(items)
        invariant lastPass == LastMatch(items[..i], p)
      {
        assert items[..i + 1][..i] == items[..i];
        if p(items[i]) {
          lastPass := i;
        }
        i := i + 1;
      }
      assert items[..size] == items;
      if lastPass != -1 {
        items := items[..lastPass] + items[lastPass + 1..];
      }
    }

    /** `aggregate(source, aggregator)`. */
    method Aggregate<T>(source: T, f: (E, T) -> T) returns (r: T)
      ensures r == FoldLeft(items, source, f)
    {
      r := source;
      var i := 0;
      while i < |items|
        invariant 0 <= i <= |items|
        invariant r == FoldLeft(items[..i], source, f)
      {
        assert items[..i + 1][..i] == items[..i];
        r := f(items[i], r);
        i := i + 1;
      }
      assert items[..i] == items;
    }

    /** `getHashCode(op)`: `hash := op(item, hash)` over the items, starting from 0. */
    method GetHashCodeWith(op: (E, int32) -> int32) returns (hash: int32)
      ensures hash == HashFold(items, op)
    {
      hash := 0;
      var i := 0;
      while i < |items|
        invariant 0 <= i <= |items|
        invariant hash == HashFold(items[..i], op)
      {
        assert items[..i + 1][..i] == items[..i];
        hash := op(items[i], hash);
        i := i + 1;
      }
      assert items[..i] == items;
    }

    /** `getHashCode()`: the `String.hashCode`-style polynomial hash, reduced to 32 bits. */
    method GetHashCode(hashCode: E -> int32) returns (hash: int32)
      ensures hash == Wrap32(Polynomial(items, hashCode))
    {
      hash := GetHashCodeWith(StandardHash(hashCode));
      HashIsPolynomial(items, hashCode);
    }

    /** `toString(delimiter, mapper, emptyValue)`. */
    method ToString(delimiter: Option<string>, mapper: E -> string, emptyValue: string) returns (r: string)
      ensures r == JoinedString(items, delimiter, mapper, emptyValue)
    {
      if |items| == 0 {
        return emptyValue;
      }
      var delim := if delimiter.None? then ", " else delimiter.value;
      var size := |items|;
      var sb := "";
      var i := 0;
      while i < size - 1
        invariant 0 <= i <= size - 1
        invariant sb == Terminated(items[..i], mapper, delim)
      {
        assert items[..i + 1][..i] == items[..i];
        sb := sb + mapper(items[i]) + delim;
        i := i + 1;
      }
      r := sb + mapper(items[size - 1]);
      JoinIsTerminatedPlusLast(items, mapper, delim);
    }

    /** `toAdvancedString(delimiter, finalDelimiter, emptyValue, mapper)`. */
    method ToAdvancedString(delimiter: Option<string>, finalDelimiter: string, emptyValue: string,
                            mapper: E -> string) returns (r: string)
      ensures r == AdvancedString(items, delimiter, finalDelimiter, emptyValue, mapper)
    {
      var size := |items|;
      if size == 0 {
        return emptyValue;
      } else if size == 1 {
        return mapper(items[0]);
      }
      var delim := if delimiter.None? then ", " else delimiter.value;
      var sb := "";
      var i := 0;
      while i < size - 2
        invariant 0 <= i <= size - 2
        invariant sb == Terminated(items[..i], mapper, delim)
      {
        assert items[..i + 1][..i] == items[..i];
        sb := sb + mapper(items[i]) + delim;
        i := i + 1;
      }
      sb := sb + mapper(items[size - 2]) + finalDelimiter;
      r := sb + mapper(items[size - 1]);
      JoinIsTerminatedPlusLast(items[..size - 1], mapper, delim);
      assert items[..size - 1][..size - 2] == items[..size - 2];
    }
  }

  /** `equals(Linq)`: the same size and `Objects.equals` item by item. */
  method Equals<E(==)>(l: Linq<E>, other: Linq<E>) returns (r: bool)
    ensures r <==> l.items == other.items
  {
    if |l.items| != |other.items| {
      return false;
    }
    var i := 0;
    while i < |l.items|
      invariant 0 <= i <= |l.items|
      invariant l.items[..i] == other.items[..i]
    {
      if l.items[i] != other.items[i] {
        assert l.items[i] != other.items[i];
        return false;
      }
      assert l.items[..i + 1] == l.items[..i] + [l.items[i]];
      assert other.items[..i + 1] == other.items[..i] + [other.items[i]];
      i := i + 1;
    }
    assert l.items == l.items[..i] && other.items == other.items[..i];
    r := true;
  }

  /** `reduce(function)`: empty for an empty linq, otherwise the left fold from the first item,
   *  wrapped with `Optional.ofNullable`. Java items are nullable, hence `Option<T>` items. */
  method Reduce<T>(l: Linq<Option<T>>, f: (Option<T>, Option<T>) -> Option<T>) returns (r: Option<T>)
    ensures |l.items| == 0 ==> r == None
    ensures |l.items| > 0 ==> r == Reduction(l.items, f)
  {
    if |l.items| == 0 {
      return None;
    }
    var value := l.items[0];
    var i := 1;
    while i < |l.items|
      invariant 1 <= i <= |l.items|
      invariant value == Reduction(l.items[..i], f)
    {
      assert l.items[..i + 1][..i] == l.items[..i];
      value := f(value, l.items[i]);
      i := i + 1;
    }
    assert l.items[..i] == l.items;
    r := value;
  }

  /** `removeNull()`: the same compaction as `filter`, writing only once a null has been seen. */
  method RemoveNull<T>(l: Linq<Option<T>>)
    modifies l
    ensures l.items == Kept(old(l.items), IsNonNull, true)
  {
    ghost var original := l.items;
    var size := |l.items|;
    var i := 0;
    var cursor := 0;
    while i < size
      invariant 0 <= cursor <= i <= size == |l.items|
      invariant l.items[..cursor] == Kept(original[..i], IsNonNull, true)
      invariant l.items[i..] == original[i..]
    {
      var value := l.items[i];
      CompactStep(l.items, original, IsNonNull, true, cursor, i);
      assert l.items[i := value] == l.items;
      if value.Some? {
        if cursor != i {
          l.items := l.items[cursor := value];
        }
        cursor := cursor + 1;
      }
      i := i + 1;
    }
    assert original[..size] == original;
    if i != cursor {
      var k := size - 1;
      while k >= cursor
        invariant cursor - 1 <= k < size
        invariant |l.items| == k + 1
        invariant l.items[..cursor] == Kept(original, IsNonNull, true)
      {
        l.items := l.items[..k];
        k := k - 1;
      }
    }
  }

  predicate IsNonNull<T>(x: Option<T>) { x.Some? }

  function NotOf<E>(p: E -> bool): E -> bool { x => !p(x) }

  /** What `skipWhile` leaves: the suffix from the first rejected item, or everything if none is. */
  function SkippedWhile<E>(s: seq<E>, p: E -> bool): seq<E>
  {
    var k := FirstMatch(s, NotOf(p));
    if k == -1 then s else s[k..]
  }

  /* ---------------------------------------------------------------------------------------------
   * Lemmas
   * ------------------------------------------------------------------------------------------- */

  lemma FirstMatchIs<E>(s: seq<E>, p: E -> bool, k: int)
    requires -1 <= k < |s|
    requires k == -1 ==> forall i :: 0 <= i < |s| ==> !p(s[i])
    requires k != -1 ==> p(s[k]) && forall i :: 0 <= i < k ==> !p(s[i])
    ensures FirstMatch(s, p) == k
  {
  }

  /** Filtering distributes over concatenation, so kept items stay in their original order. */
  lemma {:induction false} KeptAppend<E>(a: seq<E>, b: seq<E>, p: E -> bool, c: bool)
    ensures Kept(a + b, p, c) == Kept(a, p, c) + Kept(b, p, c)
    decreases |b|
  {
    if |b| == 0 {
      assert a + b == a;
    } else {
      var b' := b[..|b| - 1];
      assert (a + b)[..|a + b| - 1] == a + b';
      KeptAppend(a, b', p, c);
    }
  }

  /** An item survives the filter iff it was there and its predicate result equals the complement. */
  lemma {:induction false} KeptMembers<E>(s: seq<E>, p: E -> bool, c: bool, x: E)
    ensures x in Kept(s, p, c) <==> x in s && p(x) == c
  {
    if |s| > 0 {
      var s' := s[..|s| - 1];
      KeptMembers(s', p, c, x);
      assert s == s' + [s[|s| - 1]];
    }
  }

  /** `where` and `removeIf` with the same predicate split the list between them. */
  lemma {:induction false} WhereRemoveIfPartition<E>(s: seq<E>, p: E -> bool)
    ensures multiset(Kept(s, p, true)) + multiset(Kept(s, p, false)) == multiset(s)
  {
    if |s| > 0 {
      var s' := s[..|s| - 1];
      WhereRemoveIfPartition(s', p);
      assert s == s' + [s[|s| - 1]];
    }
  }

  /** `removeNull` removes exactly the nulls. */
  lemma RemoveNullRemovesExactlyNulls<T>(s: seq<Option<T>>)
    ensures None !in Kept(s, IsNonNull, true)
    ensures forall x :: x in s && x.Some? ==> x in Kept(s, IsNonNull, true)
    ensures |Kept(s, IsNonNull, true)| == |s| - multiset(s)[None]
  {
    KeptMembers(s, IsNonNull, true, None);
    forall x | x in s && x.Some? {
      KeptMembers(s, IsNonNull, true, x);
    }
    WhereRemoveIfPartition(s, IsNonNull);
    NonNullComplement(s);
  }

  lemma {:induction false} NonNullComplement<T>(s: seq<Option<T>>)
    ensures |Kept(s, IsNonNull, false)| == multiset(s)[None]
  {
    if |s| > 0 {
      var s' := s[..|s| - 1];
      NonNullComplement(s');
      assert s == s' + [s[|s| - 1]];
    }
  }

  /** `skipWhile` leaves the list unchanged when every item matches. */
  lemma SkipWhileAllMatch<E>(s: seq<E>, p: E -> bool)
    requires forall i :: 0 <= i < |s| ==> p(s[i])
    ensures SkippedWhile(s, p) == s
  {
    assert forall i :: 0 <= i < |s| ==> !NotOf(p)(s[i]);
  }

  /** Otherwise it drops exactly the matching prefix: the result starts with a rejected item. */
  lemma SkipWhileDropsMatchingPrefix<E>(s: seq<E>, p: E -> bool)
    requires exists i :: 0 <= i < |s| && !p(s[i])
    ensures var r := SkippedWhile(s, p);
      |r| > 0 && !p(r[0]) && s == s[..|s| - |r|] + r && forall i :: 0 <= i < |s| - |r| ==> p(s[i])
  {
    var i :| 0 <= i < |s| && !p(s[i]);
    assert NotOf(p)(s[i]);
  }

  /** Removing the item at `k` leaves one item fewer, and putting it back at `k` restores the sequence. */
  lemma RemoveAtSplit<E>(s: seq<E>, k: int)
    requires 0 <= k < |s|
    ensures |RemoveAt(s, k)| == |s| - 1 && s == RemoveAt(s, k)[..k] + [s[k]] + RemoveAt(s, k)[k..]
  {
    var r := RemoveAt(s, k);
    assert r == s[..k] + s[k + 1..];
    assert r[..k] == s[..k];
    assert r[k..] == s[k + 1..];
    assert s == s[..k] + [s[k]] + s[k + 1..];
  }

  /** `removeFirst`/`removeLast` delete exactly one item when something matches. */
  lemma RemoveMatchDeletesOne<E>(s: seq<E>, p: E -> bool)
    requires exists i :: 0 <= i < |s| && p(s[i])
    ensures var k := FirstMatch(s, p);
              k >= 0 && |RemoveAt(s, k)| == |s| - 1 && s == RemoveAt(s, k)[..k] + [s[k]] + RemoveAt(s, k)[k..]
    ensures var k := LastMatch(s, p);
              k >= 0 && |RemoveAt(s, k)| == |s| - 1 && s == RemoveAt(s, k)[..k] + [s[k]] + RemoveAt(s, k)[k..]
  {
    var k := FirstMatch(s, p);
    var m := LastMatch(s, p);
    assert k != -1 && m != -1;
    RemoveAtSplit(s, k);
    RemoveAtSplit(s, m);
  }

  /** The hash fold is the polynomial hash reduced to 32 bits. */
  lemma {:induction false} HashIsPolynomial<E>(s: seq<E>, hashCode: E -> int32)
    ensures HashFold(s, StandardHash(hashCode)) == Wrap32(Polynomial(s, hashCode))
  {
    if |s| > 0 {
      var s' := s[..|s| - 1];
      HashIsPolynomial(s', hashCode);
      Wrap32MulAdd(Polynomial(s', hashCode), hashCode(s[|s| - 1]) as int);
    }
  }

  /** The join loop's output, finished with the last mapped item, is the delimiter join. */
  lemma {:induction false} JoinIsTerminatedPlusLast<E>(s: seq<E>, mapper: E -> string, delimiter: string)
    requires |s| > 0
    ensures Terminated(s[..|s| - 1], mapper, delimiter) + mapper(s[|s| - 1]) == Join(s, mapper, delimiter)
  {
    if |s| > 1 {
      var s' := s[..|s| - 1];
      JoinIsTerminatedPlusLast(s', mapper, delimiter);
      assert s'[..|s'| - 1] == s[..|s| - 2];
      assert s[..|s| - 1][..|s| - 2] == s[..|s| - 2];
    }
  }

  /** With the final delimiter equal to the ordinary one, the two joins agree. */
  lemma {:induction false} AdvancedWithSameDelimiterIsToString<E>(s: seq<E>, delimiter: Option<string>,
                                                                 emptyValue: string, mapper: E -> string)
    ensures AdvancedString(s, delimiter, GetOr(delimiter, ", "), emptyValue, mapper)
         == JoinedString(s, delimiter, mapper, emptyValue)
  {
    if |s| >= 2 {
      assert s[..|s| - 1] == s[..|s| - 1];
    }
  }

  /** The documented example: `["hello", "there", "lol"]` joined with ", " and " & ". */
  lemma AdvancedStringExample()
    ensures AdvancedString(["hello", "there", "lol"], Some(", "), " & ", "", (x: string) => x)
         == "hello, there & lol"
  {
    var s := ["hello", "there", "lol"];
    assert s[..2] == ["hello", "there"];
    assert ["hello", "there"][..1] == ["hello"];
  }
}
