/** `ListUtils`: searches, copies and a guarded insert over lists. Lists are read as their contents. */
module ListUtils {
  import opened Wrappers
  import opened JavaUtil

  /** `evaluate(list, predicate, complement, onComplementMatch)`. The overload taking an extra
   *  parameter is this one with the predicate `e => predicate(e, param)`. */
  method Evaluate<E>(list: seq<E>, p: E -> bool, complement: bool, onComplementMatch: bool) returns (r: bool)
    ensures (exists i :: 0 <= i < |list| && p(list[i]) == complement) ==> r == onComplementMatch
    ensures (forall i :: 0 <= i < |list| ==> p(list[i]) != complement) ==> r == !onComplementMatch
  {
    var i := 0;
    while i < |list|
      invariant 0 <= i <= |list|
      invariant forall j :: 0 <= j < i ==> p(list[j]) != complement
    {
      if p(list[i]) == complement {
        return onComplementMatch;
      }
      i := i + 1;
    }
    return !onComplementMatch;
  }

  /** The smallest index in `[start, end)` holding `item` (compared with `==`), or -1. */
  function IndexIn<E(==)>(list: seq<E>, item: E, start: int, end: int): (r: int)
    requires 0 <= start && end <= |list|
    ensures r == -1 || start <= r < end
    ensures r != -1 ==> list[r] == item && forall j :: start <= j < r ==> list[j] != item
    ensures r == -1 ==> forall j :: start <= j < end ==> list[j] != item
    decreases end - start
  {
    if start >= end then -1
    else if list[start] == item then start
    else IndexIn(list, item, start + 1, end)
  }

  /** `indexOfRef(list, item)`: the first index holding the same reference, or -1. */
  method IndexOfRef<E(==)>(list: seq<E>, item: E) returns (r: int)
    ensures r == IndexIn(list, item, 0, |list|)
  {
    var i := 0;
    while i < |list|
      invariant 0 <= i <= |list|
      invariant IndexIn(list, item, 0, |list|) == IndexIn(list, item, i, |list|)
    {
      if list[i] == item {
        return i;
      }
      i := i + 1;
    }
    return -1;
  }

  /**
   * What the ranged search does: it checks `i, i+1, ...` below `end` in turn; `list.get(i)` throws
   * when the cursor leaves the list before a match is found.
   */
  function RangeSearch<E(==)>(list: seq<E>, item: E, i: int, end: int): (r: Result<int, string>)
    ensures r.Ok? ==> r.value == -1 || (i <= r.value < end && 0 <= r.value < |list| && list[r.value] == item)
    decreases end - i
  {
    if i >= end then Ok(-1)
    else if i < 0 || i >= |list| then Err("IndexOutOfBoundsException")
    else if list[i] == item then Ok(i)
    else RangeSearch(list, item, i + 1, end)
  }

  /** The ranged `indexOfRef` and `indexOf` (the two have the same body). */
  method IndexOfRange<E(==)>(list: seq<E>, item: E, start: int, end: int) returns (r: Result<int, string>)
    ensures r == RangeSearch(list, item, start, end)
  {
    var i := start;
    while i < end
      invariant start <= i
      invariant RangeSearch(list, item, start, end) == RangeSearch(list, item, i, end)
      decreases end - i
    {
      if i < 0 || i >= |list| {
        return Err("IndexOutOfBoundsException");
      }
      if list[i] == item {
        return Ok(i);
      }
      i := i + 1;
    }
    return Ok(-1);
  }

  /** Within the list's bounds the ranged search never throws and finds the first match in the range. */
  lemma {:induction false} RangeSearchInBounds<E>(list: seq<E>, item: E, start: int, end: int)
    requires 0 <= start && end <= |list|
    ensures RangeSearch(list, item, start, end) == Ok(IndexIn(list, item, start, end))
    decreases end - start
  {
    if start < end && list[start] != item {
      RangeSearchInBounds(list, item, start + 1, end);
    }
  }

  /** A negative start in a non-empty range throws at once; a range past the end throws unless a match comes first. */
  lemma {:induction false} RangeSearchOutOfBounds<E>(list: seq<E>, item: E, start: int, end: int)
    requires start < end
    requires start < 0 || (end > |list| && forall j :: start <= j < |list| ==> list[j] != item)
    ensures RangeSearch(list, item, start, end).Err?
    decreases end - start
  {
    if 0 <= start < |list| {
      RangeSearchOutOfBounds(list, item, start + 1, end);
    }
  }

  /** `reversed(list)`: a new list with the items in reverse order. */
  method Reversed<T>(list: seq<T>) returns (r: seq<T>)
    ensures |r| == |list|
    ensures forall i :: 0 <= i < |list| ==> r[i] == list[|list| - 1 - i]
  {
    r := [];
    var i := |list| - 1;
    while i >= 0
      invariant -1 <= i < |list|
      invariant |r| == |list| - 1 - i
      invariant forall k :: 0 <= k < |r| ==> r[k] == list[|list| - 1 - k]
    {
      r := r + [list[i]];
      i := i - 1;
    }
  }

  /** `tryAdd(collection, value)`: adds only an absent value, and says whether it did. */
  method TryAdd<T(==)>(collection: ArrayList<T>, value: T) returns (added: bool)
    modifies collection
    ensures added <==> value !in old(collection.items)
    ensures added ==> collection.items == old(collection.items) + [value]
    ensures !added ==> collection.items == old(collection.items)
  {
    if collection.Contains(value) {
      return false;
    }
    added := collection.Add(value);
  }

  /** `toList(array)`: a new list with the array's items in order. */
  method ToList<E>(a: array<E>) returns (r: seq<E>)
    ensures r == a[..]
  {
    r := [];
    var i := 0;
    while i < a.Length
      invariant 0 <= i <= a.Length
      invariant r == a[..i]
    {
      r := r + [a[i]];
      i := i + 1;
    }
  }

  /** `singleElement(value)`: a new list holding just `value`. */
  function SingleElement<T>(value: T): (r: seq<T>)
    ensures |r| == 1 && r[0] == value
  {
    [value]
  }
}
