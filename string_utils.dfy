/** `StringUtils`: splitting a string around the first or the last occurrence of a character. */
module StringUtils {

  /** `String.indexOf(char)`: the first index holding `c`, or -1. */
  function IndexOf(s: string, c: char): (r: int)
    ensures -1 <= r < |s|
    ensures r == -1 <==> c !in s
    ensures r != -1 ==> s[r] == c && c !in s[..r]
  {
    if |s| == 0 then -1
    else if s[0] == c then 0
    else
      var k := IndexOf(s[1..], c);
      assert s[1..][..if k == -1 then 0 else k] == s[1..if k == -1 then 1 else k + 1];
      if k == -1 then -1 else k + 1
  }

  /** `String.lastIndexOf(char)`: the last index holding `c`, or -1. */
  function LastIndexOf(s: string, c: char): (r: int)
    ensures -1 <= r < |s|
    ensures r == -1 <==> c !in s
    ensures r != -1 ==> s[r] == c && c !in s[r + 1..]
  {
    if |s| == 0 then -1
    else if s[|s| - 1] == c then |s| - 1
    else
      var k := LastIndexOf(s[..|s| - 1], c);
      assert k != -1 ==> s[k + 1..] == s[..|s| - 1][k + 1..] + [s[|s| - 1]];
      assert k == -1 ==> s == s[..|s| - 1] + [s[|s| - 1]];
      k
  }

  /** `splitLeft(value, c, def)`: the part before the first `c`, or `def` when `c` is absent. */
  function SplitLeftOr(value: string, c: char, def: string): (r: string)
    ensures c !in value ==> r == def
    ensures c in value ==> c !in r && |r| < |value| && value[|r|] == c && r == value[..|r|]
  {
    var index := IndexOf(value, c);
    if index == -1 then def else value[..index]
  }

  /** `splitRight(value, c, def)`: the part after the first `c`, or `def` when `c` is absent. */
  function SplitRightOr(value: string, c: char, def: string): (r: string)
    ensures c !in value ==> r == def
    ensures c in value ==> |r| < |value| && r == value[|value| - |r|..]
    ensures c in value ==> value[|value| - |r| - 1] == c && c !in value[..|value| - |r| - 1]
  {
    var index := IndexOf(value, c);
    if index == -1 then def else value[index + 1..]
  }

  /** `splitLastLeft(value, c, def)`: the part before the last `c`, or `def` when `c` is absent. */
  function SplitLastLeftOr(value: string, c: char, def: string): (r: string)
    ensures c !in value ==> r == def
    ensures c in value ==> |r| < |value| && value[|r|] == c && r == value[..|r|]
    ensures c in value ==> c !in value[|r| + 1..]
  {
    var index := LastIndexOf(value, c);
    if index == -1 then def else value[..index]
  }

  /** `splitLastRight(value, c, def)`: the part after the last `c`, or `def` when `c` is absent. */
  function SplitLastRightOr(value: string, c: char, def: string): (r: string)
    ensures c !in value ==> r == def
    ensures c in value ==> c !in r && |r| < |value| && r == value[|value| - |r|..]
    ensures c in value ==> value[|value| - |r| - 1] == c
  {
    var index := LastIndexOf(value, c);
    if index == -1 then def else value[index + 1..]
  }

  /** The two-argument overloads: the default is the value itself. */
  function SplitLeft(value: string, c: char): (r: string)
    ensures c !in r
    ensures c !in value <==> r == value
  {
    SplitLeftOr(value, c, value)
  }

  function SplitRight(value: string, c: char): (r: string)
    ensures c !in value ==> r == value
  {
    SplitRightOr(value, c, value)
  }

  function SplitLastLeft(value: string, c: char): (r: string)
    ensures c !in value ==> r == value
  {
    SplitLastLeftOr(value, c, value)
  }

  function SplitLastRight(value: string, c: char): (r: string)
    ensures c !in r
    ensures c !in value <==> r == value
  {
    SplitLastRightOr(value, c, value)
  }

  /** Around the first occurrence, the two halves and the separator rebuild the value. */
  lemma SplitFirstRoundTrip(value: string, c: char)
    requires c in value
    ensures SplitLeft(value, c) + [c] + SplitRight(value, c) == value
  {
    var i := IndexOf(value, c);
    assert value == value[..i] + [value[i]] + value[i + 1..];
  }

  /** Around the last occurrence, the two halves and the separator rebuild the value. */
  lemma SplitLastRoundTrip(value: string, c: char)
    requires c in value
    ensures SplitLastLeft(value, c) + [c] + SplitLastRight(value, c) == value
  {
    var i := LastIndexOf(value, c);
    assert value == value[..i] + [value[i]] + value[i + 1..];
  }

  /** The documented examples around the first occurrence. */
  lemma FirstExamples()
    ensures SplitLeft("hi.there.lol", '.') == "hi"
    ensures SplitRight("hi.there.lol", '.') == "there.lol"
  {
    var s := "hi.there.lol";
    assert s[2] == '.' && '.' !in s[..2];
    assert IndexOf(s, '.') == 2;
  }

  /** The documented examples around the last occurrence. */
  lemma LastExamples()
    ensures SplitLastLeft("hi.there.lol", '.') == "hi.there"
    ensures SplitLastRight("hi.there.lol", '.') == "lol"
  {
    var s := "hi.there.lol";
    assert s[8] == '.' && '.' !in s[9..];
    assert LastIndexOf(s, '.') == 8;
  }

  /** The documented examples with no occurrence: both halves are the whole value. */
  lemma AbsentExamples()
    ensures SplitLastLeft("hello lol", '.') == "hello lol"
    ensures SplitLastRight("hello lol", '.') == "hello lol"
  {
    assert '.' !in "hello lol";
  }
}
