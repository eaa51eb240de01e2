/** String operations of QString that the browser service relies on, over `seq<char>`. */
module Text {

  /** `p` is a prefix of `s` (QString::startsWith). */
  predicate StartsWith(s: string, p: string) {
    |p| <= |s| && s[..|p|] == p
  }

  /** `x` is a suffix of `s` (QString::endsWith). */
  predicate EndsWith(s: string, x: string) {
    |x| <= |s| && s[|s| - |x|..] == x
  }

  /** `sub` occurs somewhere in `s` (QString::contains). */
  predicate Contains(s: string, sub: string)
    decreases |s|
  {
    StartsWith(s, sub) || (s != [] && Contains(s[1..], sub))
  }

  /** Number of occurrences of the character `c` (QString::count for a one-character needle). */
  function CountChar(s: string, c: char): nat {
    multiset(s)[c]
  }

  /** Index of the first `c` in `s`, or -1 (QString::indexOf). */
  function IndexOf(s: string, c: char): (r: int)
    ensures r < 0 <==> c !in s
    ensures r >= 0 ==> r < |s| && s[r] == c && c !in s[..r]
  {
    if s == [] then -1
    else if s[0] == c then 0
    else
      var k := IndexOf(s[1..], c);
      if k < 0 then -1
      else
        assert s[..k + 1] == [s[0]] + s[1..][..k];
        k + 1
  }

  /** Index of the last `c` in `s`, or -1 (QString::lastIndexOf). */
  function LastIndexOf(s: string, c: char): (r: int)
    ensures -1 <= r < |s|
    ensures r >= 0 ==> s[r] == c
    ensures forall j :: r < j < |s| ==> s[j] != c
  {
    if s == [] then -1
    else if s[|s| - 1] == c then |s| - 1
    else LastIndexOf(s[..|s| - 1], c)
  }

  /** The text after the last `.` of `s`, or all of `s` (QString::split('.').last()). */
  function LastLabel(s: string): (r: string)
    ensures '.' !in r
    ensures EndsWith(s, r)
    ensures r == s || s[|s| - |r| - 1] == '.'
  {
    s[LastIndexOf(s, '.') + 1..]
  }

  /** `s` with its last `n` characters removed (QString::chop). */
  function Chop(s: string, n: nat): (r: string)
    ensures n >= |s| ==> r == []
    ensures n < |s| ==> |r| == |s| - n && StartsWith(s, r)
  {
    if n >= |s| then [] else s[..|s| - n]
  }

  /** `s` with every occurrence of `pat` removed, scanning left to right (QString::remove). */
  function RemoveAll(s: string, pat: string): string
    requires pat != []
    decreases |s|
  {
    if s == [] then []
    else if StartsWith(s, pat) then RemoveAll(s[|pat|..], pat)
    else [s[0]] + RemoveAll(s[1..], pat)
  }

  /** Removing a pattern that does not occur leaves the string as it is. */
  lemma {:induction false} RemoveAllAbsent(s: string, pat: string)
    requires pat != [] && !Contains(s, pat)
    ensures RemoveAll(s, pat) == s
    decreases |s|
  {
    if s != [] {
      RemoveAllAbsent(s[1..], pat);
      assert s == [s[0]] + s[1..];
    }
  }

  /** A string equal to both a suffix and an extension of another is that string. */
  lemma EndsWithAntisymmetric(a: string, b: string)
    requires EndsWith(a, b) && EndsWith(b, a)
    ensures a == b
  {
  }

  /** A suffix of a string occurs in it. */
  lemma {:induction false} EndsWithContains(s: string, x: string)
    requires EndsWith(s, x)
    ensures Contains(s, x)
    decreases |s|
  {
    if |x| == |s| {
      assert s[..|x|] == x;
    } else {
      assert s[1..][|s[1..]| - |x|..] == s[|s| - |x|..];
      EndsWithContains(s[1..], x);
    }
  }

  /** Splitting a string at a position splits its character counts. */
  lemma CountSplit(s: string, k: nat, c: char)
    requires k <= |s|
    ensures CountChar(s, c) == CountChar(s[..k], c) + CountChar(s[k..], c)
  {
    assert s == s[..k] + s[k..];
  }
}
