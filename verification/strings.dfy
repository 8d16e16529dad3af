/** The few `str` operations of Python that the modelled code uses, on
    `seq<char>`: `find`, `rindex` (as `RFind`), `split` (with and without a
    limit), `rsplit` with one split, `in` and `strip`. `startswith` is
    Dafny's prefix test `<=`. `Join` is here only to state the round trips
    of the splits, and `Count` to state what `getFormByName` accepts. */
module Strings {

  /** `s.find(c)`: index of the first `c` in `s`, or -1. */
  function Find(s: string, c: char): (i: int)
    ensures -1 <= i < |s|
    ensures i == -1 <==> c !in s
    ensures i >= 0 ==> s[i] == c && c !in s[..i]
  {
    if s == [] then -1
    else if s[0] == c then 0
    else
      var j := Find(s[1..], c);
      if j == -1 then -1
      else
        assert s[..j + 1] == [s[0]] + s[1..][..j];
        j + 1
  }

  /** `s.rfind(c)`: index of the last `c` in `s`, or -1 (`rindex` raises
      instead of returning -1). */
  function RFind(s: string, c: char): (i: int)
    ensures -1 <= i < |s|
    ensures i == -1 <==> c !in s
    ensures i >= 0 ==> s[i] == c && c !in s[i + 1..]
  {
    if s == [] then -1
    else if s[|s| - 1] == c then |s| - 1
    else
      var j := RFind(s[..|s| - 1], c);
      assert s == s[..|s| - 1] + [s[|s| - 1]];
      j
  }

  /** Number of occurrences of `c` in `s`. */
  function Count(s: string, c: char): nat
  {
    if s == [] then 0
    else (if s[0] == c then 1 else 0) + Count(s[1..], c)
  }

  lemma {:induction false} CountAbsent(s: string, c: char)
    requires c !in s
    ensures Count(s, c) == 0
  {
    if s != [] {
      CountAbsent(s[1..], c);
    }
  }

  lemma {:induction false} CountAppend(a: string, b: string, c: char)
    ensures Count(a + b, c) == Count(a, c) + Count(b, c)
  {
    if a == [] {
      assert a + b == b;
    } else {
      assert (a + b)[1..] == a[1..] + b;
      CountAppend(a[1..], b, c);
    }
  }

  /** `s.split(c)`: the pieces of `s` between occurrences of `c`. Never
      empty: the empty string splits into one empty piece. */
  function Split(s: string, c: char): (parts: seq<string>)
    ensures |parts| >= 1
    ensures forall i :: 0 <= i < |parts| ==> c !in parts[i]
    decreases |s|
  {
    var i := Find(s, c);
    if i == -1 then [s] else [s[..i]] + Split(s[i + 1..], c)
  }

  /** Splitting after a first piece free of `c` yields that piece, then the
      pieces of the rest. */
  lemma SplitAfterFree(p: string, c: char, t: string)
    requires c !in p
    ensures Split(p + [c] + t, c) == [p] + Split(t, c)
  {
    var s := p + [c] + t;
    FindAfterFree(p, t, c);
    assert s[..|p|] == p && s[|p| + 1..] == t;
  }

  /** A string free of `c` splits into itself alone. */
  lemma SplitFree(s: string, c: char)
    requires c !in s
    ensures Split(s, c) == [s]
  {
  }

  /** `c.join(parts)`. */
  function Join(parts: seq<string>, c: char): string
  {
    if parts == [] then ""
    else if |parts| == 1 then parts[0]
    else parts[0] + [c] + Join(parts[1..], c)
  }

  /** Joining a piece in front of further pieces puts a separator between. */
  lemma JoinCons(first: string, rest: seq<string>, c: char)
    requires rest != []
    ensures Join([first] + rest, c) == first + [c] + Join(rest, c)
  {
    assert ([first] + rest)[1..] == rest;
  }

  /** Splitting and joining again gives back the string. */
  lemma {:induction false} JoinSplit(s: string, c: char)
    ensures Join(Split(s, c), c) == s
    decreases |s|
  {
    var i := Find(s, c);
    if i != -1 {
      var rest := Split(s[i + 1..], c);
      JoinSplit(s[i + 1..], c);
      assert Split(s, c) == [s[..i]] + rest;
      assert s == s[..i] + [c] + s[i + 1..];
    }
  }

  /** Joining pieces that do not contain the separator and splitting again
      gives back the pieces. */
  lemma {:induction false} SplitJoin(parts: seq<string>, c: char)
    requires |parts| >= 1
    requires forall i :: 0 <= i < |parts| ==> c !in parts[i]
    ensures Split(Join(parts, c), c) == parts
  {
    if |parts| > 1 {
      var s := Join(parts, c);
      var tail := Join(parts[1..], c);
      assert s == parts[0] + [c] + tail;
      assert c !in parts[0];
      FindAfterFree(parts[0], tail, c);
      assert s[..|parts[0]|] == parts[0];
      assert s[|parts[0]| + 1..] == tail;
      SplitJoin(parts[1..], c);
    }
  }

  /** The first `c` in `p + [c] + t`, when `p` has none, sits right after `p`. */
  lemma FindAfterFree(p: string, t: string, c: char)
    requires c !in p
    ensures Find(p + [c] + t, c) == |p|
  {
    var s := p + [c] + t;
    assert s[|p|] == c;
    assert s[..|p|] == p;
  }

  /** The last piece of a split is the longest suffix of `s` free of `c`. */
  lemma {:induction false} SplitLast(s: string, c: char)
    ensures IsFreeSuffix(s, Last(Split(s, c)), c)
    decreases |s|
  {
    var i := Find(s, c);
    if i != -1 {
      var t := s[i + 1..];
      var rest := Split(t, c);
      assert Split(s, c) == [s[..i]] + rest;
      SplitLast(t, c);
      FreeSuffixExtend(s, i, Last(rest), c);
    }
  }

  /** `last` is the longest suffix of `s` in which `c` does not occur. */
  predicate IsFreeSuffix(s: string, last: string, c: char)
  {
    && |last| <= |s|
    && s[|s| - |last|..] == last
    && (|last| == |s| <==> c !in s)
    && (|last| < |s| ==> s[|s| - |last| - 1] == c)
  }

  lemma FreeSuffixExtend(s: string, i: nat, last: string, c: char)
    requires i < |s| && s[i] == c
    requires IsFreeSuffix(s[i + 1..], last, c)
    ensures IsFreeSuffix(s, last, c)
  {
    var t := s[i + 1..];
    assert s[|s| - |last|..] == t[|t| - |last|..];
    if |last| < |t| {
      assert s[|s| - |last| - 1] == t[|t| - |last| - 1];
    }
  }

  function Last(parts: seq<string>): string
    requires parts != []
  {
    parts[|parts| - 1]
  }

  /** `s.split(c, n)`: at most `n` splits, the rest stays in the last piece. */
  function SplitMax(s: string, c: char, n: nat): (parts: seq<string>)
    ensures 1 <= |parts| <= n + 1
    ensures Join(parts, c) == s
    ensures forall i :: 0 <= i < |parts| - 1 ==> c !in parts[i]
    ensures |parts| <= n ==> c !in parts[|parts| - 1]
    decreases n
  {
    var i := Find(s, c);
    if n == 0 || i == -1 then [s]
    else
      var rest := SplitMax(s[i + 1..], c, n - 1);
      JoinCons(s[..i], rest, c);
      assert s == s[..i] + [c] + s[i + 1..];
      [s[..i]] + rest
  }

  /** `s.rsplit(c, 1)`: split at the last `c` only. */
  function RSplitOnce(s: string, c: char): (parts: seq<string>)
    ensures 1 <= |parts| <= 2
    ensures |parts| == 2 <==> c in s
    ensures Join(parts, c) == s
    ensures c !in parts[|parts| - 1]
  {
    var i := RFind(s, c);
    if i == -1 then [s]
    else
      assert s == s[..i] + [c] + s[i + 1..];
      [s[..i], s[i + 1..]]
  }

  /** `needle in s` for strings: `needle` occurs in `s` as a contiguous run. */
  predicate Contains(s: string, needle: string)
    decreases |s|
  {
    needle <= s || (s != [] && Contains(s[1..], needle))
  }

  /** `needle` occurs in `s` starting at position `k`. */
  predicate OccursAt(s: string, needle: string, k: int)
  {
    0 <= k && k + |needle| <= |s| && s[k..k + |needle|] == needle
  }

  /** `Contains` agrees with the definition of a substring by position. */
  lemma ContainsAt(s: string, needle: string)
    ensures Contains(s, needle) <==> exists k :: OccursAt(s, needle, k)
  {
    if Contains(s, needle) {
      ContainsOccurs(s, needle);
    }
    forall k | OccursAt(s, needle, k)
      ensures Contains(s, needle)
    {
      OccursContains(s, needle, k);
    }
  }

  lemma {:induction false} ContainsOccurs(s: string, needle: string)
    requires Contains(s, needle)
    ensures exists k :: OccursAt(s, needle, k)
    decreases |s|
  {
    if needle <= s {
      assert OccursAt(s, needle, 0);
    } else {
      ContainsOccurs(s[1..], needle);
      var k :| OccursAt(s[1..], needle, k);
      assert s[k + 1..k + 1 + |needle|] == s[1..][k..k + |needle|];
      assert OccursAt(s, needle, k + 1);
    }
  }

  lemma {:induction false} OccursContains(s: string, needle: string, k: int)
    requires OccursAt(s, needle, k)
    ensures Contains(s, needle)
    decreases k
  {
    if k == 0 {
      assert needle == s[..|needle|];
    } else {
      assert s[1..][k - 1..k - 1 + |needle|] == s[k..k + |needle|];
      OccursContains(s[1..], needle, k - 1);
    }
  }

  /** A string that contains a non-empty needle contains its first
      character. */
  lemma {:induction false} ContainsFirstChar(s: string, needle: string)
    requires needle != []
    ensures Contains(s, needle) ==> needle[0] in s
    decreases |s|
  {
    if s != [] {
      ContainsFirstChar(s[1..], needle);
      assert s == [s[0]] + s[1..];
    }
  }

  /** A string cannot contain a longer one. */
  lemma {:induction false} ContainsShorter(s: string, needle: string)
    requires |needle| > |s|
    ensures !Contains(s, needle)
    decreases |s|
  {
    if s != [] {
      ContainsShorter(s[1..], needle);
    }
  }

  /** Characters that `unicode.strip()` removes in Python 2 (the text it
      strips has been decoded from UTF-8). */
  predicate IsSpace(ch: char)
  {
    ('\t' <= ch <= '\r') || ('\U{1C}' <= ch <= ' ') || ch == '\U{85}' || ch == '\U{A0}'
    || ch == '\U{1680}' || ch == '\U{180E}' || ('\U{2000}' <= ch <= '\U{200A}')
    || ch == '\U{2028}' || ch == '\U{2029}' || ch == '\U{202F}' || ch == '\U{205F}'
    || ch == '\U{3000}'
  }

  predicate AllSpace(s: string)
  {
    forall i :: 0 <= i < |s| ==> IsSpace(s[i])
  }

  /** `s` without its leading white space. */
  function StripLeft(s: string): string
  {
    if s != [] && IsSpace(s[0]) then StripLeft(s[1..]) else s
  }

  /** `s` without its trailing white space. */
  function StripRight(s: string): string
  {
    if s != [] && IsSpace(s[|s| - 1]) then StripRight(s[..|s| - 1]) else s
  }

  /** `s.strip()`: `s` without leading and trailing white space. */
  function Strip(s: string): (r: string)
    ensures |r| <= |s|
    ensures r != [] ==> !IsSpace(r[0]) && !IsSpace(r[|r| - 1])
  {
    StripLeftTrims(s);
    StripRightTrims(StripLeft(s));
    StripRight(StripLeft(s))
  }

  /** `StripLeft` drops a prefix of white space and stops at a character
      that is not white space. */
  lemma {:induction false} StripLeftTrims(s: string)
    ensures |StripLeft(s)| <= |s| && StripLeft(s) == s[|s| - |StripLeft(s)|..]
    ensures AllSpace(s[..|s| - |StripLeft(s)|])
    ensures StripLeft(s) != [] ==> !IsSpace(StripLeft(s)[0])
  {
    if s != [] && IsSpace(s[0]) {
      StripLeftTrims(s[1..]);
      var r := StripLeft(s[1..]);
      assert s[..|s| - |r|] == [s[0]] + s[1..][..|s| - 1 - |r|];
    }
  }

  /** `StripRight` drops a suffix of white space and stops at a character
      that is not white space. */
  lemma {:induction false} StripRightTrims(s: string)
    ensures |StripRight(s)| <= |s| && StripRight(s) == s[..|StripRight(s)|]
    ensures AllSpace(s[|StripRight(s)|..])
    ensures StripRight(s) != [] ==> !IsSpace(StripRight(s)[|StripRight(s)| - 1])
  {
    if s != [] && IsSpace(s[|s| - 1]) {
      StripRightTrims(s[..|s| - 1]);
      var r := StripRight(s[..|s| - 1]);
      assert s[|r|..] == s[..|s| - 1][|r|..] + [s[|s| - 1]];
    }
  }

  /** `Strip` removes white space only, and all of it at both ends. */
  lemma StripTrims(s: string)
    ensures exists pre, post :: s == pre + Strip(s) + post && AllSpace(pre) && AllSpace(post)
    ensures Strip(s) != [] ==> !IsSpace(Strip(s)[0]) && !IsSpace(Strip(s)[|Strip(s)| - 1])
  {
    var l := StripLeft(s);
    var r := StripRight(l);
    StripLeftTrims(s);
    StripRightTrims(l);
    var pre, post := s[..|s| - |l|], l[|r|..];
    assert s == pre + r + post;
    assert AllSpace(pre) && AllSpace(post);
  }
}
