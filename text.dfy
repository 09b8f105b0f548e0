/**
 * The Python string operations the services rely on: substring search
 * (`t in s`), `split`, `join`, `replace`, `strip`, `lower` and `title`.
 * Strings are sequences of Unicode code points, as in Python 3.
 */
module Text {
  import opened Wrappers

  // ---------------------------------------------------------------------
  // Substring search
  // ---------------------------------------------------------------------

  /** `t` occurs in `s` starting at index `i`. */
  ghost predicate OccursAt(s: string, t: string, i: int)
  {
    0 <= i && i + |t| <= |s| && s[i..i + |t|] == t
  }

  /** Character-by-character comparison of `t[j..]` with `s[i + j..]`. */
  function MatchAt(s: string, t: string, i: nat, j: nat): (r: bool)
    requires i + |t| <= |s| && j <= |t|
    ensures r <==> s[i + j..i + |t|] == t[j..]
    decreases |t| - j
  {
    if j == |t| then true
    else
      assert s[i + j..i + |t|] == [s[i + j]] + s[i + j + 1..i + |t|];
      assert t[j..] == [t[j]] + t[j + 1..];
      s[i + j] == t[j] && MatchAt(s, t, i, j + 1)
  }

  /** The first index at or after `i` where `t` occurs in `s`. */
  function FindFrom(s: string, t: string, i: nat): (r: Option<nat>)
    ensures r.Some? ==> i <= r.value && OccursAt(s, t, r.value)
    ensures r.Some? ==> forall j :: i <= j < r.value ==> !OccursAt(s, t, j)
    ensures r.None? ==> forall j :: i <= j ==> !OccursAt(s, t, j)
    decreases |s| - i
  {
    if i + |t| > |s| then None
    else if MatchAt(s, t, i, 0) then Some(i)
    else FindFrom(s, t, i + 1)
  }

  /** Python's `s.find(t)`, with `None` for -1. */
  function Find(s: string, t: string): Option<nat>
  {
    FindFrom(s, t, 0)
  }

  /** Python's `t in s`. */
  predicate Contains(s: string, t: string)
  {
    Find(s, t).Some?
  }

  /** A witnessed occurrence makes `t in s` true, no later than the witness. */
  lemma FindAtMost(s: string, t: string, i: nat)
    requires OccursAt(s, t, i)
    ensures Find(s, t).Some? && Find(s, t).value <= i
  {
  }

  /** The first occurrence is pinned down by an occurrence with none before it. */
  lemma FindExactly(s: string, t: string, i: nat)
    requires OccursAt(s, t, i)
    requires forall j :: 0 <= j < i ==> !OccursAt(s, t, j)
    ensures Find(s, t) == Some(i)
  {
  }

  /** A character of `t` missing from `s` rules out `t in s`. */
  lemma NotContainsByChar(s: string, t: string, k: nat)
    requires k < |t| && t[k] !in s
    ensures !Contains(s, t)
  {
    forall i | 0 <= i && i + |t| <= |s|
      ensures !OccursAt(s, t, i)
    {
      assert s[i..i + |t|][k] == s[i + k];
      assert s[i + k] in s;
    }
  }

  /** An occurrence at a known index witnesses `t in s`. */
  lemma ContainsAt(s: string, t: string, i: nat)
    requires OccursAt(s, t, i)
    ensures Contains(s, t)
  {
  }

  /** `t` cannot occur in `s` when two adjacent characters of `t` never
      appear side by side in `s`. */
  lemma NotContainsByPair(s: string, t: string, k: nat)
    requires k + 1 < |t|
    requires forall i :: 0 <= i < |s| - 1 && s[i] == t[k] ==> s[i + 1] != t[k + 1]
    ensures !Contains(s, t)
  {
    forall i | 0 <= i && i + |t| <= |s|
      ensures !OccursAt(s, t, i)
    {
      assert s[i..i + |t|][k] == s[i + k];
      assert s[i..i + |t|][k + 1] == s[i + k + 1];
    }
  }

  // ---------------------------------------------------------------------
  // split, join, replace
  // ---------------------------------------------------------------------

  /** Python's `s.split(sep)` for a non-empty separator. */
  function Split(s: string, sep: string): (parts: seq<string>)
    requires |sep| > 0
    ensures |parts| >= 1
    ensures |parts| >= 2 <==> Contains(s, sep)
    decreases |s|
  {
    match Find(s, sep)
    case None => [s]
    case Some(i) => [s[..i]] + Split(s[i + |sep|..], sep)
  }

  /** Python's `sep.join(parts)`. */
  function Join(parts: seq<string>, sep: string): string
    decreases |parts|
  {
    if |parts| == 0 then ""
    else if |parts| == 1 then parts[0]
    else parts[0] + sep + Join(parts[1..], sep)
  }

  /** Python's `s.replace(old, new)` for a non-empty `old`. */
  function Replace(s: string, target: string, replacement: string): string
    requires |target| > 0
  {
    Join(Split(s, target), replacement)
  }

  /** Joining the pieces of a split with the separator gives the text back. */
  lemma {:induction false} JoinSplit(s: string, sep: string)
    requires |sep| > 0
    ensures Join(Split(s, sep), sep) == s
    decreases |s|
  {
    match Find(s, sep)
    case None =>
    case Some(i) =>
      var rest := s[i + |sep|..];
      JoinSplit(rest, sep);
      assert s[i..i + |sep|] == sep;
      assert s == s[..i] + sep + rest;
  }

  /** No piece of a split contains the separator. */
  lemma {:induction false} SplitPiecesFree(s: string, sep: string)
    requires |sep| > 0
    ensures forall k :: 0 <= k < |Split(s, sep)| ==> !Contains(Split(s, sep)[k], sep)
    decreases |s|
  {
    match Find(s, sep)
    case None =>
    case Some(i) =>
      PrefixBeforeFirstFree(s, sep, i);
      SplitPiecesFree(s[i + |sep|..], sep);
  }

  /** The text before the first occurrence does not contain the separator. */
  lemma PrefixBeforeFirstFree(s: string, sep: string, i: nat)
    requires |sep| > 0 && Find(s, sep) == Some(i)
    ensures !Contains(s[..i], sep)
  {
    forall j | 0 <= j && j + |sep| <= i
      ensures !OccursAt(s[..i], sep, j)
    {
      assert s[..i][j..j + |sep|] == s[j..j + |sep|];
      assert !OccursAt(s, sep, j);
    }
  }

  /** The text before the first occurrence of `sep`, or all of it: the
      first piece of `s.split(sep)`. */
  function BeforeFirst(s: string, sep: string): (r: string)
    requires |sep| > 0
    ensures r <= s && !Contains(r, sep)
    ensures Contains(s, sep) ==> r + sep <= s
    ensures !Contains(s, sep) ==> r == s
  {
    match Find(s, sep)
    case None => s
    case Some(i) =>
      PrefixBeforeFirstFree(s, sep, i);
      assert s[..i] + sep == s[..i + |sep|];
      s[..i]
  }

  /** The text after the first occurrence of `sep`. */
  function AfterFirst(s: string, sep: string): (r: string)
    requires |sep| > 0 && Contains(s, sep)
    ensures BeforeFirst(s, sep) + sep + r == s
  {
    var i := Find(s, sep).value;
    assert s[..i] + sep + s[i + |sep|..] == s;
    s[i + |sep|..]
  }

  /** `s.split(sep)[0]` and `s.split(sep)[1]`. */
  lemma SplitFirstPieces(s: string, sep: string)
    requires |sep| > 0
    ensures Split(s, sep)[0] == BeforeFirst(s, sep)
    ensures Contains(s, sep) ==> Split(s, sep)[1] == BeforeFirst(AfterFirst(s, sep), sep)
  {
    match Find(s, sep)
    case None =>
    case Some(i) =>
      var rest := s[i + |sep|..];
      match Find(rest, sep)
      case None =>
      case Some(j) =>
  }

  /** A slice of a text without `t` is without `t`. */
  lemma NotContainsSlice(s: string, t: string, a: nat, b: nat)
    requires a <= b <= |s| && !Contains(s, t)
    ensures !Contains(s[a..b], t)
  {
    forall j | 0 <= j && j + |t| <= b - a
      ensures !OccursAt(s[a..b], t, j)
    {
      var x := s[a..b][j..j + |t|];
      var y := s[a + j..a + j + |t|];
      assert forall m :: 0 <= m < |t| ==> x[m] == y[m];
      assert !OccursAt(s, t, a + j);
    }
  }

  /** A text containing `u` contains every prefix of `u`. */
  lemma ContainsPrefixOf(s: string, t: string, u: string)
    requires t <= u && Contains(s, u)
    ensures Contains(s, t)
  {
    var i := Find(s, u).value;
    assert s[i..i + |t|] == s[i..i + |u|][..|t|];
    ContainsAt(s, t, i);
  }

  /** `t` cannot occur where no position of `s` holds its first character. */
  lemma NotContainsByFirstChar(s: string, t: string)
    requires |t| > 0
    requires forall p :: 0 <= p && p + |t| <= |s| ==> s[p] != t[0]
    ensures !Contains(s, t)
  {
    forall p | 0 <= p && p + |t| <= |s|
      ensures !OccursAt(s, t, p)
    {
      assert s[p..p + |t|][0] == s[p];
    }
  }

  /** `t` occurs first right after `s` when `s` followed by all but the
      last character of `t` does not contain it. */
  lemma FindFirstAt(s: string, t: string, rest: string)
    requires |t| > 0 && !Contains(s + t[..|t| - 1], t)
    ensures Find(s + t + rest, t) == Some(|s|)
    ensures BeforeFirst(s + t + rest, t) == s && AfterFirst(s + t + rest, t) == rest
  {
    var u := s + t + rest;
    var v := s + t[..|t| - 1];
    assert u[|s|..|s| + |t|] == t;
    forall j | 0 <= j < |s|
      ensures !OccursAt(u, t, j)
    {
      assert !OccursAt(v, t, j);
      var x := u[j..j + |t|];
      var y := v[j..j + |t|];
      assert forall m :: 0 <= m < |t| ==> x[m] == y[m];
    }
    FindExactly(u, t, |s|);
    assert u[..|s|] == s && u[|s| + |t|..] == rest;
  }

  /** The same when the first character of `t` does not occur in `s`. */
  lemma FindFirstAfterFree(s: string, t: string, rest: string)
    requires |t| > 0 && t[0] !in s
    ensures Find(s + t + rest, t) == Some(|s|)
    ensures BeforeFirst(s + t + rest, t) == s && AfterFirst(s + t + rest, t) == rest
  {
    var v := s + t[..|t| - 1];
    forall p | 0 <= p && p + |t| <= |v|
      ensures v[p] != t[0]
    {
      assert v[p] == s[p];
    }
    NotContainsByFirstChar(v, t);
    FindFirstAt(s, t, rest);
  }

  /** Replacing a substring that does not occur leaves the text unchanged. */
  lemma ReplaceAbsent(s: string, target: string, replacement: string)
    requires |target| > 0 && !Contains(s, target)
    ensures Replace(s, target, replacement) == s
  {
  }

  /** Replacing a substring that occurs once replaces that occurrence. */
  lemma ReplaceOnce(s: string, target: string, replacement: string, i: nat)
    requires |target| > 0 && Find(s, target) == Some(i)
    requires !Contains(s[i + |target|..], target)
    ensures Replace(s, target, replacement) == s[..i] + replacement + s[i + |target|..]
  {
    var rest := s[i + |target|..];
    assert Split(s, target) == [s[..i], rest];
    assert [s[..i], rest][1..] == [rest];
    assert Join([rest], replacement) == rest;
    assert Join([s[..i], rest], replacement) == s[..i] + replacement + Join([rest], replacement);
  }

  // ---------------------------------------------------------------------
  // strip
  // ---------------------------------------------------------------------

  /** The characters Python's `str.strip()` removes (`str.isspace`). */
  predicate IsSpace(c: char)
  {
    || '\t' <= c <= '\r'
    || '\U{1C}' <= c <= ' '
    || c == '\U{85}' || c == '\U{A0}' || c == '\U{1680}'
    || '\U{2000}' <= c <= '\U{200A}'
    || c == '\U{2028}' || c == '\U{2029}' || c == '\U{202F}' || c == '\U{205F}'
    || c == '\U{3000}'
  }

  ghost predicate AllSpace(s: string)
  {
    forall k :: 0 <= k < |s| ==> IsSpace(s[k])
  }

  /** The number of leading whitespace characters. */
  function LeadingSpaces(s: string): (n: nat)
    ensures n <= |s|
    ensures forall k :: 0 <= k < n ==> IsSpace(s[k])
    ensures n < |s| ==> !IsSpace(s[n])
  {
    if |s| == 0 || !IsSpace(s[0]) then 0
    else
      assert forall k :: 1 <= k < |s| ==> s[1..][k - 1] == s[k];
      1 + LeadingSpaces(s[1..])
  }

  /** The number of trailing whitespace characters. */
  function TrailingSpaces(s: string): (n: nat)
    ensures n <= |s|
    ensures forall k :: |s| - n <= k < |s| ==> IsSpace(s[k])
    ensures n < |s| ==> !IsSpace(s[|s| - 1 - n])
  {
    if |s| == 0 || !IsSpace(s[|s| - 1]) then 0
    else
      assert forall k :: 0 <= k < |s| - 1 ==> s[..|s| - 1][k] == s[k];
      1 + TrailingSpaces(s[..|s| - 1])
  }

  /** Python's `s.strip()`: the text without leading and trailing whitespace.
      What is removed is whitespace, and what is kept starts and ends with a
      character that is not. */
  function Strip(s: string): (r: string)
    ensures LeadingSpaces(s) + |r| <= |s|
    ensures r == s[LeadingSpaces(s)..LeadingSpaces(s) + |r|]
    ensures forall k :: LeadingSpaces(s) + |r| <= k < |s| ==> IsSpace(s[k])
    ensures |r| > 0 ==> !IsSpace(r[0]) && !IsSpace(r[|r| - 1])
  {
    var a := LeadingSpaces(s);
    if a == |s| then ""
    else
      var b := TrailingSpaces(s);
      assert !IsSpace(s[a]);
      s[a..|s| - b]
  }

  /** Leading whitespace is determined by where the first non-space is. */
  lemma LeadingSpacesAre(s: string, n: nat)
    requires n <= |s|
    requires forall k :: 0 <= k < n ==> IsSpace(s[k])
    requires n < |s| ==> !IsSpace(s[n])
    ensures LeadingSpaces(s) == n
  {
  }

  /** Whitespace padding around a text with non-space ends is exactly what
      `strip` removes. */
  lemma StripUnique(a: string, m: string, b: string)
    requires AllSpace(a) && AllSpace(b)
    requires |m| > 0 ==> !IsSpace(m[0]) && !IsSpace(m[|m| - 1])
    ensures Strip(a + m + b) == m
  {
    var s := a + m + b;
    assert forall k :: 0 <= k < |a| ==> s[k] == a[k];
    assert forall k :: |a| + |m| <= k < |s| ==> s[k] == b[k - |a| - |m|];
    if |m| == 0 {
      LeadingSpacesAre(s, |s|);
    } else {
      assert s[|a|] == m[0];
      assert s[|a| + |m| - 1] == m[|m| - 1];
      LeadingSpacesAre(s, |a|);
      var r := Strip(s);
      assert s[|a|..|a| + |m|] == m;
    }
  }

  lemma AllSpaceConcat(x: string, y: string)
    requires AllSpace(x) && AllSpace(y)
    ensures AllSpace(x + y)
  {
    assert forall k :: |x| <= k < |x| + |y| ==> (x + y)[k] == y[k - |x|];
  }

  lemma Regroup(a: string, p: string, m: string, q: string, b: string)
    ensures a + (p + m + q) + b == (a + p) + m + (q + b)
  {
    calc {
      a + (p + m + q) + b;
      a + ((p + m) + q) + b;
      (a + (p + m)) + q + b;
      ((a + p) + m) + q + b;
      ((a + p) + m) + (q + b);
    }
  }

  lemma LeadingPartIsSpace(s: string)
    ensures AllSpace(s[..LeadingSpaces(s)])
  {
    var pre := s[..LeadingSpaces(s)];
    assert forall k :: 0 <= k < |pre| ==> pre[k] == s[k];
  }

  lemma TrailingPartIsSpace(s: string)
    ensures AllSpace(s[LeadingSpaces(s) + |Strip(s)|..])
  {
    var n := LeadingSpaces(s) + |Strip(s)|;
    var post := s[n..];
    assert forall k :: 0 <= k < |post| ==> post[k] == s[n + k];
  }

  lemma SliceThree(s: string, i: nat, j: nat)
    requires i <= j <= |s|
    ensures s == s[..i] + s[i..j] + s[j..]
  {
    assert s[..j] == s[..i] + s[i..j];
    assert s == s[..j] + s[j..];
  }

  lemma StripSplits(s: string)
    ensures s == s[..LeadingSpaces(s)] + Strip(s) + s[LeadingSpaces(s) + |Strip(s)|..]
  {
    SliceThree(s, LeadingSpaces(s), LeadingSpaces(s) + |Strip(s)|);
  }

  /** A text is its leading whitespace, its strip and its trailing
      whitespace. */
  lemma StripParts(s: string) returns (pre: string, post: string)
    ensures AllSpace(pre) && AllSpace(post) && s == pre + Strip(s) + post
  {
    pre := s[..LeadingSpaces(s)];
    post := s[LeadingSpaces(s) + |Strip(s)|..];
    LeadingPartIsSpace(s);
    TrailingPartIsSpace(s);
    StripSplits(s);
  }

  /** Whitespace added around a text does not change what `strip` returns. */
  lemma StripPadding(a: string, s: string, b: string)
    requires AllSpace(a) && AllSpace(b)
    ensures Strip(a + s + b) == Strip(s)
  {
    var pre, post := StripParts(s);
    AllSpaceConcat(a, pre);
    AllSpaceConcat(post, b);
    Regroup(a, pre, Strip(s), post, b);
    StripUnique(a + pre, Strip(s), post + b);
  }

  // ---------------------------------------------------------------------
  // lower, title
  // ---------------------------------------------------------------------

  /** Upper-case letters of the Basic Latin and Cyrillic blocks used by the
      services, including the Kyrgyz letters Ң, Ү and Ө. */
  predicate IsUpper(c: char)
  {
    || 'A' <= c <= 'Z'
    || '\U{400}' <= c <= '\U{42F}'
    || c == '\U{4A2}' || c == '\U{4AE}' || c == '\U{4E8}'
  }

  predicate IsLower(c: char)
  {
    || 'a' <= c <= 'z'
    || '\U{430}' <= c <= '\U{45F}'
    || c == '\U{4A3}' || c == '\U{4AF}' || c == '\U{4E9}'
  }

  function LowerChar(c: char): (r: char)
    ensures IsUpper(c) ==> IsLower(r)
    ensures !IsUpper(c) ==> r == c
  {
    if 'A' <= c <= 'Z' || '\U{410}' <= c <= '\U{42F}' then (c as int + 32) as char
    else if '\U{400}' <= c <= '\U{40F}' then (c as int + 80) as char
    else if c == '\U{4A2}' || c == '\U{4AE}' || c == '\U{4E8}' then (c as int + 1) as char
    else c
  }

  function UpperChar(c: char): (r: char)
    ensures IsLower(c) ==> IsUpper(r)
    ensures !IsLower(c) ==> r == c
  {
    if 'a' <= c <= 'z' || '\U{430}' <= c <= '\U{44F}' then (c as int - 32) as char
    else if '\U{450}' <= c <= '\U{45F}' then (c as int - 80) as char
    else if c == '\U{4A3}' || c == '\U{4AF}' || c == '\U{4E9}' then (c as int - 1) as char
    else c
  }

  /** Python's `s.lower()` on the letters above. */
  function Lower(s: string): (r: string)
    ensures |r| == |s|
    ensures forall k :: 0 <= k < |s| ==> r[k] == LowerChar(s[k])
  {
    seq(|s|, k requires 0 <= k < |s| => LowerChar(s[k]))
  }

  /** Python's `s.title()`: a cased letter is upper-cased when the character
      before it is not cased, and lower-cased otherwise. */
  function TitleFrom(s: string, afterCased: bool): (r: string)
    ensures |r| == |s|
    decreases |s|
  {
    if |s| == 0 then ""
    else
      var c := s[0];
      var cased := IsCased(c);
      var c' := if !cased then c else if afterCased then LowerChar(c) else UpperChar(c);
      [c'] + TitleFrom(s[1..], cased)
  }

  function Title(s: string): string
  {
    TitleFrom(s, false)
  }

  predicate IsCased(c: char)
  {
    IsUpper(c) || IsLower(c)
  }

  /** Character `k` of a title-cased text: a cased letter is lowered after
      a cased character and raised otherwise; anything else is kept. */
  function TitleCharAt(s: string, k: nat, afterCased: bool): char
    requires k < |s|
  {
    var after := if k == 0 then afterCased else IsCased(s[k - 1]);
    if !IsCased(s[k]) then s[k] else if after then LowerChar(s[k]) else UpperChar(s[k])
  }

  lemma {:induction false} TitleFromAt(s: string, afterCased: bool)
    ensures forall k :: 0 <= k < |s| ==> TitleFrom(s, afterCased)[k] == TitleCharAt(s, k, afterCased)
    decreases |s|
  {
    if |s| > 0 {
      var cased := IsCased(s[0]);
      TitleFromAt(s[1..], cased);
      forall k | 1 <= k < |s|
        ensures TitleFrom(s, afterCased)[k] == TitleCharAt(s, k, afterCased)
      {
        assert s[1..][k - 1] == s[k];
        if k > 1 {
          assert s[1..][k - 2] == s[k - 1];
        }
        assert TitleFrom(s, afterCased)[k] == TitleFrom(s[1..], cased)[k - 1];
      }
    }
  }

  /** `title` keeps the length and decides each character by the one before
      it, the first character counting as following an uncased one. */
  lemma TitleChars(s: string)
    ensures |Title(s)| == |s|
    ensures forall k :: 0 <= k < |s| ==> Title(s)[k] == TitleCharAt(s, k, false)
  {
    TitleFromAt(s, false);
  }
}
