/**
 * The pieces of Python's `str` that the core uses, on ASCII text:
 * `lower()`, `t in s`, `startswith`, `endswith`, `strip()`,
 * `split(ch)[0]`, `split(ch)[-1]` and `rsplit(ch, 1)[0]`.
 */
module Text {

  import opened Wrappers

  /** `str.lower()` on one character (ASCII letters only). */
  function LowerChar(ch: char): char
  {
    if 'A' <= ch <= 'Z' then (ch as int - 'A' as int + 'a' as int) as char else ch
  }

  /** `s.lower()`. */
  function Lower(s: string): (r: string)
    ensures |r| == |s|
    ensures forall i :: 0 <= i < |s| ==> r[i] == LowerChar(s[i])
  {
    seq(|s|, i requires 0 <= i < |s| => LowerChar(s[i]))
  }

  /** `s.startswith(prefix)`. */
  predicate StartsWith(s: string, prefix: string)
  {
    |prefix| <= |s| && s[..|prefix|] == prefix
  }

  /** `s.endswith(suffix)`. */
  predicate EndsWith(s: string, suffix: string)
  {
    |suffix| <= |s| && s[|s| - |suffix|..] == suffix
  }

  /** `t in s`: `t` occurs in `s` as a contiguous substring. */
  predicate Contains(s: string, t: string)
    decreases |s|
  {
    StartsWith(s, t) || (|s| > 0 && Contains(s[1..], t))
  }

  /** An occurrence at a known offset is found by `Contains`. */
  lemma {:induction false} ContainsAt(s: string, t: string, i: nat)
    requires i + |t| <= |s| && s[i..i + |t|] == t
    ensures Contains(s, t)
    decreases i
  {
    if i == 0 {
      assert s[..|t|] == t;
    } else {
      assert s[1..][i - 1..i - 1 + |t|] == s[i..i + |t|];
      ContainsAt(s[1..], t, i - 1);
    }
  }

  /** `Contains` always has a witness offset. */
  lemma {:induction false} ContainsHasOffset(s: string, t: string) returns (i: nat)
    requires Contains(s, t)
    ensures i + |t| <= |s| && s[i..i + |t|] == t
    decreases |s|
  {
    if StartsWith(s, t) {
      i := 0;
    } else {
      var j := ContainsHasOffset(s[1..], t);
      assert s[1..][j..j + |t|] == s[j + 1..j + 1 + |t|];
      i := j + 1;
    }
  }

  /** A string that contains `t + u` contains `t`. */
  lemma ContainsPrefixOf(s: string, t: string, u: string)
    requires Contains(s, t + u)
    ensures Contains(s, t)
  {
    var i := ContainsHasOffset(s, t + u);
    assert s[i..i + |t|] == (t + u)[..|t|];
    ContainsAt(s, t, i);
  }

  /** A suffix is a substring. */
  lemma EndsWithContains(s: string, t: string)
    requires EndsWith(s, t)
    ensures Contains(s, t)
  {
    ContainsAt(s, t, |s| - |t|);
  }

  /** Lower-casing preserves an occurrence of an already lower-case needle. */
  lemma LowerPreservesContains(s: string, t: string)
    requires Contains(s, t)
    requires Lower(t) == t
    ensures Contains(Lower(s), t)
  {
    var i := ContainsHasOffset(s, t);
    var ls := Lower(s);
    forall k | 0 <= k < |t|
      ensures ls[i..i + |t|][k] == t[k]
    {
      assert ls[i + k] == LowerChar(s[i + k]);
      assert s[i + k] == t[k];
      assert Lower(t)[k] == LowerChar(t[k]);
    }
    assert ls[i..i + |t|] == t;
    ContainsAt(ls, t, i);
  }

  /** The characters `str.strip()` removes, restricted to ASCII: space, \t \n \v \f \r and \x1c-\x1f. */
  predicate IsSpace(ch: char)
  {
    ch == ' ' || (9 <= ch as int <= 13) || (28 <= ch as int <= 31)
  }

  /** `s.lstrip()`. */
  function TrimStart(s: string): (r: string)
    ensures |r| <= |s| && r == s[|s| - |r|..]
    ensures forall j :: 0 <= j < |s| - |r| ==> IsSpace(s[j])
    ensures r == [] || !IsSpace(r[0])
  {
    if s != [] && IsSpace(s[0]) then TrimStart(s[1..]) else s
  }

  /** `s.rstrip()`. */
  function TrimEnd(s: string): (r: string)
    ensures |r| <= |s| && r == s[..|r|]
    ensures forall j :: |r| <= j < |s| ==> IsSpace(s[j])
    ensures r == [] || !IsSpace(r[|r| - 1])
  {
    if s != [] && IsSpace(s[|s| - 1]) then TrimEnd(s[..|s| - 1]) else s
  }

  /** `s.strip()`: the slice of `s` left after removing leading and trailing whitespace. */
  function Strip(s: string): (r: string)
    ensures |r| <= |s|
    ensures r == [] || (!IsSpace(r[0]) && !IsSpace(r[|r| - 1]))
  {
    TrimEnd(TrimStart(s))
  }

  /** `s.split(ch)[0]`: everything before the first `ch`, or all of `s`. */
  function BeforeFirst(s: string, ch: char): (r: string)
    ensures |r| <= |s| && r == s[..|r|]
    ensures ch !in r
    ensures |r| < |s| ==> s[|r|] == ch
  {
    if s == [] || s[0] == ch then [] else [s[0]] + BeforeFirst(s[1..], ch)
  }

  /** `s.split(ch)[-1]` (and `posixpath.basename` for `ch == '/'`): everything after the last `ch`. */
  function AfterLast(s: string, ch: char): (r: string)
    ensures |r| <= |s| && r == s[|s| - |r|..]
    ensures ch !in r
    ensures |r| < |s| ==> s[|s| - |r| - 1] == ch
  {
    if s == [] || s[|s| - 1] == ch then [] else AfterLast(s[..|s| - 1], ch) + [s[|s| - 1]]
  }

  /** `s.rfind(ch)`, with `None` for -1. */
  function LastIndexOf(s: string, ch: char): (r: Option<nat>)
    ensures r.Some? ==> r.value < |s| && s[r.value] == ch && forall j :: r.value < j < |s| ==> s[j] != ch
    ensures r.None? ==> ch !in s
  {
    if s == [] then None
    else if s[|s| - 1] == ch then Some(|s| - 1)
    else LastIndexOf(s[..|s| - 1], ch)
  }

  /** `s.rsplit(ch, 1)[0]`: everything before the last `ch`, or all of `s` if there is none. */
  function BeforeLast(s: string, ch: char): (r: string)
    ensures |r| <= |s| && r == s[..|r|]
    ensures ch in s ==> |r| < |s| && s[|r|] == ch && ch !in s[|r| + 1..]
    ensures ch !in s ==> r == s
  {
    match LastIndexOf(s, ch)
    case Some(i) => s[..i]
    case None => s
  }
}
