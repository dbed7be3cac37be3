/**
 * The handful of Python string operations the tools rely on, on ASCII text:
 * `strip()`, `upper()`, `lower()`, `in` (substring), `startswith`,
 * `split(sep)`, `split(sep, 1)` and `sep.join(...)`.
 */
module Text {
  import opened Common

  /** The ASCII characters Python's `str.isspace()` accepts (and `strip()` removes). */
  predicate IsWhitespace(c: char)
  {
    c == ' ' || ('\t' <= c <= '\r') || ('\U{1C}' <= c <= '\U{1F}')
  }

  predicate IsDigit(c: char)
  {
    '0' <= c <= '9'
  }

  predicate AllDigits(s: string)
  {
    forall k | 0 <= k < |s| :: IsDigit(s[k])
  }

  predicate AllWhitespace(s: string)
  {
    forall k | 0 <= k < |s| :: IsWhitespace(s[k])
  }

  /** Neither the first nor the last character is whitespace. */
  predicate IsStripped(s: string)
  {
    s == [] || (!IsWhitespace(s[0]) && !IsWhitespace(s[|s| - 1]))
  }

  // ---------------------------------------------------------------- strip

  /** The number of whitespace characters `s` starts with. */
  function LeadingWhitespace(s: string): (n: nat)
    ensures n <= |s|
    ensures forall k | 0 <= k < n :: IsWhitespace(s[k])
    ensures n < |s| ==> !IsWhitespace(s[n])
  {
    if |s| > 0 && IsWhitespace(s[0]) then 1 + LeadingWhitespace(s[1..]) else 0
  }

  /** The number of whitespace characters `s` ends with. */
  function TrailingWhitespace(s: string): (n: nat)
    ensures n <= |s|
    ensures forall k | |s| - n <= k < |s| :: IsWhitespace(s[k])
    ensures n < |s| ==> !IsWhitespace(s[|s| - n - 1])
  {
    if |s| > 0 && IsWhitespace(s[|s| - 1]) then 1 + TrailingWhitespace(s[..|s| - 1]) else 0
  }

  function DropLeading(s: string): (r: string)
    ensures r == [] || !IsWhitespace(r[0])
  {
    s[LeadingWhitespace(s)..]
  }

  function DropTrailing(s: string): (r: string)
    ensures r == [] || !IsWhitespace(r[|r| - 1])
  {
    s[..|s| - TrailingWhitespace(s)]
  }

  /** Python's `s.strip()`: the stripped core of `s`. */
  function Strip(s: string): (r: string)
    ensures IsStripped(r) && |r| <= |s|
  {
    DropTrailing(DropLeading(s))
  }

  /** Stripping keeps upper-case text upper-case. */
  lemma StripUpper(s: string)
    requires IsUpper(s)
    ensures IsUpper(Strip(s))
  {
    var d := DropLeading(s);
    var n := LeadingWhitespace(s);
    assert IsUpper(d) by {
      forall k | 0 <= k < |d| ensures UpperChar(d[k]) == d[k] {
        assert d[k] == s[n + k];
      }
    }
  }

  lemma UpperOfUpper(s: string)
    requires IsUpper(s)
    ensures Upper(s) == s
  {
  }

  lemma UpperAppend(a: string, b: string)
    ensures Upper(a + b) == Upper(a) + Upper(b)
  {
  }

  lemma UpperIsUpper(s: string)
    ensures IsUpper(Upper(s))
  {
  }

  lemma {:induction false} LeadingPadded(pre: string, r: string)
    requires AllWhitespace(pre)
    requires r == [] || !IsWhitespace(r[0])
    ensures LeadingWhitespace(pre + r) == |pre|
  {
    if pre != [] {
      assert (pre + r)[1..] == pre[1..] + r;
      LeadingPadded(pre[1..], r);
    }
  }

  lemma {:induction false} TrailingPadded(r: string, post: string)
    requires AllWhitespace(post)
    requires r == [] || !IsWhitespace(r[|r| - 1])
    ensures TrailingWhitespace(r + post) == |post|
  {
    if post != [] {
      var n := |r + post|;
      assert (r + post)[..n - 1] == r + post[..|post| - 1];
      TrailingPadded(r, post[..|post| - 1]);
    }
  }

  lemma DropLeadingPadded(pre: string, r: string)
    requires AllWhitespace(pre)
    requires r == [] || !IsWhitespace(r[0])
    ensures DropLeading(pre + r) == r
  {
    LeadingPadded(pre, r);
    assert (pre + r)[|pre|..] == r;
  }

  lemma DropTrailingPadded(r: string, post: string)
    requires AllWhitespace(post)
    requires r == [] || !IsWhitespace(r[|r| - 1])
    ensures DropTrailing(r + post) == r
  {
    TrailingPadded(r, post);
    assert (r + post)[..|r|] == r;
  }

  /** `strip()` removes exactly the whitespace padding around a stripped core. */
  lemma StripPadded(pre: string, core: string, post: string)
    requires AllWhitespace(pre) && AllWhitespace(post) && IsStripped(core)
    ensures Strip(pre + core + post) == core
  {
    if core == [] {
      assert pre + core + post == pre + post;
      assert AllWhitespace(pre + post);
      DropLeadingPadded(pre + post, []);
      assert pre + post + [] == pre + post;
    } else {
      assert pre + core + post == pre + (core + post);
      DropLeadingPadded(pre, core + post);
      DropTrailingPadded(core, post);
    }
  }

  /** Stripping only removes characters. */
  lemma StripInside(s: string)
    ensures forall c | c in Strip(s) :: c in s
  {
    var n := LeadingWhitespace(s);
    var d := s[n..];
    var r := Strip(s);
    assert r == d[..|d| - TrailingWhitespace(d)];
    forall c | c in r
      ensures c in s
    {
      var k :| 0 <= k < |r| && r[k] == c;
      assert r[k] == s[n + k];
    }
  }

  lemma StripStripped(s: string)
    requires IsStripped(s)
    ensures Strip(s) == s
  {
    StripPadded([], s, []);
    assert [] + s + [] == s;
  }

  // ---------------------------------------------------------- upper, lower

  function UpperChar(c: char): char
  {
    if 'a' <= c <= 'z' then (c as int - 32) as char else c
  }

  function LowerChar(c: char): char
  {
    if 'A' <= c <= 'Z' then (c as int + 32) as char else c
  }

  /** Python's `s.upper()` on ASCII letters. */
  function Upper(s: string): string
  {
    seq(|s|, k requires 0 <= k < |s| => UpperChar(s[k]))
  }

  /** Python's `s.lower()` on ASCII letters. */
  function Lower(s: string): string
  {
    seq(|s|, k requires 0 <= k < |s| => LowerChar(s[k]))
  }

  predicate IsUpper(s: string)
  {
    forall k | 0 <= k < |s| :: UpperChar(s[k]) == s[k]
  }

  // ------------------------------------------------------------ substring

  /** Python's `t in s` on strings. */
  predicate Contains(s: string, t: string)
  {
    exists i | 0 <= i <= |s| - |t| :: t <= s[i..]
  }

  /** Python's `any(w in s for w in words)`. */
  predicate ContainsAny(s: string, words: seq<string>)
  {
    exists w | w in words :: Contains(s, w)
  }

  lemma ContainsAt(s: string, t: string, i: nat)
    requires i + |t| <= |s| && s[i..i + |t|] == t
    ensures Contains(s, t)
  {
    assert t <= s[i..];
  }

  /** A string that contains `t` contains everything `t` contains. */
  lemma ContainsTransitive(s: string, t: string, u: string)
    requires Contains(s, t) && Contains(t, u)
    ensures Contains(s, u)
  {
    var i :| 0 <= i <= |s| - |t| && t <= s[i..];
    var j :| 0 <= j <= |t| - |u| && u <= t[j..];
    assert u == s[i + j..i + j + |u|] by {
      forall k | 0 <= k < |u| ensures u[k] == s[i + j + k] {
        assert u[k] == t[j + k] == s[i + j + k];
      }
    }
    ContainsAt(s, u, i + j);
  }

  /**
   * Index of the first group of `groups` holding a word contained in `s`,
   * searching from group `from` on: the first-match-wins shape of an
   * `if any(...) elif any(...)` chain.
   */
  function FirstMatchingGroup(s: string, groups: seq<seq<string>>, from: nat): (r: Option<nat>)
    requires from <= |groups|
    ensures r.Some? ==> from <= r.value < |groups| && ContainsAny(s, groups[r.value])
    ensures r.Some? ==> forall j | from <= j < r.value :: !ContainsAny(s, groups[j])
    ensures r.None? ==> forall j | from <= j < |groups| :: !ContainsAny(s, groups[j])
    decreases |groups| - from
  {
    if from == |groups| then None
    else if ContainsAny(s, groups[from]) then Some(from)
    else FirstMatchingGroup(s, groups, from + 1)
  }

  // ---------------------------------------------------------- split, join

  /** Python's `sep.join(parts)`. */
  function Join(parts: seq<string>, sep: string): string
  {
    if |parts| == 0 then ""
    else if |parts| == 1 then parts[0]
    else parts[0] + sep + Join(parts[1..], sep)
  }

  function IndexOf(s: string, c: char): (i: nat)
    requires c in s
    ensures i < |s| && s[i] == c && c !in s[..i]
  {
    if s[0] == c then 0 else IndexOf(s[1..], c) + 1
  }

  lemma {:induction false} IndexOfAfter(a: string, c: char, b: string)
    requires c !in a
    ensures IndexOf(a + [c] + b, c) == |a|
  {
    if a != [] {
      assert (a + [c] + b)[1..] == a[1..] + [c] + b;
      IndexOfAfter(a[1..], c, b);
    }
  }

  /** Python's `s.split(sep)` for a one-character separator. */
  function Split(s: string, sep: char): (parts: seq<string>)
    ensures |parts| >= 1
    ensures forall p <- parts :: sep !in p
    ensures Join(parts, [sep]) == s
    decreases |s|
  {
    if sep !in s then [s]
    else
      var i := IndexOf(s, sep);
      assert s == s[..i] + [sep] + s[i + 1..];
      [s[..i]] + Split(s[i + 1..], sep)
  }

  /** Splitting undoes joining, when no part holds the separator. */
  lemma {:induction false} SplitJoin(parts: seq<string>, sep: char)
    requires |parts| >= 1
    requires forall p <- parts :: sep !in p
    ensures Split(Join(parts, [sep]), sep) == parts
  {
    if |parts| > 1 {
      var s := Join(parts, [sep]);
      var rest := Join(parts[1..], [sep]);
      assert s == parts[0] + [sep] + rest;
      assert s[|parts[0]|] == sep;
      assert s[..|parts[0]|] == parts[0];
      IndexOfAfter(parts[0], sep, rest);
      assert s[|parts[0]| + 1..] == rest;
      SplitJoin(parts[1..], sep);
    }
  }

  /** Python's `t.split(c, 1)` for a `t` that holds `c`: the text before and after its first `c`. */
  function SplitFirst(t: string, c: char): (kv: (string, string))
    requires c in t
    ensures kv.0 + [c] + kv.1 == t && c !in kv.0
  {
    var i := IndexOf(t, c);
    assert t == t[..i] + [c] + t[i + 1..];
    (t[..i], t[i + 1..])
  }

  lemma SplitFirstOf(key: string, c: char, value: string)
    requires c !in key
    ensures SplitFirst(key + [c] + value, c) == (key, value)
  {
    var t := key + [c] + value;
    IndexOfAfter(key, c, value);
    assert t[..|key|] == key;
    assert t[|key| + 1..] == value;
  }
}
