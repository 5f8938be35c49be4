/** String helpers with Python's semantics: `str.isspace`, `str.strip`, `str.startswith`,
    `str.split(sep, 1)`, single-character `str.replace`, and ASCII `str.isalnum`. */
module Text {
  import opened Wrappers

  /** Python's `str.isspace()` for one character: the characters `str.strip()` removes and
      the regular-expression class `\s` matches in a `str` pattern. */
  predicate IsSpace(c: char) {
    ('\t' <= c <= '\r') || ('\U{1C}' <= c <= '\U{1F}') || c == ' ' || c == '\U{85}' || c == '\U{A0}'
    || c == '\U{1680}' || ('\U{2000}' <= c <= '\U{200A}') || c == '\U{2028}' || c == '\U{2029}'
    || c == '\U{202F}' || c == '\U{205F}' || c == '\U{3000}'
  }

  predicate AllSpace(s: string) {
    forall i :: 0 <= i < |s| ==> IsSpace(s[i])
  }

  /** Neither end of `s` is a whitespace character. */
  predicate Trimmed(s: string) {
    s == [] || (!IsSpace(s[0]) && !IsSpace(s[|s| - 1]))
  }

  /** `s.startswith(p)` */
  predicate StartsWith(s: string, p: string) {
    |p| <= |s| && s[..|p|] == p
  }

  /** Number of whitespace characters at the start of `s`. */
  function LeadingSpaces(s: string): (n: nat)
    ensures n <= |s|
    ensures forall i :: 0 <= i < n ==> IsSpace(s[i])
    ensures n < |s| ==> !IsSpace(s[n])
  {
    if s == [] || !IsSpace(s[0]) then 0 else 1 + LeadingSpaces(s[1..])
  }

  /** Number of whitespace characters at the end of `s`. */
  function TrailingSpaces(s: string): (n: nat)
    ensures n <= |s|
    ensures forall i :: |s| - n <= i < |s| ==> IsSpace(s[i])
    ensures n < |s| ==> !IsSpace(s[|s| - 1 - n])
  {
    if s == [] || !IsSpace(s[|s| - 1]) then 0 else 1 + TrailingSpaces(s[..|s| - 1])
  }

  /** `s.strip()`: drop the leading, then the trailing, whitespace. */
  function Strip(s: string): (r: string)
    ensures Trimmed(r)
    ensures |r| <= |s|
  {
    var t := s[LeadingSpaces(s)..];
    t[..|t| - TrailingSpaces(t)]
  }

  /** Strip takes back exactly the whitespace padding put around a trimmed string, so it
      recovers `s` from `pre + s + post`; with empty padding it leaves a trimmed string alone. */
  lemma {:induction false} StripPadded(pre: string, s: string, post: string)
    requires AllSpace(pre) && AllSpace(post) && Trimmed(s)
    ensures Strip(pre + s + post) == s
  {
    var x := pre + s + post;
    if s == [] {
      assert AllSpace(x) by {
        forall i | 0 <= i < |x| ensures IsSpace(x[i]) {
          if i < |pre| { assert x[i] == pre[i]; } else { assert x[i] == post[i - |pre|]; }
        }
      }
      AllSpaceLeading(x);
    } else {
      LeadingOfPadded(pre, s + post);
      assert x == pre + (s + post);
      assert x[|pre|..] == s + post;
      TrailingOfPadded(s, post);
    }
  }

  lemma AllSpaceLeading(x: string)
    requires AllSpace(x)
    ensures LeadingSpaces(x) == |x|
  {
  }

  lemma {:induction false} LeadingOfPadded(pre: string, t: string)
    requires AllSpace(pre) && t != [] && !IsSpace(t[0])
    ensures LeadingSpaces(pre + t) == |pre|
  {
    if pre != [] {
      assert (pre + t)[1..] == pre[1..] + t;
      LeadingOfPadded(pre[1..], t);
    } else {
      assert pre + t == t;
    }
  }

  lemma {:induction false} TrailingOfPadded(t: string, post: string)
    requires AllSpace(post) && t != [] && !IsSpace(t[|t| - 1])
    ensures TrailingSpaces(t + post) == |post|
    ensures (t + post)[..|t + post| - |post|] == t
  {
    if post != [] {
      var x := t + post;
      assert x[..|x| - 1] == t + post[..|post| - 1];
      TrailingOfPadded(t, post[..|post| - 1]);
    } else {
      assert t + post == t;
    }
  }

  /** Index of the first occurrence of `c` in `s`. */
  function IndexOf(s: string, c: char): (r: Option<nat>)
    ensures r.Some? ==> r.value < |s| && s[r.value] == c && c !in s[..r.value]
    ensures r.None? ==> c !in s
  {
    if s == [] then None
    else if s[0] == c then Some(0)
    else match IndexOf(s[1..], c)
      case None => None
      case Some(k) => (assert s[..k + 1] == [s[0]] + s[1..][..k]; Some(k + 1))
  }

  /** `s.split(sep, 1)` when it yields two parts: the text before the first `sep` and the text
      after it; `None` when `sep` does not occur (Python then yields one part). */
  function SplitOnce(s: string, sep: char): (r: Option<(string, string)>)
    ensures r.None? <==> sep !in s
    ensures r.Some? ==> s == r.value.0 + [sep] + r.value.1 && sep !in r.value.0
  {
    match IndexOf(s, sep)
    case None => None
    case Some(i) => (assert s == s[..i] + [sep] + s[i + 1..]; Some((s[..i], s[i + 1..])))
  }

  /** Splitting `a + [sep] + b` at its first `sep` gives back `a` and `b` when `a` has no `sep`. */
  lemma {:induction false} SplitOnceJoin(a: string, sep: char, b: string)
    requires sep !in a
    ensures SplitOnce(a + [sep] + b, sep) == Some((a, b))
  {
    var s := a + [sep] + b;
    assert s[|a|] == sep;
    var i := IndexOf(s, sep).value;
    assert i == |a|;
    assert s[..i] == a;
    assert s[i + 1..] == b;
  }

  /** `s.replace(from, to)` for single characters `from` and `to`. */
  function ReplaceChar(s: string, from: char, to: char): (r: string)
    ensures |r| == |s|
    ensures forall i :: 0 <= i < |s| ==> r[i] == (if s[i] == from then to else s[i])
  {
    if s == [] then [] else [if s[0] == from then to else s[0]] + ReplaceChar(s[1..], from, to)
  }

  predicate IsAsciiDigit(c: char) {
    '0' <= c <= '9'
  }

  /** An ASCII letter or digit: the ASCII part of what Python's `str.isalnum` accepts. */
  predicate IsAsciiAlnum(c: char) {
    IsAsciiDigit(c) || ('a' <= c <= 'z') || ('A' <= c <= 'Z')
  }
}
