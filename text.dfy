/** String helpers with Python's meaning: `str.strip()`, `startswith`, `endswith` and `in`. */
module Text {

  /** The characters Python's `str.isspace()` accepts, which `str.strip()` removes. */
  predicate IsSpace(ch: char)
  {
    || ch == ' '
    || '\t' <= ch <= '\r'
    || '\U{1C}' <= ch <= '\U{1F}'
    || ch == '\U{85}' || ch == '\U{A0}' || ch == '\U{1680}'
    || '\U{2000}' <= ch <= '\U{200A}'
    || ch == '\U{2028}' || ch == '\U{2029}' || ch == '\U{202F}'
    || ch == '\U{205F}' || ch == '\U{3000}'
  }

  predicate AllSpace(s: string)
  {
    forall i | 0 <= i < |s| :: IsSpace(s[i])
  }

  /** Drops the leading white space: what remains is a suffix of `s` whose head is not white space. */
  function TrimStart(s: string): (r: string)
    ensures |r| <= |s| && r == s[|s| - |r|..]
    ensures AllSpace(s[..|s| - |r|])
    ensures r != [] ==> !IsSpace(r[0])
  {
    if |s| > 0 && IsSpace(s[0]) then
      var r := TrimStart(s[1..]);
      assert s[..|s| - |r|] == [s[0]] + s[1..][..|s| - 1 - |r|];
      r
    else
      s
  }

  /** Drops the trailing white space: what remains is a prefix of `s` whose last character is not white space. */
  function TrimEnd(s: string): (r: string)
    ensures |r| <= |s| && r == s[..|r|]
    ensures AllSpace(s[|r|..])
    ensures r != [] ==> !IsSpace(r[|r| - 1])
  {
    if |s| > 0 && IsSpace(s[|s| - 1]) then
      var r := TrimEnd(s[..|s| - 1]);
      assert s[|r|..] == s[..|s| - 1][|r|..] + [s[|s| - 1]];
      r
    else
      s
  }

  /** Python's `s.strip()`. */
  function Strip(s: string): string
  {
    TrimEnd(TrimStart(s))
  }

  /** `r` is `s[i..j]` and everything outside that slice is white space. */
  predicate IsTrimmedSlice(s: string, r: string, i: int, j: int)
  {
    0 <= i <= j <= |s| && r == s[i..j] && AllSpace(s[..i]) && AllSpace(s[j..])
  }

  /** The result of `strip()` is the slice `s[i..j]`, cut only at white space, with no white space at either edge. */
  lemma StripSlice(s: string) returns (i: int, j: int)
    ensures IsTrimmedSlice(s, Strip(s), i, j)
    ensures Strip(s) != [] ==> !IsSpace(Strip(s)[0]) && !IsSpace(Strip(s)[|Strip(s)| - 1])
  {
    var a := TrimStart(s);
    var r := TrimEnd(a);
    i := |s| - |a|;
    j := i + |r|;
    assert Strip(s) == r;
    SliceOfSuffix(s, a, r, i);
    assert r != [] ==> r[0] == a[0];
  }

  /** A prefix `r` of the suffix `s[i..]`, followed there by white space only, is the slice `s[i..i + |r|]`. */
  lemma SliceOfSuffix(s: string, a: string, r: string, i: int)
    requires 0 <= i <= |s| && a == s[i..]
    requires |r| <= |a| && r == a[..|r|] && AllSpace(a[|r|..])
    ensures r == s[i..i + |r|] && AllSpace(s[i + |r|..])
  {
    assert a[|r|..] == s[i + |r|..];
  }

  /** A string strips to nothing exactly when it is all white space. */
  lemma StripEmptyIffBlank(s: string)
    ensures Strip(s) == [] <==> AllSpace(s)
  {
    var a := TrimStart(s);
    var n := |s| - |a|;
    assert a == s[n..];
    // nothing left: TrimStart's remainder is itself all white space, so it is empty
    assert Strip(s) == [] ==> AllSpace(a[0..]);
    assert Strip(s) == [] ==> a == [];
    assert a == [] ==> s[..n] == s;
  }

  /** A string with no white space at either edge strips to itself. */
  lemma StripUntrimmed(s: string)
    requires |s| > 0 && !IsSpace(s[0]) && !IsSpace(s[|s| - 1])
    ensures Strip(s) == s
  {
    assert TrimStart(s) == s;
  }

  /** Leading white space is dropped whatever follows it. */
  lemma {:induction false} TrimStartPadded(a: string, t: string)
    requires AllSpace(a)
    ensures TrimStart(a + t) == TrimStart(t)
  {
    var s := a + t;
    if a == [] {
      assert s == t;
    } else {
      assert s[0] == a[0];
      assert TrimStart(s) == TrimStart(s[1..]);
      assert s[1..] == a[1..] + t;
      TrimStartPadded(a[1..], t);
    }
  }

  /** Trailing white space is dropped whatever precedes it. */
  lemma {:induction false} TrimEndPadded(t: string, b: string)
    requires AllSpace(b)
    ensures TrimEnd(t + b) == TrimEnd(t)
  {
    if b != [] {
      assert (t + b)[..|t + b| - 1] == t + b[..|b| - 1];
      TrimEndPadded(t, b[..|b| - 1]);
    } else {
      assert t + b == t;
    }
  }

  /** Text with no white space at its edges, padded with white space on both sides, strips back to itself. */
  lemma StripPadded(a: string, t: string, b: string)
    requires AllSpace(a) && AllSpace(b)
    requires t != [] && !IsSpace(t[0]) && !IsSpace(t[|t| - 1])
    ensures Strip(a + t + b) == t
  {
    assert a + t + b == a + (t + b);
    TrimStartPadded(a, t + b);
    assert TrimStart(t + b) == t + b;
    TrimEndPadded(t, b);
    StripUntrimmed(t);
    assert TrimStart(t) == t;
  }

  /** Python's `s.startswith(p)`. */
  predicate StartsWith(s: string, p: string)
  {
    p <= s
  }

  /** Python's `s.endswith(p)`. */
  predicate EndsWith(s: string, p: string)
  {
    |p| <= |s| && s[|s| - |p|..] == p
  }

  /** `needle` occurs in `haystack` starting at index `i`. */
  predicate OccursAt(needle: string, haystack: string, i: int)
  {
    0 <= i <= |haystack| - |needle| && haystack[i..i + |needle|] == needle
  }

  /** Python's `needle in haystack` on two strings. */
  predicate IsSubstring(needle: string, haystack: string)
  {
    exists i | 0 <= i <= |haystack| - |needle| :: OccursAt(needle, haystack, i)
  }

  /** A needle holding a character that the haystack lacks does not occur in it. */
  lemma MissingCharNotSubstring(needle: string, haystack: string, k: int)
    requires 0 <= k < |needle| && needle[k] !in haystack
    ensures !IsSubstring(needle, haystack)
  {
    forall i | 0 <= i <= |haystack| - |needle| ensures !OccursAt(needle, haystack, i) {
      assert haystack[i..i + |needle|][k] == haystack[i + k];
      assert haystack[i + k] in haystack;
    }
  }
}
