/** Whitespace stripping as Python's argument-less `str.strip()` does it. */
module Text {

  /** The characters Python's `str.isspace` accepts: ASCII tab to carriage
      return, the four information separators, space, next line, no-break
      space and the Unicode space separators and line/paragraph separators. */
  predicate IsSpace(c: char): (b: bool)
    ensures c < '\U{80}' ==> (b <==> c in AsciiSpaces)
  {
    || c == ' '
    || ('\t' <= c <= '\r')
    || ('\U{1c}' <= c <= '\U{1f}')
    || c == '\U{85}'
    || c == '\U{a0}'
    || c == '\U{1680}'
    || ('\U{2000}' <= c <= '\U{200a}')
    || c == '\U{2028}'
    || c == '\U{2029}'
    || c == '\U{202f}'
    || c == '\U{205f}'
    || c == '\U{3000}'
  }

  /** The ASCII whitespace characters, listed one by one: the six C
      whitespace characters and the four information separators. */
  const AsciiSpaces: set<char> :=
    {' ', '\t', '\n', '\U{0b}', '\U{0c}', '\r', '\U{1c}', '\U{1d}', '\U{1e}', '\U{1f}'}

  predicate AllSpace(s: string) {
    forall i :: 0 <= i < |s| ==> IsSpace(s[i])
  }

  lemma AllSpaceConcat(a: string, b: string)
    ensures AllSpace(a + b) <==> AllSpace(a) && AllSpace(b)
  {
    if AllSpace(a + b) {
      assert forall i :: 0 <= i < |a| ==> a[i] == (a + b)[i];
      assert forall i :: 0 <= i < |b| ==> b[i] == (a + b)[|a| + i];
    }
  }

  /** A string that neither starts nor ends with whitespace. */
  predicate Trimmed(s: string) {
    s == [] || (!IsSpace(s[0]) && !IsSpace(s[|s| - 1]))
  }

  /** `s` without its leading whitespace (`str.lstrip()`). */
  function TrimStart(s: string): (r: string)
    ensures |r| <= |s| && r == s[|s| - |r|..]
    ensures AllSpace(s[..|s| - |r|])
    ensures r != [] ==> !IsSpace(r[0])
    decreases |s|
  {
    if s != [] && IsSpace(s[0]) then
      var r := TrimStart(s[1..]);
      var n := |s| - |r|;
      assert s[1..][..n - 1] == s[1..n];
      assert forall i :: 1 <= i < n ==> s[i] == s[1..n][i - 1];
      r
    else s
  }

  /** `s` without its trailing whitespace (`str.rstrip()`). */
  function TrimEnd(s: string): (r: string)
    ensures |r| <= |s| && r == s[..|r|]
    ensures AllSpace(s[|r|..])
    ensures r != [] ==> !IsSpace(r[|r| - 1])
    decreases |s|
  {
    if s != [] && IsSpace(s[|s| - 1]) then
      var r := TrimEnd(s[..|s| - 1]);
      assert s[|r|..] == s[..|s| - 1][|r|..] + [s[|s| - 1]];
      r
    else s
  }

  /** `str.strip()`: `s` without whitespace at either end. */
  function Strip(s: string): (r: string)
    ensures Trimmed(r)
    ensures |r| <= |s|
    ensures exists i, j :: 0 <= i <= j <= |s| && r == s[i..j] && AllSpace(s[..i]) && AllSpace(s[j..])
  {
    var t := TrimStart(s);
    var r := TrimEnd(t);
    assert r != [] ==> r[0] == t[0];
    TrimmedSlice(s, t, r);
    r
  }

  /** Trimming both ends cuts off only whitespace, before and after. */
  lemma TrimmedSlice(s: string, t: string, r: string)
    requires |t| <= |s| && t == s[|s| - |t|..] && AllSpace(s[..|s| - |t|])
    requires |r| <= |t| && r == t[..|r|] && AllSpace(t[|r|..])
    ensures exists i, j :: 0 <= i <= j <= |s| && r == s[i..j] && AllSpace(s[..i]) && AllSpace(s[j..])
  {
    var i := |s| - |t|;
    var j := i + |r|;
    assert r == s[i..j] && s[j..] == t[|r|..];
  }

  /** Stripping leaves nothing exactly when the text is all whitespace. */
  lemma StripEmptyIffBlank(s: string)
    ensures Strip(s) == [] <==> AllSpace(s)
  {
    var t := TrimStart(s);
    if TrimEnd(t) == [] {
      assert AllSpace(t);
      assert s == s[..|s| - |t|] + t;
    }
  }

  /** Stripping twice is stripping once. */
  lemma StripIdempotent(s: string)
    ensures Strip(Strip(s)) == Strip(s)
  {
    TrimmedIsFixed(Strip(s));
  }

  /** A string without whitespace at its ends is left as it is. */
  lemma TrimmedIsFixed(s: string)
    requires Trimmed(s)
    ensures Strip(s) == s
  {
    assert TrimStart(s) == s;
    assert TrimEnd(s) == s;
  }

  /** Whitespace at the front of text that is not all whitespace stays in
      front of everything appended to it. */
  lemma {:induction false} TrimStartAppend(s: string, t: string)
    requires !AllSpace(s)
    ensures TrimStart(s + t) == TrimStart(s) + t
    decreases |s|
  {
    assert s != [];
    if IsSpace(s[0]) {
      assert (s + t)[1..] == s[1..] + t;
      assert !AllSpace(s[1..]) by {
        var i :| 0 <= i < |s| && !IsSpace(s[i]);
        assert s[1..][i - 1] == s[i];
      }
      TrimStartAppend(s[1..], t);
    }
  }

  /** A blank appended to the text makes no difference once stripped. */
  lemma StripDropsSpaceSuffix(s: string, blank: string)
    requires AllSpace(blank)
    ensures Strip(s + blank) == Strip(s)
  {
    if AllSpace(s) {
      assert AllSpace(s + blank);
    } else {
      TrimStartAppend(s, blank);
      TrimEndDropsSpaceSuffix(TrimStart(s), blank);
    }
  }

  lemma {:induction false} TrimEndDropsSpaceSuffix(s: string, blank: string)
    requires AllSpace(blank)
    ensures TrimEnd(s + blank) == TrimEnd(s)
    decreases |blank|
  {
    if blank != [] {
      var shorter := blank[..|blank| - 1];
      assert (s + blank)[..|s + blank| - 1] == s + shorter;
      TrimEndDropsSpaceSuffix(s, shorter);
    } else {
      assert s + blank == s;
    }
  }

  /** A blank put in front of the text makes no difference once stripped. */
  lemma {:induction false} StripDropsSpacePrefix(blank: string, s: string)
    requires AllSpace(blank)
    ensures Strip(blank + s) == Strip(s)
    decreases |blank|
  {
    if blank != [] {
      assert (blank + s)[1..] == blank[1..] + s;
      StripDropsSpacePrefix(blank[1..], s);
    } else {
      assert blank + s == s;
    }
  }
}
