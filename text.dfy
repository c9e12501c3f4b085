/** Whitespace handling of Python's `str.strip()` with no argument. */
module Text {

  /** The characters Python's `str.strip()` removes: the ASCII controls
      tab..carriage return and file/group/record/unit separators, NEXT LINE,
      NO-BREAK SPACE and the Unicode space separators. */
  const Whitespace: set<char> := {
    '\t', '\n', '\U{0B}', '\U{0C}', '\r', '\U{1C}', '\U{1D}', '\U{1E}', '\U{1F}', ' ',
    '\U{85}', '\U{A0}', '\U{1680}',
    '\U{2000}', '\U{2001}', '\U{2002}', '\U{2003}', '\U{2004}', '\U{2005}',
    '\U{2006}', '\U{2007}', '\U{2008}', '\U{2009}', '\U{200A}',
    '\U{2028}', '\U{2029}', '\U{202F}', '\U{205F}', '\U{3000}'
  }

  predicate IsSpace(c: char) {
    c in Whitespace
  }

  /** Empty or made only of whitespace. */
  predicate IsBlank(s: string) {
    forall i :: 0 <= i < |s| ==> IsSpace(s[i])
  }

  /** `s` without its leading whitespace. */
  function TrimStart(s: string): string {
    if |s| > 0 && IsSpace(s[0]) then TrimStart(s[1..]) else s
  }

  /** `s` without its trailing whitespace. */
  function TrimEnd(s: string): string {
    if |s| > 0 && IsSpace(s[|s| - 1]) then TrimEnd(s[..|s| - 1]) else s
  }

  /** TrimStart keeps the longest suffix of `s` that does not start with
      whitespace: everything it drops is whitespace. */
  lemma {:induction false} TrimStartDropsLeadingSpace(s: string)
    ensures |TrimStart(s)| <= |s| && TrimStart(s) == s[|s| - |TrimStart(s)|..]
    ensures forall k :: 0 <= k < |s| - |TrimStart(s)| ==> IsSpace(s[k])
    ensures TrimStart(s) != [] ==> !IsSpace(TrimStart(s)[0])
  {
    if |s| > 0 && IsSpace(s[0]) {
      var t := s[1..];
      TrimStartDropsLeadingSpace(t);
      var n := |TrimStart(t)|;
      assert TrimStart(s) == s[|s| - n..] by {
        assert TrimStart(s) == TrimStart(t) == t[|t| - n..];
        assert t[|t| - n..] == s[|s| - n..];
      }
      forall k | 0 <= k < |s| - n ensures IsSpace(s[k]) {
        if k > 0 { assert s[k] == t[k - 1]; }
      }
    }
  }

  /** TrimEnd keeps the longest prefix of `s` that does not end with
      whitespace: everything it drops is whitespace. */
  lemma {:induction false} TrimEndDropsTrailingSpace(s: string)
    ensures |TrimEnd(s)| <= |s| && TrimEnd(s) == s[..|TrimEnd(s)|]
    ensures forall k :: |TrimEnd(s)| <= k < |s| ==> IsSpace(s[k])
    ensures TrimEnd(s) != [] ==> !IsSpace(TrimEnd(s)[|TrimEnd(s)| - 1])
  {
    if |s| > 0 && IsSpace(s[|s| - 1]) {
      var t := s[..|s| - 1];
      TrimEndDropsTrailingSpace(t);
      var n := |TrimEnd(t)|;
      assert TrimEnd(s) == s[..n] by {
        assert TrimEnd(s) == TrimEnd(t) == t[..n];
        assert t[..n] == s[..n];
      }
      forall k | n <= k < |s| ensures IsSpace(s[k]) {
        if k < |s| - 1 { assert s[k] == t[k]; }
      }
    }
  }

  /** Python's `s.strip()`. */
  function Strip(s: string): (r: string)
    ensures |r| <= |s|
    ensures r != [] ==> !IsSpace(r[0]) && !IsSpace(r[|r| - 1])
  {
    TrimEndDropsTrailingSpace(s);
    TrimStartDropsLeadingSpace(TrimEnd(s));
    var r := TrimStart(TrimEnd(s));
    assert r != [] ==> r[|r| - 1] == TrimEnd(s)[|TrimEnd(s)| - 1];
    r
  }

  /** The stripped string is the slice of `s` between its leading and its
      trailing whitespace, and it neither starts nor ends with whitespace. */
  lemma StripIsInnerSlice(s: string)
    ensures exists i, j :: (0 <= i <= j <= |s| && Strip(s) == s[i..j]
                            && (forall k :: 0 <= k < i ==> IsSpace(s[k]))
                            && (forall k :: j <= k < |s| ==> IsSpace(s[k])))
    ensures Strip(s) != [] ==> !IsSpace(Strip(s)[0]) && !IsSpace(Strip(s)[|Strip(s)| - 1])
  {
    var e := TrimEnd(s);
    var r := TrimStart(e);
    TrimEndDropsTrailingSpace(s);
    TrimStartDropsLeadingSpace(e);
    var i, j := |e| - |r|, |e|;
    assert r == e[i..] == s[i..j];
    forall k | 0 <= k < i ensures IsSpace(s[k]) {
      assert s[k] == e[k];
    }
    assert 0 <= i <= j <= |s| && Strip(s) == s[i..j]
      && (forall k :: 0 <= k < i ==> IsSpace(s[k]))
      && (forall k :: j <= k < |s| ==> IsSpace(s[k]));
    if r != [] {
      assert r[|r| - 1] == e[|e| - 1];
    }
  }

  /** A line strips to the empty string exactly when it is blank. */
  lemma {:induction false} StripEmptyIffBlank(s: string)
    ensures Strip(s) == [] <==> IsBlank(s)
  {
    var e := TrimEnd(s);
    TrimEndDropsTrailingSpace(s);
    TrimStartDropsLeadingSpace(e);
    if Strip(s) == [] {
      assert e == [];
    } else {
      var r := Strip(s);
      assert r[0] == s[|e| - |r|];
    }
  }

  /** A trailing whitespace character, such as the newline a line read from a
      file ends with, does not change the stripped text. */
  lemma StripIgnoresTrailingSpace(s: string, c: char)
    requires IsSpace(c)
    ensures Strip(s + [c]) == Strip(s)
  {
    assert (s + [c])[..|s|] == s;
  }

  /** A string that neither starts nor ends with whitespace is left as it is. */
  lemma StripKeepsUnpadded(s: string)
    requires s != [] && !IsSpace(s[0]) && !IsSpace(s[|s| - 1])
    ensures Strip(s) == s
  {
  }
}
