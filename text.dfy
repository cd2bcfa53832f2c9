/**
 * Whitespace trimming as done by Go's `strings.TrimSpace`: the characters for which
 * `unicode.IsSpace` holds are removed from both ends of a string, and nothing else changes.
 */
module Text {

  /** Go's `unicode.IsSpace`: the ASCII controls TAB..CR, SPACE, NEL, NBSP and the other
      Unicode White_Space characters. */
  predicate IsSpace(c: char)
    ensures c as int < 0x80 ==> (IsSpace(c) <==> c in {'\t', '\n', '\U{B}', '\U{C}', '\r', ' '})
  {
    ('\t' <= c <= '\r') || c == ' ' || c == '\U{85}' || c == '\U{A0}' || c == '\U{1680}'
    || ('\U{2000}' <= c <= '\U{200A}') || c == '\U{2028}' || c == '\U{2029}'
    || c == '\U{202F}' || c == '\U{205F}' || c == '\U{3000}'
  }

  predicate AllSpace(s: string)
  {
    forall k :: 0 <= k < |s| ==> IsSpace(s[k])
  }

  /** Every character of `s` at an index in lo..hi is whitespace. */
  predicate SpaceBetween(s: string, lo: int, hi: int)
    requires 0 <= lo <= hi <= |s|
  {
    forall k :: lo <= k < hi ==> IsSpace(s[k])
  }

  /** Neither end of `s` is whitespace. */
  predicate IsTrimmed(s: string)
  {
    s == [] || (!IsSpace(s[0]) && !IsSpace(s[|s| - 1]))
  }

  /** `s[i..j]` is `s` with its leading and trailing whitespace removed. */
  predicate StripsAt(s: string, i: int, j: int)
  {
    0 <= i <= j <= |s| && SpaceBetween(s, 0, i) && SpaceBetween(s, j, |s|)
    && (i < j ==> !IsSpace(s[i]) && !IsSpace(s[j - 1]))
  }

  /** `r` is `s` with its leading and trailing whitespace removed: a contiguous piece of `s`
      with only whitespace around it, itself neither starting nor ending with whitespace. */
  ghost predicate StrippedFrom(r: string, s: string)
  {
    exists i, j :: StripsAt(s, i, j) && r == s[i..j]
  }

  /** Drops the leading whitespace of `s`. */
  function TrimLeft(s: string): string
  {
    if s != [] && IsSpace(s[0]) then TrimLeft(s[1..]) else s
  }

  /** Drops the trailing whitespace of `s`. */
  function TrimRight(s: string): string
  {
    if s != [] && IsSpace(s[|s| - 1]) then TrimRight(s[..|s| - 1]) else s
  }

  /** Go's `strings.TrimSpace`. */
  function TrimSpace(s: string): (r: string)
    ensures |r| <= |s| && IsTrimmed(r)
  {
    TrimLeftSuffix(s);
    TrimRightPrefix(TrimLeft(s));
    TrimRight(TrimLeft(s))
  }

  /** TrimLeft leaves a suffix of its input, after only whitespace, that does not start with whitespace. */
  lemma {:induction false} TrimLeftSuffix(s: string)
    ensures |TrimLeft(s)| <= |s| && TrimLeft(s) == s[|s| - |TrimLeft(s)|..]
    ensures SpaceBetween(s, 0, |s| - |TrimLeft(s)|)
    ensures TrimLeft(s) == [] || !IsSpace(TrimLeft(s)[0])
  {
    if s != [] && IsSpace(s[0]) {
      TrimLeftSuffix(s[1..]);
    }
  }

  /** TrimRight leaves a prefix of its input, before only whitespace, that does not end with whitespace. */
  lemma {:induction false} TrimRightPrefix(s: string)
    ensures |TrimRight(s)| <= |s| && TrimRight(s) == s[..|TrimRight(s)|]
    ensures SpaceBetween(s, |TrimRight(s)|, |s|)
    ensures TrimRight(s) == [] || !IsSpace(TrimRight(s)[|TrimRight(s)| - 1])
  {
    if s != [] && IsSpace(s[|s| - 1]) {
      TrimRightPrefix(s[..|s| - 1]);
    }
  }

  /** TrimSpace removes whitespace from both ends and leaves the rest of its input as it was. */
  lemma TrimSpaceStrips(s: string)
    ensures StrippedFrom(TrimSpace(s), s) && IsTrimmed(TrimSpace(s))
  {
    var l := TrimLeft(s);
    var r := TrimRight(l);
    TrimLeftSuffix(s);
    TrimRightPrefix(l);
    var i := |s| - |l|;
    assert r != [] ==> r[0] == l[0];
    assert r == s[i..i + |r|];
    assert forall k :: i + |r| <= k < |s| ==> s[k] == l[k - i];
    assert StripsAt(s, i, i + |r|);
  }

  /** Where a non-empty stripped piece starts and ends is fixed by the string. */
  lemma StripsAtUnique(s: string, i1: int, j1: int, i2: int, j2: int)
    requires StripsAt(s, i1, j1) && StripsAt(s, i2, j2)
    ensures i1 < j1 <==> i2 < j2
    ensures i1 < j1 ==> i1 == i2 && j1 == j2
  {
  }

  /** Stripping determines its result: there is exactly one way to strip a string. */
  lemma StrippedUnique(s: string, r1: string, r2: string)
    requires StrippedFrom(r1, s) && StrippedFrom(r2, s)
    ensures r1 == r2
  {
    var i1, j1 :| StripsAt(s, i1, j1) && r1 == s[i1..j1];
    var i2, j2 :| StripsAt(s, i2, j2) && r2 == s[i2..j2];
    StripsAtUnique(s, i1, j1, i2, j2);
  }

  /** TrimSpace gives exactly the stripped form of its input, and nothing else does. */
  lemma TrimSpaceIsStripping(s: string, r: string)
    ensures StrippedFrom(r, s) <==> r == TrimSpace(s)
  {
    TrimSpaceStrips(s);
    if StrippedFrom(r, s) {
      StrippedUnique(s, r, TrimSpace(s));
    }
  }

  /** A string without whitespace at its ends is left unchanged. */
  lemma TrimSpaceKeepsTrimmed(s: string)
    requires IsTrimmed(s)
    ensures TrimSpace(s) == s
  {
    assert s == s[0..|s|] && StripsAt(s, 0, |s|);
    TrimSpaceStrips(s);
    StrippedUnique(s, s, TrimSpace(s));
  }

  /** Trimming twice is trimming once. */
  lemma TrimSpaceIdempotent(s: string)
    ensures TrimSpace(TrimSpace(s)) == TrimSpace(s)
  {
    TrimSpaceStrips(s);
    TrimSpaceKeepsTrimmed(TrimSpace(s));
  }

  /** A text made only of whitespace trims to the empty string, and only such a text does. */
  lemma TrimSpaceEmpty(s: string)
    ensures TrimSpace(s) == [] <==> AllSpace(s)
  {
    if AllSpace(s) {
      assert StripsAt(s, 0, 0) && s[0..0] == [];
      TrimSpaceStrips(s);
      StrippedUnique(s, [], TrimSpace(s));
    } else {
      var k :| 0 <= k < |s| && !IsSpace(s[k]);
      var r := TrimSpace(s);
      TrimSpaceStrips(s);
      var i, j :| StripsAt(s, i, j) && r == s[i..j];
    }
  }
}
