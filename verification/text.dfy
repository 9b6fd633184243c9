/** String operations of the JavaScript runtime that the roast pipeline relies
    on: `includes`, `join`, a global literal `replace` and `trim`. Strings are
    sequences of characters; there is no case folding anywhere. */
module Text {

  /** `p` occurs in `s` starting at index `i`. */
  ghost predicate OccursAt(s: string, p: string, i: int) {
    0 <= i && i + |p| <= |s| && s[i..i + |p|] == p
  }

  /** `p` is a contiguous substring of `s` (the empty string is a substring of
      every string). */
  ghost predicate IsInfix(p: string, s: string) {
    exists i :: OccursAt(s, p, i)
  }

  /** `s.includes(p)`: tries every start position from left to right. */
  function Includes(s: string, p: string): (b: bool)
    ensures |p| == 0 ==> b
    ensures b ==> |p| <= |s|
    decreases |s|
  {
    if |p| > |s| then false
    else if s[..|p|] == p then true
    else Includes(s[1..], p)
  }

  /** The left-to-right scan finds `p` exactly when `p` occurs somewhere. */
  lemma {:induction false} IncludesIsInfix(s: string, p: string)
    ensures Includes(s, p) <==> IsInfix(p, s)
    decreases |s|
  {
    if |p| > |s| {
    } else if s[..|p|] == p {
      assert OccursAt(s, p, 0);
    } else {
      IncludesIsInfix(s[1..], p);
      if IsInfix(p, s) {
        var i :| OccursAt(s, p, i);
        assert i != 0;
        assert OccursAt(s[1..], p, i - 1);
      }
      if IsInfix(p, s[1..]) {
        var i :| OccursAt(s[1..], p, i);
        assert s[1..][i..i + |p|] == s[i + 1..i + 1 + |p|];
        assert OccursAt(s, p, i + 1);
      }
    }
  }

  /** An occurrence inside a slice is an occurrence in the whole string. */
  lemma InfixOfSlice(p: string, s: string, lo: int, hi: int)
    requires 0 <= lo <= hi <= |s|
    requires IsInfix(p, s[lo..hi])
    ensures IsInfix(p, s)
  {
    var i :| OccursAt(s[lo..hi], p, i);
    forall k | 0 <= k < |p|
      ensures s[lo + i + k] == p[k]
    {
      assert p[k] == s[lo..hi][i + k];
    }
    assert s[lo + i..lo + i + |p|] == p;
    assert OccursAt(s, p, lo + i);
  }

  /** Containment is transitive. */
  lemma InfixTransitive(a: string, b: string, c: string)
    requires IsInfix(a, b) && IsInfix(b, c)
    ensures IsInfix(a, c)
  {
    var i :| OccursAt(c, b, i);
    assert c[i..i + |b|] == b;
    InfixOfSlice(a, c, i, i + |b|);
  }

  /** `xs.join(sep)`: the elements in order with `sep` between neighbours. */
  function Join(xs: seq<string>, sep: string): (r: string)
    ensures |xs| == 0 ==> r == ""
    ensures |xs| == 1 ==> r == xs[0]
    ensures |xs| > 0 ==> |xs[0]| <= |r| && r[..|xs[0]|] == xs[0]
    ensures |xs| > 0 ==> |xs[|xs| - 1]| <= |r| && r[|r| - |xs[|xs| - 1]|..] == xs[|xs| - 1]
    decreases |xs|
  {
    if |xs| == 0 then ""
    else if |xs| == 1 then xs[0]
    else xs[0] + sep + Join(xs[1..], sep)
  }

  /** Joining a concatenation joins the parts with one separator between
      them; with `Join([x]) == x` this determines `Join` completely. */
  lemma {:induction false} JoinAppend(a: seq<string>, b: seq<string>, sep: string)
    requires |a| > 0 && |b| > 0
    ensures Join(a + b, sep) == Join(a, sep) + sep + Join(b, sep)
    decreases |a|
  {
    if |a| == 1 {
      assert (a + b)[1..] == b;
    } else {
      assert (a + b)[1..] == a[1..] + b;
      JoinAppend(a[1..], b, sep);
    }
  }

  /** Every joined element appears verbatim in the joined string. */
  lemma {:induction false} JoinContainsEach(xs: seq<string>, sep: string, k: int)
    requires 0 <= k < |xs|
    ensures IsInfix(xs[k], Join(xs, sep))
    decreases |xs|
  {
    var j := Join(xs, sep);
    if |xs| == 1 {
      assert OccursAt(j, xs[k], 0);
    } else if k == 0 {
      assert OccursAt(j, xs[0], 0);
    } else {
      JoinContainsEach(xs[1..], sep, k - 1);
      var rest := Join(xs[1..], sep);
      var off := |xs[0]| + |sep|;
      assert j == xs[0] + sep + rest;
      var i :| OccursAt(rest, xs[k], i);
      assert j[off + i..off + i + |xs[k]|] == rest[i..i + |xs[k]|];
      assert OccursAt(j, xs[k], off + i);
    }
  }

  /** `s.replace(/p/g, "")` for a literal, non-empty pattern `p`: the leftmost
      occurrence is removed and the search resumes after it. */
  function RemoveAll(s: string, p: string): (r: string)
    requires |p| > 0
    ensures |r| <= |s|
    decreases |s|
  {
    if |s| < |p| then s
    else if s[..|p|] == p then RemoveAll(s[|p|..], p)
    else [s[0]] + RemoveAll(s[1..], p)
  }

  /** Removing a pattern that does not occur leaves the string unchanged. */
  lemma {:induction false} RemoveAllAbsent(s: string, p: string)
    requires |p| > 0
    requires !IsInfix(p, s)
    ensures RemoveAll(s, p) == s
    decreases |s|
  {
    if |s| < |p| {
    } else {
      assert !OccursAt(s, p, 0);
      if IsInfix(p, s[1..]) {
        assert s[1..|s|] == s[1..];
        InfixOfSlice(p, s, 1, |s|);
      }
      RemoveAllAbsent(s[1..], p);
    }
  }

  /** A leading occurrence is removed and the scan resumes right after it,
      so the removal never looks back across a removed occurrence. */
  lemma RemoveAllDropsLeading(p: string, t: string)
    requires |p| > 0
    ensures RemoveAll(p + t, p) == RemoveAll(t, p)
  {
    assert (p + t)[..|p|] == p;
    assert (p + t)[|p|..] == t;
  }

  /** A prefix in which no occurrence starts is kept as it is. With
      RemoveAllDropsLeading this determines `RemoveAll` on every input:
      cut before the leftmost occurrence, keep, drop it, and carry on. */
  lemma {:induction false} RemoveAllKeepsPrefix(x: string, t: string, p: string)
    requires |p| > 0
    requires forall i :: 0 <= i < |x| ==> !OccursAt(x + t, p, i)
    ensures RemoveAll(x + t, p) == x + RemoveAll(t, p)
    decreases |x|
  {
    if |x| == 0 {
      assert x + t == t;
    } else {
      NoOccurrenceAfterHead(x, t, p);
      RemoveAllKeepsPrefix(x[1..], t, p);
      RemoveAllKeepsHead(x + t, p);
      assert (x + t)[1..] == x[1..] + t;
      assert [x[0]] + (x[1..] + RemoveAll(t, p)) == x + RemoveAll(t, p);
    }
  }

  /** Where no occurrence starts at the head, the head character is kept. */
  lemma RemoveAllKeepsHead(s: string, p: string)
    requires |p| > 0 && |s| > 0
    requires !OccursAt(s, p, 0)
    ensures RemoveAll(s, p) == [s[0]] + RemoveAll(s[1..], p)
  {
    if |s| >= |p| {
      assert s[..|p|] == s[0..|p|];
    } else {
      assert [s[0]] + s[1..] == s;
    }
  }

  /** Dropping the first character of the kept prefix keeps it free of
      occurrences. */
  lemma NoOccurrenceAfterHead(x: string, t: string, p: string)
    requires |x| > 0
    requires forall i :: 0 <= i < |x| ==> !OccursAt(x + t, p, i)
    ensures forall i :: 0 <= i < |x[1..]| ==> !OccursAt(x[1..] + t, p, i)
  {
    forall i | 0 <= i < |x[1..]|
      ensures !OccursAt(x[1..] + t, p, i)
    {
      assert !OccursAt(x + t, p, i + 1);
      if i + |p| <= |x[1..] + t| {
        assert (x + t)[i + 1..i + 1 + |p|] == (x[1..] + t)[i..i + |p|];
      }
    }
  }

  /** The characters JavaScript's `trim` removes: the WhiteSpace and
      LineTerminator code points of ECMA-262 (section 12.2 and 12.3 of the
      2023 edition), including every space separator of Unicode category Zs. */
  predicate IsWhitespace(c: char): (b: bool)
    ensures c in " \t\n\r" ==> b
    ensures b ==> c !in "`{}[]\""
  {
    || c == '\t' || c == '\n' || c == '\U{0B}' || c == '\U{0C}' || c == '\r'
    || c == ' ' || c == '\U{A0}' || c == '\U{1680}'
    || ('\U{2000}' <= c <= '\U{200A}')
    || c == '\U{2028}' || c == '\U{2029}' || c == '\U{202F}' || c == '\U{205F}'
    || c == '\U{3000}' || c == '\U{FEFF}'
  }

  /** `s` neither starts nor ends with whitespace. */
  predicate IsTrimmed(s: string) {
    |s| == 0 || (!IsWhitespace(s[0]) && !IsWhitespace(s[|s| - 1]))
  }

  /** Drops the leading whitespace: the result is the suffix of `s` that
      starts at its first non-whitespace character. */
  function TrimStart(s: string): (r: string)
    ensures |r| <= |s| && r == s[|s| - |r|..]
    ensures forall k :: 0 <= k < |s| - |r| ==> IsWhitespace(s[k])
    ensures |r| > 0 ==> !IsWhitespace(r[0])
    decreases |s|
  {
    if |s| > 0 && IsWhitespace(s[0]) then
      var r := TrimStart(s[1..]);
      assert s[1..][|s| - 1 - |r|..] == s[|s| - |r|..];
      assert forall k :: 1 <= k < |s| - |r| ==> s[k] == s[1..][k - 1];
      r
    else s
  }

  /** Drops the trailing whitespace: the result is the prefix of `s` that
      ends at its last non-whitespace character. */
  function TrimEnd(s: string): (r: string)
    ensures |r| <= |s| && r == s[..|r|]
    ensures forall k :: |r| <= k < |s| ==> IsWhitespace(s[k])
    ensures |r| > 0 ==> !IsWhitespace(r[|r| - 1])
    decreases |s|
  {
    if |s| > 0 && IsWhitespace(s[|s| - 1]) then TrimEnd(s[..|s| - 1]) else s
  }

  /** `r` is `s` with a whitespace-only prefix of length `lo` and a
      whitespace-only suffix removed. */
  ghost predicate IsTrimOf(r: string, s: string, lo: int) {
    && 0 <= lo && lo + |r| <= |s| && r == s[lo..lo + |r|]
    && (forall k :: 0 <= k < lo ==> IsWhitespace(s[k]))
    && (forall k :: lo + |r| <= k < |s| ==> IsWhitespace(s[k]))
  }

  /** `s.trim()`: leading and trailing whitespace removed. */
  function Trim(s: string): (r: string)
    ensures IsTrimmed(r)
  {
    TrimEnd(TrimStart(s))
  }

  /** The trimmed string is the slice of `s` between its leading and
      trailing whitespace. */
  lemma TrimIsSlice(s: string)
    ensures exists lo :: IsTrimOf(Trim(s), s, lo)
  {
    var t := TrimStart(s);
    var r := TrimEnd(t);
    var lo := |s| - |t|;
    SliceThenTrimEnd(s, t, r, lo);
    assert IsTrimOf(Trim(s), s, lo);
  }

  lemma SliceThenTrimEnd(s: string, t: string, r: string, lo: int)
    requires 0 <= lo <= |s| && t == s[lo..]
    requires forall k :: 0 <= k < lo ==> IsWhitespace(s[k])
    requires |r| <= |t| && r == t[..|r|]
    requires forall k :: |r| <= k < |t| ==> IsWhitespace(t[k])
    ensures IsTrimOf(r, s, lo)
  {
    assert r == s[lo..lo + |r|];
    forall k | lo + |r| <= k < |s|
      ensures IsWhitespace(s[k])
    {
      assert s[k] == t[k - lo];
    }
  }

  /** Trimming cannot create an occurrence of a pattern. */
  lemma TrimKeepsAbsence(p: string, s: string)
    requires !IsInfix(p, s)
    ensures !IsInfix(p, Trim(s))
  {
    TrimIsSlice(s);
    var lo :| IsTrimOf(Trim(s), s, lo);
    if IsInfix(p, Trim(s)) {
      InfixOfSlice(p, s, lo, lo + |Trim(s)|);
    }
  }

  /** A trimmed string is left alone by `trim`, so trimming is idempotent. */
  lemma TrimTrimmed(s: string)
    requires IsTrimmed(s)
    ensures Trim(s) == s
  {
  }

  lemma TrimIdempotent(s: string)
    ensures Trim(Trim(s)) == Trim(s)
  {
    TrimTrimmed(Trim(s));
  }
}
