/**
 * The handful of JavaScript string operations the page handlers rely on:
 * `includes`, a global `replace` of a literal regular expression by the
 * empty string (with or without the `i` flag), `trim` and `toLowerCase`.
 */
module JsText {

  /** ASCII lower-casing of one character; every other character is kept. */
  function LowerChar(c: char): char
  {
    if 'A' <= c <= 'Z' then (c as int + 32) as char else c
  }

  /** `String.prototype.toLowerCase`, on the ASCII letters. */
  function ToLowerCase(s: string): (r: string)
    ensures |r| == |s|
    ensures forall i :: 0 <= i < |s| ==> r[i] == LowerChar(s[i])
  {
    seq(|s|, i requires 0 <= i < |s| => LowerChar(s[i]))
  }

  /** Every character is its own lower case. */
  predicate IsLower(w: string)
  {
    forall k :: 0 <= k < |w| ==> LowerChar(w[k]) == w[k]
  }

  /** Character comparison of a regular expression without (`ci` false) or
      with (`ci` true) the `i` flag. Without the `u` flag only ASCII letters
      have case variants among the characters matched here. */
  predicate SameChar(a: char, b: char, ci: bool)
  {
    if ci then LowerChar(a) == LowerChar(b) else a == b
  }

  /** `pat` occurs in `s` starting at position `i`. */
  predicate MatchAt(s: string, pat: string, i: nat, ci: bool)
  {
    i + |pat| <= |s| && forall k :: 0 <= k < |pat| ==> SameChar(s[i + k], pat[k], ci)
  }

  /** Some occurrence of `pat` in `s`. */
  predicate Occurs(s: string, pat: string, ci: bool)
  {
    exists i: nat :: i <= |s| && MatchAt(s, pat, i, ci)
  }

  /** `s.includes(pat)`: an exact, case-sensitive substring test. */
  predicate Includes(s: string, pat: string)
    ensures Includes(s, pat) <==> exists i :: 0 <= i <= |s| - |pat| && pat <= s[i..]
  {
    OccursIsPrefix(s, pat);
    Occurs(s, pat, false)
  }

  /** A case-sensitive match at `i` is `pat` being a prefix of `s[i..]`. */
  lemma MatchAtIsPrefix(s: string, pat: string, i: nat)
    requires i + |pat| <= |s|
    ensures MatchAt(s, pat, i, false) <==> pat <= s[i..]
  {
    if MatchAt(s, pat, i, false) {
      assert forall k :: 0 <= k < |pat| ==> s[i..i + |pat|][k] == pat[k];
    }
  }

  /** A case-sensitive occurrence is a position from which `s` starts with `pat`. */
  lemma OccursIsPrefix(s: string, pat: string)
    ensures Occurs(s, pat, false) <==> exists i :: 0 <= i <= |s| - |pat| && pat <= s[i..]
  {
    if Occurs(s, pat, false) {
      var i: nat :| i <= |s| && MatchAt(s, pat, i, false);
      MatchAtIsPrefix(s, pat, i);
    }
    if exists i :: 0 <= i <= |s| - |pat| && pat <= s[i..] {
      var i :| 0 <= i <= |s| - |pat| && pat <= s[i..];
      MatchAtIsPrefix(s, pat, i);
      assert MatchAt(s, pat, i, false);
    }
  }

  /** Searching the lower-cased string for a lower-case word is searching
      the string for the word in any letter case. */
  lemma LowerIncludesIffOccursIgnoringCase(s: string, w: string)
    requires IsLower(w)
    ensures Includes(ToLowerCase(s), w) <==> Occurs(s, w, true)
  {
    var l := ToLowerCase(s);
    forall i: nat | i <= |s| ensures MatchAt(l, w, i, false) <==> MatchAt(s, w, i, true) {
      if i + |w| <= |s| {
        assert forall k :: 0 <= k < |w| ==> (SameChar(l[i + k], w[k], false) <==> SameChar(s[i + k], w[k], true));
      }
    }
  }

  /**
   * `s.replace(/pat/g, '')` (or `/pat/gi` when `ci`) for a literal pattern:
   * the string is scanned once from left to right; an occurrence that starts
   * at the scan position is deleted and the scan resumes just after it,
   * otherwise the character is kept and the scan moves on by one. Deleted
   * occurrences never overlap and the output is never scanned again.
   */
  function RemoveAll(s: string, pat: string, ci: bool): (r: string)
    requires |pat| > 0
    ensures |r| <= |s|
    decreases |s|
  {
    if |s| == 0 then ""
    else if MatchAt(s, pat, 0, ci) then RemoveAll(s[|pat|..], pat, ci)
    else [s[0]] + RemoveAll(s[1..], pat, ci)
  }

  /** An occurrence at position i + 1 of s is one at i of s[1..]. */
  lemma MatchAtTail(s: string, pat: string, i: nat, ci: bool)
    requires |s| > 0
    ensures MatchAt(s, pat, i + 1, ci) <==> MatchAt(s[1..], pat, i, ci)
  {
  }

  /** An occurrence makes the output strictly shorter. */
  lemma {:induction false} RemoveAllShortens(s: string, pat: string, ci: bool)
    requires |pat| > 0 && Occurs(s, pat, ci)
    ensures |RemoveAll(s, pat, ci)| < |s|
    decreases |s|
  {
    if !MatchAt(s, pat, 0, ci) {
      var i: nat :| i <= |s| && MatchAt(s, pat, i, ci);
      assert i > 0;
      MatchAtTail(s, pat, i - 1, ci);
      assert Occurs(s[1..], pat, ci);
      RemoveAllShortens(s[1..], pat, ci);
    }
  }

  /** Without an occurrence the string is copied. */
  lemma {:induction false} RemoveAllCopies(s: string, pat: string, ci: bool)
    requires |pat| > 0 && !Occurs(s, pat, ci)
    ensures RemoveAll(s, pat, ci) == s
    decreases |s|
  {
    if |s| > 0 {
      var t := s[1..];
      assert !MatchAt(s, pat, 0, ci);
      forall i: nat | i <= |t| ensures !MatchAt(t, pat, i, ci) {
        MatchAtTail(s, pat, i, ci);
      }
      RemoveAllCopies(t, pat, ci);
      assert s == [s[0]] + t;
    }
  }

  /** Deleting occurrences changes the string exactly when there is one. */
  lemma RemoveAllUnchanged(s: string, pat: string, ci: bool)
    requires |pat| > 0
    ensures RemoveAll(s, pat, ci) == s <==> !Occurs(s, pat, ci)
  {
    if Occurs(s, pat, ci) {
      RemoveAllShortens(s, pat, ci);
    } else {
      RemoveAllCopies(s, pat, ci);
    }
  }

  /** No two adjacent `*` characters. */
  predicate NoDoubleStar(s: string)
  {
    forall i :: 0 <= i < |s| - 1 ==> !(s[i] == '*' && s[i + 1] == '*')
  }

  /** `NoDoubleStar` is "does not include `**`". */
  lemma NoDoubleStarIsNotIncludes(s: string)
    ensures NoDoubleStar(s) <==> !Includes(s, "**")
  {
    if !NoDoubleStar(s) {
      var i :| 0 <= i < |s| - 1 && s[i] == '*' && s[i + 1] == '*';
      assert MatchAt(s, "**", i, false);
    }
    if Includes(s, "**") {
      var i: nat :| i <= |s| && MatchAt(s, "**", i, false);
      assert SameChar(s[i + 0], "**"[0], false) && SameChar(s[i + 1], "**"[1], false);
    }
  }

  /** After one deletion pass of `**` no `**` is left, even where deleting
      brought two stars next to each other (`***` becomes `*`). */
  lemma {:induction false} RemoveDoubleStarLeavesNone(s: string)
    ensures NoDoubleStar(RemoveAll(s, "**", false))
    decreases |s|
  {
    var r := RemoveAll(s, "**", false);
    if |s| == 0 {
    } else if MatchAt(s, "**", 0, false) {
      RemoveDoubleStarLeavesNone(s[2..]);
    } else {
      var t := RemoveAll(s[1..], "**", false);
      RemoveDoubleStarLeavesNone(s[1..]);
      assert r == [s[0]] + t;
      if s[0] == '*' && |t| > 0 {
        // s does not start with `**`, so s[1] is kept and is not a star
        assert |s| >= 2 && s[1] != '*';
        assert !SameChar(s[1..][0 + 0], "**"[0], false);
        assert !MatchAt(s[1..], "**", 0, false);
        assert t[0] == s[1];
      }
    }
    NoDoubleStarIsNotIncludes(r);
  }

  /** Positions before the first occurrence are copied unchanged. */
  lemma {:induction false} RemoveAllKeepsPrefix(s: string, pat: string, ci: bool, n: nat)
    requires |pat| > 0 && n <= |s|
    requires forall j: nat :: j < n ==> !MatchAt(s, pat, j, ci)
    ensures RemoveAll(s, pat, ci) == s[..n] + RemoveAll(s[n..], pat, ci)
    decreases n
  {
    if n > 0 {
      var t := s[1..];
      assert !MatchAt(s, pat, 0, ci);
      NoMatchInTail(s, pat, ci, n);
      calc {
        RemoveAll(s, pat, ci);
        [s[0]] + RemoveAll(t, pat, ci);
        { RemoveAllKeepsPrefix(t, pat, ci, n - 1); }
        [s[0]] + (t[..n - 1] + RemoveAll(t[n - 1..], pat, ci));
        { assert t[n - 1..] == s[n..]; }
        [s[0]] + (t[..n - 1] + RemoveAll(s[n..], pat, ci));
        ([s[0]] + t[..n - 1]) + RemoveAll(s[n..], pat, ci);
        { assert s[..n] == [s[0]] + t[..n - 1]; }
        s[..n] + RemoveAll(s[n..], pat, ci);
      }
    }
  }

  /** No occurrence before position n of s is none before n - 1 of s[1..]. */
  lemma NoMatchInTail(s: string, pat: string, ci: bool, n: nat)
    requires 0 < n <= |s|
    requires forall j: nat :: j < n ==> !MatchAt(s, pat, j, ci)
    ensures forall j: nat :: j < n - 1 ==> !MatchAt(s[1..], pat, j, ci)
  {
    forall j: nat | j < n - 1 ensures !MatchAt(s[1..], pat, j, ci) {
      MatchAtTail(s, pat, j, ci);
    }
  }

  /** The first occurrence, at position n, is deleted and the scan goes on
      after it. */
  lemma RemoveAllAt(s: string, pat: string, ci: bool, n: nat)
    requires |pat| > 0 && MatchAt(s, pat, n, ci)
    requires forall j: nat :: j < n ==> !MatchAt(s, pat, j, ci)
    ensures RemoveAll(s, pat, ci) == s[..n] + RemoveAll(s[n + |pat|..], pat, ci)
  {
    RemoveAllKeepsPrefix(s, pat, ci, n);
    var rest := s[n..];
    assert forall k :: 0 <= k < |pat| ==> rest[k] == s[n + k];
    assert MatchAt(rest, pat, 0, ci);
    assert rest[|pat|..] == s[n + |pat|..];
  }

  /** A string shorter than the pattern is left as it is. */
  lemma RemoveAllShort(s: string, pat: string, ci: bool)
    requires 0 < |pat| && |s| < |pat|
    ensures RemoveAll(s, pat, ci) == s
  {
    RemoveAllUnchanged(s, pat, ci);
  }

  /** Deleting an occurrence can join its neighbours into a new one, which
      the single pass does not revisit: when no occurrence starts inside
      `a` and `a + b` is the pattern again, `a + pat + b` becomes `pat`. */
  lemma DeletionCanReformPattern(a: string, pat: string, b: string, ci: bool)
    requires a + b == pat && |b| < |pat|
    requires forall j: nat :: j < |a| ==> !MatchAt(a + pat + b, pat, j, ci)
    ensures RemoveAll(a + pat + b, pat, ci) == pat
  {
    var s := a + pat + b;
    assert MatchAt(s, pat, |a|, ci) by {
      forall k | 0 <= k < |pat| ensures SameChar(s[|a| + k], pat[k], ci) {
        assert s[|a| + k] == pat[k];
      }
    }
    assert s[..|a|] == a;
    assert s[|a| + |pat|..] == b;
    RemoveAllAt(s, pat, ci, |a|);
    RemoveAllShort(b, pat, ci);
  }

  /** `*cus*customer*tomer*` loses its inner `*customer*` and leaves
      `*customer*`. The two strings are parameters, not literals in the
      body, so that the solver does not unfold them through every
      definition it meets. */
  lemma CustomerMarkerCanSurvive(name: string, marker: string)
    requires name == "*cus*customer*tomer*" && marker == "*customer*"
    ensures RemoveAll(name, marker, true) == marker
  {
    var a, b := name[..4], name[14..];
    assert a + b == marker;
    assert name == a + marker + b;
    forall j: nat | j < |a| ensures !MatchAt(name, marker, j, true) {
      if j == 0 {
        assert !SameChar(name[0 + 4], marker[4], true);
      } else {
        assert !SameChar(name[j + 0], marker[0], true);
      }
    }
    DeletionCanReformPattern(a, marker, b, true);
  }

  /** Whitespace and line terminators as `String.prototype.trim` removes them:
      space, tab and the line breaks among them, and never a star or a
      letter with a case variant. */
  predicate IsWhiteSpace(c: char)
    ensures c == ' ' || c == '\t' || c == '\n' || c == '\r' ==> IsWhiteSpace(c)
    ensures IsWhiteSpace(c) ==> c != '*' && LowerChar(c) == c
  {
    var n := c as int;
    n == 0x09 || n == 0x0A || n == 0x0B || n == 0x0C || n == 0x0D || n == 0x20
    || n == 0xA0 || n == 0x1680 || (0x2000 <= n <= 0x200A) || n == 0x2028 || n == 0x2029
    || n == 0x202F || n == 0x205F || n == 0x3000 || n == 0xFEFF
  }

  /** Drops the leading white space. */
  function TrimStart(s: string): (r: string)
    ensures |r| <= |s| && r == s[|s| - |r|..]
    ensures forall k :: 0 <= k < |s| - |r| ==> IsWhiteSpace(s[k])
    ensures |r| > 0 ==> !IsWhiteSpace(r[0])
  {
    if |s| > 0 && IsWhiteSpace(s[0]) then TrimStart(s[1..]) else s
  }

  /** Drops the trailing white space. */
  function TrimEnd(s: string): (r: string)
    ensures |r| <= |s| && r == s[..|r|]
    ensures forall k :: |r| <= k < |s| ==> IsWhiteSpace(s[k])
    ensures |r| > 0 ==> !IsWhiteSpace(r[|r| - 1])
  {
    if |s| > 0 && IsWhiteSpace(s[|s| - 1]) then TrimEnd(s[..|s| - 1]) else s
  }

  /** `String.prototype.trim`: the longest infix of `s` that neither starts
      nor ends with white space; everything cut off on either side is white
      space. */
  function Trim(s: string): (r: string)
    ensures |r| > 0 ==> !IsWhiteSpace(r[0]) && !IsWhiteSpace(r[|r| - 1])
    ensures exists lo: nat, hi: nat ::
              && lo <= hi <= |s| && r == s[lo..hi]
              && (forall k :: 0 <= k < lo ==> IsWhiteSpace(s[k]))
              && (forall k :: hi <= k < |s| ==> IsWhiteSpace(s[k]))
  {
    var e := TrimEnd(s);
    var r := TrimStart(e);
    assert r == s[|e| - |r|..|e|];
    r
  }

  /** A string that neither starts nor ends with white space is its own trim. */
  lemma TrimUnchanged(s: string)
    requires |s| > 0 ==> !IsWhiteSpace(s[0]) && !IsWhiteSpace(s[|s| - 1])
    ensures Trim(s) == s
  {
    assert TrimEnd(s) == s;
    assert TrimStart(s) == s;
  }

  /** Trimming twice is trimming once. */
  lemma TrimIdempotent(s: string)
    ensures Trim(Trim(s)) == Trim(s)
  {
    TrimUnchanged(Trim(s));
  }
}
