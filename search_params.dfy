/**
 * Reading the query of a request URL into name/value pairs, as
 * `url.searchParams` does: the part after the first `?` and before any `#`
 * is cut at every `&`, empty pieces are dropped, and each piece is cut at its
 * first `=` (a piece without `=` has the empty value). Percent-decoding and
 * `+` as a space are not modelled.
 */
module SearchParams {
  import opened JsArray

  /** The query of a request as name/value pairs in order of appearance. */
  type Query = seq<(string, string)>

  /** The pieces of `s` between the separators, empty pieces included. */
  function Split(s: string, sep: char): (parts: seq<string>)
    ensures |parts| >= 1
    ensures forall i :: 0 <= i < |parts| ==> sep !in parts[i]
    decreases |s|
  {
    if |s| == 0 then [""]
    else
      var rest := Split(s[1..], sep);
      if s[0] == sep then [""] + rest
      else [[s[0]] + rest[0]] + rest[1..]
  }

  /** The pieces glued back together with the separator between them. */
  function Join(parts: seq<string>, sep: char): string
    requires |parts| >= 1
    decreases |parts|
  {
    if |parts| == 1 then parts[0] else parts[0] + [sep] + Join(parts[1..], sep)
  }

  /** Splitting loses nothing: joining the pieces gives the string back. */
  lemma {:induction false} JoinSplit(s: string, sep: char)
    ensures Join(Split(s, sep), sep) == s
    decreases |s|
  {
    if |s| > 0 {
      var rest := Split(s[1..], sep);
      JoinSplit(s[1..], sep);
      if s[0] == sep {
        assert Split(s, sep)[1..] == rest;
      } else if |rest| == 1 {
        assert Join(Split(s, sep), sep) == [s[0]] + rest[0];
      } else {
        var parts := Split(s, sep);
        assert parts[1..] == rest[1..];
        assert Join(rest, sep) == rest[0] + [sep] + Join(rest[1..], sep);
      }
    }
  }

  /** A piece without the separator followed by the separator is split off
      whole. */
  lemma {:induction false} SplitAfter(a: string, sep: char, b: string)
    requires sep !in a
    ensures Split(a + [sep] + b, sep) == [a] + Split(b, sep)
    decreases |a|
  {
    if a == [] {
      assert a + [sep] + b == [sep] + b;
      assert ([sep] + b)[1..] == b;
    } else {
      SplitAfter(a[1..], sep, b);
      assert (a + [sep] + b)[1..] == a[1..] + [sep] + b;
      assert [a[0]] + a[1..] == a;
    }
  }

  /** A string without the separator is one piece. */
  lemma {:induction false} SplitNone(a: string, sep: char)
    requires sep !in a
    ensures Split(a, sep) == [a]
    decreases |a|
  {
    if a != [] {
      SplitNone(a[1..], sep);
      assert [a[0]] + a[1..] == a;
    }
  }

  /** The position of the first `c` in `s`. */
  function IndexOf(s: string, c: char): (i: nat)
    requires c in s
    ensures i < |s| && s[i] == c && c !in s[..i]
  {
    if s[0] == c then 0
    else
      assert s == [s[0]] + s[1..];
      var j := IndexOf(s[1..], c);
      assert s[..j + 1] == [s[0]] + s[1..][..j];
      j + 1
  }

  /** One `name=value` piece, cut at its first `=`; a piece without `=` is a
      name with the empty value. */
  function ParsePair(piece: string): (pair: (string, string))
    ensures '=' !in pair.0
    ensures '=' !in piece ==> pair == (piece, "")
    ensures '=' in piece ==> pair.0 + "=" + pair.1 == piece
  {
    if '=' in piece then
      var i := IndexOf(piece, '=');
      assert piece[..i] + "=" + piece[i + 1..] == piece;
      (piece[..i], piece[i + 1..])
    else (piece, "")
  }

  /** The pairs of the given pieces, one per piece, in order. */
  function ParsePieces(pieces: seq<string>): (q: Query)
    ensures |q| == |pieces|
    ensures forall i :: 0 <= i < |q| ==> q[i] == ParsePair(pieces[i])
  {
    seq(|pieces|, i requires 0 <= i < |pieces| => ParsePair(pieces[i]))
  }

  /** Parsing pieces distributes over concatenation. */
  lemma ParsePiecesAppend(a: seq<string>, b: seq<string>)
    ensures ParsePieces(a + b) == ParsePieces(a) + ParsePieces(b)
  {
    assert forall i :: |a| <= i < |a + b| ==> (a + b)[i] == b[i - |a|];
  }

  /** A piece that is not empty. */
  predicate NonEmpty(piece: string)
  {
    piece != ""
  }

  /** The name/value pairs of a query string. */
  function ParseQuery(query: string): (q: Query)
    ensures |q| <= |Split(query, '&')|
  {
    ParsePieces(Filter(Split(query, '&'), NonEmpty))
  }

  /** The query part of a URL: after the first `?`, before any `#`. */
  function QueryOf(url: string): (query: string)
    ensures '#' !in query
    ensures '?' !in Split(url, '#')[0] ==> query == ""
  {
    var beforeFragment := Split(url, '#')[0];
    if '?' in beforeFragment then beforeFragment[IndexOf(beforeFragment, '?') + 1..] else ""
  }

  /** A piece without `&` is at most one pair: none when it is empty. */
  lemma ParseQueryOne(piece: string)
    requires '&' !in piece
    ensures ParseQuery(piece) == if piece == "" then [] else [ParsePair(piece)]
  {
    SplitNone(piece, '&');
    var ps: seq<string> := [piece];
    assert ps[1..] == [];
  }

  /** The pairs of `a&b` are those of `a` followed by those of `b` when `a`
      holds no `&`: a query is read piece by piece, in order. */
  lemma ParseQueryAppend(a: string, b: string)
    requires '&' !in a
    ensures ParseQuery(a + "&" + b) == ParseQuery(a) + ParseQuery(b)
  {
    assert a + "&" + b == a + ['&'] + b;
    SplitAfter(a, '&', b);
    SplitNone(a, '&');
    FilterAppend([a], Split(b, '&'), NonEmpty);
    ParsePiecesAppend(Filter([a], NonEmpty), Filter(Split(b, '&'), NonEmpty));
  }

  /** The query of `p?x#f` is `x` when `p` holds no `?` and neither `p` nor
      `x` holds `#`; `f`, when present, starts with `#`. */
  lemma QueryOfUrl(p: string, x: string, f: string)
    requires '?' !in p && '#' !in p && '#' !in x
    requires f == [] || f[0] == '#'
    ensures QueryOf(p + "?" + x + f) == x
  {
    var b := p + "?" + x;
    assert '#' !in b;
    if f == [] {
      assert p + "?" + x + f == b;
      SplitNone(b, '#');
    } else {
      assert p + "?" + x + f == b + ['#'] + f[1..];
      SplitAfter(b, '#', f[1..]);
    }
    assert b[|p|] == '?' && b[..|p|] == p;
    assert IndexOf(b, '?') == |p|;
    assert b[|p| + 1..] == x;
  }

  /** A `name=value` piece whose name holds no `=` reads back as that pair. */
  lemma ParsePairOf(name: string, value: string)
    requires '=' !in name
    ensures ParsePair(name + "=" + value) == (name, value)
  {
    var piece := name + "=" + value;
    assert piece[|name|] == '=' && piece[..|name|] == name;
    assert IndexOf(piece, '=') == |name|;
    assert piece[|name| + 1..] == value;
  }

  /** A query of two `name=value` pairs reads back as those two pairs when
      neither name holds `=` and no part holds `&`. */
  lemma ParseTwoPairs(n1: string, v1: string, n2: string, v2: string)
    requires n1 != "" && n2 != ""
    requires '=' !in n1 && '=' !in n2
    requires '&' !in n1 && '&' !in v1 && '&' !in n2 && '&' !in v2
    ensures ParseQuery(n1 + "=" + v1 + "&" + n2 + "=" + v2) == [(n1, v1), (n2, v2)]
  {
    var p1, p2 := n1 + "=" + v1, n2 + "=" + v2;
    assert n1 + "=" + v1 + "&" + n2 + "=" + v2 == p1 + ['&'] + p2;
    assert Split(p1 + ['&'] + p2, '&') == [p1, p2] by {
      SplitAfter(p1, '&', p2);
      SplitNone(p2, '&');
    }
    assert Filter([p1, p2], NonEmpty) == [p1, p2] by {
      var ps: seq<string> := [p1, p2];
      assert ps[1..] == [p2] && ps[1..][1..] == [];
    }
    ParsePairOf(n1, v1);
    ParsePairOf(n2, v2);
  }
}
