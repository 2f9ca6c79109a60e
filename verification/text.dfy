/** The string operations the core relies on: `char.IsWhiteSpace` /
    `string.IsNullOrWhiteSpace`, `Contains(q, StringComparison.OrdinalIgnoreCase)`,
    `TrimStart(c)`, `TrimEnd(c)` and "last `/`-separated segment". */
module Text {

  /** `char.IsWhiteSpace`: the Unicode space, line and paragraph separators
      plus the control characters U+0009..U+000D and U+0085. */
  predicate IsWhiteSpace(c: char)
  {
    || ('\U{0009}' <= c <= '\U{000D}')
    || c == '\U{0020}' || c == '\U{0085}' || c == '\U{00A0}' || c == '\U{1680}'
    || ('\U{2000}' <= c <= '\U{200A}')
    || c == '\U{2028}' || c == '\U{2029}' || c == '\U{202F}' || c == '\U{205F}' || c == '\U{3000}'
  }

  /** `string.IsNullOrWhiteSpace` on a non-null string: empty or all white space. */
  predicate IsBlank(s: string)
  {
    forall i :: 0 <= i < |s| ==> IsWhiteSpace(s[i])
  }

  /** Ordinal case folding of one character (ASCII letters map to upper case). */
  function Upper(c: char): (u: char)
    ensures 'a' <= c <= 'z' ==> u as int == c as int - 32
    ensures !('a' <= c <= 'z') ==> u == c
  {
    if 'a' <= c <= 'z' then (c as int - 32) as char else c
  }

  function Fold(s: string): (r: string)
    ensures |r| == |s| && forall i :: 0 <= i < |s| ==> r[i] == Upper(s[i])
  {
    seq(|s|, i requires 0 <= i < |s| => Upper(s[i]))
  }

  /** `q` occurs in `s` at position `i`, ignoring case. */
  ghost predicate MatchAt(s: string, q: string, i: int)
  {
    0 <= i && i + |q| <= |s| && Fold(s[i..i + |q|]) == Fold(q)
  }

  /** `s.StartsWith(q, OrdinalIgnoreCase)`. */
  predicate StartsWithIgnoreCase(s: string, q: string)
  {
    |q| <= |s| && Fold(s[..|q|]) == Fold(q)
  }

  /** `s.Contains(q, OrdinalIgnoreCase)`: scans the start positions of `s`
      from left to right. */
  predicate ContainsIgnoreCase(s: string, q: string)
    decreases |s|
  {
    StartsWithIgnoreCase(s, q) || (|s| > 0 && ContainsIgnoreCase(s[1..], q))
  }

  /** Dropping the first character shifts every match one place left. */
  lemma MatchShift(s: string, q: string, i: nat)
    requires |s| > 0
    ensures MatchAt(s[1..], q, i) <==> MatchAt(s, q, i + 1)
  {
    if i + |q| <= |s| - 1 {
      assert s[1..][i..i + |q|] == s[i + 1..i + 1 + |q|];
    }
  }

  /** A match at position 0 is a prefix match. */
  lemma MatchAtStart(s: string, q: string)
    ensures MatchAt(s, q, 0) <==> StartsWithIgnoreCase(s, q)
  {
    if |q| <= |s| {
      assert s[0..|q|] == s[..|q|];
    }
  }

  /** The scan agrees with the declarative reading: `q` occurs, ignoring case,
      at some position of `s`. */
  lemma {:induction false} ContainsIgnoreCaseIff(s: string, q: string)
    ensures ContainsIgnoreCase(s, q) <==> exists i :: MatchAt(s, q, i)
    decreases |s|
  {
    MatchAtStart(s, q);
    if |s| > 0 {
      var t := s[1..];
      ContainsIgnoreCaseIff(t, q);
      if ContainsIgnoreCase(t, q) {
        var i :| MatchAt(t, q, i);
        MatchShift(s, q, i);
      }
      if i :| MatchAt(s, q, i) && i > 0 {
        MatchShift(s, q, i - 1);
      }
    } else {
      if i :| MatchAt(s, q, i) {
        assert i == 0;
      }
    }
  }

  /** The empty query occurs in every string. */
  lemma ContainsEmpty(s: string)
    ensures ContainsIgnoreCase(s, "")
  {
    assert Fold(s[..0]) == Fold("");
  }

  /** Case does not matter on either side: folding the query changes nothing. */
  lemma ContainsFoldedQuery(s: string, q: string)
    ensures ContainsIgnoreCase(s, Fold(q)) <==> ContainsIgnoreCase(s, q)
  {
    assert Fold(Fold(q)) == Fold(q);
    ContainsIgnoreCaseIff(s, q);
    ContainsIgnoreCaseIff(s, Fold(q));
    if i :| MatchAt(s, q, i) {
      assert MatchAt(s, Fold(q), i);
    }
    if i :| MatchAt(s, Fold(q), i) {
      assert MatchAt(s, q, i);
    }
  }

  /** `s.TrimStart(c)`: `s` without its leading run of `c`. */
  function TrimStart(s: string, c: char): (r: string)
    ensures |r| <= |s| && r == s[|s| - |r|..]
    ensures forall i :: 0 <= i < |s| - |r| ==> s[i] == c
    ensures r == [] || r[0] != c
    decreases |s|
  {
    if |s| > 0 && s[0] == c then TrimStart(s[1..], c) else s
  }

  /** `s.TrimEnd(c)`: `s` without its trailing run of `c`. */
  function TrimEnd(s: string, c: char): (r: string)
    ensures |r| <= |s| && r == s[..|r|]
    ensures forall i :: |r| <= i < |s| ==> s[i] == c
    ensures r == [] || r[|r| - 1] != c
    decreases |s|
  {
    if |s| > 0 && s[|s| - 1] == c then TrimEnd(s[..|s| - 1], c) else s
  }

  /** `s.Split('/').Last()`: the text after the last `/` of `s` (all of `s`
      when it has none). */
  function LastSegment(s: string): (r: string)
    ensures |r| <= |s| && r == s[|s| - |r|..]
    ensures '/' !in r
    ensures |r| == |s| || s[|s| - |r| - 1] == '/'
    decreases |s|
  {
    if |s| == 0 || s[|s| - 1] == '/' then []
    else LastSegment(s[..|s| - 1]) + [s[|s| - 1]]
  }
}
