/**
 * The JavaScript string operations the gateway relies on: `String.prototype.trim`,
 * `String.prototype.split` with a one-character separator, and its inverse `join`.
 * Strings are sequences of Unicode scalar values.
 */
module JsText {

  /**
   * The characters `trim` removes: ECMAScript's WhiteSpace (TAB, VT, FF, ZWNBSP and every
   * space separator of category Zs) and LineTerminator (LF, CR, LS, PS).
   */
  predicate IsWhitespace(c: char) {
    || c == '\t' || c == '\n' || c == '\U{000B}' || c == '\U{000C}' || c == '\r'
    || c == ' ' || c == '\U{00A0}' || c == '\U{1680}'
    || ('\U{2000}' <= c <= '\U{200A}')
    || c == '\U{2028}' || c == '\U{2029}' || c == '\U{202F}' || c == '\U{205F}'
    || c == '\U{3000}' || c == '\U{FEFF}'
  }

  predicate AllWhitespace(s: string) {
    forall i :: 0 <= i < |s| ==> IsWhitespace(s[i])
  }

  /** How many whitespace characters `trim` removes from the front of `s`: the longest such run. */
  function LeadingWhitespace(s: string): (n: nat)
    ensures n <= |s|
    ensures forall k :: 0 <= k < n ==> IsWhitespace(s[k])
    ensures n == |s| || !IsWhitespace(s[n])
    decreases |s|
  {
    if s != [] && IsWhitespace(s[0]) then 1 + LeadingWhitespace(s[1..]) else 0
  }

  /** How many whitespace characters `trim` removes from the end of `s`: the longest such run. */
  function TrailingWhitespace(s: string): (n: nat)
    ensures n <= |s|
    ensures forall k :: |s| - n <= k < |s| ==> IsWhitespace(s[k])
    ensures n == |s| || !IsWhitespace(s[|s| - n - 1])
    decreases |s|
  {
    if s != [] && IsWhitespace(s[|s| - 1]) then 1 + TrailingWhitespace(s[..|s| - 1]) else 0
  }

  /**
   * JavaScript's `s.trim()`: the infix of `s` left once its leading and its trailing
   * whitespace are removed.
   */
  function Trim(s: string): (r: string)
    ensures IsTrimmedInfix(r, s)
  {
    var i := LeadingWhitespace(s);
    var t := s[i..];
    var j := TrailingWhitespace(t);
    var r := t[..|t| - j];
    assert r == s[i..i + |r|];
    assert AllWhitespace(s[i + |r|..]) by {
      assert s[i + |r|..] == t[|t| - j..];
    }
    assert r == [] || (r[0] == s[i] && r[|r| - 1] == t[|t| - j - 1]);
    r
  }

  /**
   * `r` is what trimming `s` must give: the infix of `s` that starts after its leading
   * whitespace, is followed only by whitespace, and neither starts nor ends with whitespace.
   */
  predicate IsTrimmedInfix(r: string, s: string) {
    var i := LeadingWhitespace(s);
    && i + |r| <= |s| && r == s[i..i + |r|]
    && AllWhitespace(s[..i]) && AllWhitespace(s[i + |r|..])
    && (r == [] || (!IsWhitespace(r[0]) && !IsWhitespace(r[|r| - 1])))
  }

  /** `IsTrimmedInfix` has one solution: whatever meets it is what `Trim` returns. */
  lemma TrimUnique(r: string, s: string)
    requires IsTrimmedInfix(r, s)
    ensures r == Trim(s)
  {
    var i := LeadingWhitespace(s);
    var t := s[i..];
    var j := TrailingWhitespace(t);
    if r == [] {
      // Everything after the leading run is whitespace, so the run reaches the end.
      assert AllWhitespace(t);
      assert t == [];
    } else {
      assert r == t[..|r|] && t[|r|..] == s[i + |r|..];
      // Everything after `r` is whitespace, so the trailing run covers it ...
      assert forall m :: |r| <= m < |t| ==> IsWhitespace(t[m]) by {
        forall m | |r| <= m < |t| ensures IsWhitespace(t[m]) {
          assert t[m] == s[i + |r|..][m - |r|];
        }
      }
      // ... and `r` ends with a non-whitespace character, so the run stops there.
      assert !IsWhitespace(t[|r| - 1]);
      assert j == |t| - |r|;
    }
  }

  /** A string that neither starts nor ends with whitespace is left unchanged by `trim`. */
  lemma TrimFixedPoint(s: string)
    requires s == [] || (!IsWhitespace(s[0]) && !IsWhitespace(s[|s| - 1]))
    ensures Trim(s) == s
  {
  }

  /** Trimming twice is trimming once. */
  lemma TrimIdempotent(s: string)
    ensures Trim(Trim(s)) == Trim(s)
  {
    TrimFixedPoint(Trim(s));
  }

  /** The number of occurrences of `c` in `s`. */
  function Count(s: string, c: char): nat {
    if s == [] then 0 else (if s[0] == c then 1 else 0) + Count(s[1..], c)
  }

  /**
   * JavaScript's `s.split(sep)` for a one-character separator: the maximal runs between
   * separators, including the empty ones at either end.
   */
  function Split(s: string, sep: char): (r: seq<string>)
    ensures |r| == Count(s, sep) + 1
    ensures forall k :: 0 <= k < |r| ==> sep !in r[k]
  {
    if s == [] then [""]
    else
      var rest := Split(s[1..], sep);
      if s[0] == sep then [""] + rest
      else [[s[0]] + rest[0]] + rest[1..]
  }

  /** JavaScript's `parts.join(sep)` for a one-character separator. */
  function Join(parts: seq<string>, sep: char): string {
    if parts == [] then ""
    else if |parts| == 1 then parts[0]
    else parts[0] + [sep] + Join(parts[1..], sep)
  }

  lemma {:induction false} JoinConsHead(c: char, parts: seq<string>, sep: char)
    requires parts != []
    ensures Join([[c] + parts[0]] + parts[1..], sep) == [c] + Join(parts, sep)
  {
    var ps := [[c] + parts[0]] + parts[1..];
    assert ps[1..] == parts[1..];
  }

  /** Joining the pieces of a split with the same separator gives back the string. */
  lemma {:induction false} JoinSplit(s: string, sep: char)
    ensures Join(Split(s, sep), sep) == s
  {
    if s != [] {
      var rest := Split(s[1..], sep);
      JoinSplit(s[1..], sep);
      if s[0] == sep {
        assert ([""] + rest)[1..] == rest;
      } else {
        JoinConsHead(s[0], rest, sep);
      }
      assert s == [s[0]] + s[1..];
    }
  }

  /** Splitting a join of separator-free pieces gives back the pieces. */
  lemma {:induction false} SplitJoin(parts: seq<string>, sep: char)
    requires parts != []
    requires forall k :: 0 <= k < |parts| ==> sep !in parts[k]
    ensures Split(Join(parts, sep), sep) == parts
    decreases |parts|, |parts[0]|
  {
    var p := parts[0];
    if p == [] {
      if |parts| > 1 {
        SplitJoin(parts[1..], sep);
        assert Join(parts, sep) == [sep] + Join(parts[1..], sep);
        assert ([sep] + Join(parts[1..], sep))[1..] == Join(parts[1..], sep);
        assert [""] + parts[1..] == parts;
      }
    } else {
      var tail := [p[1..]] + parts[1..];
      assert tail[1..] == parts[1..];
      assert forall k :: 0 <= k < |tail| ==> sep !in tail[k] by {
        forall k | 0 <= k < |tail| ensures sep !in tail[k] {
          if k == 0 {
            assert forall x :: x in p[1..] ==> x in p;
          } else {
            assert tail[k] == parts[k];
          }
        }
      }
      SplitJoin(tail, sep);
      JoinConsHead(p[0], tail, sep);
      assert [p[0]] + p[1..] == p;
      assert [[p[0]] + tail[0]] + tail[1..] == [p] + parts[1..] == parts;
      var j := Join(parts, sep);
      assert j[0] == p[0] && j[1..] == Join(tail, sep);
      assert p[0] != sep by { assert p[0] in p; }
    }
  }

  predicate IsDigit(c: char) {
    '0' <= c <= '9'
  }

  /** The decimal digit for `d`. */
  function DigitChar(d: int): (c: char)
    requires 0 <= d < 10
    ensures IsDigit(c) && c as int - '0' as int == d
  {
    ('0' as int + d) as char
  }

  /** The number a run of decimal digits denotes, most significant digit first. */
  function DecimalValue(s: string): int {
    if s == [] then 0 else DecimalValue(s[..|s| - 1]) * 10 + (s[|s| - 1] as int - '0' as int)
  }

  /** The decimal text of a natural number, as a JavaScript template literal renders it. */
  function NatToString(n: nat): (r: string)
    ensures r != [] && forall i :: 0 <= i < |r| ==> IsDigit(r[i])
    ensures |r| > 1 ==> r[0] != '0'
    ensures DecimalValue(r) == n
  {
    if n < 10 then [DigitChar(n)]
    else
      var prefix := NatToString(n / 10);
      var r := prefix + [DigitChar(n % 10)];
      assert r[..|r| - 1] == prefix;
      r
  }
}
