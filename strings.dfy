/**
 * The string built-ins of JavaScript and Python that the core relies on:
 * `trim`, `split` on one character, `toLowerCase` on the letters the core compares,
 * `startswith`, `replace(old, new, 1)`, `split(sep, 1)[0]`, UTF-16 length and the
 * decimal text of an integer.
 */
module Strings {

  /** The characters ECMAScript counts as WhiteSpace or LineTerminator: what `trim` strips
      and what the regular-expression class `\s` matches. */
  predicate IsJsWhitespace(c: char) {
    || c == '\t' || c == '\n' || c == '\U{B}' || c == '\U{C}' || c == '\r' || c == ' '
    || c == '\U{A0}' || c == '\U{1680}' || ('\U{2000}' <= c <= '\U{200A}')
    || c == '\U{2028}' || c == '\U{2029}' || c == '\U{202F}' || c == '\U{205F}'
    || c == '\U{3000}' || c == '\U{FEFF}'
  }

  ghost predicate AllWhitespace(s: string) {
    forall i | 0 <= i < |s| :: IsJsWhitespace(s[i])
  }

  /** `s.trimStart()`: the suffix of `s` left after its leading whitespace. */
  function TrimStart(s: string): (r: string)
    ensures |r| <= |s| && r == s[|s| - |r|..]
    ensures AllWhitespace(s[..|s| - |r|])
    ensures r == [] || !IsJsWhitespace(r[0])
  {
    if |s| > 0 && IsJsWhitespace(s[0]) then TrimStart(s[1..]) else s
  }

  /** `s.trimEnd()`: the prefix of `s` left before its trailing whitespace. */
  function TrimEnd(s: string): (r: string)
    ensures |r| <= |s| && r == s[..|r|]
    ensures AllWhitespace(s[|r|..])
    ensures r == [] || !IsJsWhitespace(r[|r| - 1])
  {
    if |s| > 0 && IsJsWhitespace(s[|s| - 1]) then TrimEnd(s[..|s| - 1]) else s
  }

  /** `s.trim()`. */
  function Trim(s: string): string {
    TrimEnd(TrimStart(s))
  }

  /** A string trims to the empty string exactly when every character of it is whitespace. */
  lemma TrimEmptyIffAllWhitespace(s: string)
    ensures Trim(s) == "" <==> AllWhitespace(s)
  {
    var t := TrimStart(s);
    if Trim(s) == "" {
      assert t[0..] == t;
      assert t == [];
      assert s[..|s|] == s;
    }
  }

  /** `s.split(c)` in JavaScript and Python alike, for a one-character separator:
      the maximal runs of `s` between occurrences of `c`, in order. */
  function Split(s: string, c: char): (parts: seq<string>)
    ensures |parts| >= 1
  {
    if |s| == 0 then [""]
    else
      var rest := Split(s[1..], c);
      if s[0] == c then [""] + rest
      else [[s[0]] + rest[0]] + rest[1..]
  }

  /** No part holds the separator, and there is more than one part exactly when the string
      holds the separator. */
  lemma {:induction false} SplitParts(s: string, c: char)
    ensures |Split(s, c)| == 1 <==> c !in s
    ensures forall i | 0 <= i < |Split(s, c)| :: c !in Split(s, c)[i]
  {
    if |s| > 0 {
      SplitParts(s[1..], c);
      var rest := Split(s[1..], c);
      var parts := Split(s, c);
      assert s == [s[0]] + s[1..];
      if s[0] == c {
        assert parts == [""] + rest;
        forall i | 0 <= i < |parts| ensures c !in parts[i] {
          if i > 0 { assert parts[i] == rest[i - 1]; }
        }
      } else {
        assert parts == [[s[0]] + rest[0]] + rest[1..];
        forall i | 0 <= i < |parts| ensures c !in parts[i] {
          if i > 0 { assert parts[i] == rest[i]; }
        }
      }
    }
  }

  /** Puts the parts back together with `c` between consecutive ones (`parts.join(c)`). */
  function Join(parts: seq<string>, c: char): string
    requires |parts| >= 1
  {
    if |parts| == 1 then parts[0] else parts[0] + [c] + Join(parts[1..], c)
  }

  /** Splitting loses nothing: joining the parts again gives back the string. */
  lemma {:induction false} JoinSplit(s: string, c: char)
    ensures Join(Split(s, c), c) == s
  {
    if |s| > 0 {
      var rest := Split(s[1..], c);
      JoinSplit(s[1..], c);
      if s[0] == c {
        assert Split(s, c)[1..] == rest;
      } else {
        var parts := Split(s, c);
        if |rest| > 1 {
          assert parts[1..] == rest[1..];
        }
      }
    }
  }

  /** The last part of a split: `s.split(c).pop()` in JavaScript, `s.split(c)[-1]` in Python. */
  function LastPart(s: string, c: char): string {
    var parts := Split(s, c);
    parts[|parts| - 1]
  }

  /** The last part is the longest suffix of `s` free of `c`: it is a suffix, it holds no `c`,
      and it is either all of `s` or preceded by a `c`. */
  lemma {:induction false} LastPartIsMaximalSuffix(s: string, c: char)
    ensures var r := LastPart(s, c);
      && |r| <= |s| && r == s[|s| - |r|..] && c !in r
      && (|r| == |s| <==> c !in s)
      && (|r| < |s| ==> s[|s| - |r| - 1] == c)
  {
    if |s| > 0 {
      var t := s[1..];
      LastPartIsMaximalSuffix(t, c);
      SplitParts(t, c);
      assert s == [s[0]] + t;
      var rest := Split(t, c);
      var parts := Split(s, c);
      var r' := LastPart(t, c);
      var r := LastPart(s, c);
      if s[0] == c {
        assert parts == [""] + rest;
        assert r == r';
        assert s[|s| - |r|..] == t[|t| - |r'|..];
        assert c in s && |r| < |s|;
        if |r'| < |t| {
          assert s[|s| - |r| - 1] == t[|t| - |r'| - 1];
        }
      } else if |rest| == 1 {
        assert c !in t && r' == t;
        assert parts == [[s[0]] + rest[0]];
        assert r == s;
      } else {
        assert parts == [[s[0]] + rest[0]] + rest[1..];
        assert r == r';
        assert c in t && |r'| < |t|;
        assert s[|s| - |r|..] == t[|t| - |r'|..];
        assert s[|s| - |r| - 1] == t[|t| - |r'| - 1];
      }
    }
  }


  /** A string that holds no `c` splits into itself alone. */
  lemma SplitWithoutSeparator(s: string, c: char)
    requires c !in s
    ensures Split(s, c) == [s]
  {
    SplitParts(s, c);
    JoinSplit(s, c);
  }

  function LowerChar(c: char): char {
    if 'A' <= c <= 'Z' then (c as int + 32) as char else c
  }

  /** `s.toLowerCase()` on the ASCII letters; every other character is kept as it is. */
  function AsciiLower(s: string): (r: string)
    ensures |r| == |s|
    ensures forall i | 0 <= i < |s| :: r[i] == LowerChar(s[i])
  {
    seq(|s|, i requires 0 <= i < |s| => LowerChar(s[i]))
  }

  /** The number of UTF-16 code units of `s` (JavaScript's `length`): a character outside the
      Basic Multilingual Plane takes two. */
  function Utf16Length(s: string): (n: nat)
    ensures |s| <= n <= 2 * |s|
  {
    if |s| == 0 then 0
    else (if s[0] as int > 0xFFFF then 2 else 1) + Utf16Length(s[1..])
  }

  /** Does `pat` occur in `s` at position `i`? */
  predicate OccursAt(pat: string, s: string, i: nat) {
    i + |pat| <= |s| && s[i..i + |pat|] == pat
  }

  /** Python's `s.replace(pat, rep, 1)`: the first occurrence of `pat`, if any, replaced by `rep`. */
  function ReplaceFirst(s: string, pat: string, rep: string): (r: string)
    ensures (forall i: nat | i <= |s| :: !OccursAt(pat, s, i)) ==> r == s
    decreases |s|
  {
    if pat <= s then assert OccursAt(pat, s, 0); rep + s[|pat|..]
    else if |s| == 0 then s
    else
      assert forall i: nat | i <= |s| - 1 :: OccursAt(pat, s[1..], i) ==> OccursAt(pat, s, i + 1)
        by {
          forall i: nat | i <= |s| - 1 && OccursAt(pat, s[1..], i) ensures OccursAt(pat, s, i + 1) {
            assert s[1..][i..i + |pat|] == s[i + 1..i + 1 + |pat|];
          }
        }
      [s[0]] + ReplaceFirst(s[1..], pat, rep)
  }

  /** When `s` starts with `pat`, replacing the first occurrence swaps that prefix for `rep`. */
  lemma ReplaceFirstOfPrefix(s: string, pat: string, rep: string)
    requires pat <= s
    ensures ReplaceFirst(s, pat, rep) == rep + s[|pat|..]
  {
  }

  /** Python's `s.split(sep, 1)[0]`: the text before the first occurrence of `sep`, or all of `s`. */
  function BeforeFirst(s: string, sep: string): (r: string)
    requires |sep| > 0
    ensures r <= s
  {
    if sep <= s then ""
    else if |s| == 0 then ""
    else [s[0]] + BeforeFirst(s[1..], sep)
  }

  /** If `s` starts with `t + sep` and `sep` does not start anywhere inside `t`, the text
      before the first `sep` is exactly `t`. */
  lemma {:induction false} BeforeFirstOfPrefix(s: string, t: string, sep: string)
    requires |sep| > 0
    requires t + sep <= s
    requires forall i | 0 <= i < |t| :: !(sep <= s[i..])
    ensures BeforeFirst(s, sep) == t
  {
    if |t| > 0 {
      assert !(sep <= s[0..]);
      assert s[0..] == s;
      assert t[1..] + sep <= s[1..];
      forall i | 0 <= i < |t| - 1 ensures !(sep <= s[1..][i..]) {
        assert s[1..][i..] == s[i + 1..];
      }
      BeforeFirstOfPrefix(s[1..], t[1..], sep);
    }
  }

  function DigitChar(d: nat): char
    requires d < 10
  {
    "0123456789"[d]
  }

  predicate IsDigit(c: char) {
    '0' <= c <= '9'
  }

  /** The decimal digits of `n`, most significant first, without leading zeros. */
  function NatToString(n: nat): (r: string)
    ensures |r| >= 1
    ensures forall i | 0 <= i < |r| :: IsDigit(r[i])
    ensures |r| > 1 ==> r[0] != '0'
  {
    if n < 10 then [DigitChar(n)] else NatToString(n / 10) + [DigitChar(n % 10)]
  }

  /** The number a string of decimal digits denotes. */
  function DecimalValue(s: string): nat
    requires forall i | 0 <= i < |s| :: IsDigit(s[i])
  {
    if |s| == 0 then 0
    else assert IsDigit(s[|s| - 1]); 10 * DecimalValue(s[..|s| - 1]) + (s[|s| - 1] as int - '0' as int)
  }

  /** Reading the printed digits back gives the number. */
  lemma {:induction false} NatToStringRoundTrip(n: nat)
    ensures DecimalValue(NatToString(n)) == n
  {
    var r := NatToString(n);
    if n >= 10 {
      NatToStringRoundTrip(n / 10);
      assert r[..|r| - 1] == NatToString(n / 10);
    }
  }

  /** The decimal text of an integer, with a leading `-` when negative
      (`String(n)` for a JavaScript number that is an integer). */
  function IntToString(n: int): string {
    if n < 0 then "-" + NatToString(-n) else NatToString(n)
  }

  lemma NatToStringInjective(a: nat, b: nat)
    requires NatToString(a) == NatToString(b)
    ensures a == b
  {
    NatToStringRoundTrip(a);
    NatToStringRoundTrip(b);
  }

  lemma NegativeNotNatText(a: int, b: nat)
    requires a < 0
    ensures "-" + NatToString(-a) != NatToString(b)
  {
    var y := NatToString(b);
    assert IsDigit(y[0]);
    assert ("-" + NatToString(-a))[0] == '-';
  }

  lemma NegativeTextInjective(a: int, b: int)
    requires a < 0 && b < 0
    requires "-" + NatToString(-a) == "-" + NatToString(-b)
    ensures a == b
  {
    var x, y := NatToString(-a), NatToString(-b);
    assert ("-" + x)[1..] == x && ("-" + y)[1..] == y;
    NatToStringInjective(-a, -b);
  }

  /** Distinct integers print differently. */
  lemma IntToStringInjective(a: int, b: int)
    requires IntToString(a) == IntToString(b)
    ensures a == b
  {
    if a >= 0 && b >= 0 {
      NatToStringInjective(a, b);
    } else if a < 0 && b < 0 {
      NegativeTextInjective(a, b);
    } else if a < 0 {
      NegativeNotNatText(a, b);
    } else {
      NegativeNotNatText(b, a);
    }
  }
}
