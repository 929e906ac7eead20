/** The string primitives the pages rely on: `String.prototype.trim`, `toLowerCase`,
    `includes`, `startsWith`, `split(/\r?\n/)` and template-literal number formatting. */
module Text {

  /** The characters `trim` removes: ECMAScript WhiteSpace and LineTerminator code points. */
  predicate IsSpace(c: char) {
    || c == ' ' || c == '\t' || c == '\n' || c == '\r' || c == '\U{000B}' || c == '\U{000C}'
    || c == '\U{00A0}' || c == '\U{1680}' || ('\U{2000}' <= c <= '\U{200A}')
    || c == '\U{2028}' || c == '\U{2029}' || c == '\U{202F}' || c == '\U{205F}'
    || c == '\U{3000}' || c == '\U{FEFF}'
  }

  /** Every character of `s` is whitespace (so `s.trim() === ''`). */
  predicate IsBlank(s: string) {
    forall i :: 0 <= i < |s| ==> IsSpace(s[i])
  }

  /** Index of the first non-whitespace character at or after `k` (or `|s|`). */
  function SkipSpaces(s: string, k: nat): (r: nat)
    requires k <= |s|
    ensures k <= r <= |s|
    ensures forall j :: k <= j < r ==> IsSpace(s[j])
    ensures r < |s| ==> !IsSpace(s[r])
    decreases |s| - k
  {
    if k == |s| || !IsSpace(s[k]) then k else SkipSpaces(s, k + 1)
  }

  /** End of `s[lo..k]` once its trailing whitespace is dropped. */
  function SkipSpacesBack(s: string, lo: nat, k: nat): (r: nat)
    requires lo <= k <= |s|
    ensures lo <= r <= k
    ensures forall j :: r <= j < k ==> IsSpace(s[j])
    ensures r > lo ==> !IsSpace(s[r - 1])
    decreases k
  {
    if k == lo || !IsSpace(s[k - 1]) then k else SkipSpacesBack(s, lo, k - 1)
  }

  /** `s.trim()`: `s` without its leading and trailing whitespace. */
  function Trim(s: string): (r: string)
    ensures |r| <= |s|
    ensures r == [] <==> IsBlank(s)
    ensures r != [] ==> !IsSpace(r[0]) && !IsSpace(r[|r| - 1])
    ensures exists i :: TrimmedAt(s, r, i)
  {
    var i := SkipSpaces(s, 0);
    var e := SkipSpacesBack(s, i, |s|);
    assert TrimmedAt(s, s[i..e], i);
    s[i..e]
  }

  /** `r` is `s[i..i + |r|]` and only whitespace lies outside it. */
  predicate TrimmedAt(s: string, r: string, i: int) {
    && 0 <= i && i + |r| <= |s| && s[i..i + |r|] == r
    && (forall j :: 0 <= j < i ==> IsSpace(s[j]))
    && (forall j :: i + |r| <= j < |s| ==> IsSpace(s[j]))
  }

  /** Trimming is idempotent. */
  lemma TrimIdempotent(s: string)
    ensures Trim(Trim(s)) == Trim(s)
  {
    var r := Trim(s);
    if r != [] {
      assert SkipSpaces(r, 0) == 0;
      assert SkipSpacesBack(r, 0, |r|) == |r|;
    }
  }

  /** `toLowerCase` on one character; only the ASCII letters A-Z are mapped. */
  function LowerChar(c: char): char {
    if 'A' <= c <= 'Z' then (c as int + 32) as char else c
  }

  /** `s.toLowerCase()` restricted to ASCII letters. */
  function ToLower(s: string): (r: string)
    ensures |r| == |s|
    ensures forall i :: 0 <= i < |s| ==> r[i] == LowerChar(s[i])
  {
    seq(|s|, i requires 0 <= i < |s| => LowerChar(s[i]))
  }

  /** Lower-casing twice is lower-casing once. */
  lemma ToLowerIdempotent(s: string)
    ensures ToLower(ToLower(s)) == ToLower(s)
  {
  }

  /** Lower-casing never touches whitespace, so `s.toLowerCase().trim()` equals `s.trim().toLowerCase()`. */
  lemma TrimToLowerCommute(s: string)
    ensures Trim(ToLower(s)) == ToLower(Trim(s))
  {
    var t := ToLower(s);
    SkipSpacesToLower(s, 0);
    var i := SkipSpaces(s, 0);
    SkipSpacesBackToLower(s, i, |s|);
    var e := SkipSpacesBack(s, i, |s|);
    TrimIsSlice(s);
    TrimIsSlice(t);
    LowerSlice(s, i, e);
  }

  /** `Trim` cuts out the slice between the leading and the trailing whitespace. */
  lemma TrimIsSlice(s: string)
    ensures Trim(s) == s[SkipSpaces(s, 0)..SkipSpacesBack(s, SkipSpaces(s, 0), |s|)]
  {
  }

  lemma LowerSlice(s: string, i: nat, e: nat)
    requires i <= e <= |s|
    ensures ToLower(s)[i..e] == ToLower(s[i..e])
  {
  }

  lemma {:induction false} SkipSpacesToLower(s: string, k: nat)
    requires k <= |s|
    ensures SkipSpaces(ToLower(s), k) == SkipSpaces(s, k)
    decreases |s| - k
  {
    if k < |s| && IsSpace(s[k]) {
      SkipSpacesToLower(s, k + 1);
    }
  }

  lemma {:induction false} SkipSpacesBackToLower(s: string, lo: nat, k: nat)
    requires lo <= k <= |s|
    ensures SkipSpacesBack(ToLower(s), lo, k) == SkipSpacesBack(s, lo, k)
    decreases k
  {
    if k > lo && IsSpace(s[k - 1]) {
      SkipSpacesBackToLower(s, lo, k - 1);
    }
  }

  /** `q` occurs in `s` at position `i`. */
  predicate OccursAt(s: string, q: string, i: int) {
    0 <= i && i + |q| <= |s| && s[i..i + |q|] == q
  }

  /** `s.includes(q)`: scans the start positions left to right. */
  function Contains(s: string, q: string): (r: bool)
    ensures r <==> exists i :: OccursAt(s, q, i)
    decreases |s|
  {
    if |q| > |s| then false
    else if s[..|q|] == q then
      assert OccursAt(s, q, 0);
      true
    else
      var r := Contains(s[1..], q);
      assert r ==> exists i :: OccursAt(s, q, i) by {
        if r {
          var j :| OccursAt(s[1..], q, j);
          assert s[1..][j..j + |q|] == s[j + 1..j + 1 + |q|];
          assert OccursAt(s, q, j + 1);
        }
      }
      assert (exists i :: OccursAt(s, q, i)) ==> r by {
        if exists i :: OccursAt(s, q, i) {
          var i :| OccursAt(s, q, i);
          assert i != 0;
          assert s[1..][i - 1..i - 1 + |q|] == s[i..i + |q|];
          assert OccursAt(s[1..], q, i - 1);
        }
      }
      r
  }

  /** The empty string occurs in every string, as `includes('')` is always true. */
  lemma ContainsEmpty(s: string)
    ensures Contains(s, "")
  {
    assert OccursAt(s, "", 0);
  }

  /** `s.startsWith(p)`. */
  predicate StartsWith(s: string, p: string) {
    |p| <= |s| && s[..|p|] == p
  }

  /** `s.split(/\r?\n/)`: pieces between line breaks, where a break is `\n` or `\r\n`.
      A `\r` not followed by `\n` stays in its piece; the result is never empty. */
  function SplitLines(s: string): (r: seq<string>)
    ensures |r| >= 1
    ensures forall i :: 0 <= i < |r| ==> '\n' !in r[i]
    decreases |s|
  {
    if s == [] then [""]
    else if s[0] == '\n' then [""] + SplitLines(s[1..])
    else if |s| >= 2 && s[0] == '\r' && s[1] == '\n' then [""] + SplitLines(s[2..])
    else
      var rest := SplitLines(s[1..]);
      [[s[0]] + rest[0]] + rest[1..]
  }

  /** `lines.join('\n')`. */
  function JoinLines(lines: seq<string>): string {
    if lines == [] then ""
    else if |lines| == 1 then lines[0]
    else lines[0] + "\n" + JoinLines(lines[1..])
  }

  /** `s` with every `\r\n` pair replaced by `\n`. */
  function NormalizeLineEnds(s: string): string
    decreases |s|
  {
    if s == [] then ""
    else if |s| >= 2 && s[0] == '\r' && s[1] == '\n' then "\n" + NormalizeLineEnds(s[2..])
    else [s[0]] + NormalizeLineEnds(s[1..])
  }

  /** Splitting at line breaks and joining with `\n` gives back the text with Unix line ends:
      no character other than the `\r` of a `\r\n` is lost. */
  lemma {:induction false} JoinSplitLines(s: string)
    ensures JoinLines(SplitLines(s)) == NormalizeLineEnds(s)
    decreases |s|
  {
    if s == [] {
    } else if s[0] == '\n' {
      JoinSplitLines(s[1..]);
    } else if |s| >= 2 && s[0] == '\r' && s[1] == '\n' {
      JoinSplitLines(s[2..]);
    } else {
      var rest := SplitLines(s[1..]);
      JoinSplitLines(s[1..]);
      if |rest| == 1 {
        assert JoinLines([[s[0]] + rest[0]]) == [s[0]] + rest[0];
      } else {
        assert ([[s[0]] + rest[0]] + rest[1..])[1..] == rest[1..];
      }
    }
  }

  /** Number of `\n` characters in `s`. */
  function CountNewlines(s: string): nat {
    if s == [] then 0 else (if s[0] == '\n' then 1 else 0) + CountNewlines(s[1..])
  }

  /** There is one more piece than there are line breaks. */
  lemma {:induction false} SplitLinesCount(s: string)
    ensures |SplitLines(s)| == CountNewlines(s) + 1
    decreases |s|
  {
    if s == [] {
    } else if s[0] == '\n' {
      SplitLinesCount(s[1..]);
    } else if |s| >= 2 && s[0] == '\r' && s[1] == '\n' {
      SplitLinesCount(s[2..]);
      assert s[1..][1..] == s[2..];
    } else {
      SplitLinesCount(s[1..]);
    }
  }

  /** A decimal digit character. */
  function Digit(d: nat): char
    requires d < 10
  {
    "0123456789"[d]
  }

  /** Decimal representation of a natural number, without leading zeros. */
  function NatToString(n: nat): (r: string)
    ensures |r| >= 1
    ensures n >= 10 ==> |r| >= 2
    ensures forall i :: 0 <= i < |r| ==> '0' <= r[i] <= '9'
    ensures |r| >= 2 ==> r[0] != '0'
  {
    if n < 10 then [Digit(n)] else NatToString(n / 10) + [Digit(n % 10)]
  }

  /** `${n}` for an integer `n`. */
  function IntToString(n: int): (r: string)
    ensures |r| >= 1
    ensures n >= 0 ==> r == NatToString(n)
    ensures n < 0 ==> r[0] == '-'
  {
    if n < 0 then "-" + NatToString(-n) else NatToString(n)
  }

  /** The only number written as "1" is 1. */
  lemma IntToStringOne(n: int)
    ensures IntToString(n) == "1" <==> n == 1
  {
    if n >= 10 {
      assert |NatToString(n)| >= 2;
    }
  }

  /** `s.length` in JavaScript: UTF-16 code units, two for a character outside the Basic
      Multilingual Plane. */
  function Utf16Length(s: string): (n: nat)
    ensures |s| <= n <= 2 * |s|
    ensures (forall i :: 0 <= i < |s| ==> s[i] <= '\U{FFFF}') ==> n == |s|
    decreases |s|
  {
    if s == [] then 0
    else
      var rest := Utf16Length(s[1..]);
      assert (forall i :: 0 <= i < |s| ==> s[i] <= '\U{FFFF}') ==> (forall i :: 0 <= i < |s[1..]| ==> s[1..][i] <= '\U{FFFF}');
      (if s[0] > '\U{FFFF}' then 2 else 1) + rest
  }
}
