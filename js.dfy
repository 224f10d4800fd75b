/**
 * The few pieces of JavaScript string and number semantics that the overlay's
 * handlers rely on, written out over `seq<char>` and unbounded integers:
 * `trim`, `startsWith`, `slice(0, n)`, relational `<` on strings, `parseInt`
 * on a string that starts with a digit, the truncating `%` operator,
 * decimal rendering of a count, the first-occurrence `replace` and the
 * character classes `\s` and `[a-zA-Z]`.
 */
module Js {

  import opened Wrappers

  // ---------------------------------------------------------------- characters

  /** The characters `String.prototype.trim` removes and `\s` matches:
      ECMAScript WhiteSpace and LineTerminator code points. */
  predicate IsWhiteSpace(c: char) {
    || c == '\t' || c == '\n' || c == '\U{000B}' || c == '\U{000C}' || c == '\r'
    || c == ' ' || c == '\U{00A0}' || c == '\U{1680}'
    || ('\U{2000}' <= c <= '\U{200A}')
    || c == '\U{2028}' || c == '\U{2029}' || c == '\U{202F}' || c == '\U{205F}'
    || c == '\U{3000}' || c == '\U{FEFF}'
  }

  predicate IsAsciiLetter(c: char) {
    ('a' <= c <= 'z') || ('A' <= c <= 'Z')
  }

  predicate IsDigit(c: char) {
    '0' <= c <= '9'
  }

  /** `/[a-zA-Z]/.test(s)` */
  predicate HasAsciiLetter(s: string) {
    exists i :: 0 <= i < |s| && IsAsciiLetter(s[i])
  }

  /** `s.toLowerCase() === "k"`: exactly the one-character strings whose lower
      case is `k`, which includes U+212A KELVIN SIGN. */
  predicate LowersToK(s: string) {
    s == "k" || s == "K" || s == "\U{212A}"
  }

  // ---------------------------------------------------------------- trim

  /** The first index at or after `k` that is not white space: the end of
      a maximal white-space run, as `\s*` and the front of `trim` find it. */
  function SkipWhiteSpace(s: string, k: nat): (r: nat)
    decreases |s| - k
    ensures k <= r && (k <= |s| ==> r <= |s|)
    ensures forall i :: k <= i < r ==> i < |s| && IsWhiteSpace(s[i])
    ensures r < |s| ==> !IsWhiteSpace(s[r])
  {
    if k < |s| && IsWhiteSpace(s[k]) then SkipWhiteSpace(s, k + 1) else k
  }

  /** The start of the white-space run that ends at `k`, scanning back. */
  function TrailingEnd(s: string, k: nat): (r: nat)
    requires k <= |s|
    ensures r <= k
    ensures forall i :: r <= i < k ==> IsWhiteSpace(s[i])
    ensures r > 0 ==> !IsWhiteSpace(s[r - 1])
  {
    if k > 0 && IsWhiteSpace(s[k - 1]) then TrailingEnd(s, k - 1) else k
  }

  /** How many white-space characters `trim` removes at the front. */
  function TrimmedFront(s: string): nat {
    SkipWhiteSpace(s, 0)
  }

  /** `s.trim()`: white space cut from the front, then from the back. */
  function Trim(s: string): string {
    var t := s[TrimmedFront(s)..];
    t[..TrailingEnd(t, |t|)]
  }

  /** The trimmed string is a contiguous piece of `s` that neither starts nor
      ends with white space, and everything cut off on either side is white
      space. */
  lemma TrimIsInnerPiece(s: string)
    ensures TrimmedFront(s) + |Trim(s)| <= |s|
    ensures Trim(s) == s[TrimmedFront(s)..TrimmedFront(s) + |Trim(s)|]
    ensures forall i :: 0 <= i < TrimmedFront(s) ==> IsWhiteSpace(s[i])
    ensures forall i :: TrimmedFront(s) + |Trim(s)| <= i < |s| ==> IsWhiteSpace(s[i])
    ensures Trim(s) != [] ==> !IsWhiteSpace(Trim(s)[0]) && !IsWhiteSpace(Trim(s)[|Trim(s)| - 1])
  {
    var lo := TrimmedFront(s);
    var t := s[lo..];
    var hi := TrailingEnd(t, |t|);
    assert Trim(s) == t[..hi] == s[lo..lo + hi];
    forall i | lo + hi <= i < |s| ensures IsWhiteSpace(s[i]) {
      assert s[i] == t[i - lo];
    }
    if hi > 0 {
      assert t[..hi][0] == s[lo];
      assert t[..hi][hi - 1] == t[hi - 1];
    }
  }

  /** `!s.trim()` holds exactly for strings made only of white space. */
  lemma TrimEmptyIff(s: string)
    ensures Trim(s) == [] <==> forall i :: 0 <= i < |s| ==> IsWhiteSpace(s[i])
  {
    TrimIsInnerPiece(s);
    var r := Trim(s);
    if r != [] {
      assert s[TrimmedFront(s)] == r[0];
    }
  }

  // ---------------------------------------------------------------- slices

  /** `s.slice(0, n)` for a non-negative `n`. */
  function Prefix<T>(s: seq<T>, n: nat): (r: seq<T>)
    ensures |r| <= n && r <= s
    ensures |s| <= n ==> r == s
    ensures |s| > n ==> |r| == n
  {
    if |s| <= n then s else s[..n]
  }

  /** `s.startsWith(p)` */
  predicate StartsWith(s: string, p: string) {
    p <= s
  }

  // ---------------------------------------------------------------- comparison

  /** JavaScript's `a < b` on strings: lexicographic by code unit, a proper
      prefix being smaller. */
  predicate StrLess(a: string, b: string)
    decreases |a|
  {
    if |b| == 0 then false
    else if |a| == 0 then true
    else if a[0] != b[0] then a[0] < b[0]
    else StrLess(a[1..], b[1..])
  }

  /** `key >= "1" && key <= "3"` */
  predicate InDigitRange(key: string) {
    !StrLess(key, "1") && !StrLess("3", key)
  }

  /** The string comparison admits exactly the strings that start with `1` or
      `2`, and the string `3`. */
  lemma InDigitRangeShape(key: string)
    ensures InDigitRange(key) <==> |key| > 0 && (key[0] == '1' || key[0] == '2' || key == "3")
  {
    if |key| > 0 {
      var c := key[0];
      if c == '1' || c == '2' {
        assert !StrLess(key, "1") by {
          if c == '1' { assert !StrLess(key[1..], "1"[1..]); }
        }
        assert !StrLess("3", key);
      } else if c == '3' && key != "3" {
        assert |key| > 1;
        assert "3"[1..] == [] && key[1..] != [];
        assert StrLess("3"[1..], key[1..]);
      }
    }
  }

  // ---------------------------------------------------------------- numbers

  /** The maximal run of decimal digits at the front of `s`. */
  function LeadingDigits(s: string): (r: string)
    ensures r <= s
    ensures forall i :: 0 <= i < |r| ==> IsDigit(r[i])
    ensures |r| < |s| ==> !IsDigit(s[|r|])
  {
    if |s| > 0 && IsDigit(s[0]) then [s[0]] + LeadingDigits(s[1..]) else []
  }

  /** The value of a string of decimal digits. */
  function DigitsValue(d: string): nat
    requires forall i :: 0 <= i < |d| ==> IsDigit(d[i])
  {
    if |d| == 0 then 0
    else
      assert IsDigit(d[|d| - 1]);
      10 * DigitsValue(d[..|d| - 1]) + (d[|d| - 1] as int - '0' as int)
  }

  /** `parseInt(s)` for a string whose first character is a decimal digit. */
  function ParseLeadingInt(s: string): nat {
    DigitsValue(LeadingDigits(s))
  }

  /** JavaScript's `a % n` for a positive `n`: the remainder takes the sign
      of the dividend. */
  function JsRem(a: int, n: int): (r: int)
    requires n > 0
    ensures a >= 0 ==> 0 <= r < n
    ensures a >= 0 ==> r == a % n
    ensures -n < r < n
  {
    if a >= 0 then a % n else -((-a) % n)
  }

  /** `String(n)` for a natural number. */
  function NatToString(n: nat): (r: string)
    ensures |r| > 0
    ensures forall i :: 0 <= i < |r| ==> IsDigit(r[i])
  {
    if n < 10 then [('0' as int + n) as char]
    else NatToString(n / 10) + [('0' as int + n % 10) as char]
  }

  /** Rendering a count and reading it back gives the count. */
  lemma {:induction false} NatToStringRoundTrip(n: nat)
    ensures DigitsValue(NatToString(n)) == n
  {
    var r := NatToString(n);
    if n >= 10 {
      NatToStringRoundTrip(n / 10);
      assert r[..|r| - 1] == NatToString(n / 10);
    }
  }

  // ---------------------------------------------------------------- replace

  /** Does `pat` occur in `s` at index `i`? */
  predicate OccursAt(s: string, pat: string, i: nat) {
    i + |pat| <= |s| && s[i..i + |pat|] == pat
  }

  /** The first index from `from` on at which `pat` occurs (`s.indexOf`). */
  function IndexOfFrom(s: string, pat: string, from: nat): (r: Option<nat>)
    decreases |s| - from
    ensures r.Some? ==> from <= r.value && OccursAt(s, pat, r.value)
    ensures r.Some? ==> forall j :: from <= j < r.value ==> !OccursAt(s, pat, j)
    ensures r.None? ==> forall j :: from <= j ==> !OccursAt(s, pat, j)
  {
    if from + |pat| > |s| then None
    else if OccursAt(s, pat, from) then Some(from)
    else IndexOfFrom(s, pat, from + 1)
  }

  /** `s.replace(pat, rep)` with a string pattern: only the first occurrence
      is replaced. */
  function ReplaceFirst(s: string, pat: string, rep: string): string {
    match IndexOfFrom(s, pat, 0)
    case None => s
    case Some(i) => s[..i] + rep + s[i + |pat|..]
  }

  /** Removing a suffix that occurs nowhere else cuts exactly that suffix. */
  lemma ReplaceOnlySuffix(s: string, suffix: string)
    requires |suffix| > 0 && |suffix| <= |s| && s[|s| - |suffix|..] == suffix
    requires forall j :: 0 <= j < |s| - |suffix| ==> !OccursAt(s, suffix, j)
    ensures ReplaceFirst(s, suffix, "") == s[..|s| - |suffix|]
  {
    assert OccursAt(s, suffix, |s| - |suffix|);
  }
}
