/**
 * The JavaScript string operations the application relies on, over strings of
 * UTF-16 code units (`string` is `seq<char>`): `split` on a one-character
 * separator, `pop()` of the pieces, `padStart`, `startsWith`, the first-match
 * `replace`, `String(n)` for a non-negative integer, and `a || b` on a value that
 * may be `undefined` or empty.
 */
module JsStrings {
  import opened Wrappers

  predicate StartsWith(s: string, prefix: string) {
    |prefix| <= |s| && s[..|prefix|] == prefix
  }

  /** `v || fallback` where `v` is a string that may be `undefined`: the empty string is falsy too. */
  function OrElse(v: Option<string>, fallback: string): string {
    if v.Some? && v.value != "" then v.value else fallback
  }

  /** Puts the pieces back together with `sep` between neighbours (`parts.join(sep)`). */
  function Join(parts: seq<string>, sep: char): string
    requires |parts| >= 1
  {
    if |parts| == 1 then parts[0] else parts[0] + [sep] + Join(parts[1..], sep)
  }

  /**
   * `s.split(sep)`: the maximal runs between separators, in order. There is always
   * at least one piece, no piece holds the separator, and joining gives `s` back.
   */
  function Split(s: string, sep: char): (parts: seq<string>)
    ensures |parts| >= 1
    ensures forall i :: 0 <= i < |parts| ==> sep !in parts[i]
    ensures Join(parts, sep) == s
  {
    if |s| == 0 then [""]
    else
      var rest := Split(s[1..], sep);
      if s[0] == sep then
        assert [sep] + Join(rest, sep) == s;
        [""] + rest
      else
        var parts := [[s[0]] + rest[0]] + rest[1..];
        assert parts[1..] == rest[1..];
        parts
  }

  /** A string without the separator is a single piece. */
  lemma {:induction false} SplitWithoutSeparator(s: string, sep: char)
    requires sep !in s
    ensures Split(s, sep) == [s]
  {
    if |s| > 0 {
      SplitWithoutSeparator(s[1..], sep);
    }
  }

  /** The text before the first separator is the first piece; the rest is split on its own. */
  lemma {:induction false} SplitAtFirst(a: string, sep: char, b: string)
    requires sep !in a
    ensures Split(a + [sep] + b, sep) == [a] + Split(b, sep)
  {
    if |a| == 0 {
      assert a + [sep] + b == [sep] + b;
      assert ([sep] + b)[1..] == b;
    } else {
      assert (a + [sep] + b)[1..] == a[1..] + [sep] + b;
      SplitAtFirst(a[1..], sep, b);
      assert [a[0]] + a[1..] == a;
    }
  }

  /** Splitting undoes joining when no piece holds the separator. */
  lemma {:induction false} SplitJoin(parts: seq<string>, sep: char)
    requires |parts| >= 1
    requires forall i :: 0 <= i < |parts| ==> sep !in parts[i]
    ensures Split(Join(parts, sep), sep) == parts
  {
    if |parts| == 1 {
      SplitWithoutSeparator(parts[0], sep);
    } else {
      SplitJoin(parts[1..], sep);
      SplitAtFirst(parts[0], sep, Join(parts[1..], sep));
    }
  }

  /** `s.split(sep).pop()`: the text after the last separator. */
  function LastSegment(s: string, sep: char): (r: string)
    ensures sep !in r
  {
    var parts := Split(s, sep);
    parts[|parts| - 1]
  }

  /** `s.padStart(width, [pad])`: `s` itself when already that wide, else `pad` repeated in front. */
  function PadStart(s: string, width: nat, pad: char): (r: string)
    ensures |r| == if |s| >= width then |s| else width
    ensures r[|r| - |s|..] == s
    ensures forall i :: 0 <= i < |r| - |s| ==> r[i] == pad
  {
    if |s| >= width then s else Repeat(pad, width - |s|) + s
  }

  /** `n` copies of `c`. */
  function Repeat(c: char, n: nat): (r: string)
    ensures |r| == n
    ensures forall i :: 0 <= i < n ==> r[i] == c
  {
    if n == 0 then [] else [c] + Repeat(c, n - 1)
  }

  predicate IsDigit(c: char) {
    '0' <= c <= '9'
  }

  predicate IsDigits(s: string) {
    forall i :: 0 <= i < |s| ==> IsDigit(s[i])
  }

  function DigitChar(d: nat): (c: char)
    requires d < 10
    ensures IsDigit(c)
  {
    (48 + d) as char
  }

  function DigitValue(c: char): nat
    requires IsDigit(c)
  {
    c as int - 48
  }

  /** `String(n)` for a non-negative integer: decimal digits, no leading zero. */
  function NatToString(n: nat): (s: string)
    ensures |s| >= 1 && IsDigits(s)
    ensures |s| == 1 || s[0] != '0'
  {
    if n < 10 then [DigitChar(n)] else NatToString(n / 10) + [DigitChar(n % 10)]
  }

  /** The value of a string of decimal digits (empty counts as zero). */
  function ParseNat(s: string): nat
    requires IsDigits(s)
  {
    if |s| == 0 then 0 else ParseNat(s[..|s| - 1]) * 10 + DigitValue(s[|s| - 1])
  }

  /** Reading back the decimal form gives the number that was written. */
  lemma {:induction false} NatToStringRoundTrip(n: nat)
    ensures ParseNat(NatToString(n)) == n
  {
    if n >= 10 {
      var s := NatToString(n);
      assert s[..|s| - 1] == NatToString(n / 10);
      NatToStringRoundTrip(n / 10);
    }
  }

  /** Different numbers have different decimal forms. */
  lemma NatToStringInjective(m: nat, n: nat)
    requires NatToString(m) == NatToString(n)
    ensures m == n
  {
    NatToStringRoundTrip(m);
    NatToStringRoundTrip(n);
  }

  /** Where `pat` first occurs in `s`, if anywhere (`s.indexOf(pat)`, with -1 as None). */
  function IndexOf(s: string, pat: string): (r: Option<nat>)
    ensures r.Some? ==> r.value + |pat| <= |s| && s[r.value..r.value + |pat|] == pat
    ensures r.Some? ==> forall j :: 0 <= j < r.value ==> !StartsWith(s[j..], pat)
    ensures r.None? ==> forall j :: 0 <= j <= |s| ==> !StartsWith(s[j..], pat)
  {
    IndexFrom(s, pat, 0)
  }

  /** The first position at or after `k` where `pat` occurs in `s`. */
  function IndexFrom(s: string, pat: string, k: nat): (r: Option<nat>)
    requires k <= |s|
    ensures r.Some? ==> k <= r.value && r.value + |pat| <= |s| && s[r.value..r.value + |pat|] == pat
    ensures r.Some? ==> forall j :: k <= j < r.value ==> !StartsWith(s[j..], pat)
    ensures r.None? ==> forall j :: k <= j <= |s| ==> !StartsWith(s[j..], pat)
    decreases |s| - k
  {
    if StartsWith(s[k..], pat) then
      assert s[k..][..|pat|] == s[k..k + |pat|];
      Some(k)
    else if k == |s| then None
    else IndexFrom(s, pat, k + 1)
  }


  /** `pat` occurs at position `i` of `s` and at no earlier position. */
  predicate FirstOccurrence(s: string, pat: string, i: int) {
    0 <= i <= |s| && StartsWith(s[i..], pat) && forall j :: 0 <= j < i ==> !StartsWith(s[j..], pat)
  }

  /**
   * `s.replace(pat, rep)` with a string pattern and a replacement free of `$`
   * patterns: only the first occurrence is replaced; without one, `s` is unchanged.
   */
  function ReplaceFirst(s: string, pat: string, rep: string): (r: string)
    ensures (forall j :: 0 <= j <= |s| ==> !StartsWith(s[j..], pat)) ==> r == s
    ensures forall i :: FirstOccurrence(s, pat, i) ==> r == s[..i] + rep + s[i + |pat|..]
    ensures StartsWith(s, pat) ==> r == rep + s[|pat|..]
  {
    IndexOfIsFirstOccurrence(s, pat);
    match IndexOf(s, pat)
    case None => s
    case Some(k) =>
      assert s[..0] + rep + s[|pat|..] == rep + s[|pat|..];
      s[..k] + rep + s[k + |pat|..]
  }

  /**
   * `IndexOf` finds the first occurrence, the only one there is, and finds one
   * whenever the pattern occurs.
   */
  lemma IndexOfIsFirstOccurrence(s: string, pat: string)
    ensures IndexOf(s, pat).Some? ==> forall i :: FirstOccurrence(s, pat, i) <==> i == IndexOf(s, pat).value
    ensures IndexOf(s, pat).None? <==> forall j :: 0 <= j <= |s| ==> !StartsWith(s[j..], pat)
    ensures StartsWith(s, pat) ==> IndexOf(s, pat) == Some(0)
  {
    if IndexOf(s, pat).Some? {
      var k := IndexOf(s, pat).value;
      assert s[k..][..|pat|] == s[k..k + |pat|];
      assert FirstOccurrence(s, pat, k);
      forall i | FirstOccurrence(s, pat, i)
        ensures i == k
      {
        FirstOccurrenceIsUnique(s, pat, i, k);
      }
    }
    if StartsWith(s, pat) {
      assert s[0..] == s;
      assert FirstOccurrence(s, pat, 0);
    }
  }

  /** There is at most one first occurrence. */
  lemma FirstOccurrenceIsUnique(s: string, pat: string, i: int, k: int)
    requires FirstOccurrence(s, pat, i) && FirstOccurrence(s, pat, k)
    ensures i == k
  {
  }
}
