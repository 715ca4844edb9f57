/** Characters, substrings and decimal numerals as JavaScript's string functions see them. */
module Text {
  import opened Wrappers

  predicate IsDigit(c: char) { '0' <= c <= '9' }
  predicate IsAsciiLetter(c: char) { 'a' <= c <= 'z' || 'A' <= c <= 'Z' }

  /** `[a-z0-9]` with the `i` flag. */
  predicate IsAlnum(c: char) { IsDigit(c) || IsAsciiLetter(c) }

  /** The regex class `\w`. */
  predicate IsWordChar(c: char) { IsAlnum(c) || c == '_' }

  /** The regex class `\s`: ECMAScript white space and line terminators. */
  predicate IsJsSpace(c: char) {
    c == ' ' || c == '\t' || c == '\n' || c == '\r' || c == '\U{000B}' || c == '\U{000C}'
    || c == '\U{00A0}' || c == '\U{1680}' || ('\U{2000}' <= c <= '\U{200A}')
    || c == '\U{2028}' || c == '\U{2029}' || c == '\U{202F}' || c == '\U{205F}'
    || c == '\U{3000}' || c == '\U{FEFF}'
  }

  /** The characters that the regex `.` does not match. */
  predicate IsLineTerminator(c: char) {
    c == '\n' || c == '\r' || c == '\U{2028}' || c == '\U{2029}'
  }

  predicate DigitsOnly(s: string) {
    forall i :: 0 <= i < |s| ==> IsDigit(s[i])
  }

  /** `p` occurs in `s` at position `k`. */
  predicate HasAt(s: string, k: nat, p: string) {
    k + |p| <= |s| && s[k..k + |p|] == p
  }

  /** Where `p` occurs at `k`, each of its characters is the character of `s` there. */
  lemma HasAtChars(s: string, k: nat, p: string)
    ensures HasAt(s, k, p) ==> forall i :: 0 <= i < |p| ==> s[k + i] == p[i]
  {
    if HasAt(s, k, p) {
      forall i | 0 <= i < |p| ensures s[k + i] == p[i] {
        assert s[k..k + |p|][i] == s[k + i];
      }
    }
  }

  /** Where `p` occurs at `k`, its first two characters open the occurrence. */
  lemma HasAtOpening(s: string, k: nat, p: string)
    ensures HasAt(s, k, p) && |p| > 0 ==> s[k] == p[0]
    ensures HasAt(s, k, p) && |p| > 1 ==> s[k + 1] == p[1]
  {
    if HasAt(s, k, p) && |p| > 1 {
      assert s[k..k + |p|][1] == s[k + 1];
    }
    if HasAt(s, k, p) && |p| > 0 {
      assert s[k..k + |p|][0] == s[k];
    }
  }

  /** One character of an occurrence: where `p` occurs at `k`, `s[k + i]` is `p[i]`. */
  lemma HasAtChar(s: string, k: nat, p: string, i: nat)
    requires i < |p|
    ensures HasAt(s, k, p) ==> s[k + i] == p[i]
  {
    if HasAt(s, k, p) {
      assert s[k..k + |p|][i] == s[k + i];
    }
  }

  predicate StartsWith(s: string, p: string) {
    |p| <= |s| && s[..|p|] == p
  }

  predicate EndsWith(s: string, p: string) {
    |p| <= |s| && s[|s| - |p|..] == p
  }

  /** `s.includes(p)`. */
  predicate Contains(s: string, p: string) {
    exists k :: 0 <= k <= |s| && HasAt(s, k, p)
  }

  /** The first position at or after `from` where `p` occurs: `s.indexOf(p, from)`. */
  function IndexOf(s: string, p: string, from: nat): (r: Option<nat>)
    requires from <= |s|
    ensures r.Some? ==> from <= r.value && HasAt(s, r.value, p)
    ensures r.Some? ==> forall j :: from <= j < r.value ==> !HasAt(s, j, p)
    ensures r.None? ==> forall j :: from <= j <= |s| ==> !HasAt(s, j, p)
    decreases |s| - from
  {
    if HasAt(s, from, p) then Some(from)
    else if from == |s| then None
    else
      var r := IndexOf(s, p, from + 1);
      assert forall j :: from <= j < from + 1 ==> !HasAt(s, j, p);
      r
  }

  lemma IndexOfContains(s: string, p: string)
    ensures IndexOf(s, p, 0).Some? <==> Contains(s, p)
  {
    var r := IndexOf(s, p, 0);
    if Contains(s, p) {
      var k :| 0 <= k <= |s| && HasAt(s, k, p);
      assert r.Some?;
    }
  }

  /** `s.replace(p, q)` with a string pattern: only the first occurrence is replaced. */
  function ReplaceFirst(s: string, p: string, q: string): (r: string)
    ensures !Contains(s, p) ==> r == s
    ensures Contains(s, p) ==> exists k :: 0 <= k <= |s| && HasAt(s, k, p) && r == s[..k] + q + s[k + |p|..]
  {
    IndexOfContains(s, p);
    match IndexOf(s, p, 0)
    case None => s
    case Some(k) => s[..k] + q + s[k + |p|..]
  }

  /** The first occurrence of `p` is the one replaced. */
  lemma ReplaceAt(s: string, p: string, q: string, k: nat)
    requires HasAt(s, k, p) && forall j :: 0 <= j < k ==> !HasAt(s, j, p)
    ensures ReplaceFirst(s, p, q) == s[..k] + q + s[k + |p|..]
  {
    var r := IndexOf(s, p, 0);
    assert r.Some?;
  }

  /** Starting at `k`, the length of the longest run of decimal digits (`\d+`, greedy). */
  function DigitRunLen(s: string, k: nat): (n: nat)
    requires k <= |s|
    ensures k + n <= |s|
    ensures forall i :: k <= i < k + n ==> IsDigit(s[i])
    ensures k + n == |s| || !IsDigit(s[k + n])
    decreases |s| - k
  {
    if k < |s| && IsDigit(s[k]) then 1 + DigitRunLen(s, k + 1) else 0
  }

  function DigitChar(d: nat): (c: char)
    requires d < 10
    ensures IsDigit(c)
  {
    (48 + d) as char
  }

  function DigitValue(c: char): (d: nat)
    requires IsDigit(c)
    ensures d < 10 && DigitChar(d) == c
  {
    c as int - 48
  }

  /** `n.toString()`. */
  function Decimal(n: nat): (r: string)
    ensures |r| > 0 && DigitsOnly(r)
    decreases n
  {
    if n < 10 then [DigitChar(n)] else Decimal(n / 10) + [DigitChar(n % 10)]
  }

  /** The value of a string of decimal digits (`parseInt` on digits); the empty string is 0. */
  function DecimalValue(s: string): nat
    requires DigitsOnly(s)
  {
    if s == [] then 0 else DecimalValue(s[..|s| - 1]) * 10 + DigitValue(s[|s| - 1])
  }

  lemma {:induction false} DecimalRoundTrip(n: nat)
    ensures DecimalValue(Decimal(n)) == n
    decreases n
  {
    if n >= 10 {
      var s := Decimal(n);
      assert s[..|s| - 1] == Decimal(n / 10);
      DecimalRoundTrip(n / 10);
    }
  }

  /** `n.toString().padStart(2, '0')`. */
  function Pad2(n: nat): (r: string)
    ensures |r| >= 2 && DigitsOnly(r)
    ensures n < 100 ==> |r| == 2
    ensures DecimalValue(r) == n
  {
    DecimalRoundTrip(n);
    if n < 10 then
      var r := ['0', DigitChar(n)];
      assert r[..1] == ['0'];
      r
    else
      DecimalLength(n);
      Decimal(n)
  }

  lemma {:induction false} DecimalLength(n: nat)
    ensures n >= 10 ==> |Decimal(n)| >= 2
    ensures n < 100 ==> |Decimal(n)| <= 2
  {
  }

  /** The value of the leading digits of `s`, or 0 when it has none: `parseInt(s) || 0` on unsigned input. */
  function LeadingInt(s: string): (r: nat)
    ensures DigitRunLen(s, 0) == 0 ==> r == 0
  {
    DecimalValue(s[..DigitRunLen(s, 0)])
  }

  /** `s.split(sep)`. */
  function SplitOn(s: string, sep: char): (r: seq<string>)
    ensures |r| >= 1
    ensures forall i :: 0 <= i < |r| ==> sep !in r[i]
    decreases |s|
  {
    if s == [] then [[]]
    else if s[0] == sep then [[]] + SplitOn(s[1..], sep)
    else
      var rest := SplitOn(s[1..], sep);
      [[s[0]] + rest[0]] + rest[1..]
  }

  lemma {:induction false} SplitNoSep(a: string, sep: char)
    requires sep !in a
    ensures SplitOn(a, sep) == [a]
    decreases |a|
  {
    if a != [] {
      SplitNoSep(a[1..], sep);
      assert [a[0]] + a[1..] == a;
    }
  }

  lemma {:induction false} SplitJoin(a: string, sep: char, b: string)
    requires sep !in a
    ensures SplitOn(a + [sep] + b, sep) == [a] + SplitOn(b, sep)
    decreases |a|
  {
    if a == [] {
      assert a + [sep] + b == [sep] + b;
      assert ([sep] + b)[1..] == b;
    } else {
      var s := a + [sep] + b;
      assert s[1..] == a[1..] + [sep] + b;
      SplitJoin(a[1..], sep, b);
      assert [a[0]] + a[1..] == a;
    }
  }

  /** `xs.join(sep)`. */
  function Join(xs: seq<string>, sep: string): (r: string)
    ensures |xs| == 0 ==> r == ""
    ensures |xs| == 1 ==> r == xs[0]
    decreases |xs|
  {
    if |xs| == 0 then "" else if |xs| == 1 then xs[0] else xs[0] + sep + Join(xs[1..], sep)
  }

  /** The first position of `c` in `s`, or `|s|`. */
  function FirstOf(s: string, c: char): (k: nat)
    ensures k <= |s| && c !in s[..k]
    ensures k < |s| ==> s[k] == c
    decreases |s|
  {
    if s == [] then 0
    else if s[0] == c then 0
    else
      var k := 1 + FirstOf(s[1..], c);
      assert s[..k] == [s[0]] + s[1..][..k - 1];
      k
  }

  /** `s.split(c)[0]`: the part of `s` before the first `c`. */
  function BeforeFirst(s: string, c: char): (r: string)
    ensures StartsWith(s, r) && c !in r
    ensures |r| == |s| || s[|r|] == c
  {
    s[..FirstOf(s, c)]
  }
}
