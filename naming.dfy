/**
 * Turning video titles into file names: the server's safe title
 * (`replace(/[^a-z0-9]/gi, '_')`) and the extractor's `sanitizeFilename`.
 */
module Naming {
  import opened Text

  /**
   * A character outside the Basic Multilingual Plane: JavaScript stores it
   * as two UTF-16 code units (a surrogate pair), and a regex without the `u`
   * flag sees each unit on its own.
   */
  predicate IsAstral(c: char) {
    c as int > 0xFFFF
  }

  /** The length of `s` in UTF-16 code units, which is what `String.prototype.length` counts. */
  function Utf16Length(s: string): (n: nat)
    ensures n >= |s|
    ensures (forall i :: 0 <= i < |s| ==> !IsAstral(s[i])) ==> n == |s|
  {
    if s == [] then 0 else (if IsAstral(s[0]) then 2 else 1) + Utf16Length(s[1..])
  }

  /**
   * What `replace(/[^a-z0-9]/gi, '_')` writes for one character: an ASCII
   * letter or digit stays, any other character becomes one `_` per code unit.
   */
  function SafeUnits(c: char): (r: string)
    ensures |r| == Utf16Length([c])
    ensures IsAlnum(c) ==> r == [c]
    ensures !IsAlnum(c) ==> forall i :: 0 <= i < |r| ==> r[i] == '_'
  {
    assert [c][1..] == [];
    if IsAlnum(c) then [c] else if IsAstral(c) then "__" else "_"
  }

  predicate SafeChars(s: string) {
    forall i :: 0 <= i < |s| ==> IsAlnum(s[i]) || s[i] == '_'
  }

  predicate NoAstral(s: string) {
    forall i :: 0 <= i < |s| ==> !IsAstral(s[i])
  }

  /**
   * The server's safe title: one code unit out for each code unit in, made
   * of ASCII letters, digits and `_` only.
   */
  function SafeTitle(t: string): (r: string)
    ensures |r| == Utf16Length(t) && SafeChars(r)
    decreases |t|
  {
    if t == [] then []
    else
      var head := SafeUnits(t[0]);
      var rest := SafeTitle(t[1..]);
      assert [t[0]][1..] == [];
      var r := head + rest;
      assert forall i :: 0 <= i < |head| ==> r[i] == head[i];
      assert forall i :: |head| <= i < |r| ==> r[i] == rest[i - |head|];
      r
  }

  /**
   * For a title within the Basic Multilingual Plane: as long as the title,
   * every ASCII letter and digit in place, and `_` everywhere else.
   */
  lemma {:induction false} SafeTitleInPlace(t: string)
    requires NoAstral(t)
    ensures |SafeTitle(t)| == |t|
    ensures forall i :: 0 <= i < |t| && IsAlnum(t[i]) ==> SafeTitle(t)[i] == t[i]
    ensures forall i :: 0 <= i < |t| && !IsAlnum(t[i]) ==> SafeTitle(t)[i] == '_'
    decreases |t|
  {
    if t != [] {
      var rest := t[1..];
      assert forall i :: 0 < i < |t| ==> rest[i - 1] == t[i];
      SafeTitleInPlace(rest);
      var head := SafeUnits(t[0]);
      assert |head| == 1 by { assert [t[0]][1..] == []; }
      assert SafeTitle(t) == head + SafeTitle(rest);
    }
  }

  /** The safe title of a concatenation is the concatenation of the safe titles. */
  lemma {:induction false} SafeTitleAppend(a: string, b: string)
    ensures SafeTitle(a + b) == SafeTitle(a) + SafeTitle(b)
    decreases |a|
  {
    if a == [] {
      assert a + b == b;
    } else {
      var ab := a + b;
      ConsOfAppend(a, b);
      SafeTitleAppend(a[1..], b);
      SafeTitleCons(ab);
      SafeTitleCons(a);
      ConcatAssoc(SafeUnits(a[0]), SafeTitle(a[1..]), SafeTitle(b));
    }
  }

  lemma ConsOfAppend(a: string, b: string)
    requires a != []
    ensures (a + b)[0] == a[0] && (a + b)[1..] == a[1..] + b
  {
  }

  lemma ConcatAssoc(u: string, y: string, z: string)
    ensures u + (y + z) == (u + y) + z
  {
  }

  lemma SafeTitleCons(t: string)
    requires t != []
    ensures SafeTitle(t) == SafeUnits(t[0]) + SafeTitle(t[1..])
  {
  }

  /** A title outside the Basic Multilingual Plane: the emoji takes two `_`, one per code unit. */
  lemma SafeTitleOfEmoji()
    ensures SafeTitle("a\U{1F600}") == "a__"
  {
    var t := "a\U{1F600}";
    assert t[1..][1..] == [];
  }

  /** A safe title is its own safe title. */
  lemma SafeTitleIdempotent(t: string)
    ensures SafeTitle(SafeTitle(t)) == SafeTitle(t)
  {
    SafeTitleKeepsSafe(SafeTitle(t));
  }

  /** A title that is already letters, digits and `_` is kept as it is. */
  lemma SafeTitleKeepsSafe(t: string)
    requires SafeChars(t)
    ensures SafeTitle(t) == t
  {
    assert NoAstral(t);
    SafeTitleInPlace(t);
    assert forall i :: 0 <= i < |t| ==> SafeTitle(t)[i] == t[i];
  }

  /** The class `[\w\-_\.\s]` that the first step of `sanitizeFilename` keeps. */
  predicate IsKept(c: char) {
    IsWordChar(c) || c == '-' || c == '.' || IsJsSpace(c)
  }

  /** `[A-Za-z0-9_.-]`: the characters a sanitized file name is made of. */
  predicate IsFileChar(c: char) {
    IsWordChar(c) || c == '-' || c == '.'
  }

  predicate FileCharsOnly(s: string) {
    forall i :: 0 <= i < |s| ==> IsFileChar(s[i])
  }

  /** `s.replace(/[^\w\-_\.\s]/g, '')`: the kept characters, in order. */
  function KeepAllowed(s: string): (r: string)
    ensures |r| <= |s|
    ensures forall i :: 0 <= i < |r| ==> IsKept(r[i])
    ensures (forall i :: 0 <= i < |s| ==> IsKept(s[i])) ==> r == s
    decreases |s|
  {
    if s == [] then []
    else if IsKept(s[0]) then
      var r := [s[0]] + KeepAllowed(s[1..]);
      assert (forall i :: 0 <= i < |s| ==> IsKept(s[i])) ==> s == [s[0]] + s[1..];
      r
    else KeepAllowed(s[1..])
  }

  /** A single character stays exactly when it is in the class. */
  lemma KeepAllowedOne(c: char)
    ensures KeepAllowed([c]) == if IsKept(c) then [c] else []
  {
    assert [c][1..] == [];
  }

  /**
   * The removal works character by character: the result for `a + b` is the
   * results joined. With `KeepAllowedOne` this fixes `KeepAllowed` on every
   * input: each kept character stays, in order.
   */
  lemma {:induction false} KeepAllowedAppend(a: string, b: string)
    ensures KeepAllowed(a + b) == KeepAllowed(a) + KeepAllowed(b)
    decreases |a|
  {
    if a == [] {
      assert a + b == b;
    } else {
      ConsOfAppend(a, b);
      var ab := a + b;
      assert KeepAllowed(ab) == (if IsKept(a[0]) then [a[0]] else []) + KeepAllowed(a[1..] + b);
      assert KeepAllowed(a) == (if IsKept(a[0]) then [a[0]] else []) + KeepAllowed(a[1..]);
      KeepAllowedAppend(a[1..], b);
      ConcatAssoc(if IsKept(a[0]) then [a[0]] else [], KeepAllowed(a[1..]), KeepAllowed(b));
    }
  }

  /** A space between two letters becomes `_`. */
  lemma SanitizeSpace()
    ensures SanitizeFilename("a b") == "a_b"
  {
    assert KeepAllowed("a b") == "a b" by {
      assert IsKept('a') && IsKept(' ') && IsKept('b');
    }
    assert "a b"[0] == 'a' && "a b"[1..] == " b";
    assert " b"[0] == ' ' && SpaceRunLen(" b") == 1 by {
      assert " b"[1..] == "b";
      assert SpaceRunLen("b") == 0;
    }
    assert " b"[1..] == "b";
    assert CollapseSpaces("b") == "b";
    assert CollapseSpaces("a b") == "a_b";
  }

  /** The length of the run of `\s` characters at the start of `s`. */
  function SpaceRunLen(s: string): (n: nat)
    ensures 0 < |s| && IsJsSpace(s[0]) ==> 0 < n
    ensures n <= |s|
    decreases |s|
  {
    if s != [] && IsJsSpace(s[0]) then 1 + SpaceRunLen(s[1..]) else 0
  }

  /** `s.replace(/\s+/g, '_')`: every maximal run of white space becomes one `_`. */
  function CollapseSpaces(s: string): (r: string)
    ensures |r| <= |s|
    ensures forall i :: 0 <= i < |r| ==> !IsJsSpace(r[i])
    ensures (forall i :: 0 <= i < |s| ==> IsKept(s[i])) ==> forall i :: 0 <= i < |r| ==> IsFileChar(r[i])
    ensures (forall i :: 0 <= i < |s| ==> !IsJsSpace(s[i])) ==> r == s
    decreases |s|
  {
    if s == [] then []
    else if IsJsSpace(s[0]) then ['_'] + CollapseSpaces(s[SpaceRunLen(s)..])
    else
      var r := [s[0]] + CollapseSpaces(s[1..]);
      assert (forall i :: 0 <= i < |s| ==> !IsJsSpace(s[i])) ==> s == [s[0]] + s[1..];
      r
  }

  /** `s.substring(0, 50)`. */
  function Take50(s: string): (r: string)
    ensures |r| <= 50 && StartsWith(s, r)
    ensures |s| <= 50 ==> r == s
  {
    if |s| <= 50 then s else s[..50]
  }

  /**
   * `sanitizeFilename`: drop every character outside `[\w\-_.\s]`, turn each
   * run of white space into `_`, keep the first 50 characters.
   */
  function SanitizeFilename(s: string): (r: string)
    ensures |r| <= 50
    ensures FileCharsOnly(r)
    ensures forall i :: 0 <= i < |r| ==> !IsJsSpace(r[i])
  {
    Take50(CollapseSpaces(KeepAllowed(s)))
  }

  /** A name of at most 50 file characters is its own sanitized form. */
  lemma {:induction false} SanitizeKeepsClean(s: string)
    requires FileCharsOnly(s) && |s| <= 50
    ensures SanitizeFilename(s) == s
  {
    assert forall i :: 0 <= i < |s| ==> IsKept(s[i]);
    assert KeepAllowed(s) == s;
    assert forall i :: 0 <= i < |s| ==> !IsJsSpace(s[i]) by {
      forall i | 0 <= i < |s| ensures !IsJsSpace(s[i]) {
        assert IsFileChar(s[i]);
      }
    }
    assert CollapseSpaces(s) == s;
  }

  /** Sanitizing twice is sanitizing once. */
  lemma SanitizeIdempotent(s: string)
    ensures SanitizeFilename(SanitizeFilename(s)) == SanitizeFilename(s)
  {
    SanitizeKeepsClean(SanitizeFilename(s));
  }
}
