/**
 * The search semantics of the URL regexes used across the code base.
 *
 * Every capturing pattern has the shape `(?:LITERAL)([^&\n?#]+)` or
 * `(?:HEAD.*MARKER)([^&\n?#]+)`. `String.prototype.match` without the `g`
 * flag returns the match that starts leftmost; the capture group is greedy,
 * so it is the maximal run of id characters, and it needs at least one, so
 * an occurrence of the literal followed by `&`, `?`, `#`, a newline or the
 * end of the string does not match and the search moves on.
 */
module Scan {
  import opened Wrappers
  import opened Text

  /** The capture class `[^&\n?#]`. */
  predicate IsIdChar(c: char) {
    c != '&' && c != '\n' && c != '?' && c != '#'
  }

  predicate IdCharsOnly(s: string) {
    forall i :: 0 <= i < |s| ==> IsIdChar(s[i])
  }

  /** Starting at `k`, the length of the longest run of id characters. */
  function IdRunLen(s: string, k: nat): (n: nat)
    requires k <= |s|
    ensures k + n <= |s|
    ensures forall i :: k <= i < k + n ==> IsIdChar(s[i])
    ensures k + n == |s| || !IsIdChar(s[k + n])
    decreases |s| - k
  {
    if k < |s| && IsIdChar(s[k]) then 1 + IdRunLen(s, k + 1) else 0
  }

  /** The greedy capture `([^&\n?#]+)` starting at `k`. */
  function IdRun(s: string, k: nat): (r: string)
    requires k <= |s|
    ensures IdCharsOnly(r) && HasAt(s, k, r)
    ensures k + |r| == |s| || !IsIdChar(s[k + |r|])
  {
    s[k..k + IdRunLen(s, k)]
  }

  /** A run of id characters that ends at a non-id character, or at the end, is the greedy capture. */
  lemma {:induction false} IdRunOf(s: string, k: nat, run: string)
    requires HasAt(s, k, run) && IdCharsOnly(run)
    requires k + |run| == |s| || !IsIdChar(s[k + |run|])
    ensures IdRun(s, k) == run
    decreases |run|
  {
    if run != [] {
      assert s[k] == run[0];
      assert s[k + 1..k + 1 + |run[1..]|] == run[1..];
      IdRunOf(s, k + 1, run[1..]);
    }
  }

  /** Id characters running to the end of the string are the greedy capture. */
  lemma TailIsRun(s: string, k: nat, run: string)
    requires k <= |s| && s[k..] == run && |run| > 0 && IdCharsOnly(run)
    ensures k < |s| && IsIdChar(s[k]) && IdRun(s, k) == run
  {
    assert s[k] == run[0];
    assert s[k..k + |run|] == run;
    IdRunOf(s, k, run);
  }

  /** `(?:p)([^&\n?#]+)` matches at position `k`. */
  predicate CaptureAt(s: string, k: nat, p: string) {
    HasAt(s, k, p) && k + |p| < |s| && IsIdChar(s[k + |p|])
  }

  /** The leftmost position at or after `from` where `(?:p)([^&\n?#]+)` matches. */
  function FirstCapture(s: string, p: string, from: nat): (r: Option<nat>)
    requires from <= |s|
    ensures r.Some? ==> from <= r.value < |s| && CaptureAt(s, r.value, p)
    ensures r.Some? ==> forall j :: from <= j < r.value ==> !CaptureAt(s, j, p)
    ensures r.None? ==> forall j: nat :: from <= j ==> !CaptureAt(s, j, p)
    decreases |s| - from
  {
    if CaptureAt(s, from, p) then Some(from)
    else if from == |s| then None
    else
      var r := FirstCapture(s, p, from + 1);
      assert forall j :: from <= j < from + 1 ==> !CaptureAt(s, j, p);
      r
  }

  /** `s.match(/(?:p)([^&\n?#]+)/)?.[1]`. */
  function MatchLiteral(s: string, p: string): (r: Option<string>)
    ensures r.None? <==> forall k: nat :: !CaptureAt(s, k, p)
    ensures r.Some? ==> exists k: nat :: CaptureAt(s, k, p) && r.value == IdRun(s, k + |p|)
                                         && forall j: nat :: j < k ==> !CaptureAt(s, j, p)
    ensures r.Some? ==> |r.value| > 0 && IdCharsOnly(r.value)
  {
    match FirstCapture(s, p, 0)
    case None => None
    case Some(k) =>
      assert forall j: nat :: j < k ==> !CaptureAt(s, j, p);
      Some(IdRun(s, k + |p|))
  }

  /** The first alternative of `ps`, from the `i`-th on, that captures at `k`. */
  function FirstAltAt(s: string, k: nat, ps: seq<string>, i: nat): (r: Option<nat>)
    requires i <= |ps|
    ensures r.Some? ==> i <= r.value < |ps| && CaptureAt(s, k, ps[r.value])
    ensures r.Some? ==> forall j :: i <= j < r.value ==> !CaptureAt(s, k, ps[j])
    ensures r.None? ==> forall j :: i <= j < |ps| ==> !CaptureAt(s, k, ps[j])
    decreases |ps| - i
  {
    if i == |ps| then None
    else if CaptureAt(s, k, ps[i]) then Some(i)
    else FirstAltAt(s, k, ps, i + 1)
  }

  /** The leftmost position at or after `from` where `(?:p1|p2|...)([^&\n?#]+)` matches. */
  function FirstAltCapture(s: string, ps: seq<string>, from: nat): (r: Option<nat>)
    requires from <= |s|
    ensures r.Some? ==> from <= r.value <= |s| && FirstAltAt(s, r.value, ps, 0).Some?
    ensures r.Some? ==> forall j :: from <= j < r.value ==> FirstAltAt(s, j, ps, 0).None?
    ensures r.None? ==> forall j: nat :: from <= j ==> FirstAltAt(s, j, ps, 0).None?
    decreases |s| - from
  {
    if FirstAltAt(s, from, ps, 0).Some? then Some(from)
    else if from == |s| then None
    else
      assert forall j: nat :: |s| < j ==> FirstAltAt(s, j, ps, 0).None?;
      FirstAltCapture(s, ps, from + 1)
  }

  /** The alternatives' capture at the leftmost match `k` with alternative `i`, and nothing earlier. */
  predicate LeftmostAlt(s: string, ps: seq<string>, k: nat, i: nat) {
    i < |ps| && CaptureAt(s, k, ps[i])
    && (forall j: nat, i' :: j < k && 0 <= i' < |ps| ==> !CaptureAt(s, j, ps[i']))
    && (forall i' :: 0 <= i' < i ==> !CaptureAt(s, k, ps[i']))
  }

  lemma AltNone(s: string, ps: seq<string>)
    requires FirstAltCapture(s, ps, 0).None?
    ensures forall k: nat, i :: 0 <= i < |ps| ==> !CaptureAt(s, k, ps[i])
  {
    forall k: nat, i | 0 <= i < |ps| ensures !CaptureAt(s, k, ps[i]) {
      assert FirstAltAt(s, k, ps, 0).None?;
    }
  }

  lemma AltSome(s: string, ps: seq<string>, k: nat)
    requires FirstAltCapture(s, ps, 0) == Some(k)
    ensures LeftmostAlt(s, ps, k, FirstAltAt(s, k, ps, 0).value)
  {
    forall j: nat, i' | j < k && 0 <= i' < |ps| ensures !CaptureAt(s, j, ps[i']) {
      assert FirstAltAt(s, j, ps, 0).None?;
    }
  }

  /**
   * `s.match(/(?:p1|p2|...)([^&\n?#]+)/)?.[1]`: the match that starts
   * leftmost wins; at that position the alternatives are tried in order and
   * one whose capture would be empty gives way to the next.
   */
  function MatchAlternatives(s: string, ps: seq<string>): (r: Option<string>)
    ensures r.None? <==> forall k: nat, i :: 0 <= i < |ps| ==> !CaptureAt(s, k, ps[i])
    ensures r.Some? ==> exists k: nat, i: nat :: LeftmostAlt(s, ps, k, i) && r.value == IdRun(s, k + |ps[i]|)
    ensures r.Some? ==> |r.value| > 0 && IdCharsOnly(r.value)
  {
    match FirstAltCapture(s, ps, 0)
    case None =>
      AltNone(s, ps);
      None
    case Some(k) =>
      var i := FirstAltAt(s, k, ps, 0).value;
      AltSome(s, ps, k);
      Some(IdRun(s, k + |ps[i]|))
  }

  /** At `k`, alternative `i` is the first that captures. */
  lemma {:induction false} FirstAltAtIs(s: string, k: nat, ps: seq<string>, i: nat)
    requires i < |ps| && CaptureAt(s, k, ps[i])
    requires forall i' :: 0 <= i' < i ==> !CaptureAt(s, k, ps[i'])
    ensures FirstAltAt(s, k, ps, 0) == Some(i)
  {
  }

  /** Where no alternative captures, the alternation does not match. */
  lemma NoAltAt(s: string, k: nat, ps: seq<string>)
    requires forall i' :: 0 <= i' < |ps| ==> !CaptureAt(s, k, ps[i'])
    ensures FirstAltAt(s, k, ps, 0).None?
  {
  }

  /** The leftmost match of an alternation is the one the search reports. */
  lemma {:induction false} LeftmostAltResult(s: string, ps: seq<string>, k: nat, i: nat)
    requires LeftmostAlt(s, ps, k, i)
    ensures MatchAlternatives(s, ps) == Some(IdRun(s, k + |ps[i]|))
  {
    FirstAltAtIs(s, k, ps, i);
    forall j: nat | j < k ensures FirstAltAt(s, j, ps, 0).None? {
      NoAltAt(s, j, ps);
    }
    FirstAltCaptureIs(s, ps, k);
  }

  /** The first position where some alternative captures is where the alternation matches. */
  lemma FirstAltCaptureIs(s: string, ps: seq<string>, k: nat)
    requires k <= |s| && FirstAltAt(s, k, ps, 0).Some?
    requires forall j: nat :: j < k ==> FirstAltAt(s, j, ps, 0).None?
    ensures FirstAltCapture(s, ps, 0) == Some(k)
  {
    var r := FirstAltCapture(s, ps, 0);
    assert r.Some?;
  }

  /** The leftmost capture of a literal pattern is the one the search reports. */
  lemma {:induction false} LiteralAt(s: string, p: string, k: nat)
    requires CaptureAt(s, k, p) && forall j: nat :: j < k ==> !CaptureAt(s, j, p)
    ensures MatchLiteral(s, p) == Some(IdRun(s, k + |p|))
  {
    var r := MatchLiteral(s, p);
    assert r.Some? by { assert CaptureAt(s, k, p); }
    var k': nat :| CaptureAt(s, k', p) && r.value == IdRun(s, k' + |p|)
                   && forall j: nat :: j < k' ==> !CaptureAt(s, j, p);
    assert k' == k by {
      assert k' < k ==> !CaptureAt(s, k', p);
      assert k < k' ==> !CaptureAt(s, k, p);
    }
  }

  /** The first line terminator at or after `k`, or `|s|`: how far `.*` can reach. */
  function LineEnd(s: string, k: nat): (e: nat)
    requires k <= |s|
    ensures k <= e <= |s|
    ensures forall i :: k <= i < e ==> !IsLineTerminator(s[i])
    ensures e == |s| || IsLineTerminator(s[e])
    decreases |s| - k
  {
    if k == |s| || IsLineTerminator(s[k]) then k else LineEnd(s, k + 1)
  }

  /** The greatest position `j` with `lo <= j < hi` where `(?:m)([^&\n?#]+)` matches. */
  function LastCapture(s: string, lo: nat, hi: nat, m: string): (r: Option<nat>)
    requires lo <= hi <= |s|
    ensures r.Some? ==> lo <= r.value < hi && CaptureAt(s, r.value, m)
    ensures r.Some? ==> forall j :: r.value < j < hi ==> !CaptureAt(s, j, m)
    ensures r.None? ==> forall j :: lo <= j < hi ==> !CaptureAt(s, j, m)
    decreases hi
  {
    if hi == lo then None
    else if CaptureAt(s, hi - 1, m) then Some(hi - 1)
    else LastCapture(s, lo, hi - 1, m)
  }

  /**
   * Where `(?:h.*m)([^&\n?#]+)` matches when the match starts at `i`:
   * the greedy `.*` stays on one line and backtracks to the LAST `m`
   * that is followed by an id character.
   */
  function GreedyAt(s: string, i: nat, h: string, m: string): (r: Option<nat>)
    requires i <= |s|
    ensures r.Some? ==> HasAt(s, i, h) && i + |h| <= r.value < |s| && CaptureAt(s, r.value, m)
  {
    if !HasAt(s, i, h) then None
    else LastCapture(s, i + |h|, LineEnd(s, i + |h|), m)
  }

  /**
   * The marker `GreedyAt` picks is the last one on the line that follows an
   * id character, and there is none exactly when no marker on the line does.
   */
  lemma GreedyAtLast(s: string, i: nat, h: string, m: string)
    requires i <= |s| && HasAt(s, i, h)
    ensures var r := GreedyAt(s, i, h, m);
            && (r.Some? ==> i + |h| <= r.value < LineEnd(s, i + |h|) && CaptureAt(s, r.value, m)
                            && forall j :: r.value < j < LineEnd(s, i + |h|) ==> !CaptureAt(s, j, m))
            && (r.None? <==> forall j :: i + |h| <= j < LineEnd(s, i + |h|) ==> !CaptureAt(s, j, m))
  {
  }

  /**
   * A greedy match captures after the LAST `m` (followed by an id character)
   * on the line of the leftmost `h` that has one.
   */
  lemma MatchGreedyLast(s: string, h: string, m: string, i: nat, j: nat)
    requires FirstGreedy(s, h, m, 0) == Some(i) && i <= |s| && GreedyAt(s, i, h, m) == Some(j)
    ensures HasAt(s, i, h) && forall i' :: 0 <= i' < i ==> GreedyAt(s, i', h, m).None?
    ensures i + |h| <= j < LineEnd(s, i + |h|) && CaptureAt(s, j, m)
    ensures forall j' :: j < j' < LineEnd(s, i + |h|) ==> !CaptureAt(s, j', m)
    ensures MatchGreedy(s, h, m) == Some(IdRun(s, j + |m|))
  {
    GreedyAtLast(s, i, h, m);
    assert MatchGreedy(s, h, m) == GreedyCapture(s, i, h, m);
  }

  /** The leftmost start at or after `from` where `(?:h.*m)([^&\n?#]+)` matches. */
  function FirstGreedy(s: string, h: string, m: string, from: nat): (r: Option<nat>)
    requires from <= |s|
    ensures r.Some? ==> from <= r.value <= |s| && GreedyAt(s, r.value, h, m).Some?
    ensures r.Some? ==> forall j :: from <= j < r.value ==> GreedyAt(s, j, h, m).None?
    ensures r.None? ==> forall j :: from <= j <= |s| ==> GreedyAt(s, j, h, m).None?
    decreases |s| - from
  {
    if GreedyAt(s, from, h, m).Some? then Some(from)
    else if from == |s| then None
    else
      var r := FirstGreedy(s, h, m, from + 1);
      assert forall j :: from <= j < from + 1 ==> GreedyAt(s, j, h, m).None?;
      r
  }

  /** `s.match(/(?:h.*m)([^&\n?#]+)/)?.[1]`. */
  function MatchGreedy(s: string, h: string, m: string): (r: Option<string>)
    ensures r.None? <==> forall i :: 0 <= i <= |s| ==> GreedyAt(s, i, h, m).None?
    ensures r.Some? ==> FirstGreedy(s, h, m, 0).Some? && r == GreedyCapture(s, FirstGreedy(s, h, m, 0).value, h, m)
    ensures r.Some? ==> |r.value| > 0 && IdCharsOnly(r.value)
  {
    FirstGreedyNone(s, h, m);
    match FirstGreedy(s, h, m, 0)
    case None => None
    case Some(i) => GreedyCapture(s, i, h, m)
  }

  /** The capture of a match that starts at `i`: the run after the marker `GreedyAt` picks. */
  function GreedyCapture(s: string, i: nat, h: string, m: string): (r: Option<string>)
    requires i <= |s|
    ensures r.Some? <==> GreedyAt(s, i, h, m).Some?
    ensures r.Some? ==> r.value == IdRun(s, GreedyAt(s, i, h, m).value + |m|) && |r.value| > 0 && IdCharsOnly(r.value)
  {
    match GreedyAt(s, i, h, m)
    case None => None
    case Some(j) => Some(IdRun(s, j + |m|))
  }

  /** The search finds no start exactly when no start admits a match. */
  lemma FirstGreedyNone(s: string, h: string, m: string)
    ensures FirstGreedy(s, h, m, 0).None? <==> forall i :: 0 <= i <= |s| ==> GreedyAt(s, i, h, m).None?
  {
    var r := FirstGreedy(s, h, m, 0);
    if r.Some? {
      assert GreedyAt(s, r.value, h, m).Some?;
    }
  }

  /** The optional `https?:\/\/` at the start, removed: `https://` is tried before `http://`. */
  function StripScheme(s: string): (r: string)
    ensures |r| <= |s| && r == s[|s| - |r|..]
  {
    if StartsWith(s, "https://") then s[8..]
    else if StartsWith(s, "http://") then s[7..]
    else s
  }

  /** The optional `www\.` at the start, removed. */
  function StripWww(s: string): (r: string)
    ensures |r| <= |s| && r == s[|s| - |r|..]
  {
    if StartsWith(s, "www.") then s[4..] else s
  }

  /** Some path of `paths` follows the optional scheme and `www.` at the start of `s`. */
  predicate AnchoredMatch(s: string, paths: seq<string>) {
    exists i :: 0 <= i < |paths| && StartsWith(StripWww(StripScheme(s)), paths[i])
  }

  /** A path found after stripping witnesses the anchored match. */
  lemma AnchoredMatchVia(s: string, paths: seq<string>, i: nat)
    requires i < |paths| && StartsWith(StripWww(StripScheme(s)), paths[i])
    ensures AnchoredMatch(s, paths)
  {
  }

  /** What the stripping leaves is a suffix of the input. */
  lemma StrippedSuffix(s: string)
    ensures var t := StripWww(StripScheme(s)); |t| <= |s| && s[|s| - |t|..] == t
  {
    var t1 := StripScheme(s);
    var t := StripWww(t1);
    assert t == t1[|t1| - |t|..];
    assert s[|s| - |t|..] == s[|s| - |t1|..][|t1| - |t|..];
  }

  predicate IsSchemeChoice(scheme: string) {
    scheme == "" || scheme == "http://" || scheme == "https://"
  }

  predicate IsWwwChoice(www: string) {
    www == "" || www == "www."
  }

  /** The choices the regex `^(https?:\/\/)?(www\.)?(p1|p2|...)` may make. */
  predicate PrefixChoice(s: string, scheme: string, www: string, path: string) {
    IsSchemeChoice(scheme) && IsWwwChoice(www) && StartsWith(s, scheme + www + path)
  }

  predicate PathsStartPlainly(paths: seq<string>) {
    forall i :: 0 <= i < |paths| ==> |paths[i]| > 0 && paths[i][0] != 'h' && paths[i][0] != 'w'
  }

  lemma StartsWithSplit(s: string, a: string, b: string)
    requires StartsWith(s, a + b)
    ensures StartsWith(s, a) && StartsWith(s[|a|..], b)
  {
    assert s[..|a|] == (a + b)[..|a|];
    assert s[|a|..][..|b|] == s[..|a| + |b|][|a|..];
  }

  /** What follows a prefix sits right after it. */
  lemma StartsWithHasAt(s: string, pre: string, p: string)
    requires StartsWith(s, pre + p)
    ensures StartsWith(s, pre) && HasAt(s, |pre|, p)
  {
    StartsWithSplit(s, pre, p);
    assert s[|pre|..][..|p|] == s[|pre|..|pre| + |p|];
  }

  lemma StartsWithJoin(s: string, a: string, b: string)
    requires StartsWith(s, a) && StartsWith(s[|a|..], b)
    ensures StartsWith(s, a + b)
  {
    assert s[..|a| + |b|] == s[..|a|] + s[|a|..][..|b|];
  }

  /** Whatever scheme choice the regex makes, stripping removes the same one. */
  lemma StripSchemeChoice(s: string, scheme: string, tail: string)
    requires IsSchemeChoice(scheme) && StartsWith(s, scheme + tail)
    requires |tail| > 0 && tail[0] != 'h'
    ensures StripScheme(s) == s[|scheme|..]
  {
    StartsWithSplit(s, scheme, tail);
    if scheme == "http://" {
      assert s[4] == ':';
    } else if scheme == "" {
      assert s[0] == tail[0];
    }
  }

  /** Whatever `www.` choice the regex makes, stripping removes the same one. */
  lemma StripWwwChoice(t: string, www: string, path: string)
    requires IsWwwChoice(www) && StartsWith(t, www + path)
    requires |path| > 0 && path[0] != 'w'
    ensures StripWww(t) == t[|www|..]
  {
    StartsWithSplit(t, www, path);
    if www == "" {
      assert t[0] == path[0];
    }
  }

  /** `https://www.` in front of a path is stripped off whole. */
  lemma StripHttpsWww(rest: string)
    ensures StripWww(StripScheme("https://www." + rest)) == rest
  {
    var s := "https://www." + rest;
    assert s[..8] == "https://";
    assert s[8..] == "www." + rest;
    assert ("www." + rest)[..4] == "www.";
    assert ("www." + rest)[4..] == rest;
  }

  /** A string the stripping accepts is one the backtracking regex accepts. */
  lemma AnchoredMatchSound(s: string, paths: seq<string>, i: nat)
    requires i < |paths| && StartsWith(StripWww(StripScheme(s)), paths[i])
    ensures exists sch, w :: PrefixChoice(s, sch, w, paths[i])
  {
    var t := StripScheme(s);
    var sch := SchemeStripped(s);
    var w := WwwStripped(t);
    StartsWithJoin(t, w, paths[i]);
    StartsWithJoin(s, sch, w + paths[i]);
    assert sch + w + paths[i] == sch + (w + paths[i]);
    assert PrefixChoice(s, sch, w, paths[i]);
  }

  /** The scheme that stripping removes, which is one the regex may take. */
  function SchemeStripped(s: string): (sch: string)
    ensures IsSchemeChoice(sch) && s == sch + StripScheme(s) && s[|sch|..] == StripScheme(s)
  {
    if StartsWith(s, "https://") then s[..8]
    else if StartsWith(s, "http://") then s[..7]
    else ""
  }

  /** The `www.` that stripping removes, which is one the regex may take. */
  function WwwStripped(t: string): (w: string)
    ensures IsWwwChoice(w) && t == w + StripWww(t) && t[|w|..] == StripWww(t)
  {
    if StartsWith(t, "www.") then t[..4] else ""
  }

  /** A string the backtracking regex accepts is one the stripping accepts. */
  lemma AnchoredMatchComplete(s: string, sch: string, w: string, p: string)
    requires PrefixChoice(s, sch, w, p) && |p| > 0 && p[0] != 'h' && p[0] != 'w'
    ensures StartsWith(StripWww(StripScheme(s)), p)
  {
    assert sch + w + p == sch + (w + p);
    var tail := w + p;
    assert tail[0] == if w == "" then p[0] else 'w';
    StripSchemeChoice(s, sch, tail);
    StartsWithSplit(s, sch, tail);
    StripWwwChoice(s[|sch|..], w, p);
    StartsWithSplit(s[|sch|..], w, p);
  }

  /**
   * Stripping deterministically accepts exactly the strings for which the
   * backtracking regex finds some scheme, some `www.` choice and some path,
   * as long as no path starts with the first letter of `http` or `www.`.
   */
  lemma AnchoredMatchIff(s: string, paths: seq<string>)
    requires PathsStartPlainly(paths)
    ensures AnchoredMatch(s, paths) <==>
            exists sch, w, i :: 0 <= i < |paths| && PrefixChoice(s, sch, w, paths[i])
  {
    if AnchoredMatch(s, paths) {
      var i :| 0 <= i < |paths| && StartsWith(StripWww(StripScheme(s)), paths[i]);
      AnchoredMatchSound(s, paths, i);
    }
    if exists sch, w, i :: 0 <= i < |paths| && PrefixChoice(s, sch, w, paths[i]) {
      var sch, w, i :| 0 <= i < |paths| && PrefixChoice(s, sch, w, paths[i]);
      AnchoredMatchComplete(s, sch, w, paths[i]);
    }
  }
}
