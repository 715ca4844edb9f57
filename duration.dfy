/**
 * Durations as text: the server's `formatDuration` (seconds to clock text)
 * and the edge functions' `parseDuration` (ISO 8601 `PT#H#M#S` to clock text).
 */
module Duration {
  import opened Wrappers
  import opened Text

  /** `H:MM:SS` when there are hours, else `M:SS`; later fields are `padStart(2, '0')`. */
  function ClockText(h: nat, m: nat, s: nat): string {
    if h > 0 then Decimal(h) + ":" + Pad2(m) + ":" + Pad2(s) else Decimal(m) + ":" + Pad2(s)
  }

  predicate NumericFields(f: seq<string>) {
    forall i :: 0 <= i < |f| ==> f[i] != "" && DigitsOnly(f[i])
  }

  /** Reading a clock text back: two (`M:SS`) or three (`H:MM:SS`) decimal fields. */
  function ParseClock(t: string): Option<nat> {
    ClockValue(SplitOn(t, ':'))
  }

  /** The value of the fields of a clock text. */
  function ClockValue(f: seq<string>): Option<nat> {
    if !NumericFields(f) then None
    else if |f| == 2 then Some(DecimalValue(f[0]) * 60 + DecimalValue(f[1]))
    else if |f| == 3 then Some(DecimalValue(f[0]) * 3600 + DecimalValue(f[1]) * 60 + DecimalValue(f[2]))
    else None
  }

  lemma {:induction false} ClockTextFields(h: nat, m: nat, s: nat)
    ensures SplitOn(ClockText(h, m, s), ':') ==
            if h > 0 then [Decimal(h), Pad2(m), Pad2(s)] else [Decimal(m), Pad2(s)]
  {
    SplitNoSep(Pad2(s), ':');
    if h > 0 {
      SplitJoin(Pad2(m), ':', Pad2(s));
      assert Decimal(h) + ":" + Pad2(m) + ":" + Pad2(s) == Decimal(h) + [':'] + (Pad2(m) + [':'] + Pad2(s));
      SplitJoin(Decimal(h), ':', Pad2(m) + [':'] + Pad2(s));
    } else {
      assert Decimal(m) + ":" + Pad2(s) == Decimal(m) + [':'] + Pad2(s);
      SplitJoin(Decimal(m), ':', Pad2(s));
    }
  }

  /**
   * The clock text reads back as `h*3600 + m*60 + s`, in three fields
   * exactly when there are hours.
   */
  lemma {:induction false} ClockTextRoundTrip(h: nat, m: nat, s: nat)
    ensures ParseClock(ClockText(h, m, s)) == Some(h * 3600 + m * 60 + s)
    ensures |SplitOn(ClockText(h, m, s), ':')| == (if h > 0 then 3 else 2)
  {
    ClockTextFields(h, m, s);
    var t := ClockText(h, m, s);
    if h > 0 {
      ThreeFields(h, m, s);
      ParseClockOfFields(t, [Decimal(h), Pad2(m), Pad2(s)]);
    } else {
      TwoFields(m, s);
      ParseClockOfFields(t, [Decimal(m), Pad2(s)]);
    }
  }

  lemma ParseClockOfFields(t: string, f: seq<string>)
    requires SplitOn(t, ':') == f
    ensures ParseClock(t) == ClockValue(f)
  {
  }

  /** Minutes and two-digit seconds read back as their value. */
  lemma TwoFields(m: nat, s: nat)
    ensures ClockValue([Decimal(m), Pad2(s)]) == Some(m * 60 + s)
  {
    DecimalRoundTrip(m);
    assert NumericFields([Decimal(m), Pad2(s)]);
  }

  /** Hours and two-digit minutes and seconds read back as their value. */
  lemma ThreeFields(h: nat, m: nat, s: nat)
    ensures ClockValue([Decimal(h), Pad2(m), Pad2(s)]) == Some(h * 3600 + m * 60 + s)
  {
    DecimalRoundTrip(h);
    assert NumericFields([Decimal(h), Pad2(m), Pad2(s)]);
  }

  lemma DivModParts(seconds: nat)
    ensures (seconds / 3600) * 3600 + ((seconds % 3600) / 60) * 60 + seconds % 60 == seconds
    ensures (seconds % 3600) / 60 < 60 && seconds % 60 < 60
    ensures seconds / 3600 > 0 <==> seconds >= 3600
  {
    var q, r := seconds / 3600, seconds % 3600;
    var a, b := r / 60, r % 60;
    assert seconds == q * 3600 + r && r < 3600;
    assert r == a * 60 + b && b < 60 && a < 60;
    assert seconds == (q * 60 + a) * 60 + b;
    assert seconds % 60 == b;
  }

  /** `formatDuration(seconds)`: hours, minutes and seconds as clock text. */
  function FormatDuration(seconds: nat): string {
    ClockText(seconds / 3600, (seconds % 3600) / 60, seconds % 60)
  }

  /**
   * The text `formatDuration` gives reads back as `seconds`; it has an hours
   * field exactly when `seconds >= 3600`; minutes (when hours are shown) and
   * seconds are two digits.
   */
  lemma FormatDurationReadsBack(seconds: nat)
    ensures ParseClock(FormatDuration(seconds)) == Some(seconds)
    ensures |SplitOn(FormatDuration(seconds), ':')| == 3 <==> seconds >= 3600
    ensures |SplitOn(FormatDuration(seconds), ':')| == 3 ==> |SplitOn(FormatDuration(seconds), ':')[1]| == 2
    ensures |SplitOn(FormatDuration(seconds), ':')[|SplitOn(FormatDuration(seconds), ':')| - 1]| == 2
  {
    var h, m, s := seconds / 3600, (seconds % 3600) / 60, seconds % 60;
    DivModParts(seconds);
    ClockTextRoundTrip(h, m, s);
    ClockTextFields(h, m, s);
  }

  datatype IsoTime = IsoTime(hours: nat, minutes: nat, seconds: nat)

  /**
   * The optional group `(?:(\d+)X)?` tried at the start of `t`: the greedy
   * digit run must be followed by the designator `x`, else the group matches
   * nothing. Gives the parsed number (0 when absent) and the text left over.
   */
  function Component(t: string, x: char): (r: (nat, string))
    ensures |r.1| <= |t| && r.1 == t[|t| - |r.1|..]
  {
    var n := DigitRunLen(t, 0);
    if n > 0 && n < |t| && t[n] == x then (DecimalValue(t[..n]), t[n + 1..]) else (0, t)
  }

  /** The regex `/PT(?:(\d+)H)?(?:(\d+)M)?(?:(\d+)S)?/` applied to `d`, missing groups read as 0. */
  function IsoFields(d: string): (r: Option<IsoTime>)
    ensures r.None? <==> !Contains(d, "PT")
  {
    IndexOfContains(d, "PT");
    match IndexOf(d, "PT", 0)
    case None => None
    case Some(i) => Some(FieldsFrom(d[i + 2..]))
  }

  /** The three optional groups, tried in order on what follows `PT`. */
  function FieldsFrom(t: string): IsoTime {
    var (h, t1) := Component(t, 'H');
    var (m, t2) := Component(t1, 'M');
    IsoTime(h, m, Component(t2, 'S').0)
  }

  /** `parseDuration`: `'0:00'` when the text has no `PT`, else the clock text of its fields. */
  function ParseIsoDuration(d: string): (r: string)
    ensures !Contains(d, "PT") ==> r == "0:00"
  {
    match IsoFields(d)
    case None => "0:00"
    case Some(t) => ClockText(t.hours, t.minutes, t.seconds)
  }

  /** One designated component of an ISO duration, or nothing when it is left out. */
  function ComponentText(o: Option<nat>, x: char): string {
    match o
    case None => ""
    case Some(n) => Decimal(n) + [x]
  }

  /** The time part of an ISO 8601 duration, with each component optional. */
  function IsoText(h: Option<nat>, m: Option<nat>, s: Option<nat>): string {
    "PT" + ComponentText(h, 'H') + ComponentText(m, 'M') + ComponentText(s, 'S')
  }

  lemma {:induction false} DigitRunOf(d: string, k: nat, digits: string)
    requires HasAt(d, k, digits) && DigitsOnly(digits)
    requires k + |digits| == |d| || !IsDigit(d[k + |digits|])
    ensures DigitRunLen(d, k) == |digits|
    decreases |digits|
  {
    if digits != [] {
      assert d[k] == digits[0];
      assert d[k + 1..k + 1 + |digits[1..]|] == digits[1..];
      DigitRunOf(d, k + 1, digits[1..]);
    }
  }

  /** The group for `x` reads a number followed by `x` and leaves the rest. */
  lemma ComponentPresent(n: nat, x: char, rest: string)
    requires !IsDigit(x)
    ensures Component(Decimal(n) + [x] + rest, x) == (n, rest)
  {
    var ds := Decimal(n);
    var t := ds + [x] + rest;
    assert t[0..|ds|] == ds;
    assert t[|ds|] == x;
    DigitRunOf(t, 0, ds);
    DecimalRoundTrip(n);
    assert t[..|ds|] == ds;
    assert t[|ds| + 1..] == rest;
  }

  /** The group for `x` matches nothing when the text ends or another designator comes first. */
  lemma ComponentAbsent(t: string, x: char, next: Option<(nat, char)>)
    requires next.None? ==> t == ""
    requires next.Some? ==> next.value.1 != x && !IsDigit(next.value.1) && StartsWith(t, NextText(next))
    ensures Component(t, x) == (0, t)
  {
    if next.Some? {
      var (n, y) := next.value;
      var ds := Decimal(n);
      assert t[0..|ds|] == (ds + [y])[..|ds|] == ds;
      assert t[|ds|] == (ds + [y])[|ds|] == y;
      DigitRunOf(t, 0, ds);
    }
  }

  /** The first component present among two, with its designator. */
  function FirstPresent(a: Option<nat>, x: char, b: Option<nat>, y: char): Option<(nat, char)> {
    if a.Some? then Some((a.value, x)) else if b.Some? then Some((b.value, y)) else None
  }

  /** The text of a component, or nothing. */
  function NextText(next: Option<(nat, char)>): string {
    match next
    case None => ""
    case Some((n, y)) => Decimal(n) + [y]
  }

  /** Two optional components start with the first of them present, and are empty when neither is. */
  lemma NextOf(a: Option<nat>, x: char, b: Option<nat>, y: char)
    ensures StartsWith(ComponentText(a, x) + ComponentText(b, y), NextText(FirstPresent(a, x, b, y)))
    ensures FirstPresent(a, x, b, y).None? ==> ComponentText(a, x) + ComponentText(b, y) == ""
  {
    var t := ComponentText(a, x) + ComponentText(b, y);
    if a.Some? {
      assert t[..|ComponentText(a, x)|] == ComponentText(a, x);
    } else {
      assert t == ComponentText(b, y);
      assert t[..|ComponentText(b, y)|] == ComponentText(b, y);
    }
  }

  /** The group for `x` on a component text, when what follows it is the component `next` or nothing. */
  lemma ComponentOf(o: Option<nat>, x: char, rest: string, next: Option<(nat, char)>)
    requires !IsDigit(x)
    requires next.None? ==> rest == ""
    requires next.Some? ==> next.value.1 != x && !IsDigit(next.value.1) && StartsWith(rest, NextText(next))
    ensures Component(ComponentText(o, x) + rest, x) == (o.GetOr(0), rest)
  {
    if o.Some? {
      ComponentPresent(o.value, x, rest);
    } else {
      assert ComponentText(o, x) + rest == rest;
      ComponentAbsent(rest, x, next);
    }
  }

  lemma IsoTextStartsWithPT(h: Option<nat>, m: Option<nat>, s: Option<nat>)
    ensures IndexOf(IsoText(h, m, s), "PT", 0) == Some(0)
  {
    var d := IsoText(h, m, s);
    assert d[0..2] == "PT";
  }

  /** The three groups read back the components of a time part, a missing one as 0. */
  lemma FieldsOfComponents(h: Option<nat>, m: Option<nat>, s: Option<nat>)
    ensures FieldsFrom(ComponentText(h, 'H') + (ComponentText(m, 'M') + ComponentText(s, 'S')))
            == IsoTime(h.GetOr(0), m.GetOr(0), s.GetOr(0))
  {
    var tm, ts := ComponentText(m, 'M'), ComponentText(s, 'S');
    NextOf(m, 'M', s, 'S');
    ComponentOf(h, 'H', tm + ts, FirstPresent(m, 'M', s, 'S'));
    NextOf(s, 'S', None, 'S');
    assert ts + ComponentText(None, 'S') == ts;
    ComponentOf(m, 'M', ts, FirstPresent(s, 'S', None, 'S'));
    assert ts + "" == ts;
    ComponentOf(s, 'S', "", None);
  }

  /**
   * Parsing the time part of an ISO 8601 duration recovers every component
   * written, and a component left out counts as 0.
   */
  lemma IsoRoundTrip(h: Option<nat>, m: Option<nat>, s: Option<nat>)
    ensures IsoFields(IsoText(h, m, s)) == Some(IsoTime(h.GetOr(0), m.GetOr(0), s.GetOr(0)))
  {
    var d := IsoText(h, m, s);
    IsoTextStartsWithPT(h, m, s);
    IsoFieldsAtStart(d);
    IsoTextAfterPT(h, m, s);
    FieldsOfComponents(h, m, s);
  }

  /** A text opening with `PT` has its fields read from what follows. */
  lemma IsoFieldsAtStart(d: string)
    requires IndexOf(d, "PT", 0) == Some(0)
    ensures |d| >= 2 && IsoFields(d) == Some(FieldsFrom(d[2..]))
  {
  }

  lemma IsoTextAfterPT(h: Option<nat>, m: Option<nat>, s: Option<nat>)
    ensures |IsoText(h, m, s)| >= 2
    ensures IsoText(h, m, s)[2..] == ComponentText(h, 'H') + (ComponentText(m, 'M') + ComponentText(s, 'S'))
  {
    var x := ComponentText(h, 'H') + (ComponentText(m, 'M') + ComponentText(s, 'S'));
    assert IsoText(h, m, s) == "PT" + x;
  }

  lemma ParseIsoDurationText(h: Option<nat>, m: Option<nat>, s: Option<nat>)
    ensures ParseIsoDuration(IsoText(h, m, s)) == ClockText(h.GetOr(0), m.GetOr(0), s.GetOr(0))
  {
    IsoRoundTrip(h, m, s);
  }

  lemma DivMod3600(q: nat, r: nat)
    requires r < 3600
    ensures (q * 3600 + r) / 3600 == q && (q * 3600 + r) % 3600 == r
  {
  }

  lemma DivMod60(q: nat, r: nat)
    requires r < 60
    ensures (q * 60 + r) / 60 == q && (q * 60 + r) % 60 == r
  {
  }

  lemma ClockTextOfSeconds(h: nat, m: nat, s: nat)
    requires m < 60 && s < 60
    ensures FormatDuration(h * 3600 + m * 60 + s) == ClockText(h, m, s)
  {
    var t := h * 3600 + m * 60 + s;
    DivMod3600(h, m * 60 + s);
    DivMod60(m, s);
    assert t == (h * 60 + m) * 60 + s;
    DivMod60(h * 60 + m, s);
  }

  /**
   * The two duration formats of the code base agree: the text the edge
   * functions' `parseDuration` gives for an ISO time part is the text the
   * server's `formatDuration` gives for its total number of seconds, so it
   * reads back as that total (see `FormatDurationReadsBack`).
   */
  lemma ParseIsoAgreesWithFormat(h: Option<nat>, m: Option<nat>, s: Option<nat>)
    requires m.GetOr(0) < 60 && s.GetOr(0) < 60
    ensures ParseIsoDuration(IsoText(h, m, s)) == FormatDuration(h.GetOr(0) * 3600 + m.GetOr(0) * 60 + s.GetOr(0))
  {
    ClockTextOfSeconds(h.GetOr(0), m.GetOr(0), s.GetOr(0));
    ParseIsoDurationIs(h, m, s, h.GetOr(0) * 3600 + m.GetOr(0) * 60 + s.GetOr(0));
  }

  lemma ParseIsoDurationIs(h: Option<nat>, m: Option<nat>, s: Option<nat>, seconds: nat)
    requires FormatDuration(seconds) == ClockText(h.GetOr(0), m.GetOr(0), s.GetOr(0))
    ensures ParseIsoDuration(IsoText(h, m, s)) == FormatDuration(seconds)
  {
    ParseIsoDurationText(h, m, s);
  }

  /**
   * A duration with a day component (`P1DT2H`, as YouTube reports videos of
   * a day or more) has no `PT` substring and therefore reads as `'0:00'`.
   */
  lemma DayDurationsReadAsZero(days: nat, h: nat)
    ensures ParseIsoDuration("P" + Decimal(days) + "DT" + Decimal(h) + "H") == "0:00"
  {
    var d := "P" + Decimal(days) + "DT" + Decimal(h) + "H";
    var rest := Decimal(days) + "DT" + Decimal(h) + "H";
    assert d == "P" + rest;
    DigitsHaveNoP(Decimal(days));
    DigitsHaveNoP(Decimal(h));
    assert 'P' !in rest;
    assert IsDigit(d[1]);
    OnlyLeadingP(d);
  }

  lemma DigitsHaveNoP(s: string)
    requires DigitsOnly(s)
    ensures 'P' !in s
  {
  }

  /** When `P` occurs only first and a digit follows it, `PT` does not occur. */
  lemma OnlyLeadingP(d: string)
    requires |d| >= 2 && IsDigit(d[1]) && 'P' !in d[1..]
    ensures !Contains(d, "PT")
  {
    forall k | 0 <= k <= |d| ensures !HasAt(d, k, "PT") {
      HasAtChars(d, k, "PT");
      if 0 < k < |d| {
        assert d[k] == d[1..][k - 1];
      }
    }
  }
}
