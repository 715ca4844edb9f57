/**
 * The server's view of the formats ytdl-core reports for a video (already
 * narrowed to `videoandaudio`): the quality list it shows and the format it
 * picks for a requested quality.
 */
module Formats {
  import opened Wrappers

  /** One stream: its `qualityLabel` (may be missing), its `url` and its `contentLength`. */
  datatype Format = Format(qualityLabel: Option<string>, url: string, contentLength: Option<nat>)

  /** `formats.map(f => f.qualityLabel).filter(Boolean)`: the present, non-empty labels in order. */
  function Labels(formats: seq<Format>): (r: seq<string>)
    ensures forall q :: q in r <==> exists i :: 0 <= i < |formats| && formats[i].qualityLabel == Some(q) && q != ""
    decreases |formats|
  {
    if formats == [] then []
    else
      var rest := Labels(formats[1..]);
      assert forall i :: 0 < i < |formats| ==> formats[i] == formats[1..][i - 1];
      if Truthy(formats[0].qualityLabel) then [formats[0].qualityLabel.value] + rest else rest
  }

  predicate NoDuplicates(xs: seq<string>) {
    forall i, j :: 0 <= i < j < |xs| ==> xs[i] != xs[j]
  }

  /** The position of the first occurrence of `x` in `xs`. */
  function FirstIndex(xs: seq<string>, x: string): (k: nat)
    requires x in xs
    ensures k < |xs| && xs[k] == x && x !in xs[..k]
  {
    if xs[0] == x then 0
    else
      var k := 1 + FirstIndex(xs[1..], x);
      assert xs[..k] == [xs[0]] + xs[1..][..k - 1];
      k
  }

  lemma FirstIndexPrefix(xs: seq<string>, n: nat, x: string)
    requires n <= |xs| && x in xs[..n]
    ensures x in xs && FirstIndex(xs, x) == FirstIndex(xs[..n], x)
  {
    var k := FirstIndex(xs[..n], x);
    assert xs[k] == xs[..n][k];
    assert xs[..k] == xs[..n][..k];
  }

  /**
   * `[...new Set(xs)]`: each value once, in the order of its first
   * occurrence. The three properties together fix the result.
   */
  function Distinct(xs: seq<string>): (r: seq<string>)
    ensures NoDuplicates(r)
    ensures forall x :: x in r <==> x in xs
    ensures forall i, j :: 0 <= i < j < |r| ==> FirstIndex(xs, r[i]) < FirstIndex(xs, r[j])
    decreases |xs|
  {
    if xs == [] then []
    else
      var n := |xs| - 1;
      var init := xs[..n];
      var d := Distinct(init);
      assert xs == init + [xs[n]];
      forall x | x in d ensures x in xs && FirstIndex(xs, x) == FirstIndex(init, x) {
        FirstIndexPrefix(xs, n, x);
      }
      if xs[n] in d then d
      else
        assert xs[n] !in init;
        assert FirstIndex(xs, xs[n]) == n;
        d + [xs[n]]
  }

  /**
   * The quality list the server reports: the distinct non-empty labels, in
   * the order in which each label first occurs among the formats.
   */
  function Qualities(formats: seq<Format>): (r: seq<string>)
    ensures NoDuplicates(r)
    ensures forall q :: q in r <==> exists i :: 0 <= i < |formats| && formats[i].qualityLabel == Some(q) && q != ""
    ensures InFirstLabelOrder(formats, r)
  {
    DistinctLabelsOrdered(formats);
    Distinct(Labels(formats))
  }

  /** Each label of `r` first occurs among the formats before the labels after it. */
  predicate InFirstLabelOrder(formats: seq<Format>, r: seq<string>) {
    forall i, j :: 0 <= i < j < |r| ==> LabelBefore(formats, r[i], r[j])
  }

  /** Both labels occur among the formats, `q` first. */
  predicate LabelBefore(formats: seq<Format>, q: string, q': string) {
    FindLabel(formats, q).Some? && FindLabel(formats, q').Some?
    && FindLabel(formats, q).value < FindLabel(formats, q').value
  }

  lemma DistinctLabelsOrdered(formats: seq<Format>)
    ensures InFirstLabelOrder(formats, Distinct(Labels(formats)))
  {
    var l := Labels(formats);
    var r := Distinct(l);
    forall i, j | 0 <= i < j < |r| ensures LabelBefore(formats, r[i], r[j]) {
      assert r[i] in l && r[j] in l;
      assert FirstIndex(l, r[i]) < FirstIndex(l, r[j]);
      LabelsOrder(formats, r[i], r[j]);
    }
  }

  /** Labels keep the order of the formats they come from: their first occurrences are in the same order. */
  lemma {:induction false} LabelsOrder(formats: seq<Format>, q: string, q': string)
    requires q in Labels(formats) && q' in Labels(formats)
    ensures FindLabel(formats, q).Some? && FindLabel(formats, q').Some?
    ensures FirstIndex(Labels(formats), q) < FirstIndex(Labels(formats), q') ==>
              FindLabel(formats, q).value < FindLabel(formats, q').value
    decreases |formats|
  {
    var l := Labels(formats);
    var rest := formats[1..];
    var lr := Labels(rest);
    assert forall i :: 0 < i < |formats| ==> formats[i] == rest[i - 1];
    if Truthy(formats[0].qualityLabel) && formats[0].qualityLabel.value == q {
      assert l == [q] + lr;
      assert FindLabel(formats, q) == Some(0);
      if q' != q {
        FindLabelIn(formats, q');
      }
    } else if Truthy(formats[0].qualityLabel) && formats[0].qualityLabel.value == q' {
      assert l == [q'] + lr;
      FindLabelIn(formats, q);
      assert FirstIndex(l, q') == 0;
    } else {
      assert l == if Truthy(formats[0].qualityLabel) then [formats[0].qualityLabel.value] + lr else lr;
      assert q in lr && q' in lr;
      assert l != lr ==> l[1..] == lr && l[0] != q && l[0] != q';
      assert FirstIndex(l, q) < FirstIndex(l, q') <==> FirstIndex(lr, q) < FirstIndex(lr, q');
      LabelsOrder(rest, q, q');
      assert q != "" && q' != "";
      assert formats[0].qualityLabel != Some(q) && formats[0].qualityLabel != Some(q');
    }
  }

  /** A label that occurs among the formats is found by `FindLabel`. */
  lemma FindLabelIn(formats: seq<Format>, q: string)
    requires q in Labels(formats)
    ensures FindLabel(formats, q).Some?
  {
    var i :| 0 <= i < |formats| && formats[i].qualityLabel == Some(q) && q != "";
  }

  /** `formats.find(f => f.qualityLabel === q)`, as an index. */
  function FindLabel(formats: seq<Format>, q: string): (r: Option<nat>)
    ensures r.Some? ==> r.value < |formats| && formats[r.value].qualityLabel == Some(q)
    ensures r.Some? ==> forall j :: 0 <= j < r.value ==> formats[j].qualityLabel != Some(q)
    ensures r.None? ==> forall j :: 0 <= j < |formats| ==> formats[j].qualityLabel != Some(q)
    decreases |formats|
  {
    if formats == [] then None
    else if formats[0].qualityLabel == Some(q) then Some(0)
    else
      match FindLabel(formats[1..], q)
      case None => None
      case Some(k) => Some(k + 1)
  }

  /**
   * The format chosen for a requested quality: with a (non-empty) quality,
   * the first format carrying exactly that label; failing that, the first
   * format; `None` ("No suitable format found") exactly when there are none.
   */
  function SelectFormat(formats: seq<Format>, quality: Option<string>): (r: Option<Format>)
    ensures r.None? <==> |formats| == 0
    ensures r.Some? ==> r.value in formats
    ensures Truthy(quality) && FindLabel(formats, quality.value).Some?
            ==> r == Some(formats[FindLabel(formats, quality.value).value])
    ensures (!Truthy(quality) || FindLabel(formats, quality.value).None?) && |formats| > 0
            ==> r == Some(formats[0])
  {
    var found := if Truthy(quality) then FindLabel(formats, quality.value) else None;
    if found.Some? then Some(formats[found.value])
    else if |formats| == 0 then None
    else Some(formats[0])
  }

  /** Whenever some format carries the requested label, the chosen one carries it too. */
  lemma SelectedHasRequestedLabel(formats: seq<Format>, q: string, i: nat)
    requires q != "" && i < |formats| && formats[i].qualityLabel == Some(q)
    ensures SelectFormat(formats, Some(q)).Some?
    ensures SelectFormat(formats, Some(q)).value.qualityLabel == Some(q)
  {
  }

  /** A missing label reads as `null` when written into a template string. */
  function LabelText(qualityLabel: Option<string>): string {
    match qualityLabel
    case None => "null"
    case Some(l) => l
  }
}
