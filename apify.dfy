/**
 * The extractor's use of Apify: picking a download URL out of the primary
 * actor's dataset item, and the chain primary actor, alternative actor,
 * fallback actor with its hand-offs and retries.
 */
module Apify {
  import opened Wrappers
  import opened Text
  import Naming
  import ServerUrls

  /** One entry of `videoFiles` in the primary actor's item. */
  datatype VideoFile = VideoFile(quality: Option<string>, url: Option<string>, contentLength: Option<nat>)

  /** The primary actor's item; `keys` is `Object.keys(videoData)`, `videoFiles` is present when it is an array. */
  datatype VideoData = VideoData(
    downloadUrl: Option<string>, format: Option<string>, fileSize: Option<nat>,
    videoFiles: Option<seq<VideoFile>>, videoUrl: Option<string>, keys: seq<string>)

  /** `f.quality && f.quality.includes(target)`. */
  predicate QualityMatches(f: VideoFile, target: string) {
    Truthy(f.quality) && Contains(f.quality.value, target)
  }

  /** The first file at or after `k` whose quality contains `target`, url or not. */
  function FirstQualityMatch(files: seq<VideoFile>, target: string, k: nat): (r: Option<nat>)
    requires k <= |files|
    ensures r.Some? ==> k <= r.value < |files| && QualityMatches(files[r.value], target)
                        && forall j :: k <= j < r.value ==> !QualityMatches(files[j], target)
    ensures r.None? ==> forall j :: k <= j < |files| ==> !QualityMatches(files[j], target)
    decreases |files| - k
  {
    if k == |files| then None
    else if QualityMatches(files[k], target) then Some(k)
    else FirstQualityMatch(files, target, k + 1)
  }

  /** The rungs tried when no quality matches, best first. */
  const Ladder: seq<string> := ["1080", "720", "480", "360", "240"]

  /** `vf.quality && vf.quality.includes(q) && vf.url`. */
  predicate RungMatches(f: VideoFile, q: string) {
    QualityMatches(f, q) && Truthy(f.url)
  }

  /** `videoFiles.find(...)` for one rung, from `k` on. */
  function FindRungFile(files: seq<VideoFile>, q: string, k: nat): (r: Option<nat>)
    requires k <= |files|
    ensures r.Some? ==> k <= r.value < |files| && RungMatches(files[r.value], q)
                        && forall j :: k <= j < r.value ==> !RungMatches(files[j], q)
    ensures r.None? ==> forall j :: k <= j < |files| ==> !RungMatches(files[j], q)
    decreases |files| - k
  {
    if k == |files| then None
    else if RungMatches(files[k], q) then Some(k)
    else FindRungFile(files, q, k + 1)
  }

  /** The first rung at or after `n` that some file matches. */
  function FirstRung(files: seq<VideoFile>, n: nat): (r: Option<nat>)
    requires n <= |Ladder|
    ensures r.Some? ==> n <= r.value < |Ladder| && FindRungFile(files, Ladder[r.value], 0).Some?
                        && forall m :: n <= m < r.value ==> FindRungFile(files, Ladder[m], 0).None?
    ensures r.None? ==> forall m :: n <= m < |Ladder| ==> FindRungFile(files, Ladder[m], 0).None?
    decreases |Ladder| - n
  {
    if n == |Ladder| then None
    else if FindRungFile(files, Ladder[n], 0).Some? then Some(n)
    else FirstRung(files, n + 1)
  }

  /** `quality.replace('p', '')`: the number the files' qualities are searched for. */
  function Target(quality: string): string {
    ReplaceFirst(quality, "p", "")
  }

  /** `bestMatch`: the first quality match; failing that, the first file with a url on the best rung. */
  function BestMatch(files: seq<VideoFile>, quality: string): Option<VideoFile> {
    match FirstQualityMatch(files, Target(quality), 0)
    case Some(i) => Some(files[i])
    case None =>
      match FirstRung(files, 0)
      case Some(n) => Some(files[FindRungFile(files, Ladder[n], 0).value])
      case None => None
  }

  /** The three variables the selection updates. */
  datatype Selection = Selection(downloadUrl: Option<string>, selectedFormat: Option<string>, filesize: nat)

  /**
   * The selection as a specification: the item's own `downloadUrl`; else the
   * best matching file; else `videoUrl` (keeping the best match's size).
   */
  function Select(data: VideoData, quality: string): Selection {
    if Truthy(data.downloadUrl) then
      Selection(data.downloadUrl, Some(OrElse(data.format, quality)), data.fileSize.GetOr(0))
    else
      var fromFiles :=
        if data.videoFiles.None? then Selection(None, None, 0)
        else match BestMatch(data.videoFiles.value, quality)
             case None => Selection(None, None, 0)
             case Some(b) => Selection(b.url, Some(OrElse(b.quality, quality)), b.contentLength.GetOr(0));
      if !Truthy(fromFiles.downloadUrl) && Truthy(data.videoUrl) then
        Selection(data.videoUrl, Some(quality), fromFiles.filesize)
      else fromFiles
  }

  /**
   * The selection step by step, as `extractVideoUrlWithApify` performs it:
   * the exact-quality loop with `break`, then the ladder loop.
   */
  method SelectDownload(data: VideoData, quality: string) returns (downloadUrl: Option<string>, selectedFormat: Option<string>, filesize: nat)
    ensures Selection(downloadUrl, selectedFormat, filesize) == Select(data, quality)
  {
    downloadUrl, selectedFormat, filesize := None, None, 0;
    if Truthy(data.downloadUrl) {
      downloadUrl := data.downloadUrl;
      selectedFormat := Some(OrElse(data.format, quality));
      filesize := data.fileSize.GetOr(0);
    }
    if !Truthy(downloadUrl) {
      if data.videoFiles.Some? {
        var files := data.videoFiles.value;
        var target := ReplaceFirst(quality, "p", "");
        var bestMatch: Option<VideoFile> := None;
        var i := 0;
        while i < |files|
          invariant 0 <= i <= |files|
          invariant bestMatch == None
          invariant forall j :: 0 <= j < i ==> !QualityMatches(files[j], target)
        {
          if QualityMatches(files[i], target) {
            bestMatch := Some(files[i]);
            break;
          }
          i := i + 1;
        }
        if bestMatch.None? {
          var n := 0;
          while n < |Ladder|
            invariant 0 <= n <= |Ladder|
            invariant forall m :: 0 <= m < n ==> FindRungFile(files, Ladder[m], 0).None?
            invariant bestMatch == None
          {
            var found := FindRungFile(files, Ladder[n], 0);
            if found.Some? {
              bestMatch := Some(files[found.value]);
              break;
            }
            n := n + 1;
          }
        }
        assert bestMatch == BestMatch(files, quality);
        if bestMatch.Some? {
          downloadUrl := bestMatch.value.url;
          selectedFormat := Some(OrElse(bestMatch.value.quality, quality));
          filesize := bestMatch.value.contentLength.GetOr(0);
        }
      }
      if !Truthy(downloadUrl) && Truthy(data.videoUrl) {
        downloadUrl := data.videoUrl;
        selectedFormat := Some(quality);
      }
    }
  }

  /** What an actor hands back: `format` is always `mp4`. */
  datatype Extraction = Extraction(downloadUrl: string, filename: string, filesize: nat, isYouTubeUrl: bool)

  /**
   * The checks after the selection: a URL must have been found and must start
   * with `http`; the file is named after the sanitized title and the format.
   */
  function Finish(sel: Selection, data: VideoData, quality: string, title: string): (r: Result<Extraction>)
    ensures r.Err? <==> !Truthy(sel.downloadUrl) || !StartsWith(sel.downloadUrl.value, "http")
    ensures !Truthy(sel.downloadUrl) ==>
              r == Err("No download URL found for quality " + quality + ". Available data: " + Join(data.keys, ", "))
    ensures r.Ok? ==> r.value.downloadUrl == sel.downloadUrl.value && StartsWith(r.value.downloadUrl, "http")
                      && r.value.filesize == sel.filesize && !r.value.isYouTubeUrl
    ensures r.Ok? ==> r.value.filename == Naming.SanitizeFilename(title) + "_" + OrElse(sel.selectedFormat, quality) + ".mp4"
  {
    if !Truthy(sel.downloadUrl) then
      Err("No download URL found for quality " + quality + ". Available data: " + Join(data.keys, ", "))
    else if !StartsWith(sel.downloadUrl.value, "http") then
      Err("Invalid download URL received from Apify extraction service")
    else
      Ok(Extraction(sel.downloadUrl.value, Naming.SanitizeFilename(title) + "_" + OrElse(sel.selectedFormat, quality) + ".mp4",
                    sel.filesize, false))
  }

  // ---------------------------------------------------------------------
  // Properties of the selection

  /** The item's own `downloadUrl`, when present, is taken and nothing else is looked at. */
  lemma DirectUrlFirst(data: VideoData, quality: string)
    requires Truthy(data.downloadUrl)
    ensures Select(data, quality) == Selection(data.downloadUrl, Some(OrElse(data.format, quality)), data.fileSize.GetOr(0))
  {
  }

  /** The best matching file of the item's `videoFiles`, when it lists any. */
  function FileChoice(data: VideoData, quality: string): Option<VideoFile> {
    if data.videoFiles.None? then None else BestMatch(data.videoFiles.value, quality)
  }

  /**
   * The three sources in order: the item's own `downloadUrl` with its format
   * and size; else the best match's url with its quality (or the requested
   * one) and its `contentLength`; else `videoUrl` with the requested quality,
   * keeping the best match's size; else no URL at all.
   */
  lemma SelectSources(data: VideoData, quality: string)
    ensures Truthy(data.downloadUrl) ==>
              Select(data, quality) == Selection(data.downloadUrl, Some(OrElse(data.format, quality)), data.fileSize.GetOr(0))
    ensures !Truthy(data.downloadUrl) && FileChoice(data, quality).Some? && Truthy(FileChoice(data, quality).value.url) ==>
              Select(data, quality) == Selection(FileChoice(data, quality).value.url,
                                                 Some(OrElse(FileChoice(data, quality).value.quality, quality)),
                                                 FileChoice(data, quality).value.contentLength.GetOr(0))
    ensures !Truthy(data.downloadUrl) && FileChoice(data, quality).Some? && !Truthy(FileChoice(data, quality).value.url)
            && Truthy(data.videoUrl)
            ==> Select(data, quality) == Selection(data.videoUrl, Some(quality), FileChoice(data, quality).value.contentLength.GetOr(0))
    ensures !Truthy(data.downloadUrl) && FileChoice(data, quality).None? && Truthy(data.videoUrl) ==>
              Select(data, quality) == Selection(data.videoUrl, Some(quality), 0)
    ensures !Truthy(data.downloadUrl) && (FileChoice(data, quality).None? || !Truthy(FileChoice(data, quality).value.url))
            && !Truthy(data.videoUrl)
            ==> !Truthy(Select(data, quality).downloadUrl)
  {
  }

  /**
   * A file whose quality contains the target stops the search even without a
   * url: the ladder is not consulted, and the URL comes from `videoUrl` or
   * nowhere.
   */
  lemma QualityMatchWithoutUrl(data: VideoData, quality: string, i: nat)
    requires !Truthy(data.downloadUrl) && data.videoFiles.Some?
    requires FirstQualityMatch(data.videoFiles.value, Target(quality), 0) == Some(i)
    requires !Truthy(data.videoFiles.value[i].url)
    ensures Truthy(data.videoUrl) ==> Select(data, quality).downloadUrl == data.videoUrl
    ensures !Truthy(data.videoUrl) ==> !Truthy(Select(data, quality).downloadUrl)
  {
  }

  /**
   * Without a quality match, the ladder's pick has a url, its quality
   * contains its rung's number, no file with a url matches a better rung,
   * and no earlier file with a url matches its rung (`find` returns the first).
   */
  lemma LadderPick(files: seq<VideoFile>, quality: string)
    requires FirstQualityMatch(files, Target(quality), 0).None?
    requires BestMatch(files, quality).Some?
    ensures exists n, i :: 0 <= n < |Ladder| && 0 <= i < |files|
                           && BestMatch(files, quality) == Some(files[i])
                           && Truthy(files[i].url) && Contains(files[i].quality.value, Ladder[n])
                           && (forall j :: 0 <= j < i ==> !RungMatches(files[j], Ladder[n]))
                           && forall m, j :: 0 <= m < n && 0 <= j < |files| ==> !RungMatches(files[j], Ladder[m])
  {
    var n := FirstRung(files, 0).value;
    var i := FindRungFile(files, Ladder[n], 0).value;
    assert BestMatch(files, quality) == Some(files[i]);
    RungPick(files, n, i);
  }

  /** The file `find` returns on the first rung with a match, and what it means. */
  lemma RungPick(files: seq<VideoFile>, n: nat, i: nat)
    requires FirstRung(files, 0) == Some(n) && FindRungFile(files, Ladder[n], 0) == Some(i)
    ensures n < |Ladder| && i < |files| && Truthy(files[i].url) && Contains(files[i].quality.value, Ladder[n])
    ensures forall j :: 0 <= j < i ==> !RungMatches(files[j], Ladder[n])
    ensures forall m, j :: 0 <= m < n && 0 <= j < |files| ==> !RungMatches(files[j], Ladder[m])
  {
    var q := Ladder[n];
    assert RungMatches(files[i], q);
    BetterRungsEmpty(files, n);
  }

  /** Below the first rung with a match, no file with a url matches. */
  lemma BetterRungsEmpty(files: seq<VideoFile>, n: nat)
    requires FirstRung(files, 0) == Some(n)
    ensures forall m, j :: 0 <= m < n && 0 <= j < |files| ==> !RungMatches(files[j], Ladder[m])
  {
    forall m, j | 0 <= m < n && 0 <= j < |files| ensures !RungMatches(files[j], Ladder[m]) {
      assert FindRungFile(files, Ladder[m], 0).None?;
    }
  }

  /** The file chosen for a requested quality is the first whose quality contains the number asked for. */
  lemma ExactQualityWins(files: seq<VideoFile>, quality: string, i: nat)
    requires i < |files| && QualityMatches(files[i], Target(quality))
    ensures BestMatch(files, quality).Some?
    ensures QualityMatches(BestMatch(files, quality).value, Target(quality))
    ensures exists j :: 0 <= j <= i && BestMatch(files, quality) == Some(files[j])
  {
  }

  // ---------------------------------------------------------------------
  // The actor chain

  /** The primary actor's reply, as far as the code looks at it. */
  datatype PrimaryReply =
    | PrimaryThrew(message: string)                 // the request itself failed (network error, 60 s timeout)
    | PrimaryNotOk(status: nat, errorIsJson: bool)  // a non-2xx status; whether its body parses as JSON
    | PrimaryBadJson(message: string)               // a 2xx status whose body is not JSON
    | PrimaryEmpty                                  // a null dataset or an empty array
    | PrimaryItem(data: VideoData)                  // the first item, or the object itself

  /** One entry of `videoFiles` in the alternative actor's item. */
  datatype AltFile = AltFile(url: Option<string>, downloadUrl: Option<string>)

  datatype AltData = AltData(
    videoFiles: Option<seq<AltFile>>, downloadUrl: Option<string>, url: Option<string>,
    fileSize: Option<nat>, contentLength: Option<nat>)

  /** The alternative actor's reply. */
  datatype AltReply =
    | AltThrew(message: string)  // the request failed, the body was not JSON, or reading the item threw
    | AltNotOk                   // a non-2xx status
    | AltEmpty                   // no data, or an empty list
    | AltItem(data: AltData)     // the first item

  /** The fallback actor's reply. */
  datatype FallbackReply = FallbackOk | FallbackNotOk(errorText: string) | FallbackThrew(message: string)

  datatype Actor = Primary | Alternative | Fallback

  /** A result together with the actors called, in order. */
  datatype Chain = Chain(result: Result<Extraction>, calls: seq<Actor>)

  /** The alternative's URL: the first file's `url || downloadUrl`, else the item's `downloadUrl`, else its `url`. */
  function AltUrl(d: AltData): (r: Option<string>)
    ensures HasAltFiles(d) && Truthy(d.videoFiles.value[0].url) ==> r == d.videoFiles.value[0].url
    ensures HasAltFiles(d) && !Truthy(d.videoFiles.value[0].url) ==> r == d.videoFiles.value[0].downloadUrl
    ensures !HasAltFiles(d) && Truthy(d.downloadUrl) ==> r == d.downloadUrl
    ensures !HasAltFiles(d) && !Truthy(d.downloadUrl) && Truthy(d.url) ==> r == d.url
    ensures !HasAltFiles(d) && !Truthy(d.downloadUrl) && !Truthy(d.url) ==> r.None?
  {
    if HasAltFiles(d) then
      var f := d.videoFiles.value[0];
      if Truthy(f.url) then f.url else f.downloadUrl
    else if Truthy(d.downloadUrl) then d.downloadUrl
    else if Truthy(d.url) then d.url
    else None
  }

  /** The alternative's item lists at least one file; only the first is looked at. */
  predicate HasAltFiles(d: AltData) {
    d.videoFiles.Some? && |d.videoFiles.value| > 0
  }

  /** `a || b || 0` over sizes, where 0 and a missing size are falsy. */
  function SizeOr(a: Option<nat>, b: Option<nat>): (r: nat)
    ensures a.Some? && a.value != 0 ==> r == a.value
    ensures (a.None? || a.value == 0) ==> r == b.GetOr(0)
  {
    if a.Some? && a.value != 0 then a.value else b.GetOr(0)
  }

  /** `extractVideoUrlWithFallbackActor`: the watch URL itself, flagged, or an error. */
  function FallbackCall(videoId: string, title: string, fb: FallbackReply): (c: Chain)
    ensures c.calls == [Fallback]
    ensures c.result.Ok? <==> fb.FallbackOk?
    ensures c.result.Ok? ==> c.result.value.filename == Naming.SanitizeFilename(title) + ".mp4"
  {
    match fb
    case FallbackOk =>
      Chain(Ok(Extraction(ServerUrls.WatchUrl(videoId), Naming.SanitizeFilename(title) + ".mp4", 0, true)), [Fallback])
    case FallbackNotOk(text) =>
      Chain(Err("All Apify extraction methods failed: All Apify actors failed. Last error: " + text), [Fallback])
    case FallbackThrew(message) =>
      Chain(Err("All Apify extraction methods failed: " + message), [Fallback])
  }

  /**
   * `return await next()` inside a `try` whose `catch` calls `next()` again.
   * Each actor has one reply here, so the second attempt gets the first's.
   */
  function Retried(c: Chain): (r: Chain)
    ensures r.result == c.result
    ensures r.calls == if c.result.Ok? then c.calls else c.calls + c.calls
  {
    if c.result.Ok? then c else Chain(c.result, c.calls + c.calls)
  }

  /**
   * `extractVideoUrlWithAlternativeActor`. The hand-offs at lines 330, 338
   * and 356 sit inside its `try`, so a failing fallback is called a second
   * time from its `catch`; a throw of its own reaches the fallback once.
   */
  function AlternativeCall(videoId: string, title: string, alt: AltReply, fb: FallbackReply): (c: Chain)
    ensures |c.calls| > 0 && c.calls[0] == Alternative
    ensures c.result.Ok? ==> c.result.value.filename == Naming.SanitizeFilename(title) + ".mp4"
    ensures alt.AltItem? && Truthy(AltUrl(alt.data)) ==>
              c == Chain(Ok(Extraction(AltUrl(alt.data).value, Naming.SanitizeFilename(title) + ".mp4",
                                       SizeOr(alt.data.fileSize, alt.data.contentLength), false)), [Alternative])
    ensures alt.AltThrew? ==>
              c == Chain(FallbackCall(videoId, title, fb).result, [Alternative, Fallback])
    ensures alt.AltNotOk? || alt.AltEmpty? || (alt.AltItem? && !Truthy(AltUrl(alt.data))) ==>
              var r := Retried(FallbackCall(videoId, title, fb));
              c == Chain(r.result, [Alternative] + r.calls)
  {
    var rest :=
      match alt
      case AltThrew(_) => FallbackCall(videoId, title, fb)
      case AltNotOk => Retried(FallbackCall(videoId, title, fb))
      case AltEmpty => Retried(FallbackCall(videoId, title, fb))
      case AltItem(d) =>
        var url := AltUrl(d);
        if !Truthy(url) then Retried(FallbackCall(videoId, title, fb))
        else Chain(Ok(Extraction(url.value, Naming.SanitizeFilename(title) + ".mp4",
                                 SizeOr(d.fileSize, d.contentLength), false)), []);
    Chain(rest.result, [Alternative] + rest.calls)
  }

  /**
   * A JSON 400 or 500: the hand-off at line 166 sits inside the `try` whose
   * `catch` hands off again.
   */
  predicate RetriesAlternative(primary: PrimaryReply) {
    primary.PrimaryNotOk? && primary.errorIsJson && (primary.status == 400 || primary.status == 500)
  }

  /** What the file name holds between the title and `.mp4`: `_` and the format for a primary item, else nothing. */
  function FormatPart(primary: PrimaryReply, quality: string): string {
    if primary.PrimaryItem? then "_" + OrElse(Select(primary.data, quality).selectedFormat, quality) else ""
  }

  /**
   * What follows the primary actor's reply: its own error, the selection's
   * checks for an item, or the alternative actor (twice for a JSON 400 or 500).
   */
  function AfterPrimary(videoId: string, quality: string, title: string,
                        primary: PrimaryReply, alt: AltReply, fb: FallbackReply): (c: Chain)
    ensures primary.PrimaryThrew? || primary.PrimaryBadJson? ==> c == Chain(Err(primary.message), [])
    ensures primary.PrimaryItem? ==> c == Chain(Finish(Select(primary.data, quality), primary.data, quality, title), [])
    ensures primary.PrimaryEmpty? || (primary.PrimaryNotOk? && !RetriesAlternative(primary)) ==>
              c == AlternativeCall(videoId, title, alt, fb)
    ensures RetriesAlternative(primary) ==> c == Retried(AlternativeCall(videoId, title, alt, fb))
  {
    match primary
    case PrimaryThrew(message) => Chain(Err(message), [])
    case PrimaryNotOk(_, _) =>
      if RetriesAlternative(primary) then Retried(AlternativeCall(videoId, title, alt, fb))
      else AlternativeCall(videoId, title, alt, fb)
    case PrimaryBadJson(message) => Chain(Err(message), [])
    case PrimaryEmpty => AlternativeCall(videoId, title, alt, fb)
    case PrimaryItem(data) => Chain(Finish(Select(data, quality), data, quality, title), [])
  }

  /** Every successful hand-off names the file after the sanitized title. */
  lemma AfterPrimaryFilename(videoId: string, quality: string, title: string,
                             primary: PrimaryReply, alt: AltReply, fb: FallbackReply)
    ensures var c := AfterPrimary(videoId, quality, title, primary, alt, fb);
            c.result.Ok? ==> c.result.value.filename == Naming.SanitizeFilename(title) + FormatPart(primary, quality) + ".mp4"
  {
    if !primary.PrimaryItem? {
      assert FormatPart(primary, quality) == "";
      assert Naming.SanitizeFilename(title) + "" == Naming.SanitizeFilename(title);
    }
  }

  /**
   * `extractVideoUrlWithApify` from its key check on: the primary actor, with
   * the hand-offs to the alternative actor.
   */
  function PrimaryCall(apifyKey: Option<string>, videoId: string, quality: string, title: string,
                       primary: PrimaryReply, alt: AltReply, fb: FallbackReply): (c: Chain)
    ensures !Truthy(apifyKey) <==> c.calls == []
    ensures !Truthy(apifyKey) ==> c.result == Err("Video extraction service not configured. Please configure Apify API key.")
    ensures Truthy(apifyKey) ==> c.calls[0] == Primary
    ensures c.result.Ok? ==> c.result.value.filename == Naming.SanitizeFilename(title) + FormatPart(primary, quality) + ".mp4"
    ensures Truthy(apifyKey) && (primary.PrimaryThrew? || primary.PrimaryBadJson?) ==>
              c == Chain(Err(primary.message), [Primary])
    ensures Truthy(apifyKey) && primary.PrimaryItem? ==>
              c == Chain(Finish(Select(primary.data, quality), primary.data, quality, title), [Primary])
    ensures Truthy(apifyKey) && (primary.PrimaryEmpty? || (primary.PrimaryNotOk? && !RetriesAlternative(primary))) ==>
              var a := AlternativeCall(videoId, title, alt, fb);
              c == Chain(a.result, [Primary] + a.calls)
    ensures Truthy(apifyKey) && RetriesAlternative(primary) ==>
              var a := Retried(AlternativeCall(videoId, title, alt, fb));
              c == Chain(a.result, [Primary] + a.calls)
  {
    if !Truthy(apifyKey) then Chain(Err("Video extraction service not configured. Please configure Apify API key."), [])
    else
      var rest := AfterPrimary(videoId, quality, title, primary, alt, fb);
      AfterPrimaryFilename(videoId, quality, title, primary, alt, fb);
      Chain(rest.result, [Primary] + rest.calls)
  }

  // ---------------------------------------------------------------------
  // Properties of the chain

  /** The fallback answers with the watch URL itself: no size, flagged as not a direct download. */
  lemma FallbackGivesWatchUrl(videoId: string, title: string)
    ensures FallbackCall(videoId, title, FallbackOk).result
            == Ok(Extraction("https://www.youtube.com/watch?v=" + videoId, Naming.SanitizeFilename(title) + ".mp4", 0, true))
  {
  }

  /** The alternative fails only when the fallback does, and then with the fallback's error. */
  lemma AlternativeFailsWithFallback(videoId: string, title: string, alt: AltReply, fb: FallbackReply)
    ensures AlternativeCall(videoId, title, alt, fb).result.Err? ==>
              AlternativeCall(videoId, title, alt, fb).result == FallbackCall(videoId, title, fb).result
    ensures fb.FallbackOk? ==> AlternativeCall(videoId, title, alt, fb).result.Ok?
  {
  }

  /**
   * The message built from a JSON error body (insufficient credit, actor not
   * found, bad input) is thrown inside the `try` and caught at once: it never
   * surfaces, and such a reply is handled like one whose body is not JSON.
   */
  lemma PrimaryErrorMessageIsLost(apifyKey: Option<string>, videoId: string, quality: string, title: string,
                                  status: nat, alt: AltReply, fb: FallbackReply)
    requires status != 400 && status != 500
    ensures PrimaryCall(apifyKey, videoId, quality, title, PrimaryNotOk(status, true), alt, fb)
            == PrimaryCall(apifyKey, videoId, quality, title, PrimaryNotOk(status, false), alt, fb)
  {
  }

  /**
   * A JSON 400 or 500 from the primary actor, with every other actor
   * failing, calls the alternative twice and the fallback four times.
   */
  lemma DoubleRetryTrace(apifyKey: Option<string>, videoId: string, quality: string, title: string,
                         status: nat, text: string)
    requires Truthy(apifyKey) && (status == 400 || status == 500)
    ensures var c := PrimaryCall(apifyKey, videoId, quality, title, PrimaryNotOk(status, true), AltNotOk, FallbackNotOk(text));
            && c.calls == [Primary, Alternative, Fallback, Fallback, Alternative, Fallback, Fallback]
            && c.result == Err("All Apify extraction methods failed: All Apify actors failed. Last error: " + text)
  {
    var e := Err("All Apify extraction methods failed: All Apify actors failed. Last error: " + text);
    var f := FallbackCall(videoId, title, FallbackNotOk(text));
    assert f == Chain(e, [Fallback]);
    var a := AlternativeCall(videoId, title, AltNotOk, FallbackNotOk(text));
    assert a == Chain(e, [Alternative] + [Fallback, Fallback]);
    assert Retried(a).calls == [Alternative, Fallback, Fallback] + [Alternative, Fallback, Fallback];
  }

  /** A dataset item is never handed to another actor: its selection's checks decide. */
  lemma ItemDecides(apifyKey: Option<string>, videoId: string, quality: string, title: string,
                    data: VideoData, alt: AltReply, fb: FallbackReply)
    requires Truthy(apifyKey)
    ensures var c := PrimaryCall(apifyKey, videoId, quality, title, PrimaryItem(data), alt, fb);
            c.calls == [Primary] && c.result == Finish(Select(data, quality), data, quality, title)
  {
  }

  lemma Framed(s: string, mid: string)
    ensures StartsWith(s + mid + ".mp4", s) && EndsWith(s + mid + ".mp4", ".mp4")
  {
    var f := s + mid + ".mp4";
    assert f[..|s|] == s;
    assert f[|f| - 4..] == ".mp4";
  }

  /** Every successful chain names its file after the sanitized title and ends in `.mp4`. */
  lemma ChainFilename(apifyKey: Option<string>, videoId: string, quality: string, title: string,
                      primary: PrimaryReply, alt: AltReply, fb: FallbackReply)
    ensures var c := PrimaryCall(apifyKey, videoId, quality, title, primary, alt, fb);
            c.result.Ok? ==> StartsWith(c.result.value.filename, Naming.SanitizeFilename(title))
                             && EndsWith(c.result.value.filename, ".mp4")
  {
    Framed(Naming.SanitizeFilename(title), FormatPart(primary, quality));
  }
}
