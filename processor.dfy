/**
 * The `youtube-processor` edge function: a video's record built from the
 * YouTube Data API, the paginated walk over a playlist's items, and the
 * request handler that prefers the playlist over the video.
 */
module Processor {
  import opened Wrappers
  import opened Text
  import Duration
  import ProcessorUrls
  import Scan

  /** One item of the Data API's `videos` answer, with the fields the function reads. */
  datatype ApiVideo = ApiVideo(
    id: string, title: string,
    maxres: Option<string>, high: Option<string>, default: string,  // the thumbnails' urls
    duration: string, channelTitle: string, viewCount: string, publishedAt: string)

  datatype VideoInfo = VideoInfo(
    id: string, title: string, thumbnail: string, duration: string, qualities: seq<string>,
    uploader: string, viewCount: nat, uploadDate: string)

  const Qualities: seq<string> := ["1080p", "720p", "480p", "360p"]

  /** `maxres?.url || high?.url || default.url`. */
  function Thumbnail(maxres: Option<string>, high: Option<string>, default: string): (r: string)
    ensures Truthy(maxres) ==> r == maxres.value
    ensures !Truthy(maxres) && Truthy(high) ==> r == high.value
    ensures !Truthy(maxres) && !Truthy(high) ==> r == default
  {
    OrElse(maxres, OrElse(high, default))
  }

  /** The `VideoInfo` literal built for one item. */
  function MakeVideoInfo(v: ApiVideo): VideoInfo {
    VideoInfo(v.id, v.title, Thumbnail(v.maxres, v.high, v.default), Duration.ParseIsoDuration(v.duration),
              Qualities, v.channelTitle, LeadingInt(v.viewCount), BeforeFirst(v.publishedAt, 'T'))
  }

  /**
   * Every record offers the same four qualities, the ISO duration as clock
   * text, and the publication time cut at its `T`: a prefix with no `T`.
   */
  lemma VideoInfoShape(v: ApiVideo)
    ensures MakeVideoInfo(v).qualities == ["1080p", "720p", "480p", "360p"]
    ensures MakeVideoInfo(v).duration == Duration.ParseIsoDuration(v.duration)
    ensures StartsWith(v.publishedAt, MakeVideoInfo(v).uploadDate) && 'T' !in MakeVideoInfo(v).uploadDate
    ensures MakeVideoInfo(v).id == v.id && MakeVideoInfo(v).title == v.title
  {
  }

  /** An RFC 3339 timestamp is cut to its date. */
  lemma UploadDateOfTimestamp(date: string, time: string)
    requires 'T' !in date
    ensures MakeVideoInfo(ApiVideo("", "", None, None, "", "", "", "", date + "T" + time)).uploadDate == date
  {
    var s := date + "T" + time;
    var k := FirstOf(s, 'T');
    assert s[|date|] == 'T';
    assert forall i :: 0 <= i < |date| ==> s[i] == date[i];
    assert forall i :: 0 <= i < k ==> s[i] == s[..k][i];
    assert k == |date|;
    assert s[..|date|] == date;
  }

  // ---------------------------------------------------------------------
  // processPlaylist: the page loop

  /** At most this many pages of playlist items are fetched. */
  const MaxPages: nat := 10

  /** The `videos` request for a page's ids. */
  datatype BatchReply =
    | BatchNotOk                         // a non-2xx status: the page adds nothing
    | BatchThrew(message: string)        // the request failed or its body was not JSON
    | BatchItems(items: Option<seq<ApiVideo>>)

  /** The `playlistItems` request for one page. */
  datatype PageReply =
    | PageHttpError(status: nat)
    | PageThrew(message: string)
    | Page(itemCount: nat, batch: BatchReply, nextPageToken: Option<string>)

  /** One record per item, in order. */
  function Records(items: seq<ApiVideo>): (r: seq<VideoInfo>)
    ensures |r| == |items| && forall i :: 0 <= i < |items| ==> r[i] == MakeVideoInfo(items[i])
  {
    seq(|items|, i requires 0 <= i < |items| => MakeVideoInfo(items[i]))
  }

  /** `items.forEach(v => videos.push(...))`. */
  method PushAll(videos: seq<VideoInfo>, items: seq<ApiVideo>) returns (out: seq<VideoInfo>)
    ensures out == videos + Records(items)
  {
    out := videos;
    for j := 0 to |items|
      invariant out == videos + Records(items[..j])
    {
      assert items[..j + 1] == items[..j] + [items[j]];
      out := out + [MakeVideoInfo(items[j])];
    }
    assert items[..|items|] == items;
  }

  /** The records one page adds; its `videos` request is only made when the page has items. */
  function PageVideos(p: PageReply): (r: Result<seq<VideoInfo>>)
    requires p.Page?
    ensures p.itemCount == 0 || p.batch.BatchNotOk? ==> r == Ok([])
  {
    if p.itemCount == 0 then Ok([])
    else
      match p.batch
      case BatchNotOk => Ok([])
      case BatchThrew(message) => Err(message)
      case BatchItems(None) => Ok([])
      case BatchItems(Some(items)) => Ok(Records(items))
  }

  /** Whether another page is fetched after page `k` (counted from 0). */
  predicate Continues(p: PageReply, k: nat) {
    p.Page? && Truthy(p.nextPageToken) && k + 1 < MaxPages
  }

  /** The error a failed page raises. */
  function PageError(p: PageReply): string
    requires !p.Page?
  {
    match p
    case PageHttpError(status) => "YouTube API error: " + Decimal(status)
    case PageThrew(message) => message
  }

  /** The records collected from page `k` on, `pages(k)` being the reply to the `k`-th request. */
  function Collect(pages: nat -> PageReply, k: nat): (r: Result<seq<VideoInfo>>)
    requires k < MaxPages
    decreases MaxPages - k
  {
    var p := pages(k);
    if !p.Page? then Err(PageError(p))
    else
      match PageVideos(p)
      case Err(message) => Err(message)
      case Ok(videos) =>
        if !Continues(p, k) then Ok(videos)
        else
          match Collect(pages, k + 1)
          case Err(message) => Err(message)
          case Ok(rest) => Ok(videos + rest)
  }

  /** How many pages are requested from page `k` on. */
  function PagesFetched(pages: nat -> PageReply, k: nat): (n: nat)
    requires k < MaxPages
    decreases MaxPages - k
  {
    if Continues(pages(k), k) && PageVideos(pages(k)).Ok? then 1 + PagesFetched(pages, k + 1) else 1
  }

  /** Between one and ten pages are requested, whatever the replies. */
  lemma {:induction false} PagesFetchedBounds(pages: nat -> PageReply, k: nat)
    requires k < MaxPages
    ensures 1 <= PagesFetched(pages, k) <= MaxPages - k
    decreases MaxPages - k
  {
    if Continues(pages(k), k) && PageVideos(pages(k)).Ok? {
      PagesFetchedBounds(pages, k + 1);
    }
  }

  /** When every page has items and a next token, exactly ten pages are requested. */
  lemma {:induction false} TenPagesAtMost(pages: nat -> PageReply, k: nat)
    requires k < MaxPages
    requires forall j :: k <= j < MaxPages ==> pages(j).Page? && Truthy(pages(j).nextPageToken) && PageVideos(pages(j)).Ok?
    ensures PagesFetched(pages, k) == MaxPages - k
    decreases MaxPages - k
  {
    if k + 1 < MaxPages {
      TenPagesAtMost(pages, k + 1);
    }
  }

  /** The walk stops at the first page without a next-page token. */
  lemma StopsWithoutToken(pages: nat -> PageReply, k: nat)
    requires k < MaxPages && pages(k).Page? && !Truthy(pages(k).nextPageToken)
    ensures PagesFetched(pages, k) == 1
    ensures PageVideos(pages(k)).Ok? ==> Collect(pages, k) == PageVideos(pages(k))
  {
  }

  /** `vs` in front of a result's records. */
  function Prepend(vs: seq<VideoInfo>, r: Result<seq<VideoInfo>>): Result<seq<VideoInfo>> {
    match r
    case Err(message) => Err(message)
    case Ok(rest) => Ok(vs + rest)
  }

  lemma PrependJoin(a: seq<VideoInfo>, b: seq<VideoInfo>, r: Result<seq<VideoInfo>>)
    ensures Prepend(a, Prepend(b, r)) == Prepend(a + b, r)
  {
    match r
    case Err(_) =>
    case Ok(rest) => assert a + (b + rest) == (a + b) + rest;
  }

  /** A page whose `videos` request fails adds no record: the walk goes on as after an empty page. */
  lemma FailedBatchAddsNothing(pages: nat -> PageReply, k: nat)
    requires k < MaxPages && pages(k).Page? && pages(k).batch.BatchNotOk?
    ensures Continues(pages(k), k) ==> Collect(pages, k) == Collect(pages, k + 1)
    ensures !Continues(pages(k), k) ==> Collect(pages, k) == Ok([])
  {
    if Continues(pages(k), k) {
      match Collect(pages, k + 1)
      case Err(_) =>
      case Ok(rest) => assert [] + rest == rest;
    }
  }

  /** One step of the walk: what page `k` contributes and whether the walk goes on. */
  lemma CollectStep(pages: nat -> PageReply, k: nat)
    requires k < MaxPages
    ensures !pages(k).Page? ==> Collect(pages, k) == Err(PageError(pages(k)))
    ensures pages(k).Page? && PageVideos(pages(k)).Err? ==> Collect(pages, k) == PageVideos(pages(k))
    ensures pages(k).Page? && PageVideos(pages(k)).Ok? && Continues(pages(k), k) ==>
              Collect(pages, k) == Prepend(PageVideos(pages(k)).value, Collect(pages, k + 1))
              && PagesFetched(pages, k) == 1 + PagesFetched(pages, k + 1)
    ensures pages(k).Page? && PageVideos(pages(k)).Ok? && !Continues(pages(k), k) ==>
              Collect(pages, k) == PageVideos(pages(k)) && PagesFetched(pages, k) == 1
  {
  }

  /** The body of one iteration: the page's records pushed, or the error its `videos` request raised. */
  method AddPage(videos: seq<VideoInfo>, p: PageReply) returns (out: seq<VideoInfo>, error: Option<string>)
    requires p.Page?
    ensures PageVideos(p).Err? ==> error == Some(PageVideos(p).error)
    ensures PageVideos(p).Ok? ==> error.None? && out == videos + PageVideos(p).value
  {
    out, error := videos, None;
    if p.itemCount > 0 {
      match p.batch {
        case BatchNotOk =>
          assert out == videos + [];
        case BatchThrew(message) =>
          error := Some(message);
        case BatchItems(items) =>
          if items.Some? {
            out := PushAll(videos, items.value);
          } else {
            assert out == videos + [];
          }
      }
    } else {
      assert out == videos + [];
    }
  }

  /**
   * The `do ... while (nextPageToken && pageCount < maxPages)` loop: each
   * page's records are pushed one by one, the token is taken from the page,
   * and an error ends the walk.
   */
  method WalkPages(pages: nat -> PageReply) returns (videos: seq<VideoInfo>, error: Option<string>, pageCount: nat)
    ensures error.None? ==> Collect(pages, 0) == Ok(videos) && pageCount == PagesFetched(pages, 0)
    ensures error.Some? ==> Collect(pages, 0) == Err(error.value)
  {
    videos := [];
    error := None;
    pageCount := 0;
    var nextPageToken := "";
    var more := true;
    assert Prepend([], Collect(pages, 0)) == Collect(pages, 0) by {
      match Collect(pages, 0)
      case Err(_) =>
      case Ok(rest) => assert [] + rest == rest;
    }
    while more
      invariant pageCount <= MaxPages
      invariant more ==> pageCount < MaxPages
      invariant more ==> Collect(pages, 0) == Prepend(videos, Collect(pages, pageCount))
                         && PagesFetched(pages, 0) == pageCount + PagesFetched(pages, pageCount)
      invariant !more ==> Collect(pages, 0) == Ok(videos) && PagesFetched(pages, 0) == pageCount
      decreases MaxPages - pageCount, more
    {
      var p := pages(pageCount);
      CollectStep(pages, pageCount);
      if !p.Page? {
        error := Some(PageError(p));
        return;
      }
      ghost var before := videos;
      var failure;
      videos, failure := AddPage(videos, p);
      if failure.Some? {
        error := failure;
        return;
      }
      if Continues(p, pageCount) {
        PrependJoin(before, PageVideos(p).value, Collect(pages, pageCount + 1));
      }
      nextPageToken := OrElse(p.nextPageToken, "");
      pageCount := pageCount + 1;
      more := nextPageToken != "" && pageCount < MaxPages;
    }
  }


  // ---------------------------------------------------------------------
  // processSingleVideo, processPlaylist and the handler

  /** The Data API's answer to a `videos` query for one id. */
  datatype VideoReply = VideoHttpError(status: nat) | VideoThrew(message: string) | VideoItems(items: seq<ApiVideo>)

  /** One item of the `playlists` answer. */
  datatype ApiPlaylist = ApiPlaylist(
    title: string, description: Option<string>, maxres: Option<string>, high: Option<string>, default: string,
    channelTitle: string)

  datatype PlaylistReply = PlaylistHttpError(status: nat) | PlaylistThrew(message: string) | PlaylistItems(items: seq<ApiPlaylist>)

  datatype PlaylistInfo = PlaylistInfo(
    id: string, title: string, description: string, thumbnail: string, videoCount: nat, uploader: string,
    videos: seq<VideoInfo>)

  datatype Kind = VideoKind | PlaylistKind

  datatype ProcessResult =
    | Processed(kind: Kind, videos: seq<VideoInfo>, playlist: Option<PlaylistInfo>)
    | NotProcessed(kind: Kind, error: string)

  /** `processSingleVideo`. */
  function ProcessSingleVideo(reply: VideoReply): (r: ProcessResult)
    ensures r.kind == VideoKind
    ensures r.Processed? ==> |r.videos| == 1 && r.playlist.None?
    ensures r.Processed? <==> reply.VideoItems? && |reply.items| > 0
    ensures r.Processed? ==> r.videos == [MakeVideoInfo(reply.items[0])]
    ensures reply.VideoItems? && |reply.items| == 0 ==> r == NotProcessed(VideoKind, "Video not found")
    ensures reply.VideoHttpError? ==> r == NotProcessed(VideoKind, "YouTube API error: " + Decimal(reply.status))
    ensures reply.VideoThrew? ==> r == NotProcessed(VideoKind, reply.message)
  {
    match reply
    case VideoHttpError(status) => NotProcessed(VideoKind, "YouTube API error: " + Decimal(status))
    case VideoThrew(message) => NotProcessed(VideoKind, message)
    case VideoItems(items) =>
      if |items| == 0 then NotProcessed(VideoKind, "Video not found")
      else Processed(VideoKind, [MakeVideoInfo(items[0])], None)
  }

  /** `processPlaylist`: the metadata, then the walk; the count is the number of records collected. */
  function ProcessPlaylist(playlistId: string, meta: PlaylistReply, pages: nat -> PageReply): (r: ProcessResult)
    ensures r.kind == PlaylistKind
    ensures r.Processed? ==> r.playlist.Some? && r.playlist.value.videos == r.videos
                             && r.playlist.value.videoCount == |r.videos| && r.playlist.value.id == playlistId
    ensures r.Processed? <==> meta.PlaylistItems? && |meta.items| > 0 && Collect(pages, 0).Ok?
    ensures r.Processed? ==> Collect(pages, 0) == Ok(r.videos)
    ensures meta.PlaylistItems? && |meta.items| == 0 ==> r == NotProcessed(PlaylistKind, "Playlist not found")
    ensures meta.PlaylistHttpError? ==> r == NotProcessed(PlaylistKind, "YouTube API error: " + Decimal(meta.status))
    ensures meta.PlaylistThrew? ==> r == NotProcessed(PlaylistKind, meta.message)
    ensures meta.PlaylistItems? && |meta.items| > 0 && Collect(pages, 0).Err? ==>
              r == NotProcessed(PlaylistKind, Collect(pages, 0).error)
  {
    match meta
    case PlaylistHttpError(status) => NotProcessed(PlaylistKind, "YouTube API error: " + Decimal(status))
    case PlaylistThrew(message) => NotProcessed(PlaylistKind, message)
    case PlaylistItems(items) =>
      if |items| == 0 then NotProcessed(PlaylistKind, "Playlist not found")
      else
        var info := items[0];
        match Collect(pages, 0)
        case Err(message) => NotProcessed(PlaylistKind, message)
        case Ok(videos) =>
          Processed(PlaylistKind, videos,
                    Some(PlaylistInfo(playlistId, info.title, OrElse(info.description, ""),
                                      Thumbnail(info.maxres, info.high, info.default), |videos|,
                                      info.channelTitle, videos)))
  }

  datatype Request = Preflight | Unparseable | Body(url: Option<string>)

  datatype Response = PreflightOk | Error(status: nat, error: string) | Result(result: ProcessResult)

  /**
   * The reply to a processing result: the result itself on success, else a
   * 400 with its message, or `Processing failed` when that is empty.
   */
  function Reply(result: ProcessResult): (r: Response)
    ensures r.Result? <==> result.Processed?
    ensures r.Result? ==> r.result == result
    ensures result.NotProcessed? ==> r == Error(400, Or(result.error, "Processing failed"))
  {
    if result.NotProcessed? then Error(400, Or(result.error, "Processing failed")) else Result(result)
  }

  /**
   * The handler: the URL and the API key are required; a playlist id wins
   * over a video id; neither gives `Invalid YouTube URL`; a failure is a 400
   * with its message, or `Processing failed` when that is empty.
   */
  function Handle(req: Request, apiKey: Option<string>, video: VideoReply, meta: PlaylistReply,
                  pages: nat -> PageReply): (r: Response)
    ensures req.Body? && !Truthy(req.url) ==> r == Error(400, "URL is required")
    ensures req.Body? && Truthy(req.url) && !Truthy(apiKey) ==> r == Error(400, "YouTube API key not configured")
    ensures req.Preflight? <==> r.PreflightOk?
    ensures req.Unparseable? ==> r == Error(500, "Internal server error")
    ensures r.Result? ==> r.result.Processed?
    ensures r.Error? && r.status != 400 <==> req.Unparseable?
  {
    match req
    case Preflight => PreflightOk
    case Unparseable => Error(500, "Internal server error")
    case Body(url) =>
      if !Truthy(url) then Error(400, "URL is required")
      else if !Truthy(apiKey) then Error(400, "YouTube API key not configured")
      else
        var playlistId := ProcessorUrls.ExtractPlaylistId(url.value);
        var videoId := ProcessorUrls.ExtractVideoId(url.value);
        if playlistId.None? && videoId.None? then Error(400, "Invalid YouTube URL")
        else
          Reply(if playlistId.Some? then ProcessPlaylist(playlistId.value, meta, pages)
                else ProcessSingleVideo(video))
  }

  /**
   * With the key present, a URL carrying a playlist id is processed as that
   * playlist even when it also names a video; one with only a video id as
   * that video; one with neither is refused.
   */
  lemma PlaylistOverVideo(url: string, apiKey: string, video: VideoReply, meta: PlaylistReply, pages: nat -> PageReply)
    requires url != "" && apiKey != ""
    ensures var r := Handle(Body(Some(url)), Some(apiKey), video, meta, pages);
            && (ProcessorUrls.ExtractPlaylistId(url).Some? ==>
                  r == Reply(ProcessPlaylist(ProcessorUrls.ExtractPlaylistId(url).value, meta, pages)))
            && (ProcessorUrls.ExtractPlaylistId(url).None? && ProcessorUrls.ExtractVideoId(url).Some? ==>
                  r == Reply(ProcessSingleVideo(video)))
            && (ProcessorUrls.ExtractPlaylistId(url).None? && ProcessorUrls.ExtractVideoId(url).None? ==>
                  r == Error(400, "Invalid YouTube URL"))
  {
  }

  /** A watch URL that also names a playlist is processed here as the playlist. */
  lemma WatchWithListProcessedAsPlaylist(v: string, l: string, apiKey: string, video: VideoReply,
                                          meta: PlaylistReply, pages: nat -> PageReply)
    requires Scan.IdCharsOnly(v) && |l| > 0 && Scan.IdCharsOnly(l) && apiKey != ""
    ensures var url := "https://www.youtube.com/watch?v=" + v + "&list=" + l;
            var r := Handle(Body(Some(url)), Some(apiKey), video, meta, pages);
            r.Result? ==> r.result == ProcessPlaylist(l, meta, pages)
  {
    ProcessorUrls.WatchWithListIsPlaylistHere(v, l);
    PlaylistOverVideo("https://www.youtube.com/watch?v=" + v + "&list=" + l, apiKey, video, meta, pages);
  }
}
