/**
 * The Express server's read-only endpoints: `GET /api/youtube/info` (video
 * or playlist details, with its fallbacks) and `GET /api/youtube/download`
 * (a download link for one video). The replies of ytdl-core and of the
 * YouTube page request are inputs; each handler also reports the upstream
 * calls it makes, in order.
 */
module ServerInfo {
  import opened Wrappers
  import opened Text
  import ServerUrls
  import Duration
  import opened Formats
  import Naming
  import ProcessorUrls
  import Scan

  /** The `videoDetails` ytdl-core reports. */
  datatype VideoDetails = VideoDetails(
    videoId: string,
    title: string,
    thumbnails: seq<string>,           // the thumbnails' urls, smallest first
    lengthSeconds: Option<nat>,        // `None` when missing or empty (falsy)
    author: Option<string>,            // `author?.name`
    viewCount: string,
    uploadDate: Option<string>,
    description: Option<string>)

  /** What `ytdl.getInfo` gives: the details and the `videoandaudio` formats, or a thrown error. */
  datatype InfoReply = InfoFailed(message: string) | InfoOk(details: VideoDetails, formats: seq<Format>)

  /** One entry of `playlistInfo.videos`, together with what `getInfo` gives for its url. */
  datatype Member = Member(url: string, id: Option<string>, title: Option<string>, info: InfoReply)

  /** What `ytdl.getPlaylistInfo` gives. */
  datatype PlaylistReply =
    | PlaylistFailed(message: string)
    | PlaylistOk(id: string, title: string, description: Option<string>, thumbnails: seq<string>,
                 author: Option<string>, members: seq<Member>)

  /** What the HTTPS request for the watch page gives: its body, or a request error. */
  datatype PageReply = PageFailed(message: string) | PageHtml(html: string)

  /** The upstream calls a handler makes. */
  datatype Call = GetPlaylistInfo(url: string) | GetInfo(url: string) | FetchPage(videoId: string)

  /** One video of a reply. */
  datatype VideoEntry = VideoEntry(
    id: string, title: string, thumbnail: Option<string>, duration: string,
    qualities: seq<string>, uploader: Option<string>, viewCount: nat,
    uploadDate: Option<string>, description: Option<string>)

  datatype Playlist = Playlist(
    id: string, title: string, description: Option<string>, thumbnail: Option<string>,
    videoCount: nat, uploader: string, videos: seq<VideoEntry>)

  /** The reply of the info endpoint: a 400, a video list, a playlist, or a 500. */
  datatype InfoResponse =
    | BadRequest(error: string)
    | Videos(videos: seq<VideoEntry>)
    | PlaylistVideos(videos: seq<VideoEntry>, playlist: Playlist)
    | ServerError(error: string)

  const FallbackQualities: seq<string> := ["720p", "480p", "360p"]

  function MaxresThumbnail(id: string): string {
    "https://img.youtube.com/vi/" + id + "/maxresdefault.jpg"
  }

  /** `thumbnails[thumbnails.length - 1]?.url`: the last one, if any. */
  function LastThumbnail(thumbnails: seq<string>): (r: Option<string>)
    ensures r.None? <==> thumbnails == []
    ensures r.Some? ==> r.value == thumbnails[|thumbnails| - 1]
  {
    if thumbnails == [] then None else Some(thumbnails[|thumbnails| - 1])
  }

  /**
   * The entry built from a successful `getInfo`: the distinct quality labels,
   * a duration that reads back as the length in seconds (or `Unknown`).
   */
  function EntryOf(details: VideoDetails, formats: seq<Format>): (r: VideoEntry)
    ensures r.id == details.videoId && r.title == details.title
    ensures NoDuplicates(r.qualities)
    ensures forall q :: q in r.qualities <==> exists i :: 0 <= i < |formats| && formats[i].qualityLabel == Some(q) && q != ""
    ensures details.lengthSeconds.Some? ==> Duration.ParseClock(r.duration) == details.lengthSeconds
    ensures details.lengthSeconds.None? ==> r.duration == "Unknown"
  {
    var duration := (
      match details.lengthSeconds
      case Some(n) => Duration.FormatDurationReadsBack(n); Duration.FormatDuration(n)
      case None => "Unknown");
    VideoEntry(details.videoId, details.title, LastThumbnail(details.thumbnails), duration,
               Qualities(formats), details.author, LeadingInt(details.viewCount),
               details.uploadDate, details.description)
  }

  /** The entry pushed for a member whose `getInfo` failed. */
  function Placeholder(m: Member): VideoEntry {
    VideoEntry(OrElse(m.id, "unknown"), OrElse(m.title, "Video (unavailable)"),
               Some(MaxresThumbnail(OrElse(m.id, "dQw4w9WgXcQ"))), "Unknown", FallbackQualities,
               Some("YouTube"), 0, Some("Unknown"), Some("Video information temporarily unavailable."))
  }

  /** The entry pushed for one member of a playlist. */
  function EntryFor(m: Member): VideoEntry {
    match m.info
    case InfoOk(details, formats) => EntryOf(details, formats)
    case InfoFailed(_) => Placeholder(m)
  }

  /** The entries of a playlist: one per member, in order. */
  function EntriesFor(members: seq<Member>): seq<VideoEntry> {
    seq(|members|, i requires 0 <= i < |members| => EntryFor(members[i]))
  }

  /** The `getInfo` calls of the playlist loop: one per member, in order. */
  function MemberCalls(members: seq<Member>): seq<Call> {
    seq(|members|, i requires 0 <= i < |members| => GetInfo(members[i].url))
  }

  /**
   * The playlist loop: for each member, `getInfo`, then push its entry or,
   * when that fails, a placeholder. Exactly one entry per member.
   */
  method ExpandPlaylist(members: seq<Member>) returns (videos: seq<VideoEntry>, calls: seq<Call>)
    ensures videos == EntriesFor(members)
    ensures calls == MemberCalls(members)
  {
    videos := [];
    calls := [];
    for i := 0 to |members|
      invariant videos == EntriesFor(members[..i])
      invariant calls == MemberCalls(members[..i])
    {
      ExpandStep(members, i);
      calls := calls + [GetInfo(members[i].url)];
      videos := videos + [EntryFor(members[i])];
    }
    assert members[..|members|] == members;
  }

  /** One more member adds its entry and its `getInfo` call at the end. */
  lemma ExpandStep(members: seq<Member>, i: nat)
    requires i < |members|
    ensures EntriesFor(members[..i + 1]) == EntriesFor(members[..i]) + [EntryFor(members[i])]
    ensures MemberCalls(members[..i + 1]) == MemberCalls(members[..i]) + [GetInfo(members[i].url)]
  {
    var a, b := members[..i], members[..i + 1];
    assert forall j :: 0 <= j < i ==> b[j] == a[j];
    assert b[i] == members[i];
  }

  /**
   * Whatever happens to each member, the playlist has one entry per member;
   * a failed member yields the placeholder, keyed by its id or the default one.
   */
  lemma {:induction false} OneEntryPerMember(members: seq<Member>, i: nat)
    requires i < |members|
    ensures |EntriesFor(members)| == |members|
    ensures members[i].info.InfoFailed? ==>
              EntriesFor(members)[i].qualities == FallbackQualities
              && EntriesFor(members)[i].title == OrElse(members[i].title, "Video (unavailable)")
              && EntriesFor(members)[i].thumbnail == Some(MaxresThumbnail(OrElse(members[i].id, "dQw4w9WgXcQ")))
    ensures members[i].info.InfoOk? ==>
              EntriesFor(members)[i].id == members[i].info.details.videoId
  {
  }

  /** The two videos of the playlist fallback. */
  function FallbackVideo(n: string): VideoEntry {
    VideoEntry("fallback-video-" + n, "Playlist Video " + n + " (Fallback)",
               Some(MaxresThumbnail("dQw4w9WgXcQ")), "Unknown", FallbackQualities,
               Some("YouTube"), 0, Some("Unknown"), Some("Fallback video information."))
  }

  /** `getPlaylistInfoFallback`: a fixed two-video playlist under the extracted id. */
  function PlaylistFallback(playlistId: string): (p: Playlist)
    ensures p.id == playlistId && p.videoCount == |p.videos| == 2
  {
    var videos := [FallbackVideo("1"), FallbackVideo("2")];
    Playlist(playlistId, "Playlist (Fallback)", Some("Playlist information using fallback method."),
             Some(MaxresThumbnail("dQw4w9WgXcQ")), |videos|, "YouTube", videos)
  }

  // ---------------------------------------------------------------------
  // The page title of the HTML fallback: `/<title[^>]*>([^<]+)<\/title>/`.

  /** The length of the run of characters other than `c` from `k` on. */
  function RunWithout(s: string, k: nat, c: char): (n: nat)
    requires k <= |s|
    ensures k + n <= |s|
    ensures forall i :: k <= i < k + n ==> s[i] != c
    ensures k + n == |s| || s[k + n] == c
    decreases |s| - k
  {
    if k < |s| && s[k] != c then 1 + RunWithout(s, k + 1, c) else 0
  }

  lemma {:induction false} RunWithoutOf(s: string, k: nat, c: char, run: string)
    requires HasAt(s, k, run) && c !in run
    requires k + |run| == |s| || s[k + |run|] == c
    ensures RunWithout(s, k, c) == |run|
    decreases |run|
  {
    if run != [] {
      assert s[k] == run[0];
      assert s[k + 1..k + 1 + |run[1..]|] == run[1..];
      RunWithoutOf(s, k + 1, c, run[1..]);
    }
  }

  /** Where the tag's `>` is, for an opening `<title` at `k`. */
  function TagEnd(s: string, k: nat): nat
    requires HasAt(s, k, "<title")
  {
    k + 6 + RunWithout(s, k + 6, '>')
  }

  /** Where the captured text ends, for a `>` at `a`. */
  function TextEnd(s: string, a: nat): nat
    requires a < |s|
  {
    a + 1 + RunWithout(s, a + 1, '<')
  }

  /** The title pattern matches at `k`. Both runs are greedy and cannot give back a character, so one candidate is all there is. */
  predicate TitleAt(s: string, k: nat) {
    HasAt(s, k, "<title") && TagEnd(s, k) < |s|
    && TextEnd(s, TagEnd(s, k)) > TagEnd(s, k) + 1 && HasAt(s, TextEnd(s, TagEnd(s, k)), "</title>")
  }

  /** The captured title text of a match at `k`. */
  function TitleText(s: string, k: nat): (r: string)
    requires TitleAt(s, k)
    ensures |r| > 0 && '<' !in r
  {
    s[TagEnd(s, k) + 1..TextEnd(s, TagEnd(s, k))]
  }

  function FirstTitle(s: string, from: nat): (r: Option<nat>)
    requires from <= |s|
    ensures r.Some? ==> from <= r.value && TitleAt(s, r.value)
    ensures r.Some? ==> forall j :: from <= j < r.value ==> !TitleAt(s, j)
    ensures r.None? ==> forall j: nat :: from <= j ==> !TitleAt(s, j)
    decreases |s| - from
  {
    if TitleAt(s, from) then Some(from)
    else if from == |s| then None
    else
      var r := FirstTitle(s, from + 1);
      assert forall j :: from <= j < from + 1 ==> !TitleAt(s, j);
      r
  }

  /** The title of the fallback record: the first match with ` - YouTube` removed, or `Unknown Title`. */
  function PageTitle(html: string): (r: string)
    ensures (forall k: nat :: !TitleAt(html, k)) ==> r == "Unknown Title"
    ensures forall k: nat :: TitleAt(html, k) && (forall j: nat :: j < k ==> !TitleAt(html, j)) ==>
              r == ReplaceFirst(TitleText(html, k), " - YouTube", "")
  {
    FirstTitleIsFirstMatch(html);
    match FirstTitle(html, 0)
    case None => "Unknown Title"
    case Some(k) => ReplaceFirst(TitleText(html, k), " - YouTube", "")
  }

  /** The search reports the first position where the title pattern matches. */
  lemma FirstTitleIsFirstMatch(html: string)
    ensures forall k: nat :: TitleAt(html, k) && (forall j: nat :: j < k ==> !TitleAt(html, j)) ==>
              FirstTitle(html, 0) == Some(k)
  {
    forall k: nat | TitleAt(html, k) && (forall j: nat :: j < k ==> !TitleAt(html, j))
      ensures FirstTitle(html, 0) == Some(k)
    {
      var r := FirstTitle(html, 0);
      assert r.Some?;
    }
  }

  /**
   * ` - YouTube` occurs in `name + " - YouTube"` only at its end when `name`
   * does not contain it: no proper suffix of ` - YouTube` is also a prefix.
   */
  lemma {:induction false} SuffixOnlyAtEnd(name: string)
    requires !Contains(name, " - YouTube")
    ensures ReplaceFirst(name + " - YouTube", " - YouTube", "") == name
  {
    var p := " - YouTube";
    var t := name + p;
    var n := |name|;
    assert t[n..n + 10] == p;
    forall j | 0 <= j < n ensures !HasAt(t, j, p) {
      if j + 10 <= n {
        assert t[j..j + 10] == name[j..j + 10];
        assert !HasAt(name, j, p);
      } else {
        var d := n - j;
        HasAtChar(t, j, p, d);
        assert t[n] == ' ';
        if d == 2 {
          HasAtChar(t, j, p, 3);
          assert t[n + 1] == '-';
        }
      }
    }
    ReplaceAt(t, p, "", n);
    assert t[..n] == name;
    assert t[n + 10..] == [];
  }

  /** `<title>text</title>` at `k` is a match of the title pattern capturing `text`. */
  lemma {:induction false} TitleElementAt(html: string, k: nat, text: string)
    requires HasAt(html, k, "<title>") && HasAt(html, k + 7, text) && HasAt(html, k + 7 + |text|, "</title>")
    requires '<' !in text && |text| > 0
    ensures TitleAt(html, k) && TitleText(html, k) == text
  {
    assert html[k..k + 6] == html[k..k + 7][..6];
    HasAtChar(html, k, "<title>", 6);
    assert RunWithout(html, k + 6, '>') == 0;
    HasAtChar(html, k + 7 + |text|, "</title>", 0);
    RunWithoutOf(html, k + 7, '<', text);
  }

  /** Without a `<` before `n`, no match starts before `n`. */
  lemma {:induction false} NoTitleBefore(html: string, n: nat)
    requires forall i :: 0 <= i < n && i < |html| ==> html[i] != '<'
    ensures forall j: nat :: j < n ==> !TitleAt(html, j)
  {
    forall j: nat | j < n ensures !TitleAt(html, j) {
      HasAtChar(html, j, "<title", 0);
    }
  }

  /** Where the pieces of a watch page sit. */
  lemma {:induction false} WatchPageLayout(pre: string, name: string, post: string)
    requires '<' !in pre && '<' !in name
    ensures var html := pre + "<title>" + name + " - YouTube</title>" + post;
            var text := name + " - YouTube";
            var k := |pre|;
            && HasAt(html, k, "<title>") && HasAt(html, k + 7, text) && HasAt(html, k + 7 + |text|, "</title>")
            && '<' !in text
            && forall i :: 0 <= i < k && i < |html| ==> html[i] != '<'
  {
    var text := name + " - YouTube";
    var html := pre + "<title>" + text + "</title>" + post;
    assert html == pre + "<title>" + name + " - YouTube</title>" + post;
    var k := |pre|;
    assert html[k..k + 7] == "<title>";
    assert html[k + 7..k + 7 + |text|] == text;
    assert html[k + 7 + |text|..k + 7 + |text| + 8] == "</title>";
    assert '<' !in text by {
      forall i | 0 <= i < |text| ensures text[i] != '<' {
        if i < |name| { assert text[i] == name[i]; }
      }
    }
    forall i | 0 <= i < k ensures html[i] != '<' {
      assert html[i] == pre[i];
    }
  }

  /**
   * A page whose first `<` opens `<title>name - YouTube</title>` yields
   * `name`, for a name without `<` that does not itself contain ` - YouTube`.
   */
  lemma {:induction false} PageTitleOfWatchPage(pre: string, name: string, post: string)
    requires '<' !in pre && '<' !in name && !Contains(name, " - YouTube") && |name| > 0
    ensures PageTitle(pre + "<title>" + name + " - YouTube</title>" + post) == name
  {
    var html := pre + "<title>" + name + " - YouTube</title>" + post;
    var k := |pre|;
    WatchPageLayout(pre, name, post);
    TitleElementAt(html, k, name + " - YouTube");
    NoTitleBefore(html, k);
    SuffixOnlyAtEnd(name);
  }

  /** `getVideoInfoFallback`: the record built from the watch page. */
  function PageEntry(videoId: string, html: string): VideoEntry {
    VideoEntry(videoId, PageTitle(html), Some(MaxresThumbnail(videoId)), "Unknown", FallbackQualities,
               Some("YouTube"), 0, Some("Unknown"), Some("Video information extracted from YouTube page."))
  }

  // ---------------------------------------------------------------------
  // GET /api/youtube/info

  /** A reply together with the upstream calls made to produce it. */
  datatype InfoOutcome = InfoOutcome(response: InfoResponse, calls: seq<Call>)

  /** The playlist branch. */
  function PlaylistInfo(u: string, playlist: PlaylistReply): (r: InfoOutcome)
    ensures |r.calls| > 0 && r.calls[0] == GetPlaylistInfo(u)
    ensures r.response.PlaylistVideos? || r.response.ServerError?
    ensures playlist.PlaylistOk? ==>
              && r.response.PlaylistVideos?
              && r.response.videos == r.response.playlist.videos == EntriesFor(playlist.members)
              && r.response.playlist.id == playlist.id
              && r.response.playlist.videoCount == |playlist.members|
              && r.calls == [GetPlaylistInfo(u)] + MemberCalls(playlist.members)
    ensures playlist.PlaylistFailed? && ServerUrls.ExtractPlaylistId(u).Some? ==>
              var p := PlaylistFallback(ServerUrls.ExtractPlaylistId(u).value);
              r == InfoOutcome(PlaylistVideos(p.videos, p), [GetPlaylistInfo(u)])
    ensures playlist.PlaylistFailed? && ServerUrls.ExtractPlaylistId(u).None? ==>
              r == InfoOutcome(ServerError("Failed to fetch playlist information: " + playlist.message), [GetPlaylistInfo(u)])
  {
    match playlist
    case PlaylistOk(id, title, description, thumbnails, author, members) =>
      var videos := EntriesFor(members);
      InfoOutcome(
        PlaylistVideos(videos, Playlist(id, title, description, LastThumbnail(thumbnails), |videos|,
                                        OrElse(author, "YouTube"), videos)),
        [GetPlaylistInfo(u)] + MemberCalls(members))
    case PlaylistFailed(message) =>
      match ServerUrls.ExtractPlaylistId(u)
      case Some(playlistId) =>
        var p := PlaylistFallback(playlistId);
        InfoOutcome(PlaylistVideos(p.videos, p), [GetPlaylistInfo(u)])
      case None =>
        InfoOutcome(ServerError("Failed to fetch playlist information: " + message), [GetPlaylistInfo(u)])
  }

  /** The video branch. */
  function VideoInfo(u: string, video: InfoReply, page: PageReply): (r: InfoOutcome)
    ensures |r.calls| > 0 && r.calls[0] == GetInfo(u)
    ensures r.response.Videos? || r.response.ServerError?
    ensures video.InfoOk? ==> r == InfoOutcome(Videos([EntryOf(video.details, video.formats)]), [GetInfo(u)])
    ensures video.InfoFailed? && ServerUrls.ExtractVideoId(u).None? ==>
              r == InfoOutcome(ServerError("Failed to fetch video information: " + video.message), [GetInfo(u)])
    ensures video.InfoFailed? && ServerUrls.ExtractVideoId(u).Some? ==>
              var id := ServerUrls.ExtractVideoId(u).value;
              && r.calls == [GetInfo(u), FetchPage(id)]
              && (page.PageHtml? ==> r.response == Videos([PageEntry(id, page.html)]))
              && (page.PageFailed? ==> r.response == ServerError("Failed to fetch video information: " + video.message))
  {
    match video
    case InfoOk(details, formats) => InfoOutcome(Videos([EntryOf(details, formats)]), [GetInfo(u)])
    case InfoFailed(message) =>
      match ServerUrls.ExtractVideoId(u)
      case None =>
        InfoOutcome(ServerError("Failed to fetch video information: " + message), [GetInfo(u)])
      case Some(videoId) =>
        match page
        case PageHtml(html) => InfoOutcome(Videos([PageEntry(videoId, html)]), [GetInfo(u), FetchPage(videoId)])
        case PageFailed(_) =>
          InfoOutcome(ServerError("Failed to fetch video information: " + message), [GetInfo(u), FetchPage(videoId)])
  }

  /**
   * The info endpoint: the URL is required and must pass the validator, and
   * a 400 is answered before any upstream call. A URL containing
   * `playlist?list=` is a playlist, anything else a video.
   */
  function Info(url: Option<string>, playlist: PlaylistReply, video: InfoReply, page: PageReply): (r: InfoOutcome)
    ensures !Truthy(url) ==> r == InfoOutcome(BadRequest("URL is required"), [])
    ensures Truthy(url) && !ServerUrls.IsValidYouTubeUrl(url.value) ==> r == InfoOutcome(BadRequest("Invalid YouTube URL"), [])
    ensures r.response.BadRequest? <==> r.calls == []
  {
    if !Truthy(url) then InfoOutcome(BadRequest("URL is required"), [])
    else
      var u := url.value;
      if !ServerUrls.IsValidYouTubeUrl(u) then InfoOutcome(BadRequest("Invalid YouTube URL"), [])
      else if ServerUrls.IsPlaylistUrl(u) then PlaylistInfo(u, playlist)
      else VideoInfo(u, video, page)
  }

  /**
   * A valid URL containing `playlist?list=` is fetched as a playlist first,
   * whatever else it carries; any other valid URL is fetched as a video.
   */
  lemma PlaylistMarkerDecides(u: string, playlist: PlaylistReply, video: InfoReply, page: PageReply)
    requires ServerUrls.IsValidYouTubeUrl(u) && u != ""
    ensures var r := Info(Some(u), playlist, video, page);
            && |r.calls| > 0
            && (ServerUrls.IsPlaylistUrl(u) ==> r.calls[0] == GetPlaylistInfo(u) && !r.response.Videos?)
            && (!ServerUrls.IsPlaylistUrl(u) ==> r.calls[0] == GetInfo(u) && !r.response.PlaylistVideos?)
  {
  }

  /** A valid URL without the playlist marker goes to the video branch. */
  lemma VideoDispatch(u: string, playlist: PlaylistReply, video: InfoReply, page: PageReply)
    requires ServerUrls.IsValidYouTubeUrl(u) && u != "" && !ServerUrls.IsPlaylistUrl(u)
    ensures Info(Some(u), playlist, video, page) == VideoInfo(u, video, page)
  {
  }

  /**
   * A successful playlist lists one entry per member and counts them; the
   * members are fetched one by one, in order, after the playlist itself.
   */
  lemma PlaylistCountsMembers(u: string, playlist: PlaylistReply)
    requires playlist.PlaylistOk?
    ensures PlaylistInfo(u, playlist).response.PlaylistVideos?
    ensures PlaylistInfo(u, playlist).response.videos == EntriesFor(playlist.members)
    ensures |PlaylistInfo(u, playlist).response.videos| == |playlist.members|
    ensures PlaylistInfo(u, playlist).response.playlist.videoCount == |playlist.members|
    ensures PlaylistInfo(u, playlist).calls == [GetPlaylistInfo(u)] + MemberCalls(playlist.members)
  {
  }

  /** A watch URL that also names a playlist is fetched as a single video. */
  lemma WatchWithListIsVideo(v: string, l: string, playlist: PlaylistReply, video: InfoReply, page: PageReply)
    requires Scan.IdCharsOnly(v) && |l| > 0 && Scan.IdCharsOnly(l)
    ensures var u := ServerUrls.WatchUrl(v + "&list=" + l);
            var r := Info(Some(u), playlist, video, page);
            |r.calls| > 0 && r.calls[0] == GetInfo(u)
  {
    var u := ServerUrls.WatchUrl(v + "&list=" + l);
    assert u == "https://www.youtube.com/watch?v=" + v + "&list=" + l;
    ServerUrls.WatchUrlValid(v + "&list=" + l);
    ProcessorUrls.WatchWithListIsPlaylistHere(v, l);
    PlaylistMarkerDecides(u, playlist, video, page);
  }

  /** When ytdl-core fails on a URL without an extractable id, no fallback is tried. */
  lemma NoIdNoFallback(u: string, message: string, page: PageReply)
    requires ServerUrls.ExtractVideoId(u).None?
    ensures VideoInfo(u, InfoFailed(message), page)
            == InfoOutcome(ServerError("Failed to fetch video information: " + message), [GetInfo(u)])
  {
  }

  /**
   * The bare short link passes validation but carries no id: when ytdl-core
   * fails on it, the page fallback is never tried.
   */
  lemma BareShortLinkHasNoFallback(message: string, playlist: PlaylistReply, page: PageReply)
    ensures Info(Some("https://youtu.be/"), playlist, InfoFailed(message), page)
            == InfoOutcome(ServerError("Failed to fetch video information: " + message), [GetInfo("https://youtu.be/")])
  {
    var u := "https://youtu.be/";
    ServerUrls.ValidUrlWithoutId();
    ServerUrls.BareShortLinkNotPlaylist();
    VideoDispatch(u, playlist, InfoFailed(message), page);
    NoIdNoFallback(u, message, page);
  }

  // ---------------------------------------------------------------------
  // GET /api/youtube/download

  /** A missing query parameter is written as `undefined` into a template string. */
  function QueryText(q: Option<string>): string {
    match q
    case None => "undefined"
    case Some(s) => s
  }

  const FallbackSize: nat := 25 * 1024 * 1024

  /** The reply of the download-link endpoint (`isDirectDownload: true`, `format: 'mp4'` in every link). */
  datatype LinkResponse =
    | LinkError(status: nat, error: string)
    | Link(downloadUrl: string, filename: string, filesize: Option<nat>, quality: Option<string>)

  /** The link synthesised when ytdl-core fails; `now1` and `now2` are the two `Date.now()` readings. */
  function FallbackLink(videoId: string, quality: Option<string>, now1: nat, now2: nat): LinkResponse {
    Link("https://youtube-download.example.com/v/" + videoId + "?quality=" + QueryText(quality)
           + "&format=mp4&t=" + Decimal(now1),
         "youtube_video_" + videoId + "_" + QueryText(quality) + "_" + Decimal(now2) + ".mp4",
         Some(FallbackSize), quality)
  }

  /** The name of a downloaded link: the safe title, then the requested quality or the format's label. */
  function LinkFilename(title: string, quality: Option<string>, f: Format): string {
    Naming.SafeTitle(title) + "_" + OrElse(quality, LabelText(f.qualityLabel)) + ".mp4"
  }

  /** The link for the formats ytdl-core reports. */
  function FormatLink(details: VideoDetails, formats: seq<Format>, quality: Option<string>): LinkResponse {
    match SelectFormat(formats, quality)
    case None => LinkError(400, "No suitable format found")
    case Some(f) => Link(f.url, LinkFilename(details.title, quality, f), f.contentLength, f.qualityLabel)
  }

  /**
   * `GET /api/youtube/download`: a 400 without a video id; the fallback
   * link when ytdl-core fails; otherwise the selected format's link, or a
   * 400 when there are no formats.
   */
  function DownloadLink(videoId: Option<string>, quality: Option<string>, info: InfoReply, now1: nat, now2: nat)
    : (r: LinkResponse)
    ensures !Truthy(videoId) ==> r == LinkError(400, "Video ID is required")
    ensures r.LinkError? ==> r.status == 400
  {
    if !Truthy(videoId) then LinkError(400, "Video ID is required")
    else if !ServerUrls.IsValidYouTubeUrl(ServerUrls.WatchUrl(videoId.value)) then LinkError(400, "Invalid YouTube URL")
    else
      match info
      case InfoFailed(_) => FallbackLink(videoId.value, quality, now1, now2)
      case InfoOk(details, formats) => FormatLink(details, formats, quality)
  }

  /** The validator never rejects the URL the endpoint builds: with an id, ytdl-core's reply decides. */
  lemma DownloadLinkWithId(videoId: string, quality: Option<string>, info: InfoReply, now1: nat, now2: nat)
    requires videoId != ""
    ensures info.InfoFailed? ==> DownloadLink(Some(videoId), quality, info, now1, now2) == FallbackLink(videoId, quality, now1, now2)
    ensures info.InfoOk? ==> DownloadLink(Some(videoId), quality, info, now1, now2) == FormatLink(info.details, info.formats, quality)
  {
    ServerUrls.WatchUrlValid(videoId);
  }

  /** So the `Invalid YouTube URL` reply never happens. */
  lemma DownloadLinkNeverInvalid(videoId: Option<string>, quality: Option<string>, info: InfoReply, now1: nat, now2: nat)
    ensures DownloadLink(videoId, quality, info, now1, now2) != LinkError(400, "Invalid YouTube URL")
  {
    if Truthy(videoId) {
      DownloadLinkWithId(videoId.value, quality, info, now1, now2);
    }
  }

  /** `No suitable format found` exactly when ytdl-core reports no formats. */
  lemma NoFormatOnlyWhenEmpty(details: VideoDetails, formats: seq<Format>, quality: Option<string>)
    ensures FormatLink(details, formats, quality).LinkError? <==> |formats| == 0
  {
  }

  /** The link points at one of the formats, with its size. */
  lemma LinkIsListedFormat(details: VideoDetails, formats: seq<Format>, quality: Option<string>)
    ensures var r := FormatLink(details, formats, quality);
            r.Link? ==> exists i :: 0 <= i < |formats| && r.downloadUrl == formats[i].url
                                    && r.filesize == formats[i].contentLength
  {
    var r := FormatLink(details, formats, quality);
    if r.Link? {
      var f := SelectFormat(formats, quality).value;
      var i :| 0 <= i < |formats| && formats[i] == f;
    }
  }

  /** A requested label that some format carries is the label of the link. */
  lemma LinkHonoursQuality(details: VideoDetails, formats: seq<Format>, q: string, i: nat)
    requires q != "" && i < |formats| && formats[i].qualityLabel == Some(q)
    ensures FormatLink(details, formats, Some(q)).Link?
    ensures FormatLink(details, formats, Some(q)).quality == Some(q)
    ensures FormatLink(details, formats, Some(q)).filename == Naming.SafeTitle(details.title) + "_" + q + ".mp4"
  {
    SelectedHasRequestedLabel(formats, q, i);
  }

  /** The synthesised link: 25 MiB, under the requested quality, named after the id. */
  lemma FallbackLinkShape(videoId: string, quality: Option<string>, now1: nat, now2: nat)
    ensures var r := FallbackLink(videoId, quality, now1, now2);
            r.Link? && r.filesize == Some(26214400) && r.quality == quality
            && StartsWith(r.filename, "youtube_video_" + videoId + "_") && EndsWith(r.filename, ".mp4")
  {
    var f := "youtube_video_" + videoId + "_";
    var mid := QueryText(quality) + "_" + Decimal(now2);
    var name := f + mid + ".mp4";
    assert name == "youtube_video_" + videoId + "_" + QueryText(quality) + "_" + Decimal(now2) + ".mp4";
    assert name[..|f|] == f;
    assert name[|name| - 4..] == ".mp4";
  }
}
