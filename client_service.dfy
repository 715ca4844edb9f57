/**
 * The browser-side YouTube service: its own copy of the id extractor, a
 * stricter URL validator, the URL-type classifier and the mock video record.
 */
module ClientService {
  import opened Wrappers
  import opened Text
  import opened Scan
  import ServerUrls

  /** One regular expression of the extractor's list: a literal prefix, or a `head.*marker` prefix. */
  datatype Pattern = Literal(prefix: string) | AfterMarker(head: string, marker: string)

  /** `url.match(pattern)?.[1]`. */
  function Matches(url: string, p: Pattern): Option<string> {
    match p
    case Literal(q) => MatchLiteral(url, q)
    case AfterMarker(h, m) => MatchGreedy(url, h, m)
  }

  /** The extractor's five patterns, in order. */
  const VideoIdPatterns: seq<Pattern> := [
    Literal(ServerUrls.WatchV), Literal(ServerUrls.ShortLink), Literal(ServerUrls.Embed),
    Literal(ServerUrls.SlashV), AfterMarker(ServerUrls.WatchQuery, "&v=")
  ]

  /** The `for ... of` loop with early return: the capture of the first pattern that matches. */
  function FirstMatch(url: string, ps: seq<Pattern>): (r: Option<string>)
    ensures r.None? <==> forall i :: 0 <= i < |ps| ==> Matches(url, ps[i]).None?
    ensures r.Some? ==> exists i :: 0 <= i < |ps| && r == Matches(url, ps[i])
                                    && forall j :: 0 <= j < i ==> Matches(url, ps[j]).None?
    decreases |ps|
  {
    if ps == [] then None
    else if Matches(url, ps[0]).Some? then Matches(url, ps[0])
    else
      var r := FirstMatch(url, ps[1..]);
      assert forall i :: 1 <= i < |ps| ==> ps[i] == ps[1..][i - 1];
      r
  }

  /** `extractVideoId`: the first of the five captures, never empty, or `None` (null). */
  function ExtractVideoId(url: string): (r: Option<string>)
    ensures r.Some? ==> |r.value| > 0 && IdCharsOnly(r.value)
  {
    var r := FirstMatch(url, VideoIdPatterns);
    assert r.Some? ==> exists i :: 0 <= i < 5 && r == Matches(url, VideoIdPatterns[i]);
    r
  }

  /** The pattern lists of the browser and the server say the same thing, pattern by pattern. */
  lemma {:induction false} PatternsAgree(url: string, k: nat)
    requires k < 5
    ensures Matches(url, VideoIdPatterns[k]) == ServerUrls.VideoIdPattern(url, k)
  {
    if k < 4 {
      assert VideoIdPatterns[k].prefix == ServerUrls.VideoIdLiterals[k];
    } else {
      assert VideoIdPatterns[k] == AfterMarker(ServerUrls.WatchQuery, "&v=");
    }
  }

  lemma {:induction false} FirstMatchAgrees(url: string, k: nat)
    requires k <= 5
    ensures FirstMatch(url, VideoIdPatterns[k..]) == ServerUrls.FirstVideoIdPattern(url, k)
    decreases 5 - k
  {
    if k < 5 {
      PatternsAgree(url, k);
      FirstMatchAgrees(url, k + 1);
      assert VideoIdPatterns[k..][1..] == VideoIdPatterns[k + 1..];
      assert VideoIdPatterns[k..][0] == VideoIdPatterns[k];
    }
  }

  /** The browser's extractor returns what the server's returns, for every URL. */
  lemma ExtractorsAgree(url: string)
    ensures ExtractVideoId(url) == ServerUrls.ExtractVideoId(url)
  {
    FirstMatchAgrees(url, 0);
    assert VideoIdPatterns[0..] == VideoIdPatterns;
  }

  /** The paths the browser's validator accepts: no `embed/`, no `/v/`. */
  const ClientPaths: seq<string> := [ServerUrls.WatchV, ServerUrls.PlaylistList, ServerUrls.ShortLink]

  /** `isValidYouTubeUrl` of the browser. */
  predicate IsValidYouTubeUrl(url: string) {
    AnchoredMatch(url, ClientPaths)
  }

  /**
   * Valid exactly when the URL is an optional `http://` or `https://`, an
   * optional `www.`, then `youtube.com/watch?v=`, `youtube.com/playlist?list=`
   * or `youtu.be/`.
   */
  lemma ClientValidIffPrefix(url: string)
    ensures IsValidYouTubeUrl(url) <==>
            exists sch, w, i :: 0 <= i < |ClientPaths| && PrefixChoice(url, sch, w, ClientPaths[i])
  {
    assert ClientPaths[0][0] == 'y' && ClientPaths[1][0] == 'y' && ClientPaths[2][0] == 'y';
    AnchoredMatchIff(url, ClientPaths);
  }

  /** Every URL the browser accepts, the server accepts too. */
  lemma ClientValidIsServerValid(url: string)
    requires IsValidYouTubeUrl(url)
    ensures ServerUrls.IsValidYouTubeUrl(url)
  {
    var t := StripWww(StripScheme(url));
    var i :| 0 <= i < |ClientPaths| && StartsWith(t, ClientPaths[i]);
    assert ClientPaths[i] == ServerUrls.ServerPaths[i] by {
      assert ClientPaths[0] == ServerUrls.WatchV == ServerUrls.ServerPaths[0];
      assert ClientPaths[1] == ServerUrls.PlaylistList == ServerUrls.ServerPaths[1];
      assert ClientPaths[2] == ServerUrls.ShortLink == ServerUrls.ServerPaths[2];
    }
    AnchoredMatchVia(url, ServerUrls.ServerPaths, i);
  }

  /** A string that differs from `p` at offset `d` does not start with `p`. */
  lemma DiffersAt(s: string, p: string, d: nat)
    requires d < |p| && d < |s| && s[d] != p[d]
    ensures !StartsWith(s, p)
  {
    if |p| <= |s| {
      assert s[..|p|][d] == s[d];
    }
  }

  /** A path that opens with `youtube.com/embed/` matches none of the browser's paths. */
  lemma EmbedIsNoClientPath(rest: string)
    requires StartsWith(rest, ServerUrls.Embed)
    ensures forall i :: 0 <= i < |ClientPaths| ==> !StartsWith(rest, ClientPaths[i])
  {
    assert rest[..18] == ServerUrls.Embed;
    assert rest[5] == 'b' && rest[12] == 'e';
    DiffersAt(rest, ClientPaths[0], 12);
    DiffersAt(rest, ClientPaths[1], 12);
    DiffersAt(rest, ClientPaths[2], 5);
  }

  /** An embed link passes the server's validator but not the browser's. */
  lemma EmbedOnlyOnServer(id: string)
    ensures !IsValidYouTubeUrl("https://www." + ServerUrls.Embed + id)
    ensures ServerUrls.IsValidYouTubeUrl("https://www." + ServerUrls.Embed + id)
  {
    var rest := ServerUrls.Embed + id;
    assert "https://www." + ServerUrls.Embed + id == "https://www." + rest;
    StripHttpsWww(rest);
    assert rest[..18] == ServerUrls.Embed;
    EmbedIsNoClientPath(rest);
    assert StartsWith(rest, ServerUrls.ServerPaths[3]);
  }

  datatype UrlType = Video | Playlist | Unknown

  /** `getUrlType`. */
  function GetUrlType(url: string): (t: UrlType)
    ensures t.Playlist? <==> Contains(url, "playlist?list=")
    ensures t.Unknown? <==> !(Contains(url, "playlist?list=") || Contains(url, "watch?v=") || Contains(url, "youtu.be/"))
  {
    if Contains(url, "playlist?list=") then Playlist
    else if Contains(url, "watch?v=") || Contains(url, "youtu.be/") then Video
    else Unknown
  }

  /** Where `p` starts at `k` and holds `q` at `j`, `q` occurs in `s`. */
  lemma ContainsVia(s: string, k: nat, p: string, j: nat, q: string)
    requires k <= |s| && StartsWith(s[k..], p) && HasAt(p, j, q)
    ensures Contains(s, q)
  {
    assert s[k..][..|p|] == p;
    assert s[k + j..k + j + |q|] == s[k..][..|p|][j..j + |q|];
    assert HasAt(s, k + j, q);
  }

  /** A URL holding one of the browser's paths at `k` is classified as a video or a playlist. */
  lemma PathGivesType(url: string, k: nat, i: nat)
    requires k <= |url| && i < 3 && StartsWith(url[k..], ClientPaths[i])
    ensures !GetUrlType(url).Unknown?
  {
    if i == 0 {
      assert ServerUrls.WatchV[12..20] == "watch?v=";
      ContainsVia(url, k, ServerUrls.WatchV, 12, "watch?v=");
    } else if i == 1 {
      assert ServerUrls.PlaylistList[12..26] == "playlist?list=";
      ContainsVia(url, k, ServerUrls.PlaylistList, 12, "playlist?list=");
    } else {
      assert ServerUrls.ShortLink[0..9] == "youtu.be/";
      ContainsVia(url, k, ServerUrls.ShortLink, 0, "youtu.be/");
    }
  }

  /** A URL the browser accepts is always classified as a video or a playlist. */
  lemma ValidIsNeverUnknown(url: string)
    requires IsValidYouTubeUrl(url)
    ensures !GetUrlType(url).Unknown?
  {
    var t := StripWww(StripScheme(url));
    var i :| 0 <= i < |ClientPaths| && StartsWith(t, ClientPaths[i]);
    StrippedSuffix(url);
    PathGivesType(url, |url| - |t|, i);
  }

  /** The record the mock returns. */
  datatype VideoData = VideoData(
    id: string, title: string, thumbnail: string, duration: string,
    qualities: seq<string>, uploader: string, viewCount: nat, uploadDate: string)

  const MockQualities: seq<string> := ["1080p", "720p", "480p", "360p"]

  /** The id the demonstration URL carries, and the record returned for it. */
  const DemoId := "7wnove7K-ZQ"

  const DemoVideo := VideoData(
    DemoId, "The video from your URL: Build a Complete YouTube Downloader",
    "https://img.youtube.com/vi/7wnove7K-ZQ/maxresdefault.jpg", "12:34",
    MockQualities, "Tech Channel", 125000, "2024-01-15")

  function MaxresThumbnail(id: string): string {
    "https://img.youtube.com/vi/" + id + "/maxresdefault.jpg"
  }

  /**
   * `getMockVideoData`: one record; the fixed one when the URL carries the
   * demonstration id, else a sample keyed by the extracted id.
   */
  function GetMockVideoData(url: string): (r: seq<VideoData>)
    ensures |r| == 1
    ensures Contains(url, DemoId) ==> r[0] == DemoVideo
    ensures r[0].qualities == MockQualities
  {
    var videoId := ExtractVideoId(url);
    if Contains(url, DemoId) then [DemoVideo]
    else [VideoData(
      OrElse(videoId, "mock-video"), "Sample Video from Your URL",
      MaxresThumbnail(OrElse(videoId, "dQw4w9WgXcQ")), "8:45",
      MockQualities, "YouTube Channel", 50000, "2024-01-10")]
  }

  /**
   * Outside the demonstration id, the sample record carries the extracted id
   * and a thumbnail keyed by it; with no id, `mock-video` and the default
   * thumbnail. An extracted id is never empty, so `||` never skips it.
   */
  lemma MockKeyedByExtractedId(url: string)
    requires !Contains(url, DemoId)
    ensures ExtractVideoId(url).Some? ==>
              GetMockVideoData(url)[0].id == ExtractVideoId(url).value
              && GetMockVideoData(url)[0].thumbnail == MaxresThumbnail(ExtractVideoId(url).value)
    ensures ExtractVideoId(url).None? ==>
              GetMockVideoData(url)[0].id == "mock-video"
              && GetMockVideoData(url)[0].thumbnail == MaxresThumbnail("dQw4w9WgXcQ")
  {
  }

  /** For a canonical watch URL, the sample record carries the id after `v=`. */
  lemma MockOfWatchUrl(url: string, sch: string, w: string)
    requires PrefixChoice(url, sch, w, ServerUrls.WatchV) && !Contains(url, DemoId)
    requires |sch + w + ServerUrls.WatchV| < |url| && IsIdChar(url[|sch + w + ServerUrls.WatchV|])
    ensures GetMockVideoData(url)[0].id == IdRun(url, |sch + w + ServerUrls.WatchV|)
  {
    ServerUrls.CanonicalWatchId(url, sch, w);
    ExtractorsAgree(url);
    MockKeyedByExtractedId(url);
  }
}
