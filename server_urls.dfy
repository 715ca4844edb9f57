/**
 * URL validation and id extraction of the Express server
 * (`isValidYouTubeUrl`, `extractVideoId`, `extractPlaylistId`).
 */
module ServerUrls {
  import opened Wrappers
  import opened Text
  import opened Scan

  const WatchV := "youtube.com/watch?v="
  const PlaylistList := "youtube.com/playlist?list="
  const ShortLink := "youtu.be/"
  const Embed := "youtube.com/embed/"
  const SlashV := "youtube.com/v/"
  const WatchQuery := "youtube.com/watch?"

  /** The path shapes the server's validator accepts, in the order of its pattern list. */
  const ServerPaths: seq<string> := [WatchV, PlaylistList, ShortLink, Embed, SlashV]

  /** The substring that sends a request down the playlist branch. */
  const PlaylistMarker := "playlist?list="

  /** The four literal video-id patterns, tried before the `watch?...&v=` pattern. */
  const VideoIdLiterals: seq<string> := [WatchV, ShortLink, Embed, SlashV]

  lemma ServerPathsPlain()
    ensures PathsStartPlainly(ServerPaths)
  {
    assert ServerPaths[0][0] == 'y' && ServerPaths[1][0] == 'y' && ServerPaths[2][0] == 'y';
    assert ServerPaths[3][0] == 'y' && ServerPaths[4][0] == 'y';
  }

  /** The server's `isValidYouTubeUrl`: some of its five anchored patterns tests true. */
  predicate IsValidYouTubeUrl(url: string) {
    AnchoredMatch(url, ServerPaths)
  }

  /**
   * A URL is valid exactly when it is an optional `http://` or `https://`,
   * an optional `www.`, then one of the five path prefixes.
   */
  lemma ValidIffPrefix(url: string)
    ensures IsValidYouTubeUrl(url) <==>
            exists sch, w, i :: 0 <= i < |ServerPaths| && PrefixChoice(url, sch, w, ServerPaths[i])
  {
    ServerPathsPlain();
    AnchoredMatchIff(url, ServerPaths);
  }

  /** `url.includes('playlist?list=')`. */
  predicate IsPlaylistUrl(url: string) {
    Contains(url, PlaylistMarker)
  }

  /** Whether video-id pattern `k` (0 to 4, in the source's order) matches `url`. */
  function VideoIdPattern(url: string, k: nat): Option<string>
    requires k < 5
  {
    if k < 4 then MatchLiteral(url, VideoIdLiterals[k]) else MatchGreedy(url, WatchQuery, "&v=")
  }

  /** Trying the patterns from `k` on, the capture of the first that matches. */
  function FirstVideoIdPattern(url: string, k: nat): (r: Option<string>)
    requires k <= 5
    ensures r.None? <==> forall j :: k <= j < 5 ==> VideoIdPattern(url, j).None?
    ensures r.Some? ==> exists j :: k <= j < 5 && r == VideoIdPattern(url, j)
                                    && forall i :: k <= i < j ==> VideoIdPattern(url, i).None?
    decreases 5 - k
  {
    if k == 5 then None
    else if VideoIdPattern(url, k).Some? then VideoIdPattern(url, k)
    else FirstVideoIdPattern(url, k + 1)
  }

  /**
   * `extractVideoId`: the capture of the first of the five patterns that
   * matches, which is never empty and holds none of `&`, `?`, `#`, newline;
   * `None` (null) when no pattern matches.
   */
  function ExtractVideoId(url: string): (r: Option<string>)
    ensures r.None? <==> forall j :: 0 <= j < 5 ==> VideoIdPattern(url, j).None?
    ensures r.Some? ==> exists j :: 0 <= j < 5 && r == VideoIdPattern(url, j)
                                    && forall i :: 0 <= i < j ==> VideoIdPattern(url, i).None?
    ensures r.Some? ==> |r.value| > 0 && IdCharsOnly(r.value)
  {
    FirstVideoIdPattern(url, 0)
  }

  /**
   * `extractPlaylistId`: the run after the first `youtube.com/playlist?list=`,
   * else after the last `&list=` on the line of the first `youtube.com/watch?`
   * that has one, else `None`.
   */
  function ExtractPlaylistId(url: string): (r: Option<string>)
    ensures MatchLiteral(url, PlaylistList).Some? ==> r == MatchLiteral(url, PlaylistList)
    ensures MatchLiteral(url, PlaylistList).None? ==> r == MatchGreedy(url, WatchQuery, "&list=")
    ensures r.Some? ==> |r.value| > 0 && IdCharsOnly(r.value)
  {
    var a := MatchLiteral(url, PlaylistList);
    if a.Some? then a else MatchGreedy(url, WatchQuery, "&list=")
  }

  /** No character of the scheme or `www.` can start a `youtube.com/...` literal. */
  lemma NoEarlyLiteral(url: string, n: nat, p: string)
    requires n <= |url| && |p| > 0 && p[0] == 'y'
    requires forall i :: 0 <= i < n ==> url[i] != 'y'
    ensures forall j :: 0 <= j < n ==> !CaptureAt(url, j, p)
  {
    forall j | 0 <= j < n
      ensures !CaptureAt(url, j, p)
    {
      HasAtChars(url, j, p);
    }
  }

  /**
   * A canonical watch URL (optional scheme, optional `www.`, then
   * `youtube.com/watch?v=` and an id character) yields exactly the run of id
   * characters after `v=`: no earlier occurrence can compete.
   */
  lemma {:induction false} CanonicalWatchId(url: string, sch: string, w: string)
    requires PrefixChoice(url, sch, w, WatchV)
    requires |sch + w + WatchV| < |url| && IsIdChar(url[|sch + w + WatchV|])
    ensures ExtractVideoId(url) == Some(IdRun(url, |sch + w + WatchV|))
  {
    var n := |sch + w|;
    StartsWithHasAt(url, sch + w, WatchV);
    PrefixHasNoY(url, sch, w);
    NoEarlyLiteral(url, n, WatchV);
    assert CaptureAt(url, n, WatchV);
    LiteralAt(url, WatchV, n);
    WatchPatternFirst(url);
  }

  /** A URL opening with a scheme and `www.` choice has no `y` in that opening. */
  lemma PrefixHasNoY(url: string, sch: string, w: string)
    requires IsSchemeChoice(sch) && IsWwwChoice(w) && StartsWith(url, sch + w)
    ensures forall i :: 0 <= i < |sch + w| ==> url[i] != 'y'
  {
    var pre := sch + w;
    forall i | 0 <= i < |pre| ensures url[i] != 'y' {
      assert url[i] == url[..|pre|][i] == pre[i];
      if i < |sch| {
        assert pre[i] == sch[i];
      } else {
        assert pre[i] == w[i - |sch|];
      }
    }
  }

  /**
   * Pattern order beats position: a `watch?v=` id anywhere in the URL wins
   * over a `youtu.be/` id that comes earlier.
   */
  lemma {:induction false} WatchPatternFirst(url: string)
    requires MatchLiteral(url, WatchV).Some?
    ensures ExtractVideoId(url) == MatchLiteral(url, WatchV)
  {
    assert VideoIdPattern(url, 0) == MatchLiteral(url, WatchV);
  }

  /** The watch URL the download endpoints build from a video id. */
  function WatchUrl(videoId: string): string {
    "https://www.youtube.com/watch?v=" + videoId
  }

  /** The watch URL the download endpoints build always passes the validator, whatever the id. */
  lemma WatchUrlValid(videoId: string)
    ensures IsValidYouTubeUrl(WatchUrl(videoId))
  {
    var rest := WatchV + videoId;
    WatchUrlSplit(videoId);
    StripHttpsWww(rest);
    assert rest[..|WatchV|] == WatchV;
    AnchoredMatchVia(WatchUrl(videoId), ServerPaths, 0);
  }

  /** The watch URL is `https://www.` followed by the watch path and the id. */
  lemma WatchUrlSplit(videoId: string)
    ensures WatchUrl(videoId) == "https://www." + (WatchV + videoId)
  {
    assert "https://www.youtube.com/watch?v=" == "https://www." + WatchV;
    assert ("https://www." + WatchV) + videoId == "https://www." + (WatchV + videoId);
  }

  /** The bare short link passes the validator. */
  lemma BareShortLinkValid()
    ensures IsValidYouTubeUrl("https://youtu.be/")
  {
    var url := "https://youtu.be/";
    assert url[..8] == "https://";
    var t := url[8..];
    assert StripScheme(url) == t;
    assert t == ShortLink;
    assert !StartsWith(t, "www.") by { assert t[0] == 'y'; }
    assert StartsWith(StripWww(StripScheme(url)), ServerPaths[2]);
  }

  lemma BareShortLinkNoLiteral(p: string)
    requires |p| >= 9 && p[0] == 'y'
    ensures MatchLiteral("https://youtu.be/", p).None?
  {
    var url := "https://youtu.be/";
    assert forall i :: 0 <= i < 8 ==> url[i] != 'y';
    NoEarlyLiteral(url, 8, p);
  }

  lemma BareShortLinkNoGreedy()
    ensures MatchGreedy("https://youtu.be/", WatchQuery, "&v=").None?
  {
    var url := "https://youtu.be/";
    forall i | 0 <= i <= |url| ensures GreedyAt(url, i, WatchQuery, "&v=").None? {
      assert |WatchQuery| == 18;
    }
  }

  /** The bare short link names no playlist. */
  lemma BareShortLinkNotPlaylist()
    ensures !IsPlaylistUrl("https://youtu.be/")
  {
    var url := "https://youtu.be/";
    forall k | 0 <= k <= |url| ensures !HasAt(url, k, PlaylistMarker) {
      HasAtChar(url, k, PlaylistMarker, 1);
    }
  }

  /**
   * Validation and extraction do not agree: the bare short link is accepted
   * by the validator, yet no pattern captures an id from it, so the info
   * endpoint's fallback cannot run for it.
   */
  lemma ValidUrlWithoutId()
    ensures IsValidYouTubeUrl("https://youtu.be/")
    ensures ExtractVideoId("https://youtu.be/").None?
  {
    BareShortLinkValid();
    var url := "https://youtu.be/";
    assert |WatchV| == 20 && WatchV[0] == 'y';
    BareShortLinkNoLiteral(WatchV);
    assert |ShortLink| == 9 && ShortLink[0] == 'y';
    BareShortLinkNoLiteral(ShortLink);
    assert |Embed| == 18 && Embed[0] == 'y';
    BareShortLinkNoLiteral(Embed);
    assert |SlashV| == 14 && SlashV[0] == 'y';
    BareShortLinkNoLiteral(SlashV);
    BareShortLinkNoGreedy();
    assert VideoIdLiterals == [WatchV, ShortLink, Embed, SlashV];
    assert FirstVideoIdPattern(url, 4).None?;
    assert FirstVideoIdPattern(url, 0).None?;
  }
}
