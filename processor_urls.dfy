/**
 * URL handling of the `youtube-processor` edge function: one alternation
 * for video ids, one `[?&]list=` pattern for playlist ids. Compared with
 * the server's pattern lists, position decides here, not pattern order.
 */
module ProcessorUrls {
  import opened Wrappers
  import opened Text
  import opened Scan
  import ServerUrls

  /** The three alternatives of the video-id regex, in its order (no `/v/` form). */
  const VideoAlternatives: seq<string> := [ServerUrls.WatchV, ServerUrls.ShortLink, ServerUrls.Embed]

  /** `[?&]list=` written as two alternatives. */
  const ListParams: seq<string> := ["?list=", "&list="]

  /**
   * `extractVideoId`: the capture of the leftmost match of
   * `(?:youtube.com/watch?v=|youtu.be/|youtube.com/embed/)`, never empty;
   * `None` when no alternative captures anywhere.
   */
  function ExtractVideoId(url: string): (r: Option<string>)
    ensures r.None? <==> forall k: nat, i :: 0 <= i < 3 ==> !CaptureAt(url, k, VideoAlternatives[i])
    ensures r.Some? ==> exists k: nat, i: nat :: LeftmostAlt(url, VideoAlternatives, k, i)
                                               && r.value == IdRun(url, k + |VideoAlternatives[i]|)
    ensures r.Some? ==> |r.value| > 0 && IdCharsOnly(r.value)
  {
    MatchAlternatives(url, VideoAlternatives)
  }

  /** `extractPlaylistId`: the run after the leftmost `?list=` or `&list=` that is followed by an id character. */
  function ExtractPlaylistId(url: string): (r: Option<string>)
    ensures r.None? <==> forall k: nat, i :: 0 <= i < 2 ==> !CaptureAt(url, k, ListParams[i])
    ensures r.Some? ==> exists k: nat, i: nat :: LeftmostAlt(url, ListParams, k, i)
                                               && r.value == IdRun(url, k + |ListParams[i]|)
    ensures r.Some? ==> |r.value| > 0 && IdCharsOnly(r.value)
  {
    MatchAlternatives(url, ListParams)
  }

  /** Where `c` does not occur before `n`, no literal with `c` at offset `q` starts before `n - q`. */
  lemma {:induction false} NoCharBefore(url: string, n: nat, c: char, p: string, q: nat)
    requires q < |p| && p[q] == c
    requires forall i :: 0 <= i < n && i < |url| ==> url[i] != c
    ensures forall j: nat :: j + q < n ==> !HasAt(url, j, p)
  {
    forall j: nat | j + q < n ensures !HasAt(url, j, p) {
      HasAtChars(url, j, p);
    }
  }

  /** A URL that opens with a short link: the processor takes its id. */
  lemma {:induction false} ShortLinkFirst(url: string, a: string)
    requires HasAt(url, 0, ServerUrls.ShortLink) && HasAt(url, 9, a)
    requires |a| > 0 && IdCharsOnly(a) && 9 + |a| < |url| && url[9 + |a|] == '#'
    ensures ExtractVideoId(url) == Some(a)
  {
    HasAtChar(url, 9, a, 0);
    assert CaptureAt(url, 0, VideoAlternatives[1]);
    HasAtChar(url, 0, ServerUrls.ShortLink, 5);
    HasAtChar(url, 0, ServerUrls.WatchV, 5);
    assert !CaptureAt(url, 0, VideoAlternatives[0]);
    assert LeftmostAlt(url, VideoAlternatives, 0, 1);
    LeftmostAltResult(url, VideoAlternatives, 0, 1);
    IdRunOf(url, 9, a);
  }

  /** A URL whose first `?` belongs to a `watch?v=` literal: the server takes that id. */
  lemma {:induction false} WatchAfterNoQuery(url: string, n: nat, b: string)
    requires HasAt(url, n, ServerUrls.WatchV) && n + 20 <= |url| && url[n + 20..] == b
    requires |b| > 0 && IdCharsOnly(b)
    requires forall i :: 0 <= i < n + 17 && i < |url| ==> url[i] != '?'
    ensures ServerUrls.ExtractVideoId(url) == Some(b)
  {
    NoCharBefore(url, n + 17, '?', ServerUrls.WatchV, 17);
    TailIsRun(url, n + 20, b);
    assert CaptureAt(url, n, ServerUrls.WatchV);
    LiteralAt(url, ServerUrls.WatchV, n);
    ServerUrls.WatchPatternFirst(url);
  }

  /** Where the pieces of a short link followed by a watch link sit. */
  lemma {:induction false} ShortThenWatchLayout(a: string, b: string)
    requires IdCharsOnly(a)
    ensures var url := ServerUrls.ShortLink + a + "#" + ServerUrls.WatchV + b;
            var n := 10 + |a|;
            && HasAt(url, 0, ServerUrls.ShortLink) && HasAt(url, 9, a) && url[9 + |a|] == '#'
            && HasAt(url, n, ServerUrls.WatchV) && n + 20 <= |url| && url[n + 20..] == b
            && forall i :: 0 <= i < n + 17 && i < |url| ==> url[i] != '?'
  {
    var head := ServerUrls.ShortLink + a + "#";
    var n := |head|;
    var url := head + ServerUrls.WatchV + b;
    assert url == ServerUrls.ShortLink + a + "#" + ServerUrls.WatchV + b;
    assert url[..9] == ServerUrls.ShortLink;
    assert url[9..9 + |a|] == a;
    assert url[n..n + 20] == ServerUrls.WatchV;
    assert url[n + 20..] == b;
    forall i | 0 <= i < n + 17 ensures url[i] != '?' {
      if i < 9 {
        assert url[i] == ServerUrls.ShortLink[i];
      } else if i < 9 + |a| {
        assert url[i] == a[i - 9];
      } else if n <= i {
        assert url[i] == ServerUrls.WatchV[i - n];
      }
    }
  }

  /**
   * Position beats pattern order in the processor and pattern order beats
   * position in the server: with a short link before a watch link, the
   * processor takes the short-link id and the server the watch id.
   */
  lemma {:induction false} LeftmostBeatsOrder(a: string, b: string)
    requires |a| > 0 && IdCharsOnly(a) && |b| > 0 && IdCharsOnly(b)
    ensures ExtractVideoId(ServerUrls.ShortLink + a + "#" + ServerUrls.WatchV + b) == Some(a)
    ensures ServerUrls.ExtractVideoId(ServerUrls.ShortLink + a + "#" + ServerUrls.WatchV + b) == Some(b)
  {
    ShortThenWatchLayout(a, b);
    var url := ServerUrls.ShortLink + a + "#" + ServerUrls.WatchV + b;
    ShortLinkFirst(url, a);
    WatchAfterNoQuery(url, 10 + |a|, b);
  }

  /** Before `n` neither `?list=` nor `&list=` occurs when no `&` does and no `?` is followed by `l`. */
  lemma NoListParamBefore(url: string, n: nat)
    requires forall i :: 0 <= i < n && i < |url| ==> url[i] != '&'
    requires forall i :: 0 <= i < n && i < |url| && url[i] == '?' ==> i + 1 < |url| && url[i + 1] != 'l'
    ensures forall j: nat, i' :: j < n && 0 <= i' < 2 ==> !CaptureAt(url, j, ListParams[i'])
  {
    forall j: nat, i' | j < n && 0 <= i' < 2 ensures !CaptureAt(url, j, ListParams[i']) {
      HasAtOpening(url, j, ListParams[i']);
    }
  }

  /** An `&list=` before which no `&` occurs and no `?` is followed by `l`: the processor takes its id. */
  lemma {:induction false} ListAfterQuery(url: string, n: nat, l: string)
    requires HasAt(url, n, "&list=") && n + 6 <= |url| && url[n + 6..] == l
    requires |l| > 0 && IdCharsOnly(l)
    requires forall i :: 0 <= i < n ==> url[i] != '&'
    requires forall i :: 0 <= i < n && url[i] == '?' ==> url[i + 1] != 'l'
    ensures ExtractPlaylistId(url) == Some(l)
  {
    TailIsRun(url, n + 6, l);
    assert CaptureAt(url, n, ListParams[1]);
    NoListParamBefore(url, n);
    HasAtChar(url, n, "&list=", 0);
    assert !CaptureAt(url, n, ListParams[0]) by {
      HasAtChars(url, n, ListParams[0]);
    }
    assert LeftmostAlt(url, ListParams, n, 1);
    LeftmostAltResult(url, ListParams, n, 1);
  }

  /** No `p` eight places before a `?` means no `playlist?list=`. */
  lemma {:induction false} NoPlaylistMarker(url: string)
    requires forall k :: 0 <= k && k + 8 < |url| && url[k + 8] == '?' ==> url[k] != 'p'
    ensures !ServerUrls.IsPlaylistUrl(url)
  {
    forall k | 0 <= k <= |url| ensures !HasAt(url, k, ServerUrls.PlaylistMarker) {
      HasAtOpening(url, k, ServerUrls.PlaylistMarker);
      HasAtChar(url, k, ServerUrls.PlaylistMarker, 8);
    }
  }

  /** Where the pieces of a watch URL carrying `&list=` sit. */
  lemma {:induction false} WatchWithListLayout(v: string, l: string)
    requires IdCharsOnly(v) && IdCharsOnly(l)
    ensures var url := "https://www.youtube.com/watch?v=" + v + "&list=" + l;
            var n := 32 + |v|;
            && HasAt(url, n, "&list=") && n + 6 <= |url| && url[n + 6..] == l
            && (forall i :: 0 <= i < n ==> url[i] != '&')
            && (forall i :: 0 <= i < |url| && url[i] == '?' ==> i == 29)
            && url[21] == 'o' && url[30] == 'v'
  {
    var w := "https://www.youtube.com/watch?v=";
    var head := w + v;
    var n := |head|;
    var url := head + "&list=" + l;
    assert url[..32] == w;
    assert url[21] == w[21] && url[30] == w[30];
    forall i | 0 <= i < |url| && i != 29 ensures url[i] != '?' {
      if i < 32 {
        assert url[i] == w[i];
      } else if i < n {
        assert url[i] == v[i - 32];
      } else if i < n + 6 {
        assert url[i] == "&list="[i - n];
      } else {
        assert url[i] == l[i - n - 6];
      }
    }
    forall i | 0 <= i < n ensures url[i] != '&' {
      if i < 32 {
        assert url[i] == w[i];
      } else {
        assert url[i] == v[i - 32];
      }
    }
    assert url[n..n + 6] == "&list=";
    assert url[n + 6..] == l;
  }

  /**
   * A watch URL that also names a playlist is a playlist for the processor,
   * while the server, which looks for `playlist?list=`, takes its video branch.
   */
  lemma {:induction false} WatchWithListIsPlaylistHere(v: string, l: string)
    requires IdCharsOnly(v) && |l| > 0 && IdCharsOnly(l)
    ensures ExtractPlaylistId("https://www.youtube.com/watch?v=" + v + "&list=" + l) == Some(l)
    ensures !ServerUrls.IsPlaylistUrl("https://www.youtube.com/watch?v=" + v + "&list=" + l)
  {
    WatchWithListLayout(v, l);
    var url := "https://www.youtube.com/watch?v=" + v + "&list=" + l;
    ListAfterQuery(url, 32 + |v|, l);
    NoPlaylistMarker(url);
  }

  /** In `youtube.com/v/` followed by an id without `/`, no literal containing a `/` starts after 0. */
  lemma {:induction false} NoLaterAt(id: string, p: string, q: nat)
    requires forall i :: 0 <= i < |id| ==> id[i] != '/'
    requires q < |p| && p[0] == 'y' && p[q] == '/'
    ensures forall k: nat :: 0 < k ==> !HasAt(ServerUrls.SlashV + id, k, p)
  {
    var url := ServerUrls.SlashV + id;
    forall k: nat | 0 < k ensures !HasAt(url, k, p) {
      HasAtChars(url, k, p);
      if k < 14 {
        assert url[k] == ServerUrls.SlashV[k];
      } else if k + q < |url| {
        assert url[k + q] == id[k + q - 14];
      }
    }
  }

  /** A literal that differs from `youtube.com/v/` at offset `d` does not start at 0. */
  lemma {:induction false} NotAtStart(id: string, p: string, d: nat)
    requires d < |p| && d < 14 && p[d] != ServerUrls.SlashV[d]
    ensures !HasAt(ServerUrls.SlashV + id, 0, p)
  {
    var url := ServerUrls.SlashV + id;
    HasAtChars(url, 0, p);
    assert url[d] == ServerUrls.SlashV[d];
  }

  /** `youtube.com/v/` followed by an id without `/` holds none of the processor's literals. */
  lemma {:induction false} SlashVHasNoAlternative(id: string)
    requires forall i :: 0 <= i < |id| ==> id[i] != '/'
    ensures forall k: nat :: !HasAt(ServerUrls.SlashV + id, k, ServerUrls.WatchV)
    ensures forall k: nat :: !HasAt(ServerUrls.SlashV + id, k, ServerUrls.ShortLink)
    ensures forall k: nat :: !HasAt(ServerUrls.SlashV + id, k, ServerUrls.Embed)
  {
    NoLaterAt(id, ServerUrls.WatchV, 11);
    NotAtStart(id, ServerUrls.WatchV, 12);
    NoLaterAt(id, ServerUrls.ShortLink, 8);
    NotAtStart(id, ServerUrls.ShortLink, 5);
    NoLaterAt(id, ServerUrls.Embed, 11);
    NotAtStart(id, ServerUrls.Embed, 12);
  }

  /** The server reads the `/v/` form with its fourth pattern. */
  lemma {:induction false} SlashVOnServer(id: string)
    requires |id| > 0 && IdCharsOnly(id) && forall i :: 0 <= i < |id| ==> id[i] != '/'
    ensures ServerUrls.ExtractVideoId(ServerUrls.SlashV + id) == Some(id)
  {
    var url := ServerUrls.SlashV + id;
    SlashVHasNoAlternative(id);
    assert ServerUrls.VideoIdPattern(url, 0).None?;
    assert ServerUrls.VideoIdPattern(url, 1).None?;
    assert ServerUrls.VideoIdPattern(url, 2).None?;
    assert url[..14] == ServerUrls.SlashV;
    assert url[14] == id[0];
    assert CaptureAt(url, 0, ServerUrls.SlashV);
    LiteralAt(url, ServerUrls.SlashV, 0);
    assert url[14..14 + |id|] == id;
    IdRunOf(url, 14, id);
    assert ServerUrls.FirstVideoIdPattern(url, 3) == Some(id);
  }

  /** The `/v/` form the server recognises is not recognised here. */
  lemma {:induction false} SlashVOnlyOnServer(id: string)
    requires |id| > 0 && IdCharsOnly(id) && forall i :: 0 <= i < |id| ==> id[i] != '/'
    ensures ExtractVideoId(ServerUrls.SlashV + id).None?
    ensures ServerUrls.ExtractVideoId(ServerUrls.SlashV + id) == Some(id)
  {
    SlashVHasNoAlternative(id);
    assert VideoAlternatives == [ServerUrls.WatchV, ServerUrls.ShortLink, ServerUrls.Embed];
    SlashVOnServer(id);
  }
}
