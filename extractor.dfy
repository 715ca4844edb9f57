/**
 * The `youtube-extractor` edge function's request handler: validate the
 * body, look the video up in the YouTube Data API, then extract a download
 * URL through Apify.
 */
module Extractor {
  import opened Wrappers
  import Text
  import Duration
  import Apify

  /** The request: a CORS preflight, a body that is not JSON, or the two fields read from it. */
  datatype Request = Preflight | Unparseable | Body(videoId: Option<string>, quality: Option<string>)

  /** One item of the Data API's `items`: the snippet's title and the content details' duration. */
  datatype ApiItem = ApiItem(title: string, duration: string)

  /** The Data API's answer to the `videos` query. */
  datatype ApiReply =
    | ApiHttpError(status: nat)      // a non-2xx status
    | ApiThrew(message: string)      // the request failed, or its body was not JSON
    | ApiItems(items: seq<ApiItem>)  // `items` (an absent list reads as empty)

  /** The upstream services, in the order they are called. */
  datatype Upstream = DataApi | Actor(actor: Apify.Actor)

  datatype Response =
    | PreflightOk
    | Error(status: nat, error: string)
    | Success(downloadUrl: string, filename: string, filesize: nat, title: string, duration: string, format: string)

  datatype Outcome = Outcome(response: Response, calls: seq<Upstream>)

  /** The actors of a chain, as upstream calls. */
  function ActorCalls(actors: seq<Apify.Actor>): (r: seq<Upstream>)
    ensures |r| == |actors| && forall i :: 0 <= i < |r| ==> r[i] == Actor(actors[i])
  {
    seq(|actors|, i requires 0 <= i < |actors| => Actor(actors[i]))
  }

  /** A parsed body with both a video id and a quality. */
  predicate HasFields(req: Request) {
    req.Body? && Truthy(req.videoId) && Truthy(req.quality)
  }

  /**
   * The handler. `youtubeKey` and `apifyKey` are the two environment
   * variables; the three Apify replies are what each actor answers.
   */
  function Handle(req: Request, youtubeKey: Option<string>, apifyKey: Option<string>, api: ApiReply,
                  primary: Apify.PrimaryReply, alt: Apify.AltReply, fb: Apify.FallbackReply): (o: Outcome)
    ensures req.Preflight? <==> o.response.PreflightOk?
    ensures req.Unparseable? ==> o == Outcome(Error(500, "Video extraction service unavailable"), [])
    ensures req.Body? && (!Truthy(req.videoId) || !Truthy(req.quality))
            ==> o == Outcome(Error(400, "Video ID and quality are required"), [])
    ensures o.response.Error? && o.response.status == 400 <==> o.calls == [] && !req.Preflight? && !req.Unparseable?
    ensures HasFields(req) && !Truthy(youtubeKey) ==> o == Outcome(Error(400, "YouTube API key not configured"), [])
    ensures HasFields(req) && Truthy(youtubeKey) && api.ApiHttpError?
            ==> o == Outcome(Error(500, "YouTube API error: YouTube API error: " + Text.Decimal(api.status)), [DataApi])
    ensures HasFields(req) && Truthy(youtubeKey) && api.ApiThrew?
            ==> o == Outcome(Error(500, "YouTube API error: " + api.message), [DataApi])
    ensures HasFields(req) && Truthy(youtubeKey) && api.ApiItems? && |api.items| == 0
            ==> o == Outcome(Error(500, "YouTube API error: Video not found"), [DataApi])
    ensures HasFields(req) && Truthy(youtubeKey) && api.ApiItems? && |api.items| > 0
            ==> o == Extracted(apifyKey, req.videoId.value, req.quality.value, api.items[0], primary, alt, fb)
  {
    match req
    case Preflight => Outcome(PreflightOk, [])
    case Unparseable => Outcome(Error(500, "Video extraction service unavailable"), [])
    case Body(videoId, quality) =>
      if !Truthy(videoId) || !Truthy(quality) then Outcome(Error(400, "Video ID and quality are required"), [])
      else if !Truthy(youtubeKey) then Outcome(Error(400, "YouTube API key not configured"), [])
      else
        match api
        case ApiHttpError(status) =>
          Outcome(Error(500, "YouTube API error: YouTube API error: " + Text.Decimal(status)), [DataApi])
        case ApiThrew(message) => Outcome(Error(500, "YouTube API error: " + message), [DataApi])
        case ApiItems(items) =>
          if |items| == 0 then Outcome(Error(500, "YouTube API error: Video not found"), [DataApi])
          else Extracted(apifyKey, videoId.value, quality.value, items[0], primary, alt, fb)
  }

  /**
   * After the Data API found the video: the Apify chain for its first item,
   * a failure of which is a 500.
   */
  function Extracted(apifyKey: Option<string>, videoId: string, quality: string, item: ApiItem,
                     primary: Apify.PrimaryReply, alt: Apify.AltReply, fb: Apify.FallbackReply): (o: Outcome)
    ensures |o.calls| > 0 && o.calls[0] == DataApi && forall i :: 1 <= i < |o.calls| ==> o.calls[i].Actor?
    ensures o.response.Error? ==> o.response.status == 500
    ensures o.response.Success? ==> o.response.title == item.title
                                    && o.response.duration == Duration.ParseIsoDuration(item.duration)
    ensures !o.response.PreflightOk?
    ensures var chain := Apify.PrimaryCall(apifyKey, videoId, quality, item.title, primary, alt, fb);
            && o.calls == [DataApi] + ActorCalls(chain.calls)
            && (chain.result.Ok? <==> o.response.Success?)
            && (chain.result.Ok? ==>
                  o.response.downloadUrl == chain.result.value.downloadUrl
                  && o.response.filename == chain.result.value.filename
                  && o.response.filesize == chain.result.value.filesize
                  && o.response.format == "mp4")
            && (chain.result.Err? ==> o.response == Error(500, "Video extraction failed: " + chain.result.error))
  {
    var chain := Apify.PrimaryCall(apifyKey, videoId, quality, item.title, primary, alt, fb);
    var calls := [DataApi] + ActorCalls(chain.calls);
    match chain.result
    case Err(message) => Outcome(Error(500, "Video extraction failed: " + message), calls)
    case Ok(e) =>
      Outcome(Success(e.downloadUrl, e.filename, e.filesize, item.title, Duration.ParseIsoDuration(item.duration), "mp4"),
              calls)
  }

  /** The Data API is always asked before any actor, and only the first item is used. */
  lemma DataApiFirst(req: Request, youtubeKey: Option<string>, apifyKey: Option<string>, api: ApiReply,
                     primary: Apify.PrimaryReply, alt: Apify.AltReply, fb: Apify.FallbackReply)
    ensures var o := Handle(req, youtubeKey, apifyKey, api, primary, alt, fb);
            |o.calls| > 0 ==> o.calls[0] == DataApi && forall i :: 1 <= i < |o.calls| ==> o.calls[i] != DataApi
    ensures var o := Handle(req, youtubeKey, apifyKey, api, primary, alt, fb);
            o.response.Success? ==> api.ApiItems? && |api.items| > 0 && o.response.title == api.items[0].title
                                    && o.response.duration == Duration.ParseIsoDuration(api.items[0].duration)
  {
  }

  /** Without an Apify key the video is looked up and the extraction then fails without calling an actor. */
  lemma NoApifyKey(videoId: string, quality: string, youtubeKey: string, items: seq<ApiItem>,
                   primary: Apify.PrimaryReply, alt: Apify.AltReply, fb: Apify.FallbackReply)
    requires videoId != "" && quality != "" && youtubeKey != "" && |items| > 0
    ensures Handle(Body(Some(videoId), Some(quality)), Some(youtubeKey), None, ApiItems(items), primary, alt, fb)
            == Outcome(Error(500, "Video extraction failed: " + "Video extraction service not configured. Please configure Apify API key."),
                       [DataApi])
  {
    var chain := Apify.PrimaryCall(None, videoId, quality, items[0].title, primary, alt, fb);
    assert Handle(Body(Some(videoId), Some(quality)), Some(youtubeKey), None, ApiItems(items), primary, alt, fb)
           == Extracted(None, videoId, quality, items[0], primary, alt, fb);
    assert chain.calls == [];
    assert ActorCalls(chain.calls) == [];
    assert [DataApi] + ActorCalls(chain.calls) == [DataApi];
  }

  /**
   * When the fallback actor is reached and answers, the client receives the
   * watch URL itself (its not-a-direct-download flag is not passed on) with
   * size 0.
   */
  lemma FallbackReachesClient(videoId: string, quality: string, youtubeKey: string, apifyKey: string, item: ApiItem,
                              primary: Apify.PrimaryReply)
    requires videoId != "" && quality != "" && youtubeKey != "" && apifyKey != ""
    requires primary.PrimaryEmpty? || primary.PrimaryNotOk?
    ensures var o := Handle(Body(Some(videoId), Some(quality)), Some(youtubeKey), Some(apifyKey), ApiItems([item]),
                            primary, Apify.AltNotOk, Apify.FallbackOk);
            o.response.Success? && o.response.downloadUrl == "https://www.youtube.com/watch?v=" + videoId
            && o.response.filesize == 0 && o.response.format == "mp4"
  {
    Apify.FallbackGivesWatchUrl(videoId, item.title);
  }
}
