# YouTube downloader hub: URL handling, format selection and downloads

This project models the logic core of a small YouTube downloader made of three back ends and one browser
service:

- **The Express server** (`server/index.js`). It has three jobs.
  - It validates a URL and sends it down the playlist branch or the video branch. It expands a playlist
    one member at a time, with placeholders for members that fail.
  - It builds a download link from the formats ytdl-core reports, or synthesises one.
  - It writes a chosen stream to its `downloads` directory, announces its start and end as socket events, and
    lists, serves and deletes the files there.
- **The `youtube-extractor` edge function.** It validates the request and looks the video up in the
  YouTube Data API. Then it asks a chain of three Apify actors (primary, alternative, fallback) for a
  download URL. It picks that URL out of the primary actor's dataset item by a fixed priority and a
  quality ladder.
- **The `youtube-processor` edge function.** It extracts a playlist id or a video id, preferring the
  playlist. For a video it builds one record. For a playlist it walks at most ten pages of items.
- **The browser's `youtubeService`.** It has its own id extractor, a stricter validator, the URL-type
  classifier and the mock record.

Every external party is an input. ytdl-core, `fetch` to Google and Apify, the HTTPS page request, the
file system and `Date.now()` are passed in as datatypes or parameters. Each handler reports the upstream
calls it makes, in order, so properties such as "a 400 before any upstream call" and "the alternative actor
is called twice" can be stated. The downloads directory is a class. It holds a map from file name to size
and birth time, and the log of emitted events. Its methods are proved against a specification function.

The regular expressions are modelled by their search semantics in module `Scan`:

- the leftmost match wins;
- the capture `[^&\n?#]+` is the maximal run and must be non-empty, so an occurrence followed by `&` is
  skipped and the search goes on;
- the greedy `.*` of `watch\?.*&v=` stays on one line and backs off to the last marker.

The three extractors differ in ways the proofs expose:

- the server tries its patterns in order, so pattern order beats position;
- the processor uses one alternation, so position beats order, and it has no `/v/` form;
- the browser agrees with the server on every URL, but its validator rejects `embed/` and `/v/`.

Where the ISO 8601 duration parser is concerned, the code is followed: it only reads the time part
(section 4.4.3.2 of ISO 8601:2004 allows a day component in front, and then there is no `PT` substring,
so the duration reads as `0:00`).

## Model

| member | source | states |
|---|---|---|
| ServerUrls.ValidIffPrefix | server/index.js:53-62 | `isValidYouTubeUrl` holds exactly when the URL is an optional `http://`/`https://`, an optional `www.`, then one of the five path prefixes (both directions) |
| ServerUrls.ExtractVideoId | server/index.js:448-465 | the result is the capture of the first of the five patterns that matches, in their order; null exactly when none matches; a capture is non-empty and free of `&`, `?`, `#`, newline |
| ServerUrls.ExtractPlaylistId | server/index.js:468-482 | the run after `youtube.com/playlist?list=` when that matches, else the `watch?...&list=` capture (by MatchGreedy, the run after the last `&list=` on the line of the first `youtube.com/watch?` that has one); never empty, only id characters |
| ServerUrls.CanonicalWatchId | server/index.js:448-465 | for a canonical watch URL the id is exactly the run of id characters after `v=` |
| ServerUrls.WatchPatternFirst | server/index.js:450-458 | a `watch?v=` id anywhere in the URL wins over any other pattern, even an earlier `youtu.be/` |
| ServerUrls.WatchUrlValid | server/index.js:234-243 | the watch URL the download endpoints build from any id passes the validator |
| ServerUrls.BareShortLinkValid | server/index.js:57 | `https://youtu.be/` passes the validator |
| ServerUrls.BareShortLinkNotPlaylist | server/index.js:69 | `https://youtu.be/` does not contain the playlist marker |
| ServerUrls.ValidUrlWithoutId | server/index.js:53-62 | validator and extractor disagree: `https://youtu.be/` is valid yet no pattern yields an id |
| Scan.MatchLiteral | server/index.js:448-465 | `url.match(/(?:p)([^&\n?#]+)/)[1]`: null iff no occurrence of `p` is followed by an id character; otherwise the maximal run after the leftmost such occurrence |
| Scan.MatchAlternatives | supabase/functions/youtube-processor/index.ts:123-133 | an alternation's capture: null iff no alternative captures anywhere; otherwise the run after the leftmost position, taking the first alternative there |
| Scan.MatchGreedy | server/index.js:454-455 | `(?:h.*m)([^&\n?#]+)` matches iff some start admits it; then the capture is GreedyCapture at the leftmost start FirstGreedy finds; non-empty, only id characters |
| Scan.GreedyCapture | server/index.js:454-455 | a capture from a given start exists iff GreedyAt picks a marker there, and is then the maximal id run after that marker |
| Scan.MatchGreedyLast | server/index.js:454-455 | the greedy capture is the run after the LAST marker followed by an id character on the line of the leftmost start that has one, and no earlier start has any |
| Scan.GreedyAtLast | server/index.js:454-455 | from a start with `h`, the marker chosen is the last one on that line followed by an id character, and none exists iff there is no such marker before the line end |
| Scan.AnchoredMatchIff | server/index.js:55-61 | stripping an optional scheme and `www.` then testing the paths agrees, both directions, with the anchored regex's choice of scheme, `www.` and path |
| ProcessorUrls.ExtractVideoId | supabase/functions/youtube-processor/index.ts:123-127 | the capture at the leftmost position where `watch?v=`, `youtu.be/` or `embed/` is followed by an id character; null iff there is none; non-empty |
| ProcessorUrls.ExtractPlaylistId | supabase/functions/youtube-processor/index.ts:129-133 | the run after the leftmost `?list=` or `&list=` that is followed by an id character; null iff there is none |
| ProcessorUrls.LeftmostBeatsOrder | supabase/functions/youtube-processor/index.ts:123-127 | with a short link before a watch link, the processor takes the short-link id and the server the watch id |
| ProcessorUrls.ListAfterQuery | supabase/functions/youtube-processor/index.ts:129-133 | an `&list=` with no earlier `&` and no earlier `?l` yields its run as the playlist id |
| ProcessorUrls.WatchWithListIsPlaylistHere | supabase/functions/youtube-processor/index.ts:129-133 | a `watch?v=...&list=...` URL has a playlist id for the processor but not the server's playlist marker |
| ProcessorUrls.SlashVOnlyOnServer | supabase/functions/youtube-processor/index.ts:123-127 | `youtube.com/v/ID` yields no id in the processor, while the server yields `ID` |
| ClientService.FirstMatch | src/services/youtubeService.ts:86-93 | the early-return loop gives the capture of the first matching pattern, and null iff no pattern matches |
| ClientService.ExtractVideoId | src/services/youtubeService.ts:76-94 | a returned id is non-empty and made of id characters only |
| ClientService.ExtractorsAgree | src/services/youtubeService.ts:76-94 | the browser's extractor returns what the server's returns, for every URL |
| ClientService.ClientValidIffPrefix | src/services/youtubeService.ts:154-157 | valid exactly when an optional scheme, an optional `www.`, then `youtube.com/watch?v=`, `youtube.com/playlist?list=` or `youtu.be/` open the URL |
| ClientService.ClientValidIsServerValid | src/services/youtubeService.ts:154-157 | every URL the browser accepts, the server accepts |
| ClientService.EmbedOnlyOnServer | src/services/youtubeService.ts:154-157 | an embed link is rejected by the browser and accepted by the server |
| ClientService.GetUrlType | src/services/youtubeService.ts:159-163 | `playlist` iff the URL contains `playlist?list=`; `unknown` iff it contains none of the three markers |
| ClientService.ValidIsNeverUnknown | src/services/youtubeService.ts:154-163 | a URL the browser's validator accepts is never classified `unknown` |
| ClientService.GetMockVideoData | src/services/youtubeService.ts:47-74 | exactly one record, with the four qualities; the fixed record when the URL contains `7wnove7K-ZQ` |
| ClientService.MockKeyedByExtractedId | src/services/youtubeService.ts:47-74 | otherwise the id and thumbnail are keyed by the extracted id, or `mock-video` and `dQw4w9WgXcQ` without one |
| ClientService.MockOfWatchUrl | src/services/youtubeService.ts:47-74 | for a canonical watch URL the sample record's id is the run after `v=` |
| Duration.ClockTextRoundTrip | server/index.js:485-494 | the clock text of `h`, `m`, `s` reads back as `h*3600+m*60+s`, with three fields exactly when `h > 0` |
| Duration.FormatDurationReadsBack | server/index.js:485-494 | `formatDuration(s)` reads back as `s`; it has an hours field iff `s >= 3600`; minutes then and seconds always have two digits |
| Duration.IsoFields | supabase/functions/youtube-extractor/index.ts:442-449 | the regex fails exactly when the text has no `PT` |
| Duration.ParseIsoDuration | supabase/functions/youtube-extractor/index.ts:442-456 | `'0:00'` for a text without `PT` |
| Duration.IsoRoundTrip | supabase/functions/youtube-extractor/index.ts:444-449 | parsing `PT[nH][nM][nS]` recovers every component written and reads a missing one as 0 |
| Duration.ParseIsoAgreesWithFormat | supabase/functions/youtube-processor/index.ts:254-268 | for minutes and seconds below 60, `parseDuration` gives the text `formatDuration` gives for the total seconds |
| Duration.DayDurationsReadAsZero | supabase/functions/youtube-extractor/index.ts:444-445 | a duration with a day component (`P1DT2H`) reads as `0:00` |
| Naming.SafeUnits | server/index.js:348 | an ASCII letter or digit is kept; any other character becomes one `_` per UTF-16 code unit (two for a character above U+FFFF) |
| Naming.SafeTitle | server/index.js:292 | as many code units as the title has in UTF-16, only ASCII letters, digits and `_` |
| Naming.SafeTitleInPlace | server/index.js:348 | for a title within the Basic Multilingual Plane: same length, letters and digits in place, `_` everywhere else |
| Naming.SafeTitleAppend | server/index.js:348 | the replacement works character by character: the safe title of `a + b` is the safe titles joined |
| Naming.SafeTitleOfEmoji | server/index.js:348 | `a` followed by an emoji becomes `a__`: the regex has no `u` flag and sees the surrogate pair as two units |
| Naming.SafeTitleIdempotent | server/index.js:348 | the safe title of a safe title is itself |
| Naming.SafeTitleKeepsSafe | server/index.js:348 | a title of letters, digits and `_` is kept unchanged |
| Naming.SanitizeFilename | supabase/functions/youtube-extractor/index.ts:438-440 | at most 50 characters, only `[A-Za-z0-9_.-]`, no white space |
| Naming.SanitizeKeepsClean | supabase/functions/youtube-extractor/index.ts:438-440 | a name of at most 50 file characters is its own sanitized form |
| Naming.SanitizeIdempotent | supabase/functions/youtube-extractor/index.ts:438-440 | sanitizing twice equals sanitizing once |
| Naming.KeepAllowedOne | supabase/functions/youtube-extractor/index.ts:439 | a single character survives the first replacement exactly when it is in `[\w\-_\.\s]` |
| Naming.KeepAllowedAppend | supabase/functions/youtube-extractor/index.ts:439 | the first replacement works character by character: the result for `a + b` is the results joined, so every allowed character is kept, in order |
| Naming.SanitizeSpace | supabase/functions/youtube-extractor/index.ts:438-440 | `a b` is sanitized to `a_b` |
| Formats.Distinct | server/index.js:82 | `[...new Set(xs)]`: no duplicates, the same members as `xs`, in first-occurrence order |
| Formats.Qualities | server/index.js:195 | the reported qualities are exactly the present non-empty labels, each once, in the order of each label's first format |
| Formats.LabelsOrder | server/index.js:195 | labels whose first occurrences come in one order among the labels come in the same order among the formats |
| Formats.SelectFormat | server/index.js:277-289 | the first format whose label equals a non-empty requested quality; else the first format; none exactly when the list is empty |
| Formats.SelectedHasRequestedLabel | server/index.js:278-280 | when some format carries the requested label, the chosen one carries it |
| ServerInfo.ExpandPlaylist | server/index.js:77-110 | the loop pushes exactly one entry per member, in order, and calls `getInfo` once per member |
| ServerInfo.OneEntryPerMember | server/index.js:95-108 | a failed member becomes the placeholder: qualities `720p,480p,360p`, its title or `Video (unavailable)`, a thumbnail keyed by its id or `dQw4w9WgXcQ` |
| ServerInfo.PlaylistFallback | server/index.js:551-586 | the fallback playlist carries the extracted id and counts its two videos |
| ServerInfo.PageTitle | server/index.js:516-517 | `Unknown Title` when the page has no title element; otherwise the text of the first match with its first ` - YouTube` removed |
| ServerInfo.PageTitleOfWatchPage | server/index.js:516-517 | for a page whose first tag is `<title>name - YouTube</title>`, the title is `name`, for any name without `<` that does not itself contain ` - YouTube` |
| ServerInfo.PlaylistInfo | server/index.js:71-156 | a fetched playlist answers one entry per member (EntriesFor) under its id and count, after one `getInfo` per member; a failure answers the fallback playlist under the extracted id, or the 500 when no id can be extracted |
| ServerInfo.VideoInfo | server/index.js:157-214 | a fetched video answers its EntryOf record; a failure with an extractable id requests the watch page and answers its record or the 500; without an id, the 500 and no page request |
| ServerInfo.Info | server/index.js:44-69 | a missing URL and an invalid URL give their 400s; a 400 happens exactly when no upstream call is made |
| ServerInfo.PlaylistMarkerDecides | server/index.js:69-71 | a valid URL containing `playlist?list=` is fetched as a playlist first and never answered as a video list, and vice versa |
| ServerInfo.VideoDispatch | server/index.js:157 | a valid URL without the marker goes to the video branch |
| ServerInfo.PlaylistCountsMembers | server/index.js:112-120 | a fetched playlist lists exactly the members' entries and counts them, fetched in order after the playlist |
| ServerInfo.WatchWithListIsVideo | server/index.js:69-71 | a `watch?v=...&list=...` URL is fetched as a single video |
| ServerInfo.NoIdNoFallback | server/index.js:160-189 | when ytdl-core fails and no id can be extracted, no page fallback is tried |
| ServerInfo.BareShortLinkHasNoFallback | server/index.js:160-189 | for `https://youtu.be/` a ytdl-core failure is a 500 with no page request |
| ServerInfo.DownloadLink | server/index.js:226-311 | a missing video id gives `Video ID is required`; every error of the endpoint is a 400 |
| ServerInfo.DownloadLinkWithId | server/index.js:234-272 | with an id, the fallback link when ytdl-core fails, else the selected format's link |
| ServerInfo.DownloadLinkNeverInvalid | server/index.js:236-243 | the `Invalid YouTube URL` reply of the download endpoint cannot happen |
| ServerInfo.NoFormatOnlyWhenEmpty | server/index.js:283-289 | `No suitable format found` exactly when there are no formats |
| ServerInfo.LinkIsListedFormat | server/index.js:294-302 | the link's URL and size are those of one of the listed formats |
| ServerInfo.LinkHonoursQuality | server/index.js:277-302 | when a format carries the requested label, the link has that label and is named `safeTitle_quality.mp4` |
| ServerInfo.FallbackLinkShape | server/index.js:259-271 | the synthesised link is 25 MiB, under the requested quality, named `youtube_video_<id>_...mp4` |
| Downloads.Plan | server/index.js:314-385 | without a video id, no event and a 400; with one, `VIDEO_STARTED` with the title (or `Video`) comes first |
| Downloads.ByNewest | server/index.js:403 | the names, each exactly once, ordered newest first |
| Downloads.DownloadsDir.constructor | server/index.js:23-27 | the directory starts with the given files and an empty event log |
| Downloads.DownloadsDir.DownloadFile | server/index.js:314-385 | appends the plan's events to the log, stores the (complete or partial) file the plan writes, returns the plan's reply |
| Downloads.DownloadsDir.Save | server/index.js:354-372 | the bytes that reached the disk stay under the file name; `finish` adds `VIDEO_DOWNLOADED` and replies with the file name, a write error adds `VIDEO_ERROR` and replies 500, a source failure adds nothing and sends no reply |
| Downloads.DownloadsDir.List | server/index.js:388-410 | one row per `.mp4` file and no other, each row the file's name, title, size and birth time, newest first |
| Downloads.DownloadsDir.Serve | server/index.js:413-427 | the file with its size, or not found exactly when it is absent |
| Downloads.DownloadsDir.Delete | server/index.js:430-445 | a present file is removed and reported deleted; an absent one gives not found and nothing changes; the event log is untouched |
| Downloads.StartedThenOneTerminal | server/index.js:325-376 | `VIDEO_STARTED` first, then exactly one terminal event, except when the source stream fails, which leaves no terminal event and no reply |
| Downloads.CompletedIffDownloaded | server/index.js:353-365 | the download completes exactly when `VIDEO_DOWNLOADED` is the last event, and then the whole file is stored |
| Downloads.EarlyFailuresWriteNothing | server/index.js:327-378 | an info failure or an empty format list writes no file and ends with `VIDEO_ERROR` |
| Downloads.PartialFileKept | server/index.js:367-372 | a failing write keeps the bytes it wrote under the download's name |
| Downloads.FinishedDownloadIsListed | server/index.js:349-365 | a finished download is stored under a `.mp4` name whose listed title is the name without the extension |
| Apify.Select | supabase/functions/youtube-extractor/index.ts:204-266 | (with the lemmas below) the item's `downloadUrl` first, then the best `videoFiles` match, then `videoUrl` |
| Apify.SelectDownload | supabase/functions/youtube-extractor/index.ts:204-266 | the two loops with `break` compute exactly the selection `Select` specifies |
| Apify.Finish | supabase/functions/youtube-extractor/index.ts:268-286 | an error iff no URL was found or it does not start with `http`; otherwise the URL, the size and the name `sanitizeFilename(title)_format.mp4` |
| Apify.DirectUrlFirst | supabase/functions/youtube-extractor/index.ts:210-215 | a present `downloadUrl` is taken with the item's format or the quality, and nothing else is consulted |
| Apify.SelectSources | supabase/functions/youtube-extractor/index.ts:209-265 | the item's own `downloadUrl` with its format and size; else the best match's url with `quality \|\| requested` and `contentLength \|\| 0`; else `videoUrl` with the requested quality and the best match's size; else no URL |
| Apify.QualityMatchWithoutUrl | supabase/functions/youtube-extractor/index.ts:228-235 | a quality match without a URL still stops the search: the ladder is skipped |
| Apify.LadderPick | supabase/functions/youtube-extractor/index.ts:237-249 | the ladder's pick has a URL and contains its rung, it is the first such file for that rung, and no file with a URL matches a better rung |
| Apify.ExactQualityWins | supabase/functions/youtube-extractor/index.ts:223-235 | when some file's quality contains the requested number, the pick is the first such file |
| Apify.FallbackCall | supabase/functions/youtube-extractor/index.ts:374-423 | one fallback call; success iff its reply is ok, named `sanitizeFilename(title).mp4` |
| Apify.Retried | supabase/functions/youtube-extractor/index.ts:159-187 | a hand-off inside a `try` whose `catch` hands off again repeats the calls exactly when the first attempt failed, with the same reply each time |
| Apify.AltUrl | supabase/functions/youtube-extractor/index.ts:343-352 | the first file's `url`, else its `downloadUrl`; only without files the item's `downloadUrl`, else its `url`, else none |
| Apify.AlternativeCall | supabase/functions/youtube-extractor/index.ts:294-371 | an item with a URL answers that URL, `sanitizeFilename(title).mp4` and the size from `fileSize`, else `contentLength`, else 0 with no other call; a throw reaches the fallback once; a non-ok reply, no data or no URL reach it inside the `try`, so a failing fallback is called twice |
| Apify.AfterPrimary | supabase/functions/youtube-extractor/index.ts:153-198 | a thrown or non-JSON reply surfaces its own message; an item goes to the selection's checks; no data or a non-ok reply go to the alternative, twice over for a JSON 400 or 500 |
| Apify.PrimaryCall | supabase/functions/youtube-extractor/index.ts:115-292 | no actor is called iff the key is missing, with the configuration error; otherwise the primary goes first and the result and later calls are those AfterPrimary states for its reply; a success is named after the sanitized title |
| Apify.FallbackGivesWatchUrl | supabase/functions/youtube-extractor/index.ts:411-417 | the fallback answers with the watch URL, size 0, flagged as not a direct download |
| Apify.AlternativeFailsWithFallback | supabase/functions/youtube-extractor/index.ts:324-371 | the alternative fails only with the fallback's error, and never when the fallback succeeds |
| Apify.PrimaryErrorMessageIsLost | supabase/functions/youtube-extractor/index.ts:159-187 | the message built from a JSON error body never surfaces: such a reply is handled like an unparseable one |
| Apify.DoubleRetryTrace | supabase/functions/youtube-extractor/index.ts:164-187 | a JSON 400/500 with every other actor failing calls the alternative twice and the fallback four times |
| Apify.ItemDecides | supabase/functions/youtube-extractor/index.ts:190-286 | a dataset item is never handed to another actor: the selection's checks decide |
| Apify.ChainFilename | supabase/functions/youtube-extractor/index.ts:280-286 | every successful chain names its file after the sanitized title and ends it in `.mp4` |
| Extractor.Handle | supabase/functions/youtube-extractor/index.ts:33-113 | preflight iff OPTIONS; a missing `videoId` or `quality`, then a missing YouTube key, are 400s before any upstream call; a Data API failure is a 500 after the one Data API call, with `YouTube API error: YouTube API error: <status>` (the prefix twice), `YouTube API error: <message>` or `YouTube API error: Video not found`; a found video goes to Extracted with the first item |
| Extractor.Extracted | supabase/functions/youtube-extractor/index.ts:74-102 | the Data API is called first, then the chain's actors; a success iff the chain succeeds, with its URL, file name and size, the item's title, the parsed duration and `mp4`; a failure is the 500 `Video extraction failed: ` and the chain's message |
| Extractor.DataApiFirst | supabase/functions/youtube-extractor/index.ts:59-82 | the Data API is asked once, before any actor, and only its first item is used |
| Extractor.NoApifyKey | supabase/functions/youtube-extractor/index.ts:116-119 | without an Apify key the video is looked up, then the extraction fails with no actor called |
| Extractor.FallbackReachesClient | supabase/functions/youtube-extractor/index.ts:84-98 | a fallback success reaches the client as the watch URL with size 0 and format `mp4` |
| Processor.Thumbnail | supabase/functions/youtube-processor/index.ts:154 | maxres if present, else high, else default |
| Processor.VideoInfoShape | supabase/functions/youtube-processor/index.ts:151-160 | every record has the four qualities, the parsed duration, and an upload date that is a `T`-free prefix of `publishedAt` |
| Processor.UploadDateOfTimestamp | supabase/functions/youtube-processor/index.ts:159 | a timestamp `dateTtime` gives `date` |
| Processor.Records | supabase/functions/youtube-processor/index.ts:216-228 | one record per item, in order |
| Processor.PushAll | supabase/functions/youtube-processor/index.ts:216-228 | the `forEach` push appends the items' records in order |
| Processor.PagesFetchedBounds | supabase/functions/youtube-processor/index.ts:193-234 | between one and ten pages are requested, whatever the replies |
| Processor.TenPagesAtMost | supabase/functions/youtube-processor/index.ts:195-234 | with every page continuing, exactly ten pages are requested |
| Processor.StopsWithoutToken | supabase/functions/youtube-processor/index.ts:232-234 | a page without a next token is the last one requested |
| Processor.FailedBatchAddsNothing | supabase/functions/youtube-processor/index.ts:212-229 | a page whose batch request is not ok adds no record and the walk goes on |
| Processor.AddPage | supabase/functions/youtube-processor/index.ts:207-230 | one iteration appends exactly the page's records, or reports the batch request's error |
| Processor.WalkPages | supabase/functions/youtube-processor/index.ts:192-234 | the `do...while` loop collects exactly the records the page walk specifies and counts exactly the pages it fetches, or ends with the walk's error |
| Processor.ProcessSingleVideo | supabase/functions/youtube-processor/index.ts:135-168 | a success iff the API lists an item, holding exactly the record MakeVideoInfo builds from the first and no playlist; `Video not found` for none; the HTTP status or the thrown message otherwise |
| Processor.ProcessPlaylist | supabase/functions/youtube-processor/index.ts:170-252 | a success iff the playlist is listed and the walk succeeds; its records are exactly what Collect gathers, under the requested id and counted; `Playlist not found` for none; otherwise the error of the lookup or the walk |
| Processor.Handle | supabase/functions/youtube-processor/index.ts:51-121 | preflight iff OPTIONS; an unparseable body is the only non-400 error (500 `Internal server error`); a missing URL and a missing key are 400s; a result is a success |
| Processor.Reply | supabase/functions/youtube-processor/index.ts:94-110 | a successful result is sent as is; a failed one is a 400 with its message, or `Processing failed` when that is empty |
| Processor.PlaylistOverVideo | supabase/functions/youtube-processor/index.ts:71-110 | a playlist id wins over a video id and the reply is Reply of ProcessPlaylist; a video id alone gives Reply of ProcessSingleVideo; neither gives `Invalid YouTube URL` |
| Processor.WatchWithListProcessedAsPlaylist | supabase/functions/youtube-processor/index.ts:71-92 | a `watch?v=...&list=...` URL is processed as the playlist |

## Left out

- External services are inputs, not models. This covers ytdl-core (`getInfo`, `getPlaylistInfo`, the
  stream), `fetch` to the Data API and to Apify, the HTTPS page request, Socket.io and the file system.
  `filterFormats(..., 'videoandaudio')` is assumed applied: the formats passed in are the filtered ones.
- `Date.now()` is a parameter. The download-link fallback takes two readings, because the source calls
  it twice.
- Network timeouts, async sequencing and concurrent requests are not modelled. Nor is the order in which
  two requests interleave on the downloads directory.
- The outer `catch` blocks that answer 500 on an unexpected throw are not modelled. Such throws come from
  a missing `snippet`, `thumbnails` or `contentDetails` field, or a non-string URL in the JSON body. The
  model assumes every field the code dereferences is present.
- `processYouTubeUrl` and `generateDownloadLink` of the browser service are not modelled: they forward
  one edge-function call. Their mock branches are also left out, because `USE_REAL_API` is `true`.
- `path.join` with a `..` in a file name is not modelled: file names are plain keys of the directory map.
- Text handling is simplified in three ways. Strings are sequences of Unicode scalar values with no
  normalisation; only the safe title counts UTF-16 code units, where the difference shows. `parseInt` of view counts reads the leading decimal digits only (no sign, no leading
  white space, no `0x`). JSON serialisation of the replies is left out.
- Logging is not modelled, and neither are the CORS headers or response headers.
- Downloads.DownloadsDir.List: ties in birth time are ordered arbitrarily. The source keeps the order in
  which `readdirSync` returns names, and the file system order is not modelled.
- Downloads.DownloadsDir.DownloadFile: a synchronous throw from `ytdl(url, ...)` at stream creation is
  not modelled. The code would answer it like a `getInfo` failure (`VIDEO_ERROR`, then a 500).
- Downloads.Plan: a source-stream failure is modelled as leaving the partial file, no terminal event and
  no reply, because `pipe` does not forward the source's error. The source stream has no `error`
  listener, so the error is thrown outside any `try` and ends the server process. The model does not
  capture that end: `DownloadsDir` keeps serving requests after it.
- Apify.Retried: each actor is given one reply, and a repeated call is assumed to get the same reply as
  the first. In the code the `catch` makes a fresh request whose reply may differ (a fallback that times
  out once and then answers succeeds after `[Alternative, Fallback, Fallback]`); the model has no such path.
- Apify.PrimaryCall: the primary actor's item is taken as already parsed into its fields. A dataset that
  is a bare object rather than an array, and an item whose fields have the wrong JSON types, are not
  distinguished.
- Processor.Collect: the page replies are a function from the page index to the reply. The page token
  the code sends with each request is therefore not tracked.
- ServerInfo.PageTitle: the HTML is scanned as plain text. Case-insensitive tags and entity decoding are
  not modelled, and the source does neither.
