/**
 * The server's downloads directory and its event log: `POST
 * /api/youtube/download-file` (announce, fetch the info, pick a format, write
 * the file, announce the end), the listing, serving and deleting of files.
 */
module Downloads {
  import opened Wrappers
  import opened Text
  import opened Formats
  import Naming
  import ServerInfo

  /** What `fs.statSync` reports of a file: its size and its birth time. */
  datatype FileStat = FileStat(size: nat, createdAt: nat)

  /** The socket events the download emits. */
  datatype Event = VideoStarted(title: string) | VideoDownloaded(safeTitle: string) | VideoError(message: string)

  predicate IsTerminal(e: Event) {
    e.VideoDownloaded? || e.VideoError?
  }

  /**
   * How piping ytdl's stream into the file ends: the file is complete; the
   * write stream fails (after creating the file with `written` bytes, or
   * before creating it); or the source fails with `partial` bytes on disk.
   * `pipe` does not forward a source failure to the write stream, and the
   * source stream has no `error` listener of its own, so the failure is
   * thrown outside any `try` and ends the server process.
   */
  datatype StreamOutcome =
    | Finished(size: nat)
    | WriteFailed(message: string, written: Option<nat>)
    | SourceFailed(partial: nat)

  /** The reply of the download-file endpoint; `NoReply` when the request is left hanging. */
  datatype DownloadReply = Failed(status: nat, error: string) | Completed(filename: string) | NoReply

  /** Everything one download does: the events it emits, the file it leaves and its reply. */
  datatype DownloadPlan = DownloadPlan(events: seq<Event>, written: Option<(string, FileStat)>, reply: DownloadReply)

  /** The file name: safe title, quality (or the format's label), the clock reading, `.mp4`. */
  function DownloadName(safeTitle: string, quality: Option<string>, f: Format, now: nat): string {
    safeTitle + "_" + OrElse(quality, LabelText(f.qualityLabel)) + "_" + Decimal(now) + ".mp4"
  }

  /** The bytes on disk once the stream has ended, if the file was created. */
  function BytesOnDisk(stream: StreamOutcome): Option<nat> {
    match stream
    case Finished(size) => Some(size)
    case WriteFailed(_, written) => written
    case SourceFailed(partial) => Some(partial)
  }

  /** The file a download leaves under `filename`, if any byte reached the disk. */
  function Written(stream: StreamOutcome, filename: string, now: nat): Option<(string, FileStat)> {
    match BytesOnDisk(stream)
    case None => None
    case Some(n) => Some((filename, FileStat(n, now)))
  }

  /** What the stream's end adds to the log after `VIDEO_STARTED`, and the reply. */
  function StreamEnd(stream: StreamOutcome, safeTitle: string, filename: string): (seq<Event>, DownloadReply) {
    match stream
    case Finished(_) => ([VideoDownloaded(safeTitle)], Completed(filename))
    case WriteFailed(message, _) => ([VideoError(message)], Failed(500, "Download failed"))
    case SourceFailed(_) => ([], NoReply)
  }

  /**
   * The download-file endpoint as a specification: `now` is `Date.now()`,
   * which is also the file's birth time.
   */
  function Plan(videoId: Option<string>, quality: Option<string>, title: Option<string>,
                info: ServerInfo.InfoReply, now: nat, stream: StreamOutcome): (p: DownloadPlan)
    ensures !Truthy(videoId) <==> p.events == []
    ensures !Truthy(videoId) ==> p == DownloadPlan([], None, Failed(400, "Video ID is required"))
    ensures Truthy(videoId) ==> p.events[0] == VideoStarted(OrElse(title, "Video"))
  {
    if !Truthy(videoId) then DownloadPlan([], None, Failed(400, "Video ID is required"))
    else
      var started := [VideoStarted(OrElse(title, "Video"))];
      match info
      case InfoFailed(message) => DownloadPlan(started + [VideoError(message)], None, Failed(500, "Failed to process video"))
      case InfoOk(details, formats) =>
        match SelectFormat(formats, quality)
        case None => DownloadPlan(started + [VideoError("No suitable format found")], None, Failed(400, "No suitable format found"))
        case Some(f) =>
          var safeTitle := Naming.SafeTitle(OrElse(title, details.title));
          var filename := DownloadName(safeTitle, quality, f, now);
          var (tail, reply) := StreamEnd(stream, safeTitle, filename);
          DownloadPlan(started + tail, Written(stream, filename, now), reply)
  }

  /** The directory after a file is (over)written. */
  function Store(files: map<string, FileStat>, written: Option<(string, FileStat)>): map<string, FileStat> {
    match written
    case None => files
    case Some((name, stat)) => files[name := stat]
  }

  /** One row of the listing. */
  datatype Download = Download(id: string, title: string, filename: string, size: nat, createdAt: nat)

  /** The row for a file: its name, the name with the first `.mp4` removed, its size and birth time. */
  function Listed(name: string, stat: FileStat): Download {
    Download(name, ReplaceFirst(name, ".mp4", ""), name, stat.size, stat.createdAt)
  }

  /** The replies of the file endpoints. */
  datatype FileReply = FileNotFound | FileSent(filename: string, size: nat) | FileDeleted

  lemma {:induction false} LatestExists(names: set<string>, files: map<string, FileStat>)
    requires names != {} && names <= files.Keys
    ensures exists n :: n in names && forall m :: m in names ==> files[m].createdAt <= files[n].createdAt
    decreases |names|
  {
    var x :| x in names;
    var rest := names - {x};
    if rest != {} {
      LatestExists(rest, files);
      var n :| n in rest && forall m :: m in rest ==> files[m].createdAt <= files[n].createdAt;
      if files[x].createdAt > files[n].createdAt {
        assert forall m :: m in names ==> files[m].createdAt <= files[x].createdAt;
      } else {
        assert forall m :: m in names ==> files[m].createdAt <= files[n].createdAt;
      }
    } else {
      assert names == {x};
    }
  }

  /** The names of `names`, each once, newest first (ties in whatever order the directory is read). */
  method ByNewest(dir: map<string, FileStat>, names: set<string>) returns (order: seq<string>)
    requires names <= dir.Keys
    ensures forall i :: 0 <= i < |order| ==> order[i] in names
    ensures forall name :: name in names ==> name in order
    ensures forall i, j :: 0 <= i < j < |order| ==> order[i] != order[j]
    ensures forall i, j :: 0 <= i < j < |order| ==> dir[order[i]].createdAt >= dir[order[j]].createdAt
  {
    var rest := names;
    order := [];
    while rest != {}
      invariant rest <= names
      invariant forall i :: 0 <= i < |order| ==> order[i] in names && order[i] !in rest
      invariant forall name :: name in names && name !in rest ==> name in order
      invariant forall i, j :: 0 <= i < j < |order| ==> order[i] != order[j]
      invariant forall i, j :: 0 <= i < j < |order| ==> dir[order[i]].createdAt >= dir[order[j]].createdAt
      invariant forall i, m :: 0 <= i < |order| && m in rest ==> dir[order[i]].createdAt >= dir[m].createdAt
      decreases |rest|
    {
      LatestExists(rest, dir);
      var name :| name in rest && forall m :: m in rest ==> dir[m].createdAt <= dir[name].createdAt;
      order := order + [name];
      rest := rest - {name};
    }
  }

  /** The `downloads` directory and the events emitted to the connected clients. */
  class DownloadsDir {
    var files: map<string, FileStat>
    var events: seq<Event>

    constructor(files: map<string, FileStat>)
      ensures this.files == files && events == []
    {
      this.files := files;
      events := [];
    }

    /**
     * `POST /api/youtube/download-file`: the events are appended to the log,
     * the file (complete or partial) is left in the directory, and the reply
     * is the one the plan gives.
     */
    method DownloadFile(videoId: Option<string>, quality: Option<string>, title: Option<string>,
                        info: ServerInfo.InfoReply, now: nat, stream: StreamOutcome) returns (r: DownloadReply)
      modifies this
      ensures var p := Plan(videoId, quality, title, info, now, stream);
              && events == old(events) + p.events
              && files == Store(old(files), p.written)
              && r == p.reply
    {
      if !Truthy(videoId) {
        return Failed(400, "Video ID is required");
      }
      events := events + [VideoStarted(OrElse(title, "Video"))];
      match info {
        case InfoFailed(message) =>
          events := events + [VideoError(message)];
          return Failed(500, "Failed to process video");
        case InfoOk(details, formats) =>
          var selected := SelectFormat(formats, quality);
          if selected.None? {
            events := events + [VideoError("No suitable format found")];
            return Failed(400, "No suitable format found");
          }
          var safeTitle := Naming.SafeTitle(OrElse(title, details.title));
          var filename := DownloadName(safeTitle, quality, selected.value, now);
          r := Save(filename, safeTitle, now, stream);
      }
    }

    /**
     * The piped write of one download: whatever reached the disk stays under
     * `filename`, and the stream's end adds its event and gives the reply.
     */
    method Save(filename: string, safeTitle: string, now: nat, stream: StreamOutcome) returns (r: DownloadReply)
      modifies this
      ensures events == old(events) + StreamEnd(stream, safeTitle, filename).0
      ensures files == Store(old(files), Written(stream, filename, now))
      ensures r == StreamEnd(stream, safeTitle, filename).1
    {
      match stream {
        case Finished(size) =>
          files := files[filename := FileStat(size, now)];
          events := events + [VideoDownloaded(safeTitle)];
          r := Completed(filename);
        case WriteFailed(message, written) =>
          if written.Some? {
            files := files[filename := FileStat(written.value, now)];
          }
          events := events + [VideoError(message)];
          r := Failed(500, "Download failed");
        case SourceFailed(partial) =>
          files := files[filename := FileStat(partial, now)];
          r := NoReply;
      }
    }

    /**
     * `GET /api/downloads`: one row per `.mp4` file of the directory and no
     * other, newest first.
     */
    method List() returns (r: seq<Download>)
      ensures forall i :: 0 <= i < |r| ==> r[i].filename in files && EndsWith(r[i].filename, ".mp4")
                                           && r[i] == Listed(r[i].filename, files[r[i].filename])
      ensures forall name :: name in files && EndsWith(name, ".mp4") ==> exists i :: 0 <= i < |r| && r[i].filename == name
      ensures forall i, j :: 0 <= i < j < |r| ==> r[i].filename != r[j].filename
      ensures forall i, j :: 0 <= i < j < |r| ==> r[i].createdAt >= r[j].createdAt
    {
      var videos := set name | name in files && EndsWith(name, ".mp4");
      var dir := files;
      var names := ByNewest(dir, videos);
      r := seq(|names|, i requires 0 <= i < |names| && names[i] in dir => Listed(names[i], dir[names[i]]));
      forall name | name in files && EndsWith(name, ".mp4") ensures exists i :: 0 <= i < |r| && r[i].filename == name {
        assert name in videos;
        var i :| 0 <= i < |names| && names[i] == name;
        assert r[i].filename == name;
      }
    }

    /** `GET /api/downloads/:filename/download`: the file, or 404 when it is absent. */
    function Serve(name: string): (r: FileReply)
      reads this
      ensures r == FileNotFound <==> name !in files
      ensures r != FileNotFound ==> r == FileSent(name, files[name].size)
    {
      if name in files then FileSent(name, files[name].size) else FileNotFound
    }

    /** `DELETE /api/downloads/:filename`: removes the file when present, else 404 and nothing changes. */
    method Delete(name: string) returns (r: FileReply)
      modifies this
      ensures name in old(files) ==> r == FileDeleted && files == old(files) - {name}
      ensures name !in old(files) ==> r == FileNotFound && files == old(files)
      ensures events == old(events)
    {
      if name !in files {
        return FileNotFound;
      }
      files := files - {name};
      r := FileDeleted;
    }
  }

  /**
   * With a video id, `VIDEO_STARTED` comes first and is followed by exactly
   * one terminal event, unless the source stream fails: `pipe` does not
   * forward that failure, so no terminal event follows and no reply is sent
   * before the uncaught error ends the process.
   */
  lemma StartedThenOneTerminal(videoId: Option<string>, quality: Option<string>, title: Option<string>,
                               info: ServerInfo.InfoReply, now: nat, stream: StreamOutcome)
    requires Truthy(videoId)
    ensures var p := Plan(videoId, quality, title, info, now, stream);
            && p.events[0] == VideoStarted(OrElse(title, "Video"))
            && (p.reply == NoReply <==> |p.events| == 1)
            && (p.reply != NoReply ==> |p.events| == 2 && IsTerminal(p.events[1]))
            && (p.reply == NoReply ==> stream.SourceFailed?)
  {
  }

  /** The download completes exactly when `VIDEO_DOWNLOADED` is emitted, and then the file is whole. */
  lemma CompletedIffDownloaded(videoId: Option<string>, quality: Option<string>, title: Option<string>,
                               info: ServerInfo.InfoReply, now: nat, stream: StreamOutcome)
    requires Truthy(videoId)
    ensures var p := Plan(videoId, quality, title, info, now, stream);
            && (p.reply.Completed? <==> p.events[|p.events| - 1].VideoDownloaded?)
            && (p.reply.Completed? ==> stream.Finished? && p.written == Some((p.reply.filename, FileStat(stream.size, now))))
  {
  }

  /** Failures before the write leave the directory alone and report the error as the terminal event. */
  lemma EarlyFailuresWriteNothing(videoId: Option<string>, quality: Option<string>, title: Option<string>,
                                  info: ServerInfo.InfoReply, now: nat, stream: StreamOutcome)
    requires Truthy(videoId)
    requires info.InfoFailed? || |info.formats| == 0
    ensures var p := Plan(videoId, quality, title, info, now, stream);
            && p.written == None
            && p.events[1] == VideoError(if info.InfoFailed? then info.message else "No suitable format found")
            && p.reply == (if info.InfoFailed? then Failed(500, "Failed to process video") else Failed(400, "No suitable format found"))
  {
  }

  /** A failing write stream keeps whatever it wrote: no cleanup removes the partial file. */
  lemma PartialFileKept(videoId: Option<string>, quality: Option<string>, title: Option<string>,
                        details: ServerInfo.VideoDetails, formats: seq<Format>, now: nat, message: string, n: nat)
    requires Truthy(videoId) && |formats| > 0
    ensures var p := Plan(videoId, quality, title, ServerInfo.InfoOk(details, formats), now, WriteFailed(message, Some(n)));
            var f := SelectFormat(formats, quality).value;
            var name := DownloadName(Naming.SafeTitle(OrElse(title, details.title)), quality, f, now);
            && p.written == Some((name, FileStat(n, now)))
            && p.events == [VideoStarted(OrElse(title, "Video")), VideoError(message)]
            && p.reply == Failed(500, "Download failed")
  {
  }

  /** The name of a download, up to its extension, has no `.` when the quality text has none. */
  lemma DownloadStemHasNoDot(safeTitle: string, quality: Option<string>, f: Format, now: nat)
    requires Naming.SafeChars(safeTitle) && '.' !in OrElse(quality, LabelText(f.qualityLabel))
    ensures var name := DownloadName(safeTitle, quality, f, now);
            EndsWith(name, ".mp4") && '.' !in name[..|name| - 4]
  {
    var q := OrElse(quality, LabelText(f.qualityLabel));
    var d := Decimal(now);
    var stem := safeTitle + "_" + q + "_" + d;
    var name := DownloadName(safeTitle, quality, f, now);
    assert name == stem + ".mp4";
    assert name[..|name| - 4] == stem;
    assert name[|name| - 4..] == ".mp4";
    forall i | 0 <= i < |stem| ensures stem[i] != '.' {
      if i < |safeTitle| {
        assert stem[i] == safeTitle[i];
      } else if i == |safeTitle| {
      } else if i < |safeTitle| + 1 + |q| {
        assert stem[i] == q[i - |safeTitle| - 1];
      } else if i == |safeTitle| + 1 + |q| {
      } else {
        assert stem[i] == d[i - |safeTitle| - 2 - |q|];
      }
    }
  }

  /** A name that is a dot-free stem plus `.mp4` is listed under its stem. */
  lemma {:induction false} ListedTitleIsStem(stem: string)
    requires '.' !in stem
    ensures ReplaceFirst(stem + ".mp4", ".mp4", "") == stem
  {
    var t := stem + ".mp4";
    assert HasAt(t, |stem|, ".mp4");
    var k :| 0 <= k <= |t| && HasAt(t, k, ".mp4") && ReplaceFirst(t, ".mp4", "") == t[..k] + "" + t[k + 4..];
    HasAtChar(t, k, ".mp4", 0);
    assert forall i :: 0 <= i < |stem| ==> t[i] == stem[i];
    assert k == |stem|;
    assert t[..k] == stem;
  }

  /**
   * A finished download is in the directory under a `.mp4` name, so the
   * listing shows it; with a dot-free quality its title is the name without
   * the extension.
   */
  lemma FinishedDownloadIsListed(files: map<string, FileStat>, videoId: Option<string>, quality: Option<string>,
                                 title: Option<string>, details: ServerInfo.VideoDetails, formats: seq<Format>,
                                 now: nat, size: nat)
    requires Truthy(videoId) && |formats| > 0
    requires '.' !in OrElse(quality, LabelText(SelectFormat(formats, quality).value.qualityLabel))
    ensures var p := Plan(videoId, quality, title, ServerInfo.InfoOk(details, formats), now, Finished(size));
            && p.reply.Completed?
            && var name := p.reply.filename;
               && name in Store(files, p.written) && Store(files, p.written)[name] == FileStat(size, now)
               && EndsWith(name, ".mp4")
               && Listed(name, FileStat(size, now)).title == name[..|name| - 4]
  {
    var f := SelectFormat(formats, quality).value;
    var safeTitle := Naming.SafeTitle(OrElse(title, details.title));
    var name := DownloadName(safeTitle, quality, f, now);
    DownloadStemHasNoDot(safeTitle, quality, f, now);
    var stem := name[..|name| - 4];
    assert name == stem + ".mp4";
    ListedTitleIsStem(stem);
  }
}
