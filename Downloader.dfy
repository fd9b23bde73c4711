/** `download_video`: the video URL is fetched with a Referer header equal to itself, the
    body is streamed chunk by chunk into the fixed file downloads/video.mp4, and a progress
    update follows every non-empty chunk when the declared length is positive. Every failure
    yields None. The directory, the file and the disk are one `Disk` value; the HTTP response
    is one `Http` value whose body is a sequence of chunks that may end in a broken stream. */
module Downloader {
  import opened Common

  const SaveDir: string := "downloads"
  /** `os.path.join(SAVE_DIR, "video.mp4")`. */
  const FilePath: string := SaveDir + "/video.mp4"

  /** The download directory: present, or missing and either creatable or not. */
  datatype DirState = DirPresent | DirMissing(creatable: bool)

  /** The file system as the download sees it: the directory, the current contents of
      downloads/video.mp4 (empty when there is none), whether opening it for writing fails,
      and the room left on the disk (None: unlimited). */
  datatype Disk = Disk(dir: DirState, file: seq<byte>, openFails: bool, free: Option<nat>)

  /** The `content-length` header: absent, an integer, or text `int()` rejects. */
  datatype ContentLength = NoLength | Length(n: int) | BadLength

  /** Whether iterating the body ends normally or raises after the chunks delivered. */
  datatype StreamEnd = Complete | Broken

  /** What `requests.get` gives: an exception before any response, or a response. */
  datatype Http =
    | Unreachable
    | Received(status: int, length: ContentLength, chunks: seq<seq<byte>>, end: StreamEnd)

  /** The result of the chunk loop: the bytes written since the file was opened, whether
      the loop ended without an exception, and the progress updates it sent. */
  datatype Written = Written(file: seq<byte>, ok: bool, events: seq<Event>)

  /** The result of `download_video`: the returned path, the new disk, and the effects. */
  datatype Saved = Saved(path: Option<string>, disk: Disk, events: seq<Event>)

  /** `raise_for_status` raises for client and server errors. */
  predicate RaisesForStatus(status: int)
  {
    400 <= status < 600
  }

  /** A file of `size` bytes fits on the disk. */
  predicate Fits(size: nat, free: Option<nat>)
  {
    free.None? || size <= free.value
  }

  /** `int(response.headers.get('content-length', 0))`, when it does not raise. */
  function TotalSize(length: ContentLength): int
    requires !length.BadLength?
  {
    if length.NoLength? then 0 else length.n
  }

  /** The failure line: app.py names the failure, vedio_spider.py has one generic line. */
  function Fail(v: Variant, line: LogLine): Event
  {
    if v == App then Log(line) else Log(DownloadFailed)
  }

  function Extend(evs: seq<Event>, w: Written): Written
  {
    Written(w.file, w.ok, evs + w.events)
  }

  /** The effects that close a successful download: the completion line, in app.py the
      size of the file on disk, and the final "100%". */
  function Done(v: Variant, size: nat): seq<Event>
  {
    [Log(DownloadDone(FilePath))] + AppLog(v, FinalSizeIs(size)) + [ProgressDone]
  }

  function PrependSaved(evs: seq<Event>, s: Saved): Saved
  {
    Saved(s.path, s.disk, evs + s.events)
  }

  /** The chunk loop from a file holding `file`: empty chunks are skipped; a chunk that does
      not fit on the disk makes `f.write` raise at once (the file's write buffer, which can
      defer that failure to a later write or to the close, is not modelled); after each
      written chunk a progress update is sent when `total > 0`. */
  function Stream(chunks: seq<seq<byte>>, end: StreamEnd, total: int, file: seq<byte>, free: Option<nat>): Written
    decreases |chunks|
  {
    if chunks == [] then Written(file, end == Complete, [])
    else if chunks[0] == [] then Stream(chunks[1..], end, total, file, free)
    else if !Fits(|file| + |chunks[0]|, free) then Written(file, false, [])
    else
      var grown := file + chunks[0];
      Extend(if total > 0 then [Progress(|grown|, total as nat)] else [], Stream(chunks[1..], end, total, grown, free))
  }

  /** The response handling, from `raise_for_status` on; `disk.dir` is present. */
  function Fetched(v: Variant, disk: Disk, http: Http): Saved
  {
    match http
    case Unreachable => Saved(None, disk, [Fail(v, RequestFailed)])
    case Received(status, length, chunks, end) =>
      if RaisesForStatus(status) then Saved(None, disk, [Fail(v, RequestFailed)])
      else
        var head := AppLog(v, RequestSucceeded(status)) + AppLog(v, PreparingWrite);
        if length.BadLength? then Saved(None, disk, head + [Fail(v, DownloadError)])
        else
          var total := TotalSize(length);
          var sized := head + AppLog(v, TotalSizeIs(total));
          if disk.openFails then Saved(None, disk, sized + [Fail(v, WriteFailed)])
          else
            var w := Stream(chunks, end, total, [], disk.free);
            var after := disk.(file := w.file);
            if w.ok then Saved(Some(FilePath), after, sized + w.events + Done(v, |w.file|))
            else Saved(None, after, sized + w.events + [Fail(v, WriteFailed)])
  }

  /** `download_video(url)`: the directory is created when missing, then the URL is
      requested once with itself as the Referer. */
  function Download(v: Variant, url: string, disk: Disk, http: Http): Saved
  {
    var check := AppLog(v, CheckingDir);
    if disk.dir == DirMissing(false) then Saved(None, disk, check + [Fail(v, DirCreateFailed)])
    else
      var made := if disk.dir.DirMissing? then AppLog(v, DirCreated) else [];
      var request := [Log(DownloadStarted(url))] + AppLog(v, SendingRequest) + [HttpGet(url, url)];
      PrependSaved(check + made + request, Fetched(v, disk.(dir := DirPresent), http))
  }

  /** The chunk loop of `download_video`, from the moment the file is opened (and so
      truncated): `downloaded` is `downloaded_size`. */
  method WriteBody(chunks: seq<seq<byte>>, end: StreamEnd, total: int, free: Option<nat>)
    returns (file: seq<byte>, downloaded: nat, ok: bool, events: seq<Event>)
    ensures downloaded == |file|
    ensures Written(file, ok, events) == Stream(chunks, end, total, [], free)
  {
    file := [];
    downloaded := 0;
    events := [];
    var rest := chunks;
    ghost var whole := Stream(chunks, end, total, [], free);  // what the loop must produce
    while rest != []
      invariant downloaded == |file|
      invariant whole == Extend(events, Stream(rest, end, total, file, free))
    {
      var chunk := rest[0];
      if chunk != [] {
        if !Fits(|file| + |chunk|, free) {
          WriteRaises(rest, end, total, file, free);
          assert events + [] == events;
          return file, downloaded, false, events;
        }
        // send_progress only when total_size > 0
        var update := if total > 0 then [Progress(|file| + |chunk|, total as nat)] else [];
        WriteChunk(rest, end, total, file, free);
        ExtendTwice(events, update, Stream(rest[1..], end, total, file + chunk, free));
        file := file + chunk;
        downloaded := downloaded + |chunk|;
        events := events + update;
      } else {
        SkipChunk(rest, end, total, file, free);
      }
      rest := rest[1..];
    }
    assert events + [] == events;
    ok := end == Complete;
  }

  lemma SkipChunk(rest: seq<seq<byte>>, end: StreamEnd, total: int, file: seq<byte>, free: Option<nat>)
    requires rest != [] && rest[0] == []
    ensures Stream(rest, end, total, file, free) == Stream(rest[1..], end, total, file, free)
  {
  }

  lemma WriteRaises(rest: seq<seq<byte>>, end: StreamEnd, total: int, file: seq<byte>, free: Option<nat>)
    requires rest != [] && rest[0] != [] && !Fits(|file| + |rest[0]|, free)
    ensures Stream(rest, end, total, file, free) == Written(file, false, [])
  {
  }

  lemma WriteChunk(rest: seq<seq<byte>>, end: StreamEnd, total: int, file: seq<byte>, free: Option<nat>)
    requires rest != [] && rest[0] != [] && Fits(|file| + |rest[0]|, free)
    ensures Stream(rest, end, total, file, free)
         == Extend(if total > 0 then [Progress(|file| + |rest[0]|, total as nat)] else [],
                   Stream(rest[1..], end, total, file + rest[0], free))
  {
  }

  lemma ExtendTwice(a: seq<Event>, b: seq<Event>, w: Written)
    ensures Extend(a, Extend(b, w)) == Extend(a + b, w)
  {
    assert a + (b + w.events) == a + b + w.events;
  }

  /** `download_video(url)`, step by step: each failure returns None at once. */
  method DownloadVideo(v: Variant, url: string, disk: Disk, http: Http)
    returns (path: Option<string>, after: Disk, events: seq<Event>)
    ensures Saved(path, after, events) == Download(v, url, disk, http)
  {
    var check := AppLog(v, CheckingDir);
    if disk.dir.DirMissing? && !disk.dir.creatable {
      return None, disk, check + [Fail(v, DirCreateFailed)];
    }
    var made := if disk.dir.DirMissing? then AppLog(v, DirCreated) else [];
    var request := [Log(DownloadStarted(url))] + AppLog(v, SendingRequest) + [HttpGet(url, url)];
    var rest;
    path, after, rest := HandleResponse(v, disk.(dir := DirPresent), http);
    events := check + made + request + rest;
  }

  /** Everything after `requests.get`: the status check, the length, the file. */
  method HandleResponse(v: Variant, disk: Disk, http: Http)
    returns (path: Option<string>, after: Disk, events: seq<Event>)
    ensures Saved(path, after, events) == Fetched(v, disk, http)
  {
    if http.Unreachable? || RaisesForStatus(http.status) {
      return None, disk, [Fail(v, RequestFailed)];
    }
    events := AppLog(v, RequestSucceeded(http.status)) + AppLog(v, PreparingWrite);
    if http.length.BadLength? {
      return None, disk, events + [Fail(v, DownloadError)];
    }
    var total := TotalSize(http.length);
    events := events + AppLog(v, TotalSizeIs(total));
    if disk.openFails {
      return None, disk, events + [Fail(v, WriteFailed)];
    }
    var file, downloaded, ok, progress := WriteBody(http.chunks, http.end, total, disk.free);
    after := disk.(file := file);
    events := events + progress;
    if ok {
      path := Some(FilePath);
      events := events + Done(v, downloaded);
    } else {
      path := None;
      events := events + [Fail(v, WriteFailed)];
    }
  }
}
