/** What the downloader's specification promises: the file holds the non-empty chunks in
    order, `downloaded_size` is its length, progress climbs with every chunk written and is
    only sent when the declared length is positive, the final "100%" comes exactly on
    success, and each kind of failure returns None with its own log line (app.py) or the
    generic one (vedio_spider.py). */
module DownloaderFacts {
  import opened Common
  import opened Downloader

  /** The body: all chunks, in order. */
  function Concat(chunks: seq<seq<byte>>): seq<byte>
    decreases |chunks|
  {
    if chunks == [] then [] else chunks[0] + Concat(chunks[1..])
  }

  /** The number of non-empty chunks. */
  function NonEmpty(chunks: seq<seq<byte>>): nat
    decreases |chunks|
  {
    if chunks == [] then 0 else (if chunks[0] == [] then 0 else 1) + NonEmpty(chunks[1..])
  }

  /** The loop ends without an exception exactly when the stream is complete and the whole
      body fits on the disk. */
  lemma {:induction false} StreamOk(chunks: seq<seq<byte>>, end: StreamEnd, total: int, file: seq<byte>, free: Option<nat>)
    requires Fits(|file|, free)
    ensures Stream(chunks, end, total, file, free).ok <==> end == Complete && Fits(|file| + |Concat(chunks)|, free)
    decreases |chunks|
  {
    if chunks != [] {
      var rest := Concat(chunks[1..]);
      assert |Concat(chunks)| == |chunks[0]| + |rest|;
      if chunks[0] == [] {
        StreamOk(chunks[1..], end, total, file, free);
      } else if Fits(|file| + |chunks[0]|, free) {
        StreamOk(chunks[1..], end, total, file + chunks[0], free);
      }
    }
  }

  /** The file only grows, is always a prefix of the body, and is the whole body exactly
      when the body fits; it never outgrows the disk. */
  lemma {:induction false} StreamFile(chunks: seq<seq<byte>>, end: StreamEnd, total: int, file: seq<byte>, free: Option<nat>)
    requires Fits(|file|, free)
    ensures var w := Stream(chunks, end, total, file, free);
      && file <= w.file && w.file <= file + Concat(chunks)
      && (w.file == file + Concat(chunks) <==> Fits(|file| + |Concat(chunks)|, free))
      && Fits(|w.file|, free)
    decreases |chunks|
  {
    if chunks == [] {
      assert file + [] == file;
    } else {
      var rest := Concat(chunks[1..]);
      assert Concat(chunks) == chunks[0] + rest;
      assert file + Concat(chunks) == file + chunks[0] + rest;
      if chunks[0] == [] {
        StreamFile(chunks[1..], end, total, file, free);
        assert file + chunks[0] == file;
      } else if !Fits(|file| + |chunks[0]|, free) {
        assert file <= file + Concat(chunks);
      } else {
        var grown := file + chunks[0];
        StreamFile(chunks[1..], end, total, grown, free);
        var w := Stream(chunks[1..], end, total, grown, free);
        assert file <= grown;
        PrefixTrans(file, grown, w.file);
      }
    }
  }

  lemma PrefixTrans(a: seq<byte>, b: seq<byte>, c: seq<byte>)
    requires a <= b && b <= c
    ensures a <= c
  {
    assert c[..|a|] == b[..|a|];
  }

  /** Progress updates from a file of `lo` bytes to one of `hi` bytes: each reports the
      declared total and strictly more bytes than the one before, the last one `hi`. */
  ghost predicate Climbing(evs: seq<Event>, total: nat, lo: nat, hi: nat)
    decreases |evs|
  {
    if evs == [] then lo == hi
    else evs[0].Progress? && evs[0].total == total && lo < evs[0].downloaded
         && Climbing(evs[1..], total, evs[0].downloaded, hi)
  }

  /** Progress is sent once per written chunk, only when `total > 0`, with the file's size
      after that chunk. */
  lemma {:induction false} StreamProgress(chunks: seq<seq<byte>>, end: StreamEnd, total: int, file: seq<byte>, free: Option<nat>)
    ensures var w := Stream(chunks, end, total, file, free);
      && (total <= 0 ==> w.events == [])
      && (total > 0 ==> Climbing(w.events, total as nat, |file|, |w.file|))
      && (total > 0 && Fits(|file| + |Concat(chunks)|, free) ==> |w.events| == NonEmpty(chunks))
    decreases |chunks|
  {
    if chunks != [] {
      var rest := Concat(chunks[1..]);
      assert |Concat(chunks)| == |chunks[0]| + |rest|;
      if chunks[0] == [] {
        StreamProgress(chunks[1..], end, total, file, free);
      } else if Fits(|file| + |chunks[0]|, free) {
        StreamProgress(chunks[1..], end, total, file + chunks[0], free);
      }
    }
  }

  /** The value of `downloaded_size` after each non-empty chunk, starting from `base`, as a
      reference: the running sums of the chunk lengths. */
  function Sizes(chunks: seq<seq<byte>>, base: nat): seq<nat>
    decreases |chunks|
  {
    if chunks == [] then []
    else if chunks[0] == [] then Sizes(chunks[1..], base)
    else [base + |chunks[0]|] + Sizes(chunks[1..], base + |chunks[0]|)
  }

  /** The updates `evs` report the running sizes `sizes` in order, each with the declared
      total, for every size that fits on the disk, and stop at the first size that does not. */
  ghost predicate Reports(evs: seq<Event>, sizes: seq<nat>, total: nat, free: Option<nat>)
  {
    && |evs| <= |sizes|
    && (forall i :: 0 <= i < |evs| ==> evs[i] == Progress(sizes[i], total) && Fits(sizes[i], free))
    && (|evs| < |sizes| ==> !Fits(sizes[|evs|], free))
  }

  /** Each progress update reports `downloaded_size` after its own chunk, up to the first
      chunk that does not fit on the disk. */
  lemma {:induction false} StreamReports(chunks: seq<seq<byte>>, end: StreamEnd, total: int, file: seq<byte>, free: Option<nat>)
    requires total > 0
    ensures Reports(Stream(chunks, end, total, file, free).events, Sizes(chunks, |file|), total as nat, free)
    decreases |chunks|
  {
    if chunks != [] {
      if chunks[0] == [] {
        StreamReports(chunks[1..], end, total, file, free);
      } else if Fits(|file| + |chunks[0]|, free) {
        var grown := file + chunks[0];
        StreamReports(chunks[1..], end, total, grown, free);
        ReportsCons(Stream(chunks[1..], end, total, grown, free).events, Sizes(chunks[1..], |grown|), |grown|, total as nat, free);
      }
    }
  }

  lemma ReportsCons(evs: seq<Event>, sizes: seq<nat>, size: nat, total: nat, free: Option<nat>)
    requires Reports(evs, sizes, total, free) && Fits(size, free)
    ensures Reports([Progress(size, total)] + evs, [size] + sizes, total, free)
  {
    var evs' := [Progress(size, total)] + evs;
    var sizes' := [size] + sizes;
    assert forall i :: 0 < i < |evs'| ==> evs'[i] == evs[i - 1] && sizes'[i] == sizes[i - 1];
    if |evs'| < |sizes'| {
      assert sizes'[|evs'|] == sizes[|evs|];
    }
  }

  /** The chunk loop sends nothing but progress updates. */
  lemma StreamEventsAreProgress(chunks: seq<seq<byte>>, end: StreamEnd, total: int, free: Option<nat>)
    ensures forall e :: e in Stream(chunks, end, total, [], free).events ==> e.Progress?
    ensures Quiet(Stream(chunks, end, total, [], free).events) == Stream(chunks, end, total, [], free).events
    ensures Filter(Stream(chunks, end, total, [], free).events, IsProgress) == Stream(chunks, end, total, [], free).events
  {
    var w := Stream(chunks, end, total, [], free);
    StreamProgress(chunks, end, total, [], free);
    if total > 0 {
      ClimbingOrdered(w.events, total as nat, 0, |w.file|);
    }
    FilterAll(w.events, IsEffect);
    FilterAll(w.events, IsProgress);
  }

  /** What `Climbing` means element by element. */
  lemma {:induction false} ClimbingOrdered(evs: seq<Event>, total: nat, lo: nat, hi: nat)
    requires Climbing(evs, total, lo, hi)
    ensures forall e :: e in evs ==> e.Progress? && e.total == total && lo < e.downloaded <= hi
    ensures forall i, j :: 0 <= i < j < |evs| ==> evs[i].downloaded < evs[j].downloaded
    ensures evs != [] ==> evs[|evs| - 1].downloaded == hi
    ensures lo <= hi
    decreases |evs|
  {
    if evs != [] {
      ClimbingOrdered(evs[1..], total, evs[0].downloaded, hi);
      forall i, j | 0 <= i < j < |evs|
        ensures evs[i].downloaded < evs[j].downloaded
      {
        assert evs[j] == evs[1..][j - 1];
        if i > 0 {
          assert evs[i] == evs[1..][i - 1];
        }
      }
      forall e | e in evs
        ensures e.Progress? && e.total == total && lo < e.downloaded <= hi
      {
        if e != evs[0] {
          assert e in evs[1..];
        }
      }
    }
  }

  /** Successive percentages never decrease. */
  lemma PercentsNonDecreasing(evs: seq<Event>, total: nat, lo: nat, hi: nat)
    requires total > 0 && Climbing(evs, total, lo, hi)
    ensures forall i, j :: 0 <= i < j < |evs| ==>
      evs[i].Progress? && evs[j].Progress? && Percent(evs[i].downloaded, total) <= Percent(evs[j].downloaded, total)
  {
    ClimbingOrdered(evs, total, lo, hi);
    forall i, j | 0 <= i < j < |evs|
      ensures evs[i].Progress? && evs[j].Progress? && Percent(evs[i].downloaded, total) <= Percent(evs[j].downloaded, total)
    {
      assert evs[i] in evs && evs[j] in evs;
      PercentMonotone(evs[i].downloaded, evs[j].downloaded, total);
    }
  }

  /** The response passes `raise_for_status` and has a usable `content-length`. */
  predicate Accepted(http: Http)
  {
    http.Received? && !RaisesForStatus(http.status) && !http.length.BadLength?
  }

  /** The file gets opened for writing (and so truncated). */
  predicate Opens(disk: Disk, http: Http)
  {
    disk.dir != DirMissing(false) && Accepted(http) && !disk.openFails
  }

  /** Everything goes right. */
  predicate Succeeds(disk: Disk, http: Http)
  {
    Opens(disk, http) && http.end == Complete && Fits(|Concat(http.chunks)|, disk.free)
  }

  /** The effects of a download other than log lines, as a reference: the request (unless
      the directory cannot be created), the progress of the chunk loop once the file is
      opened, and the final "100%" when the loop ends normally. */
  function Effects(url: string, disk: Disk, http: Http): seq<Event>
  {
    if disk.dir == DirMissing(false) then [] else [HttpGet(url, url)] + LoopEffects(disk, http)
  }

  function LoopEffects(disk: Disk, http: Http): seq<Event>
  {
    if !Opens(disk, http) then []
    else
      var w := Stream(http.chunks, http.end, TotalSize(http.length), [], disk.free);
      w.events + (if w.ok then [ProgressDone] else [])
  }

  lemma QuietLogs(evs: seq<Event>)
    requires forall e :: e in evs ==> e.Log?
    ensures Quiet(evs) == []
  {
    FilterNone(evs, IsEffect);
  }

  lemma FetchedEffects(v: Variant, disk: Disk, http: Http)
    requires disk.dir == DirPresent
    ensures Quiet(Fetched(v, disk, http).events) == LoopEffects(disk, http)
  {
    if !Opens(disk, http) {
      QuietLogs(Fetched(v, disk, http).events);
    } else {
      OpenedEffects(v, disk, http);
    }
  }

  lemma OpenedEffects(v: Variant, disk: Disk, http: Http)
    requires disk.dir == DirPresent && Opens(disk, http)
    ensures Quiet(Fetched(v, disk, http).events) == LoopEffects(disk, http)
  {
    var total := TotalSize(http.length);
    var sized := AppLog(v, RequestSucceeded(http.status)) + AppLog(v, PreparingWrite) + AppLog(v, TotalSizeIs(total));
    var w := Stream(http.chunks, http.end, total, [], disk.free);
    var tail := if w.ok then Done(v, |w.file|) else [Fail(v, WriteFailed)];
    assert Fetched(v, disk, http).events == sized + w.events + tail;
    StreamEventsAreProgress(http.chunks, http.end, total, disk.free);
    QuietAround(sized, w.events, tail);
    TailEffects(v, w.ok, |w.file|);
  }

  /** After the chunk loop, only the progress bar's close is an effect. */
  lemma TailEffects(v: Variant, ok: bool, size: nat)
    ensures Quiet(if ok then Done(v, size) else [Fail(v, WriteFailed)]) == if ok then [ProgressDone] else []
  {
    if ok {
      var lines := [Log(DownloadDone(FilePath))] + AppLog(v, FinalSizeIs(size));
      QuietAround(lines, [ProgressDone], []);
      assert lines + [ProgressDone] + [] == Done(v, size);
    } else {
      QuietLogs([Fail(v, WriteFailed)]);
    }
  }

  /** Log lines around effects vanish from `Quiet`. */
  lemma QuietAround(logs: seq<Event>, effects: seq<Event>, rest: seq<Event>)
    requires forall e :: e in logs ==> e.Log?
    requires forall e :: e in effects ==> !e.Log?
    ensures Quiet(logs + effects + rest) == effects + Quiet(rest)
  {
    QuietConcat(logs, effects, rest);
    QuietLogs(logs);
    FilterAll(effects, IsEffect);
  }

  /** Apart from log lines, a download has exactly the effects `Effects` lists. */
  lemma DownloadEffects(v: Variant, url: string, disk: Disk, http: Http)
    ensures Quiet(Download(v, url, disk, http).events) == Effects(url, disk, http)
  {
    if disk.dir == DirMissing(false) {
      QuietLogs(Download(v, url, disk, http).events);
    } else {
      MadeDirEffects(v, url, disk, http);
    }
  }

  lemma MadeDirEffects(v: Variant, url: string, disk: Disk, http: Http)
    requires disk.dir != DirMissing(false)
    ensures Quiet(Download(v, url, disk, http).events) == [HttpGet(url, url)] + LoopEffects(disk, http)
  {
    var check := AppLog(v, CheckingDir);
    var made := if disk.dir.DirMissing? then AppLog(v, DirCreated) else [];
    var logs := check + made + [Log(DownloadStarted(url))] + AppLog(v, SendingRequest);
    var rest := Fetched(v, disk.(dir := DirPresent), http);
    assert Download(v, url, disk, http).events == logs + [HttpGet(url, url)] + rest.events;
    QuietAround(logs, [HttpGet(url, url)], rest.events);
    FetchedEffects(v, disk.(dir := DirPresent), http);
    assert LoopEffects(disk.(dir := DirPresent), http) == LoopEffects(disk, http);
  }

  /** A filter that keeps no log line and not the request sees only the chunk loop's part. */
  lemma FilterDownload(v: Variant, url: string, disk: Disk, http: Http, keep: Event -> bool)
    requires forall e :: keep(e) ==> IsEffect(e)
    requires !keep(HttpGet(url, url))
    ensures Filter(Download(v, url, disk, http).events, keep) == Filter(LoopEffects(disk, http), keep)
  {
    DownloadEffects(v, url, disk, http);
    FilterQuiet(Download(v, url, disk, http).events, keep);
    if disk.dir != DirMissing(false) {
      FilterConcat([HttpGet(url, url)], LoopEffects(disk, http), keep);
      FilterNone([HttpGet(url, url)], keep);
    }
  }

  lemma FilterLoop(disk: Disk, http: Http, keep: Event -> bool)
    requires Opens(disk, http)
    ensures var w := Stream(http.chunks, http.end, TotalSize(http.length), [], disk.free);
      Filter(LoopEffects(disk, http), keep) == Filter(w.events, keep) + Filter(if w.ok then [ProgressDone] else [], keep)
  {
    var w := Stream(http.chunks, http.end, TotalSize(http.length), [], disk.free);
    FilterConcat(w.events, if w.ok then [ProgressDone] else [], keep);
  }

  /** `download_video` returns the file path exactly when every step succeeds; the file
      then holds the whole body, and the last effects are the completion line, in app.py the
      final size (the length of the whole body), and "100%". */
  lemma DownloadSucceedsIff(v: Variant, url: string, disk: Disk, http: Http)
    ensures var s := Download(v, url, disk, http);
      && (s.path.Some? <==> Succeeds(disk, http))
      && (s.path.Some? ==>
            && s.path == Some(FilePath) && s.disk.file == Concat(http.chunks)
            && var fin := [Log(DownloadDone(FilePath))] + AppLog(v, FinalSizeIs(|Concat(http.chunks)|)) + [ProgressDone];
               |s.events| >= |fin| && s.events[|s.events| - |fin|..] == fin)
  {
    if Opens(disk, http) {
      StreamOk(http.chunks, http.end, TotalSize(http.length), [], disk.free);
      StreamFile(http.chunks, http.end, TotalSize(http.length), [], disk.free);
      assert [] + Concat(http.chunks) == Concat(http.chunks);
    }
  }

  /** What a download does to the file system: the directory exists afterwards unless it
      could not be created; the file is untouched unless it was opened; once opened it holds
      a prefix of the body that fits on the disk (no partial file is removed), and the whole
      body exactly when the body fits. */
  lemma DownloadDisk(v: Variant, url: string, disk: Disk, http: Http)
    ensures var after := Download(v, url, disk, http).disk;
      && after.openFails == disk.openFails && after.free == disk.free
      && after.dir == (if disk.dir == DirMissing(false) then disk.dir else DirPresent)
      && (!Opens(disk, http) ==> after.file == disk.file)
      && (Opens(disk, http) ==>
            && after.file <= Concat(http.chunks) && Fits(|after.file|, disk.free)
            && (after.file == Concat(http.chunks) <==> Fits(|Concat(http.chunks)|, disk.free)))
  {
    if Opens(disk, http) {
      StreamFile(http.chunks, http.end, TotalSize(http.length), [], disk.free);
      assert [] + Concat(http.chunks) == Concat(http.chunks);
    }
  }

  /** The video URL is requested once, with itself as the Referer, unless the directory
      cannot be created, in which case no request is made. */
  lemma DownloadRequest(v: Variant, url: string, disk: Disk, http: Http)
    ensures Filter(Download(v, url, disk, http).events, IsRequest)
         == if disk.dir == DirMissing(false) then [] else [HttpGet(url, url)]
  {
    DownloadEffects(v, url, disk, http);
    FilterQuiet(Download(v, url, disk, http).events, IsRequest);
    if disk.dir != DirMissing(false) {
      FilterConcat([HttpGet(url, url)], LoopEffects(disk, http), IsRequest);
      if Opens(disk, http) {
        var w := Stream(http.chunks, http.end, TotalSize(http.length), [], disk.free);
        StreamEventsAreProgress(http.chunks, http.end, TotalSize(http.length), disk.free);
        FilterLoop(disk, http, IsRequest);
        FilterNone(w.events, IsRequest);
        FilterNone(if w.ok then [ProgressDone] else [], IsRequest);
      }
      assert Filter([HttpGet(url, url)], IsRequest) == [HttpGet(url, url)] + Filter([], IsRequest);
    }
  }

  /** The progress updates of a download are those of its chunk loop, if the file is opened. */
  lemma DownloadUpdates(v: Variant, url: string, disk: Disk, http: Http)
    ensures Filter(Download(v, url, disk, http).events, IsProgress)
         == if Opens(disk, http) then Stream(http.chunks, http.end, TotalSize(http.length), [], disk.free).events else []
    ensures Opens(disk, http) ==>
      Download(v, url, disk, http).disk.file == Stream(http.chunks, http.end, TotalSize(http.length), [], disk.free).file
  {
    FilterDownload(v, url, disk, http, IsProgress);
    if Opens(disk, http) {
      var w := Stream(http.chunks, http.end, TotalSize(http.length), [], disk.free);
      StreamEventsAreProgress(http.chunks, http.end, TotalSize(http.length), disk.free);
      FilterLoop(disk, http, IsProgress);
      FilterNone(if w.ok then [ProgressDone] else [], IsProgress);
    }
  }

  /** Progress updates come only from the chunk loop and only when the declared length is
      positive: one per non-empty chunk written, each with more bytes than the last, the
      last one with the file's final size. */
  lemma DownloadProgress(v: Variant, url: string, disk: Disk, http: Http)
    ensures var s := Download(v, url, disk, http);
      var updates := Filter(s.events, IsProgress);
      && (Opens(disk, http) && TotalSize(http.length) > 0 ==>
            Climbing(updates, TotalSize(http.length) as nat, 0, |s.disk.file|))
      && (Opens(disk, http) && TotalSize(http.length) > 0 && Fits(|Concat(http.chunks)|, disk.free) ==>
            |updates| == NonEmpty(http.chunks))
      && (!(Opens(disk, http) && TotalSize(http.length) > 0) ==> updates == [])
  {
    DownloadUpdates(v, url, disk, http);
    if Opens(disk, http) {
      StreamProgress(http.chunks, http.end, TotalSize(http.length), [], disk.free);
    }
  }

  /** Each progress update of a download reports `downloaded_size` after its own chunk: the
      running sizes of the non-empty chunks, in order, up to the first that does not fit. */
  lemma DownloadReports(v: Variant, url: string, disk: Disk, http: Http)
    requires Opens(disk, http) && TotalSize(http.length) > 0
    ensures Reports(Filter(Download(v, url, disk, http).events, IsProgress), Sizes(http.chunks, 0),
                    TotalSize(http.length) as nat, disk.free)
  {
    DownloadUpdates(v, url, disk, http);
    StreamReports(http.chunks, http.end, TotalSize(http.length), [], disk.free);
  }

  /** The final "100%" is sent exactly once on success and never on failure, whatever the
      declared length. */
  lemma DownloadFinish(v: Variant, url: string, disk: Disk, http: Http)
    ensures Filter(Download(v, url, disk, http).events, IsProgressDone)
         == if Succeeds(disk, http) then [ProgressDone] else []
  {
    FilterDownload(v, url, disk, http, IsProgressDone);
    if Opens(disk, http) {
      var w := Stream(http.chunks, http.end, TotalSize(http.length), [], disk.free);
      StreamEventsAreProgress(http.chunks, http.end, TotalSize(http.length), disk.free);
      StreamOk(http.chunks, http.end, TotalSize(http.length), [], disk.free);
      FilterLoop(disk, http, IsProgressDone);
      FilterNone(w.events, IsProgressDone);
      FilterAll(if w.ok then [ProgressDone] else [], IsProgressDone);
    }
  }

  /** When the declared length is the body's length, the last progress update is the
      whole body: 100 percent. */
  lemma ExactLengthReachesHundred(v: Variant, url: string, disk: Disk, http: Http)
    requires Succeeds(disk, http)
    requires http.length == Length(|Concat(http.chunks)|) && |Concat(http.chunks)| > 0
    ensures var updates := Filter(Download(v, url, disk, http).events, IsProgress);
      var n := |Concat(http.chunks)|;
      |updates| > 0 && updates[|updates| - 1] == Progress(n, n) && Percent(n, n) == 100.0
  {
    var n := |Concat(http.chunks)|;
    var updates := Filter(Download(v, url, disk, http).events, IsProgress);
    DownloadProgress(v, url, disk, http);
    DownloadSucceedsIff(v, url, disk, http);
    assert Climbing(updates, n, 0, n);
    ClimbingOrdered(updates, n, 0, n);
    assert updates[|updates| - 1] in updates;
    PercentHundred(n, n);
  }

  /** Nothing caps the percentage: a declared length of 1 with a 2-byte body reports 200%.
      The complete trace of that download in app.py. */
  lemma ProgressCanExceedHundred(url: string)
    ensures var disk := Disk(DirPresent, [], false, None);
      var http := Received(200, Length(1), [[0, 0]], Complete);
      && Download(App, url, disk, http).events
         == [Log(CheckingDir), Log(DownloadStarted(url)), Log(SendingRequest), HttpGet(url, url),
             Log(RequestSucceeded(200)), Log(PreparingWrite), Log(TotalSizeIs(1)),
             Progress(2, 1), Log(DownloadDone(FilePath)), Log(FinalSizeIs(2)), ProgressDone]
      && Percent(2, 1) == 200.0
  {
    var chunks: seq<seq<byte>> := [[0, 0]];
    assert chunks[1..] == [];
    assert Stream(chunks, Complete, 1, [], None) == Written([0, 0], true, [Progress(2, 1)]);
  }

  /** Why a download failed: the first step that went wrong. */
  function Cause(disk: Disk, http: Http): LogLine
  {
    if disk.dir == DirMissing(false) then DirCreateFailed
    else if !http.Received? || RaisesForStatus(http.status) then RequestFailed
    else if http.length.BadLength? then DownloadError
    else WriteFailed
  }

  /** The last effect of a download: "100%" on success; on failure app.py's line for the
      step that failed, vedio_spider.py's single generic line. */
  lemma DownloadLastEvent(v: Variant, url: string, disk: Disk, http: Http)
    ensures var evs := Download(v, url, disk, http).events;
      && |evs| > 0
      && (Succeeds(disk, http) ==> evs[|evs| - 1] == ProgressDone)
      && (!Succeeds(disk, http) && v == App ==> evs[|evs| - 1] == Log(Cause(disk, http)))
      && (!Succeeds(disk, http) && v == Spider ==> evs[|evs| - 1] == Log(DownloadFailed))
  {
    if Opens(disk, http) {
      StreamOk(http.chunks, http.end, TotalSize(http.length), [], disk.free);
    }
  }

  /** vedio_spider.py's `download_video` differs from app.py's only in log lines: the same
      result, the same file system afterwards, the same request and progress updates; every
      failure ends in its single generic line. */
  lemma DownloadVariantsAgree(url: string, disk: Disk, http: Http)
    ensures Download(Spider, url, disk, http).path == Download(App, url, disk, http).path
    ensures Download(Spider, url, disk, http).disk == Download(App, url, disk, http).disk
    ensures Quiet(Download(Spider, url, disk, http).events) == Quiet(Download(App, url, disk, http).events)
    ensures var evs := Download(Spider, url, disk, http).events;
      !Succeeds(disk, http) ==> |evs| > 0 && evs[|evs| - 1] == Log(DownloadFailed)
  {
    DownloadEffects(App, url, disk, http);
    DownloadEffects(Spider, url, disk, http);
    DownloadLastEvent(Spider, url, disk, http);
  }
}
