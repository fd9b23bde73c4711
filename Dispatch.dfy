/** The `/fetch_video` route: the form's `url` is checked, the video is located, and a
    located video is downloaded at once; the reply is a JSON body with an HTTP status. */
module Dispatch {
  import opened Common
  import opened Locator
  import opened Downloader
  import LF = LocatorFacts
  import DF = DownloaderFacts

  /** Why a request was refused: no URL in the form, no video on the page, or a video that
      could not be saved. */
  datatype Refusal = MissingUrl | VideoNotFound | SaveFailed

  /** The JSON reply: a success carries the video URL and the link that serves the saved
      file; an error carries its HTTP status. */
  datatype Reply = Success(videoUrl: string, downloadUrl: string) | Error(status: int, why: Refusal)

  /** Everything outside the handler that a request meets: what the browser sees on each
      attempt, the file system, and the response the video URL gets. */
  datatype World = World(attempts: seq<Attempt>, disk: Disk, http: Http)

  /** The reply, the file system afterwards, and the effects, in order. */
  datatype Handled = Handled(reply: Reply, disk: Disk, events: seq<Event>)

  const DownloadRoute: string := "/download_video?path="

  /** `fetch_video()` for the form field `form`. */
  function Fetch(v: Variant, form: Attr, w: World): Handled
    requires |w.attempts| >= RetryCount
  {
    if !Truthy(form) then Handled(Error(400, MissingUrl), w.disk, [])
    else
      var found := Locate(v, form.value, w.attempts);
      var start := [Log(ParseStarted)] + found.events;
      if !Truthy(found.videoUrl) then Handled(Error(404, VideoNotFound), w.disk, start + [Log(ParseFailed)])
      else
        var saved := Download(v, found.videoUrl.value, w.disk, w.http);
        var events := start + [Log(ParseSucceeded)] + saved.events;
        if Truthy(saved.path) then Handled(Success(found.videoUrl.value, DownloadRoute + saved.path.value), saved.disk, events)
        else Handled(Error(500, SaveFailed), saved.disk, events)
  }

  /** `fetch_video()`, step by step. */
  method FetchVideo(v: Variant, form: Attr, w: World) returns (reply: Reply, disk: Disk, events: seq<Event>)
    requires |w.attempts| >= RetryCount
    ensures Handled(reply, disk, events) == Fetch(v, form, w)
  {
    if !Truthy(form) {
      return Error(400, MissingUrl), w.disk, [];
    }
    events := [Log(ParseStarted)];
    var videoUrl, located := GetVideoUrl(v, form.value, w.attempts);
    events := events + located;
    if !Truthy(videoUrl) {
      return Error(404, VideoNotFound), w.disk, events + [Log(ParseFailed)];
    }
    events := events + [Log(ParseSucceeded)];
    var path, saved;
    path, disk, saved := DownloadVideo(v, videoUrl.value, w.disk, w.http);
    events := events + saved;
    if Truthy(path) {
      reply := Success(videoUrl.value, DownloadRoute + path.value);
    } else {
      reply := Error(500, SaveFailed);
    }
  }

  /** The reply a request gets: 400 exactly when the form has no usable URL, 404 exactly
      when no video is found, a success exactly when the located video is saved (with the
      located URL and the link that serves `FilePath`), and 500 otherwise. */
  lemma FetchReplies(v: Variant, form: Attr, w: World)
    requires |w.attempts| >= RetryCount
    ensures var reply := Fetch(v, form, w).reply;
      var found := if Truthy(form) then Locate(v, form.value, w.attempts).videoUrl else None;
      && (reply == Error(400, MissingUrl) <==> !Truthy(form))
      && (reply == Error(404, VideoNotFound) <==> Truthy(form) && !Truthy(found))
      && (reply.Success? <==> Truthy(found) && DF.Succeeds(w.disk, w.http))
      && (reply == Error(500, SaveFailed) <==> Truthy(found) && !DF.Succeeds(w.disk, w.http))
      && (reply.Success? ==> reply == Success(found.value, DownloadRoute + FilePath))
  {
    if Truthy(form) {
      var found := Locate(v, form.value, w.attempts).videoUrl;
      if Truthy(found) {
        var saved := Download(v, found.value, w.disk, w.http);
        DF.DownloadSucceedsIff(v, found.value, w.disk, w.http);
        assert Fetch(v, form, w).reply
            == if Truthy(saved.path) then Success(found.value, DownloadRoute + saved.path.value) else Error(500, SaveFailed);
        assert Truthy(saved.path) <==> DF.Succeeds(w.disk, w.http);
      }
    }
  }

  /** The video found is the first truthy `src` the browser reads, as the locator's
      strategies and attempts order them; a 404 means no truthy `src` was read. */
  lemma FetchFindsFirstTruthy(v: Variant, form: Attr, w: World)
    requires |w.attempts| >= RetryCount && Truthy(form)
    ensures var seen := LF.AllReads(w.attempts, 0);
      var reply := Fetch(v, form, w).reply;
      && (reply == Error(404, VideoNotFound) <==> forall i :: 0 <= i < |seen| ==> !Truthy(seen[i]))
      && (forall i :: reply.Success? && LF.IsFirstTruthy(seen, i) ==> Some(reply.videoUrl) == seen[i])
  {
    LF.LocateFindsFirstTruthy(v, form.value, w.attempts);
  }

  /** The download never quits the browser or loads a page. */
  lemma DownloadLeavesBrowser(v: Variant, url: string, disk: Disk, http: Http)
    ensures Filter(Download(v, url, disk, http).events, IsQuit) == []
    ensures Filter(Download(v, url, disk, http).events, IsNavigate) == []
  {
    DF.FilterDownload(v, url, disk, http, IsQuit);
    DF.FilterDownload(v, url, disk, http, IsNavigate);
    if DF.Opens(disk, http) {
      var s := Stream(http.chunks, http.end, TotalSize(http.length), [], disk.free);
      DF.StreamEventsAreProgress(http.chunks, http.end, TotalSize(http.length), disk.free);
      DF.FilterLoop(disk, http, IsQuit);
      DF.FilterLoop(disk, http, IsNavigate);
      FilterNone(s.events, IsQuit);
      FilterNone(s.events, IsNavigate);
      FilterNone(if s.ok then [ProgressDone] else [], IsQuit);
      FilterNone(if s.ok then [ProgressDone] else [], IsNavigate);
    }
  }

  /** One filter over the effects of a request that reaches the locator. */
  lemma FilterFetch(v: Variant, form: Attr, w: World, keep: Event -> bool)
    requires |w.attempts| >= RetryCount && Truthy(form)
    requires !keep(Log(ParseStarted)) && !keep(Log(ParseFailed)) && !keep(Log(ParseSucceeded))
    ensures var found := Locate(v, form.value, w.attempts);
      Filter(Fetch(v, form, w).events, keep)
        == Filter(found.events, keep)
           + (if Truthy(found.videoUrl) then Filter(Download(v, found.videoUrl.value, w.disk, w.http).events, keep) else [])
  {
    var found := Locate(v, form.value, w.attempts);
    var mid := if Truthy(found.videoUrl) then [Log(ParseSucceeded)] else [Log(ParseFailed)];
    var tail := if Truthy(found.videoUrl) then Download(v, found.videoUrl.value, w.disk, w.http).events else [];
    FetchEvents(v, form, w);
    FilterSplit(found.events, mid, tail, keep);
  }

  /** The effects of a request that reaches the locator, in order. */
  lemma FetchEvents(v: Variant, form: Attr, w: World)
    requires |w.attempts| >= RetryCount && Truthy(form)
    ensures var found := Locate(v, form.value, w.attempts);
      Fetch(v, form, w).events
        == [Log(ParseStarted)] + found.events
           + (if Truthy(found.videoUrl) then [Log(ParseSucceeded)] else [Log(ParseFailed)])
           + (if Truthy(found.videoUrl) then Download(v, found.videoUrl.value, w.disk, w.http).events else [])
  {
    var found := Locate(v, form.value, w.attempts);
    if !Truthy(found.videoUrl) {
      assert Fetch(v, form, w).events == [Log(ParseStarted)] + found.events + [Log(ParseFailed)] + [];
    }
  }

  lemma FilterSplit(a: seq<Event>, mid: seq<Event>, tail: seq<Event>, keep: Event -> bool)
    requires forall e :: e in mid ==> !keep(e)
    requires !keep(Log(ParseStarted))
    ensures Filter([Log(ParseStarted)] + a + mid + tail, keep) == Filter(a, keep) + Filter(tail, keep)
  {
    FilterConcat([Log(ParseStarted)] + a + mid, tail, keep);
    FilterConcat([Log(ParseStarted)] + a, mid, keep);
    FilterConcat([Log(ParseStarted)], a, keep);
    FilterNone([Log(ParseStarted)], keep);
    FilterNone(mid, keep);
  }

  /** A request with a URL starts one browser session and quits it exactly once; a request
      without one starts none. */
  lemma FetchQuitsOnce(v: Variant, form: Attr, w: World)
    requires |w.attempts| >= RetryCount
    ensures Filter(Fetch(v, form, w).events, IsQuit) == if Truthy(form) then [Quit] else []
  {
    if Truthy(form) {
      var found := Locate(v, form.value, w.attempts);
      FilterFetch(v, form, w, IsQuit);
      LF.LocateQuitsOnce(v, form.value, w.attempts);
      if Truthy(found.videoUrl) {
        DownloadLeavesBrowser(v, found.videoUrl.value, w.disk, w.http);
      }
    }
  }

  /** The video is requested over HTTP only after it is located, and then once, with itself
      as the Referer (unless the download directory cannot be created); a 400 or a 404 leaves
      the file system as it was. */
  lemma FetchDownloadsOnlyFound(v: Variant, form: Attr, w: World)
    requires |w.attempts| >= RetryCount
    ensures var h := Fetch(v, form, w);
      var requests := Filter(h.events, IsRequest);
      && (h.reply.Error? && h.reply.status in {400, 404} ==> requests == [] && h.disk == w.disk)
      && (h.reply.Success? ==> requests == [HttpGet(h.reply.videoUrl, h.reply.videoUrl)])
  {
    var h := Fetch(v, form, w);
    if !Truthy(form) {
      assert h.events == [];
    } else {
      var found := Locate(v, form.value, w.attempts);
      FilterFetch(v, form, w, IsRequest);
      LF.LocateNoRequest(v, form.value, w.attempts);
      if Truthy(found.videoUrl) {
        DF.DownloadRequest(v, found.videoUrl.value, w.disk, w.http);
        DF.DownloadSucceedsIff(v, found.videoUrl.value, w.disk, w.http);
      }
    }
  }

  /** vedio_spider.py's `fetch_video` gives the same reply and the same file system as
      app.py's, with the same effects apart from log lines. */
  lemma FetchVariantsAgree(form: Attr, w: World)
    requires |w.attempts| >= RetryCount
    ensures Fetch(Spider, form, w).reply == Fetch(App, form, w).reply
    ensures Fetch(Spider, form, w).disk == Fetch(App, form, w).disk
    ensures Quiet(Fetch(Spider, form, w).events) == Quiet(Fetch(App, form, w).events)
  {
    if Truthy(form) {
      var fa := Locate(App, form.value, w.attempts);
      var fs := Locate(Spider, form.value, w.attempts);
      LF.LocatorVariantsAgree(form.value, w.attempts);
      var mid := if Truthy(fa.videoUrl) then [Log(ParseSucceeded)] else [Log(ParseFailed)];
      var ta := if Truthy(fa.videoUrl) then Download(App, fa.videoUrl.value, w.disk, w.http).events else [];
      var ts := if Truthy(fa.videoUrl) then Download(Spider, fa.videoUrl.value, w.disk, w.http).events else [];
      if Truthy(fa.videoUrl) {
        DF.DownloadVariantsAgree(fa.videoUrl.value, w.disk, w.http);
      }
      assert Fetch(App, form, w).events == ([Log(ParseStarted)] + fa.events) + mid + ta;
      assert Fetch(Spider, form, w).events == ([Log(ParseStarted)] + fs.events) + mid + ts;
      QuietConcat([Log(ParseStarted)] + fa.events, mid, ta);
      QuietConcat([Log(ParseStarted)] + fs.events, mid, ts);
      FilterConcat([Log(ParseStarted)], fa.events, IsEffect);
      FilterConcat([Log(ParseStarted)], fs.events, IsEffect);
    }
  }
}
