# Video fetcher: locator, downloader and request handler

The repository is a small Flask + Socket.IO web service. A user posts a page URL to
`/fetch_video`. The service drives a headless Chrome browser to find a video address on
that page. It streams the video into `downloads/video.mp4` and pushes log lines and
progress percentages to the browser as it goes. The repository holds two copies of the
service: `app.py`, which logs every step and names every failure, and `vedio_spider.py`,
which logs less and has a single failure line for the download. This project models the
logic they share and proves what it guarantees.

- `Common.dfy`: the shared values.
  - `Option`, Python truthiness of a `src` value or form field (`Truthy`), the two variants.
  - The ordered trace of observable effects: log lines, progress updates, page loads, frame
    switches, the browser quit, HTTP requests.
  - `Filter`/`Quiet` projections over that trace.
- `Locator.dfy`: `get_video_url`.
  - Each attempt sees one page snapshot: what each `find_elements` call lists or whether it
    raises, what each iframe holds, and which player selector matches.
  - A specification function per strategy gives the outcome and the effects: `ScanSrcs`,
    `ListStep`, `ScanFrames`, `PlayersStep`, `PageRun`, `AttemptRun`, `Retry`, `Locate`.
  - The source's loops are methods proved equal to those functions.
- `LocatorFacts.dfy`: the properties of the locator.
  - The returned value is the first truthy `src` in the inspection order.
  - The frame context is left as the code leaves it.
  - The page is loaded at most three times, and at least once.
  - The browser is quit exactly once.
  - The two variants agree.
- `Downloader.dfy`: `download_video`.
  - The disk (directory state, file contents, open failure, free space) is one value.
  - The HTTP response (status, `content-length`, chunks, broken or complete stream) is one value.
  - `Stream` specifies the chunk loop, and `WriteBody` is that loop.
  - `Download` specifies the whole function, and `DownloadVideo`/`HandleResponse` are its steps.
- `DownloaderFacts.dfy`: the properties of the downloader.
  - The result and the file.
  - The progress updates.
  - The failure line.
  - The single request.
  - The two variants agree.
- `Dispatch.dfy`: the `/fetch_video` handler.
  - `Fetch` specifies it and `FetchVideo` is its steps.
  - The lemmas cover the four replies (400, 404, 500, success) and what each one implies
    about the effects and the file system.

The browser, the network and the file system are parameters: a `World` holds the page
snapshot of each attempt, the disk, and the response the video URL gets.

## Model

| member | source | states |
|---|---|---|
| Locator.FirstSrc | app.py:58-62 | the inner loop over `src` values returns the first truthy one, or gives back the last value read (the caller's value when the list is empty) |
| Locator.SearchTags | app.py:55-62 | one top-level tag strategy: its search log line, a raising lookup ending the attempt, and the success log with the found URL, for <video> at these lines; the same member serves the <source> strategy at app.py:84-91 (see the `Locator.RunFromSources` row) |
| Locator.SearchFrames | app.py:65-81 | the iframe loop: each frame is entered; a failing frame logs and resets to the default content and is skipped; a frame without a hit resets and the loop moves on; a hit returns while still inside the frame |
| Locator.FirstMatch | app.py:102-110 | the five player selectors are tried in order; a selector whose lookup raises is skipped; the first truthy `src` wins |
| Locator.SearchPlayers | app.py:94-110 | the player-selector strategy, with its search log line and success log |
| Locator.RunFromSources | app.py:83-110 | the <source> strategy, then the player selectors only when <source> falls through |
| Locator.RunFromFrames | app.py:64-110 | the iframe strategy, then the later strategies only when the iframes fall through |
| Locator.RunPage | app.py:52-110 | the four strategies of one loaded page in order; the first success or exception ends the page |
| Locator.RunAttempt | app.py:49-52 | an attempt logs its number and loads the URL; a failing load ends the attempt as an exception |
| Locator.GetVideoUrl | app.py:29-128 | at most three attempts; the retry or give-up line that closes each unsuccessful attempt; exactly one quit at the end; the returned `video_url` |
| LocatorFacts.ScanHitIff | app.py:58-62 | a scan of `src` values hits iff some value is truthy |
| LocatorFacts.ScanFirst | app.py:58-62 | a hit is the first truthy value |
| LocatorFacts.ScanMissLast | app.py:58-62 | a miss leaves the last value read in `video_url`, or the earlier value when the list is empty |
| LocatorFacts.ScanSrcsAppend | app.py:54-110 | scanning two lists in sequence is scanning the first and, on a miss, the second from where the first left `video_url` |
| LocatorFacts.FramesOutcome | app.py:64-81 | the iframe loop's outcome is a scan of the values read in the frames that did not fail |
| LocatorFacts.PageOutcome | app.py:52-110 | one page's outcome is a scan of its values in the order <video>, iframes, <source>, selectors, failing at the first raising lookup |
| LocatorFacts.RetryOutcome | app.py:48-123 | the retry loop's outcome is a scan of every value read in all attempts, in order |
| LocatorFacts.LocateFindsFirstTruthy | app.py:29-128 | `get_video_url` returns a truthy value iff some `src` read was truthy; it is then the first one; otherwise it returns the last value read, or None when nothing was read |
| LocatorFacts.FramesFallThrough | app.py:64-81 | when no frame has a video, the driver is back at the top-level document, and its context switches are exactly: enter frame 0, back to the default, enter frame 1, back, and so on for every frame in order |
| LocatorFacts.FramesHit | app.py:67-76 | when the iframe loop finds a video, some frame holds a truthy `src`; the driver is left inside the first such frame, and its context switches are exactly: enter and leave each earlier frame in order, then enter that frame |
| LocatorFacts.AttemptExternal | app.py:49-110 | one attempt loads the page exactly once and never quits the browser |
| LocatorFacts.RetryLoads | app.py:45-123 | later attempts load the page at most once each and the first at least once; every attempt runs when none finds a video |
| LocatorFacts.AttemptFindsIff | app.py:54-110 | an attempt returns a video exactly when it reads a truthy `src` in some strategy |
| LocatorFacts.RetryMakes | app.py:48-123 | the retry loop loads the page once per attempt it makes, counted by an independent reference that stops after the first attempt that finds a video |
| LocatorFacts.MadeStops | app.py:48-123 | the attempts made are those up to and including the first that finds a video |
| LocatorFacts.LocateLoads | app.py:45-128 | every page load is of the requested URL; there are one to three of them; exactly three when no video is found, and `j + 1` when attempt `j` is the first to read a truthy `src` |
| LocatorFacts.LocateQuitsOnce | app.py:125-126 | whatever happens, `driver.quit()` is called exactly once, and it is the last effect of `get_video_url` |
| LocatorFacts.LocateNoRequest | app.py:29-128 | the locator makes no HTTP request of its own |
| LocatorFacts.TopVideoWins | app.py:55-62 | a truthy top-level <video> `src` on the first attempt ends the search at once: the frames, sources and players of that page and all later attempts are irrelevant, and the complete trace is given |
| LocatorFacts.RetryAgree | vedio_spider.py:46-115 | the retry loops of the two scripts reach the same outcome with the same non-log effects |
| LocatorFacts.LocatorVariantsAgree | vedio_spider.py:27-120 | vedio_spider.py's `get_video_url` returns what app.py's does, with the same non-log effects |
| Downloader.WriteBody | app.py:165-173 | the chunk loop: empty chunks are skipped; each written chunk adds its bytes to the file and `downloaded_size`; a progress update follows when the declared size is positive; in the model, a chunk that does not fit on the disk fails the write at once (see "## Left out") |
| Downloader.HandleResponse | app.py:151-189 | after the request: an unreachable host or an error status is a request failure; an unparsable length is a generic error; an open or write failure is a write failure; otherwise the success lines and the path |
| Downloader.DownloadVideo | app.py:130-189 | the directory is created when missing (failing returns None); the URL is requested once, with itself as the Referer; then the response is handled |
| DownloaderFacts.StreamOk | app.py:165-173 | the chunk loop ends without an exception iff the stream completes and the whole body fits on the disk |
| DownloaderFacts.StreamFile | app.py:165-173 | what the loop writes is a prefix of the body; it is the whole body iff the body fits; it always fits |
| DownloaderFacts.StreamProgress | app.py:168-173 | no progress updates without a positive declared size; otherwise the updates climb strictly, with the declared total, up to the bytes written; one update per non-empty chunk when the body fits |
| DownloaderFacts.StreamReports | app.py:168-173 | each progress update reports `downloaded_size` after its own chunk: the running sums of the non-empty chunk lengths in order, each with the declared total; the model's write failure (a chunk that does not fit) ends them (see "## Left out") |
| DownloaderFacts.ClimbingOrdered | app.py:170-173 | successive progress updates report strictly increasing downloaded sizes bounded by what was written |
| DownloaderFacts.PercentsNonDecreasing | app.py:172-173 | the reported percentages never decrease |
| DownloaderFacts.DownloadEffects | app.py:130-189 | apart from log lines, a download makes the request (unless the directory cannot be created), then sends the progress updates and, on success, the final "100%" |
| DownloaderFacts.DownloadSucceedsIff | app.py:130-189 | `download_video` returns the path iff every step succeeds; the file then holds the whole body; the trace ends with the completion line, the final size equal to the body length (app.py) and "100%" |
| DownloaderFacts.DownloadDisk | app.py:133-182 | the directory exists afterwards unless it could not be created; the file is untouched unless it was opened; an opened file holds a prefix of the body (a partial file is not removed) |
| DownloaderFacts.DownloadRequest | app.py:143-152 | the video URL is requested exactly once, with itself as the Referer, unless creating the directory failed |
| DownloaderFacts.DownloadProgress | app.py:160-173 | the progress updates of a download: climbing once the file is open with a positive size, one per non-empty chunk when the body fits, none otherwise |
| DownloaderFacts.DownloadReports | app.py:160-173 | once the file is open with a positive declared size, the download's progress updates are the running sizes of the non-empty chunks, in order, each with the declared total, until the model's write failure (see "## Left out") |
| DownloaderFacts.DownloadFinish | app.py:175-178 | exactly one "100%" is sent iff the download succeeds |
| DownloaderFacts.ExactLengthReachesHundred | app.py:160-177 | when the declared length equals the body, the last progress update is exactly 100% |
| DownloaderFacts.ProgressCanExceedHundred | app.py:160-177 | nothing caps the percentage: a declared length of 1 with a 2-byte body reports 200%, with the complete trace |
| DownloaderFacts.DownloadLastEvent | app.py:175-189 | a download's last effect is "100%" on success; on failure it is the app.py line for the first failing step |
| DownloaderFacts.DownloadVariantsAgree | vedio_spider.py:122-161 | vedio_spider.py's `download_video` gives the same result, the same file system and the same non-log effects as app.py's; every failure ends in its single generic failure line |
| Dispatch.FetchVideo | app.py:196-216 | the handler: no URL gives 400; nothing located gives 404; a located video is downloaded at once; the reply is the download link or 500 |
| Dispatch.FetchReplies | app.py:196-216 | 400 iff the form has no truthy URL; 404 iff no video is found; success iff the video is found and saved, with the located URL and the link to `downloads/video.mp4`; 500 otherwise |
| Dispatch.FetchFindsFirstTruthy | app.py:204-216 | a 404 means no truthy `src` was read; a success carries the first truthy one |
| Dispatch.FetchQuitsOnce | app.py:196-216 | a request with a URL quits the browser exactly once, and one without a URL never starts it |
| Dispatch.FetchDownloadsOnlyFound | app.py:196-216 | a 400 or 404 makes no HTTP request and leaves the file system unchanged; a success made exactly one request, for the video it reports |
| Dispatch.FetchVariantsAgree | vedio_spider.py:168-188 | the two scripts' `fetch_video` give the same reply, the same file system and the same non-log effects |

## Left out

- Start-up of the browser: `webdriver.Chrome(...)` sits outside the `try` in both scripts.
  If it fails, the exception leaves `get_video_url` without a quit and Flask answers 500.
  The model always starts the browser.
- `get_attribute('src')` and `switch_to.default_content()` raising: the model takes both to
  succeed. A raising `default_content` in the frame handler would end the attempt as an exception.
- Exception message texts, absolute paths in log lines, and the emoji and wording of log
  lines: each log line is a constructor with its data.
- `time.sleep` calls: timing is not modelled.
- The `User-Agent: Mozilla/5.0` request header: a request carries only the Referer, the one
  header whose value depends on the input.
- `block_size = 1024`: the chunks of a response are given as they arrive, with no bound on
  their size; the requests library decides the chunking.
- The server-side `print` echo of every log line and progress message in app.py's `send_log`
  and `send_progress`: it goes to the server console, not to the browser.
- Flask, Socket.IO, the `index` and `download` routes, and the JSON encoding of replies.
- The formatting of the percentage (`:.2f`): a progress update carries the exact numbers,
  and `Percent` is the real ratio, not a binary float.
- `f.write` failing part-way through a chunk: a chunk is written whole or raises before
  writing. Free disk space is the only write failure modelled besides a broken stream.
- Downloader.WriteBody, DownloaderFacts.StreamReports, DownloaderFacts.DownloadReports: the
  file is opened buffered (`open(filepath, 'wb')`), so a full disk may raise only at a later
  write or when the `with` block closes the file, after more progress updates were sent. The
  model raises on the first chunk that does not fit, at once, so the updates it promises stop
  there. The same simplification sits in `StreamOk` and `StreamFile`, whose "fits" is the
  model's disk, not the buffer.
- Concurrent requests: every request saves to the one fixed `downloads/video.mp4`. Two
  requests can race on that file, and a later request overwrites an earlier one's video. The
  model handles one request against one disk.
- Locator.GetVideoUrl: the browser's answers come from a list of page snapshots, and the
  model requires at least three of them, one per possible attempt. A run that stops early
  simply leaves the later ones unread.
- Where the documented behaviour of the service and its code differ, the model follows the code:
  - After a hit inside an iframe, the code returns without switching back to the default
    content. The model follows the code (`FramesHit`).
  - The final progress message is the literal "100%", not a formatted percentage.
  - The percentage is not clamped: a `content-length` smaller than the body gives updates
    above 100% (`ProgressCanExceedHundred`).
