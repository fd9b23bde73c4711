/** The video-URL locator, `get_video_url`: an ordered fallback search over a rendered page
    (top-level <video> tags, then <video> tags inside each <iframe>, then <source> tags, then
    five fixed player selectors), repeated for at most three attempts, with one driver.quit()
    on every exit.

    The browser is replaced by one page snapshot per attempt: what each lookup returns or
    whether it raises. The functions below specify the effects and the result; the methods
    are the loops of the source proved against them. */
module Locator {
  import opened Common

  /** `retry_count`: the number of attempts. */
  const RetryCount: nat := 3

  /** `video_players`: the CSS selectors of the last strategy, in the order they are tried. */
  const PlayerSelectors: seq<string> := [
    ".video-player video",
    ".player video",
    "#player video",
    "#video-player video",
    ".video-container video"
  ]

  /** The result of one `find_elements` call: the elements it listed, or an exception. */
  datatype Lookup<T> = Listed(items: seq<T>) | Raised

  /** Switching into one iframe and listing its <video> elements: the `src` values of those
      elements, or an exception from the switch or the lookup. */
  datatype Frame = FrameVideos(srcs: seq<Attr>) | FrameFailed

  /** One attempt's view of the page. `players` maps a selector to the `src` of the first
      element it matches; a selector absent from the map makes `find_element` raise. */
  datatype Page = Page(
    videos: Lookup<Attr>,
    frames: Lookup<Frame>,
    sources: Lookup<Attr>,
    players: map<string, Attr>)

  /** One attempt: `driver.get(url)` raised, or the page loaded. */
  datatype Attempt = LoadFailed | Loaded(page: Page)

  /** Scanning a list of `src` values: the first truthy one, or the last value read. */
  datatype Scan = Hit(url: string) | Miss(last: Attr)

  /** How a strategy, an attempt or the retry loop ends: an early return with a URL, a
      fall-through, or an exception; `last` is the value of `video_url` at that point. */
  datatype Outcome = Found(url: string) | Exhausted(last: Attr) | Failed(last: Attr)

  datatype Run = Run(outcome: Outcome, events: seq<Event>)

  /** What `get_video_url` returns, with the effects it had. */
  datatype Located = Located(videoUrl: Attr, events: seq<Event>)

  function Prepend(evs: seq<Event>, r: Run): Run
  {
    Run(r.outcome, evs + r.events)
  }

  /** The inner `for ... in elements: video_url = get_attribute('src'); if video_url: return`. */
  function ScanSrcs(srcs: seq<Attr>, cur: Attr): Scan
    decreases |srcs|
  {
    if srcs == [] then Miss(cur)
    else if Truthy(srcs[0]) then Hit(srcs[0].value)
    else ScanSrcs(srcs[1..], srcs[0])
  }

  /** A scan as a strategy outcome, with the success log line. */
  function Report(s: Strategy, scan: Scan): Run
  {
    match scan
    case Hit(u) => Run(Found(u), [Log(FoundVia(s, u))])
    case Miss(c) => Run(Exhausted(c), [])
  }

  /** A strategy over one tag lookup (<video> or <source> at the top level); a raising
      lookup ends the attempt. */
  function ListStep(v: Variant, s: Strategy, found: Lookup<Attr>, cur: Attr): Run
  {
    Prepend(AppLog(v, Searching(s)),
      match found
      case Raised => Run(Failed(cur), [])
      case Listed(srcs) => Report(s, ScanSrcs(srcs, cur)))
  }

  /** The iframe loop from the frame with index `k` on. A failing frame is skipped after
      a reset to the default content; a hit returns from inside the frame. */
  function ScanFrames(v: Variant, fs: seq<Frame>, k: nat, cur: Attr): Run
    decreases |fs|
  {
    if fs == [] then Run(Exhausted(cur), [])
    else
      match fs[0]
      case FrameFailed =>
        Prepend([SwitchToFrame(k)] + AppLog(v, FrameSwitchFailed) + [SwitchToDefault],
          ScanFrames(v, fs[1..], k + 1, cur))
      case FrameVideos(srcs) =>
        match ScanSrcs(srcs, cur)
        case Hit(u) => Run(Found(u), [SwitchToFrame(k), Log(FoundVia(IframeVideo, u))])
        case Miss(c) => Prepend([SwitchToFrame(k), SwitchToDefault], ScanFrames(v, fs[1..], k + 1, c))
  }

  function FramesStep(v: Variant, found: Lookup<Frame>, cur: Attr): Run
  {
    Prepend(AppLog(v, Searching(IframeVideo)),
      match found
      case Raised => Run(Failed(cur), [])
      case Listed(fs) => ScanFrames(v, fs, 0, cur))
  }

  /** The `src` values the selector loop reads: one per selector whose lookup succeeds. */
  function Hits(sels: seq<string>, players: map<string, Attr>): seq<Attr>
    decreases |sels|
  {
    if sels == [] then []
    else (if sels[0] in players then [players[sels[0]]] else []) + Hits(sels[1..], players)
  }

  function PlayersStep(v: Variant, players: map<string, Attr>, cur: Attr): Run
  {
    Prepend(AppLog(v, Searching(PlayerSelector)),
      Report(PlayerSelector, ScanSrcs(Hits(PlayerSelectors, players), cur)))
  }

  /** The four strategies of one attempt on a loaded page, first success wins: the
      <video> strategy, then `FromFrames` on a fall-through. */
  function PageRun(v: Variant, p: Page, cur: Attr): Run
  {
    var r := ListStep(v, VideoTag, p.videos, cur);
    if !r.outcome.Exhausted? then r else Prepend(r.events, FromFrames(v, p, r.outcome.last))
  }

  /** The iframe strategy, then `FromSources` on a fall-through. */
  function FromFrames(v: Variant, p: Page, cur: Attr): Run
  {
    var r := FramesStep(v, p.frames, cur);
    if !r.outcome.Exhausted? then r else Prepend(r.events, FromSources(v, p, r.outcome.last))
  }

  /** The <source> strategy, then the player selectors on a fall-through. */
  function FromSources(v: Variant, p: Page, cur: Attr): Run
  {
    var r := ListStep(v, SourceTag, p.sources, cur);
    if !r.outcome.Exhausted? then r else Prepend(r.events, PlayersStep(v, p.players, r.outcome.last))
  }

  /** Attempt number `k` (counted from 0). */
  function AttemptRun(v: Variant, k: nat, url: string, a: Attempt, cur: Attr): Run
  {
    var intro := AppLog(v, AttemptStarted(k + 1)) + [Navigate(url)];
    match a
    case LoadFailed => Run(Failed(cur), intro)
    case Loaded(p) => Prepend(intro, PageRun(v, p, cur))
  }

  /** The log line that closes an attempt without a result. */
  function Closing(failed: bool, k: nat): LogLine
  {
    if k < RetryCount - 1 then (if failed then RetryAfterError(k + 1) else RetryAfterMiss(k + 1))
    else (if failed then ParseError else GaveUp)
  }

  /** The retry loop from attempt `k` on. */
  function Retry(v: Variant, url: string, attempts: seq<Attempt>, k: nat, cur: Attr): Run
    requires |attempts| >= RetryCount && k <= RetryCount
    decreases RetryCount - k
  {
    if k == RetryCount then Run(Exhausted(cur), [])
    else
      var r := AttemptRun(v, k, url, attempts[k], cur);
      match r.outcome
      case Found(_) => r
      case Exhausted(c) => Prepend(r.events + [Log(Closing(false, k))], Retry(v, url, attempts, k + 1, c))
      case Failed(c) => Prepend(r.events + [Log(Closing(true, k))], Retry(v, url, attempts, k + 1, c))
  }

  /** `get_video_url(url)` when attempt `k` sees `attempts[k]`. */
  function Locate(v: Variant, url: string, attempts: seq<Attempt>): Located
    requires |attempts| >= RetryCount
  {
    var r := Retry(v, url, attempts, 0, None);
    var result := match r.outcome
      case Found(u) => Some(u)
      case Exhausted(c) => c
      case Failed(c) => c;
    Located(result, [Log(Visiting(url))] + r.events + [Quit])
  }

  /** One `for ... in elements` loop over `src` values. */
  method FirstSrc(srcs: seq<Attr>, cur: Attr) returns (scan: Scan)
    ensures scan == ScanSrcs(srcs, cur)
  {
    var videoUrl := cur;
    var i := 0;
    ghost var whole := ScanSrcs(srcs, cur);
    while i < |srcs|
      invariant 0 <= i <= |srcs|
      invariant whole == ScanSrcs(srcs[i..], videoUrl)
    {
      assert srcs[i..][1..] == srcs[i + 1..];
      videoUrl := srcs[i];
      if Truthy(videoUrl) {
        return Hit(videoUrl.value);
      }
      i := i + 1;
    }
    return Miss(videoUrl);
  }

  /** The <video> strategy or the <source> strategy. */
  method SearchTags(v: Variant, s: Strategy, found: Lookup<Attr>, cur: Attr)
    returns (outcome: Outcome, events: seq<Event>)
    ensures Run(outcome, events) == ListStep(v, s, found, cur)
  {
    events := AppLog(v, Searching(s));
    if found.Raised? {
      return Failed(cur), events;
    }
    var scan := FirstSrc(found.items, cur);
    if scan.Hit? {
      return Found(scan.url), events + [Log(FoundVia(s, scan.url))];
    }
    return Exhausted(scan.last), events;
  }

  /** The iframe strategy. */
  method SearchFrames(v: Variant, found: Lookup<Frame>, cur: Attr)
    returns (outcome: Outcome, events: seq<Event>)
    ensures Run(outcome, events) == FramesStep(v, found, cur)
  {
    events := AppLog(v, Searching(IframeVideo));
    if found.Raised? {
      return Failed(cur), events;
    }
    var frames := found.items;
    var trace := [];
    var videoUrl := cur;
    var i := 0;
    ghost var whole := ScanFrames(v, frames, 0, cur);
    while i < |frames|
      invariant 0 <= i <= |frames|
      invariant whole == Prepend(trace, ScanFrames(v, frames[i..], i, videoUrl))
    {
      ScanFramesStep(v, frames, i, videoUrl);
      ghost var rest := ScanFrames(v, frames[i + 1..], i + 1, videoUrl);
      match frames[i] {
        case FrameFailed =>
          var step := [SwitchToFrame(i)] + AppLog(v, FrameSwitchFailed) + [SwitchToDefault];
          PrependTwice(trace, step, rest);
          trace := trace + step;
        case FrameVideos(srcs) =>
          var scan := FirstSrc(srcs, videoUrl);
          if scan.Hit? {
            PrependTwice(events, trace, Run(Found(scan.url), [SwitchToFrame(i), Log(FoundVia(IframeVideo, scan.url))]));
            return Found(scan.url), events + trace + [SwitchToFrame(i), Log(FoundVia(IframeVideo, scan.url))];
          }
          PrependTwice(trace, [SwitchToFrame(i), SwitchToDefault], ScanFrames(v, frames[i + 1..], i + 1, scan.last));
          trace := trace + [SwitchToFrame(i), SwitchToDefault];
          videoUrl := scan.last;
      }
      i := i + 1;
    }
    PrependTwice(events, trace, Run(Exhausted(videoUrl), []));
    return Exhausted(videoUrl), events + trace;
  }

  lemma ScanFramesStep(v: Variant, fs: seq<Frame>, i: nat, cur: Attr)
    requires i < |fs|
    ensures ScanFrames(v, fs[i..], i, cur) ==
      match fs[i]
      case FrameFailed =>
        Prepend([SwitchToFrame(i)] + AppLog(v, FrameSwitchFailed) + [SwitchToDefault],
          ScanFrames(v, fs[i + 1..], i + 1, cur))
      case FrameVideos(srcs) =>
        match ScanSrcs(srcs, cur)
        case Hit(u) => Run(Found(u), [SwitchToFrame(i), Log(FoundVia(IframeVideo, u))])
        case Miss(c) => Prepend([SwitchToFrame(i), SwitchToDefault], ScanFrames(v, fs[i + 1..], i + 1, c))
  {
    assert fs[i..][0] == fs[i] && fs[i..][1..] == fs[i + 1..];
  }

  /** The player-selector strategy over the fixed `PlayerSelectors`. */
  method SearchPlayers(v: Variant, players: map<string, Attr>, cur: Attr)
    returns (outcome: Outcome, events: seq<Event>)
    ensures Run(outcome, events) == PlayersStep(v, players, cur)
  {
    events := AppLog(v, Searching(PlayerSelector));
    var scan := FirstMatch(PlayerSelectors, players, cur);
    if scan.Hit? {
      return Found(scan.url), events + [Log(FoundVia(PlayerSelector, scan.url))];
    }
    return Exhausted(scan.last), events;
  }

  /** `for selector in video_players: try: find_element(selector) ... except: continue`,
      for any ordered list of selectors. */
  method FirstMatch(sels: seq<string>, players: map<string, Attr>, cur: Attr) returns (scan: Scan)
    ensures scan == ScanSrcs(Hits(sels, players), cur)
  {
    var videoUrl := cur;
    var i := 0;
    ghost var whole := ScanSrcs(Hits(sels, players), cur);
    while i < |sels|
      invariant 0 <= i <= |sels|
      invariant whole == ScanSrcs(Hits(sels[i..], players), videoUrl)
    {
      var selector := sels[i];
      ScanHitsStep(sels, i, players, videoUrl);
      if selector in players {
        videoUrl := players[selector];
        if Truthy(videoUrl) {
          return Hit(videoUrl.value);
        }
      }
      i := i + 1;
    }
    return Miss(videoUrl);
  }

  lemma ScanHitsStep(sels: seq<string>, i: nat, players: map<string, Attr>, cur: Attr)
    requires i < |sels|
    ensures ScanSrcs(Hits(sels[i..], players), cur) ==
      if sels[i] !in players then ScanSrcs(Hits(sels[i + 1..], players), cur)
      else if Truthy(players[sels[i]]) then Hit(players[sels[i]].value)
      else ScanSrcs(Hits(sels[i + 1..], players), players[sels[i]])
  {
    assert sels[i..][0] == sels[i] && sels[i..][1..] == sels[i + 1..];
    var rest := Hits(sels[i + 1..], players);
    if sels[i] in players {
      var h := [players[sels[i]]] + rest;
      assert Hits(sels[i..], players) == h;
      assert h[0] == players[sels[i]] && h[1..] == rest;
    } else {
      assert Hits(sels[i..], players) == [] + rest == rest;
    }
  }

  /** The body of one attempt, up to the log line that closes it. The attempt's `try`
      block is the chain of the four strategy methods below; an `Outcome.Failed` is the
      exception its `except` clause catches. */
  method RunAttempt(v: Variant, k: nat, url: string, a: Attempt, cur: Attr)
    returns (outcome: Outcome, events: seq<Event>)
    ensures Run(outcome, events) == AttemptRun(v, k, url, a, cur)
  {
    events := AppLog(v, AttemptStarted(k + 1)) + [Navigate(url)];
    if a.LoadFailed? {
      return Failed(cur), events;
    }
    var evs;
    outcome, evs := RunPage(v, a.page, cur);
    events := events + evs;
  }

  /** 1. The top-level <video> tags. */
  method RunPage(v: Variant, page: Page, cur: Attr) returns (outcome: Outcome, events: seq<Event>)
    ensures Run(outcome, events) == PageRun(v, page, cur)
  {
    outcome, events := SearchTags(v, VideoTag, page.videos, cur);
    if outcome.Exhausted? {
      var evs;
      outcome, evs := RunFromFrames(v, page, outcome.last);
      events := events + evs;
    }
  }

  /** 2. The <video> tags inside each <iframe>. */
  method RunFromFrames(v: Variant, page: Page, cur: Attr) returns (outcome: Outcome, events: seq<Event>)
    ensures Run(outcome, events) == FromFrames(v, page, cur)
  {
    outcome, events := SearchFrames(v, page.frames, cur);
    if outcome.Exhausted? {
      var evs;
      outcome, evs := RunFromSources(v, page, outcome.last);
      events := events + evs;
    }
  }

  /** 3. The <source> tags, then 4. the player selectors. */
  method RunFromSources(v: Variant, page: Page, cur: Attr) returns (outcome: Outcome, events: seq<Event>)
    ensures Run(outcome, events) == FromSources(v, page, cur)
  {
    outcome, events := SearchTags(v, SourceTag, page.sources, cur);
    if outcome.Exhausted? {
      var evs;
      outcome, evs := SearchPlayers(v, page.players, outcome.last);
      events := events + evs;
    }
  }

  /** `get_video_url`: the retry loop; the single quit after it is the `finally` clause. */
  method GetVideoUrl(v: Variant, url: string, attempts: seq<Attempt>)
    returns (videoUrl: Attr, events: seq<Event>)
    requires |attempts| >= RetryCount
    ensures Located(videoUrl, events) == Locate(v, url, attempts)
  {
    var trace := [];
    videoUrl := None;
    var attempt := 0;
    ghost var whole := Retry(v, url, attempts, 0, None);
    while attempt < RetryCount
      invariant 0 <= attempt <= RetryCount
      invariant whole == Prepend(trace, Retry(v, url, attempts, attempt, videoUrl))
    {
      var outcome, evs := RunAttempt(v, attempt, url, attempts[attempt], videoUrl);
      if outcome.Found? {
        RetryFound(v, url, attempts, attempt, videoUrl, trace, outcome, evs);
        trace := trace + evs;
        videoUrl := Some(outcome.url);
        break;
      }
      var closing := [Log(Closing(outcome.Failed?, attempt))];
      RetryStep(v, url, attempts, attempt, videoUrl, trace, outcome, evs);
      trace := trace + evs + closing;
      videoUrl := outcome.last;
      attempt := attempt + 1;
    }
    events := [Log(Visiting(url))] + trace + [Quit];
    LocateResult(v, url, attempts, trace, videoUrl);
  }

  /** The retry loop ends at an attempt that finds a URL. */
  lemma RetryFound(v: Variant, url: string, attempts: seq<Attempt>, k: nat, cur: Attr,
                   trace: seq<Event>, outcome: Outcome, evs: seq<Event>)
    requires |attempts| >= RetryCount && k < RetryCount
    requires Run(outcome, evs) == AttemptRun(v, k, url, attempts[k], cur)
    requires Retry(v, url, attempts, 0, None) == Prepend(trace, Retry(v, url, attempts, k, cur))
    requires outcome.Found?
    ensures Retry(v, url, attempts, 0, None) == Run(outcome, trace + evs)
  {
  }

  /** The located URL and the effects, once the whole retry loop is known. */
  lemma LocateResult(v: Variant, url: string, attempts: seq<Attempt>, trace: seq<Event>, videoUrl: Attr)
    requires |attempts| >= RetryCount
    requires Retry(v, url, attempts, 0, None) == Prepend(trace, Retry(v, url, attempts, RetryCount, videoUrl))
          || (videoUrl.Some? && Retry(v, url, attempts, 0, None) == Run(Found(videoUrl.value), trace))
    ensures Locate(v, url, attempts) == Located(videoUrl, [Log(Visiting(url))] + trace + [Quit])
  {
    assert trace + [] == trace;
  }

  /** One turn of the retry loop without a result keeps the loop invariant of `GetVideoUrl`. */
  lemma RetryStep(v: Variant, url: string, attempts: seq<Attempt>, k: nat, cur: Attr,
                  trace: seq<Event>, outcome: Outcome, evs: seq<Event>)
    requires |attempts| >= RetryCount && k < RetryCount
    requires Run(outcome, evs) == AttemptRun(v, k, url, attempts[k], cur)
    requires Retry(v, url, attempts, 0, None) == Prepend(trace, Retry(v, url, attempts, k, cur))
    requires !outcome.Found?
    ensures Retry(v, url, attempts, 0, None)
         == Prepend(trace + evs + [Log(Closing(outcome.Failed?, k))], Retry(v, url, attempts, k + 1, outcome.last))
  {
    RetryTurn(v, url, attempts, k, cur, outcome, evs);
    PrependChain(Retry(v, url, attempts, 0, None), Retry(v, url, attempts, k, cur),
                 Retry(v, url, attempts, k + 1, outcome.last), trace, evs, [Log(Closing(outcome.Failed?, k))]);
  }

  lemma PrependChain(whole: Run, here: Run, next: Run, trace: seq<Event>, evs: seq<Event>, closing: seq<Event>)
    requires whole == Prepend(trace, here) && here == Prepend(evs + closing, next)
    ensures whole == Prepend(trace + evs + closing, next)
  {
    PrependTwice(trace, evs + closing, next);
    assert trace + (evs + closing) == trace + evs + closing;
  }

  /** An attempt without a result is followed by its closing line and the next attempt. */
  lemma RetryTurn(v: Variant, url: string, attempts: seq<Attempt>, k: nat, cur: Attr, outcome: Outcome, evs: seq<Event>)
    requires |attempts| >= RetryCount && k < RetryCount
    requires Run(outcome, evs) == AttemptRun(v, k, url, attempts[k], cur) && !outcome.Found?
    ensures Retry(v, url, attempts, k, cur)
         == Prepend(evs + [Log(Closing(outcome.Failed?, k))], Retry(v, url, attempts, k + 1, outcome.last))
  {
  }

  lemma PrependTwice(a: seq<Event>, b: seq<Event>, r: Run)
    ensures Prepend(a, Prepend(b, r)) == Prepend(a + b, r)
  {
    assert a + (b + r.events) == (a + b) + r.events;
  }
}
