/** What the locator's specification promises. The central fact is `LocateFindsFirstTruthy`:
    `get_video_url` returns the first truthy `src` among all values it reads, in the order
    <video> tags, iframe <video> tags, <source> tags, player selectors, over at most three
    attempts, and otherwise the last value it read. The other lemmas are about its effects:
    frame switching, the number of page loads and the single quit, and the two variants. */
module LocatorFacts {
  import opened Common
  import opened Locator

  ghost predicate IsFirstTruthy(srcs: seq<Attr>, i: int)
  {
    0 <= i < |srcs| && Truthy(srcs[i]) && forall j :: 0 <= j < i ==> !Truthy(srcs[j])
  }

  /** A scan returns at the first truthy value; without one it ends on the last value read. */
  lemma {:induction false} ScanHitIff(srcs: seq<Attr>, cur: Attr)
    ensures ScanSrcs(srcs, cur).Hit? <==> exists i :: 0 <= i < |srcs| && Truthy(srcs[i])
  {
    if srcs != [] && !Truthy(srcs[0]) {
      var rest := srcs[1..];
      ScanHitIff(rest, srcs[0]);
      if exists i :: 0 <= i < |srcs| && Truthy(srcs[i]) {
        var i :| 0 <= i < |srcs| && Truthy(srcs[i]);
        assert Truthy(rest[i - 1]);
      }
      if exists i :: 0 <= i < |rest| && Truthy(rest[i]) {
        var i :| 0 <= i < |rest| && Truthy(rest[i]);
        assert Truthy(srcs[i + 1]);
      }
    }
  }

  lemma {:induction false} ScanFirst(srcs: seq<Attr>, cur: Attr)
    ensures forall i :: IsFirstTruthy(srcs, i) ==> ScanSrcs(srcs, cur) == Hit(srcs[i].value)
  {
    if srcs != [] && !Truthy(srcs[0]) {
      var rest := srcs[1..];
      ScanFirst(rest, srcs[0]);
      forall i | IsFirstTruthy(srcs, i)
        ensures ScanSrcs(srcs, cur) == Hit(srcs[i].value)
      {
        assert i > 0;
        assert IsFirstTruthy(rest, i - 1);
      }
    }
  }

  lemma {:induction false} ScanMissLast(srcs: seq<Attr>, cur: Attr)
    ensures ScanSrcs(srcs, cur).Miss? ==>
      ScanSrcs(srcs, cur).last == if srcs == [] then cur else srcs[|srcs| - 1]
  {
    if srcs != [] && !Truthy(srcs[0]) {
      ScanMissLast(srcs[1..], srcs[0]);
    }
  }

  /** Scanning two lists one after the other is scanning their concatenation. */
  lemma {:induction false} ScanSrcsAppend(a: seq<Attr>, b: seq<Attr>, cur: Attr)
    ensures ScanSrcs(a + b, cur) == match ScanSrcs(a, cur) case Hit(u) => Hit(u) case Miss(c) => ScanSrcs(b, c)
  {
    if a == [] {
      assert a + b == b;
    } else {
      assert (a + b)[0] == a[0] && (a + b)[1..] == a[1..] + b;
      if !Truthy(a[0]) {
        ScanSrcsAppend(a[1..], b, a[0]);
      }
    }
  }

  /** The `src` values an attempt reads, in order, and whether a lookup raised after them. */
  datatype Reads = Reads(srcs: seq<Attr>, raised: bool)

  /** The values read inside the iframes: a failing frame contributes none. */
  function FrameReads(fs: seq<Frame>): seq<Attr>
    decreases |fs|
  {
    if fs == [] then []
    else (match fs[0] case FrameFailed => [] case FrameVideos(srcs) => srcs) + FrameReads(fs[1..])
  }

  function SourceReads(p: Page): Reads
  {
    match p.sources
    case Raised => Reads([], true)
    case Listed(ss) => Reads(ss + Hits(PlayerSelectors, p.players), false)
  }

  function FromFrameReads(p: Page): Reads
  {
    match p.frames
    case Raised => Reads([], true)
    case Listed(fs) => Reads(FrameReads(fs) + SourceReads(p).srcs, SourceReads(p).raised)
  }

  /** The inspection order of one loaded page: <video>, iframes, <source>, player selectors. */
  function PageReads(p: Page): Reads
  {
    match p.videos
    case Raised => Reads([], true)
    case Listed(vs) => Reads(vs + FromFrameReads(p).srcs, FromFrameReads(p).raised)
  }

  function AttemptReads(a: Attempt): Reads
  {
    match a
    case LoadFailed => Reads([], true)
    case Loaded(p) => PageReads(p)
  }

  /** Every value read by attempts `k` to `RetryCount - 1`, in order. */
  function AllReads(attempts: seq<Attempt>, k: nat): seq<Attr>
    requires |attempts| >= RetryCount && k <= RetryCount
    decreases RetryCount - k
  {
    if k == RetryCount then [] else AttemptReads(attempts[k]).srcs + AllReads(attempts, k + 1)
  }

  /** The outcome of a scan, given whether an exception followed the values scanned. */
  function Lift(scan: Scan, raised: bool): Outcome
  {
    match scan
    case Hit(u) => Found(u)
    case Miss(c) => if raised then Failed(c) else Exhausted(c)
  }

  lemma LiftAppend(a: seq<Attr>, t: Reads, cur: Attr)
    ensures Lift(ScanSrcs(a + t.srcs, cur), t.raised)
         == match ScanSrcs(a, cur) case Hit(u) => Found(u) case Miss(c) => Lift(ScanSrcs(t.srcs, c), t.raised)
  {
    ScanSrcsAppend(a, t.srcs, cur);
  }

  lemma {:induction false} FramesOutcome(v: Variant, fs: seq<Frame>, k: nat, cur: Attr)
    ensures ScanFrames(v, fs, k, cur).outcome == Lift(ScanSrcs(FrameReads(fs), cur), false)
    decreases |fs|
  {
    if fs != [] {
      match fs[0]
      case FrameFailed =>
        assert FrameReads(fs) == FrameReads(fs[1..]);
        FramesOutcome(v, fs[1..], k + 1, cur);
      case FrameVideos(srcs) =>
        ScanSrcsAppend(srcs, FrameReads(fs[1..]), cur);
        if ScanSrcs(srcs, cur).Miss? {
          FramesOutcome(v, fs[1..], k + 1, ScanSrcs(srcs, cur).last);
        }
    }
  }

  lemma SourcesOutcome(v: Variant, p: Page, cur: Attr)
    ensures FromSources(v, p, cur).outcome == Lift(ScanSrcs(SourceReads(p).srcs, cur), SourceReads(p).raised)
  {
    if p.sources.Listed? {
      ScanSrcsAppend(p.sources.items, Hits(PlayerSelectors, p.players), cur);
    }
  }

  lemma FromFramesOutcome(v: Variant, p: Page, cur: Attr)
    ensures FromFrames(v, p, cur).outcome == Lift(ScanSrcs(FromFrameReads(p).srcs, cur), FromFrameReads(p).raised)
  {
    if p.frames.Listed? {
      var fs := p.frames.items;
      FramesOutcome(v, fs, 0, cur);
      LiftAppend(FrameReads(fs), SourceReads(p), cur);
      var scan := ScanSrcs(FrameReads(fs), cur);
      if scan.Miss? {
        SourcesOutcome(v, p, scan.last);
      }
    }
  }

  /** One loaded page: the first truthy value in inspection order wins; without one, the
      attempt falls through, or fails if a lookup raised. */
  lemma PageOutcome(v: Variant, p: Page, cur: Attr)
    ensures PageRun(v, p, cur).outcome == Lift(ScanSrcs(PageReads(p).srcs, cur), PageReads(p).raised)
  {
    if p.videos.Listed? {
      var vs := p.videos.items;
      LiftAppend(vs, FromFrameReads(p), cur);
      var scan := ScanSrcs(vs, cur);
      if scan.Miss? {
        FromFramesOutcome(v, p, scan.last);
      }
    }
  }

  lemma AttemptOutcome(v: Variant, k: nat, url: string, a: Attempt, cur: Attr)
    ensures AttemptRun(v, k, url, a, cur).outcome == Lift(ScanSrcs(AttemptReads(a).srcs, cur), AttemptReads(a).raised)
  {
    if a.Loaded? {
      PageOutcome(v, a.page, cur);
    }
  }

  /** The retry loop scans the values of all remaining attempts as one list: an exception
      ends an attempt, never the loop. */
  lemma {:induction false} RetryOutcome(v: Variant, url: string, attempts: seq<Attempt>, k: nat, cur: Attr)
    requires |attempts| >= RetryCount && k <= RetryCount
    ensures Retry(v, url, attempts, k, cur).outcome == Lift(ScanSrcs(AllReads(attempts, k), cur), false)
    decreases RetryCount - k
  {
    if k < RetryCount {
      var scan := RetryOutcomeStep(v, url, attempts, k, cur);
      ScanSrcsAppend(AttemptReads(attempts[k]).srcs, AllReads(attempts, k + 1), cur);
      if scan.Miss? {
        RetryOutcome(v, url, attempts, k + 1, scan.last);
      }
    }
  }

  /** One round of the retry loop: a truthy value ends the loop, anything else hands the
      last value read to the next attempt. */
  lemma RetryOutcomeStep(v: Variant, url: string, attempts: seq<Attempt>, k: nat, cur: Attr)
    returns (scan: Scan)
    requires |attempts| >= RetryCount && k < RetryCount
    ensures scan == ScanSrcs(AttemptReads(attempts[k]).srcs, cur)
    ensures Retry(v, url, attempts, k, cur).outcome
         == match scan case Hit(u) => Found(u) case Miss(c) => Retry(v, url, attempts, k + 1, c).outcome
  {
    AttemptOutcome(v, k, url, attempts[k], cur);
    scan := ScanSrcs(AttemptReads(attempts[k]).srcs, cur);
  }

  /** `get_video_url` returns the first truthy `src` it reads over all attempts, in the
      order <video> tags, iframe <video> tags, <source> tags, player selectors; an absent
      or empty `src`, a failing frame, a failing selector and a failing attempt never end
      the search. When nothing is found, the result is falsy: the last `src` value read,
      or None when none was read. */
  lemma LocateFindsFirstTruthy(v: Variant, url: string, attempts: seq<Attempt>)
    requires |attempts| >= RetryCount
    ensures var seen := AllReads(attempts, 0);
      var result := Locate(v, url, attempts).videoUrl;
      && (Truthy(result) <==> exists i :: 0 <= i < |seen| && Truthy(seen[i]))
      && (forall i :: IsFirstTruthy(seen, i) ==> result == seen[i])
      && (!Truthy(result) ==> result == if seen == [] then None else seen[|seen| - 1])
  {
    var seen := AllReads(attempts, 0);
    RetryOutcome(v, url, attempts, 0, None);
    ScanHitIff(seen, None);
    ScanFirst(seen, None);
    ScanMissLast(seen, None);
    var result := Locate(v, url, attempts).videoUrl;
    if ScanSrcs(seen, None).Hit? {
      var i :| 0 <= i < |seen| && Truthy(seen[i]);
      FirstTruthyExists(seen, i);
    } else {
      if seen != [] {
        assert !Truthy(seen[|seen| - 1]);
      }
    }
  }

  lemma FirstTruthyExists(srcs: seq<Attr>, i: int)
    requires 0 <= i < |srcs| && Truthy(srcs[i])
    ensures exists j :: IsFirstTruthy(srcs, j)
    decreases i
  {
    if !IsFirstTruthy(srcs, i) {
      var j :| 0 <= j < i && Truthy(srcs[j]);
      FirstTruthyExists(srcs, j);
    }
  }

  /** The browsing context after the switches in `evs`, starting from `c`. */
  datatype Context = TopLevel | InFrame(index: nat)

  /** The context after one event. */
  function Switch(e: Event, c: Context): Context
  {
    match e
    case SwitchToFrame(i) => InFrame(i)
    case SwitchToDefault => TopLevel
    case _ => c
  }

  function ContextAfter(evs: seq<Event>, c: Context): Context
    decreases |evs|
  {
    if evs == [] then c else ContextAfter(evs[1..], Switch(evs[0], c))
  }

  lemma {:induction false} ContextConcat(a: seq<Event>, b: seq<Event>, c: Context)
    ensures ContextAfter(a + b, c) == ContextAfter(b, ContextAfter(a, c))
    decreases |a|
  {
    if a == [] {
      assert a + b == b;
    } else {
      assert (a + b)[0] == a[0] && (a + b)[1..] == a[1..] + b;
      ContextConcat(a[1..], b, Switch(a[0], c));
    }
  }

  /** The context switches of entering and leaving the frames `k`, `k + 1`, ..., `k + n - 1`
      in turn: each entry is followed by a reset to the default content. */
  function Visits(k: nat, n: nat): seq<Event>
    decreases n
  {
    if n == 0 then [] else [SwitchToFrame(k), SwitchToDefault] + Visits(k + 1, n - 1)
  }

  /** The iframe loop tries the frames in order and resets the context to the default after
      each frame that fails or holds no truthy `src`: when it falls through, every frame was
      entered and left once, in order, and the context is the top level again. */
  lemma {:induction false} FramesFallThrough(v: Variant, fs: seq<Frame>, k: nat, cur: Attr)
    requires ScanFrames(v, fs, k, cur).outcome.Exhausted?
    ensures ContextAfter(ScanFrames(v, fs, k, cur).events, TopLevel) == TopLevel
    ensures Filter(ScanFrames(v, fs, k, cur).events, IsContextSwitch) == Visits(k, |fs|)
    decreases |fs|
  {
    if fs != [] {
      var step, next := MissStep(v, fs, k, cur);
      FramesFallThrough(v, fs[1..], k + 1, next);
      LeftAll(step, ScanFrames(v, fs[1..], k + 1, next).events, k, |fs[1..]|);
    }
  }

  /** A frame that yields nothing is entered and left before the scan goes on with the
      next frame. */
  lemma MissStep(v: Variant, fs: seq<Frame>, k: nat, cur: Attr) returns (step: seq<Event>, next: Attr)
    requires fs != [] && ScanFrames(v, fs, k, cur).outcome.Exhausted?
    ensures ScanFrames(v, fs[1..], k + 1, next).outcome.Exhausted?
    ensures ScanFrames(v, fs, k, cur).events == step + ScanFrames(v, fs[1..], k + 1, next).events
    ensures ContextAfter(step, TopLevel) == TopLevel
    ensures Filter(step, IsContextSwitch) == [SwitchToFrame(k), SwitchToDefault]
  {
    next := if fs[0].FrameVideos? then ScanSrcs(fs[0].srcs, cur).last else cur;
    step := if fs[0].FrameVideos? then [SwitchToFrame(k), SwitchToDefault]
            else [SwitchToFrame(k)] + AppLog(v, FrameSwitchFailed) + [SwitchToDefault];
    assert ScanFrames(v, fs, k, cur) == Prepend(step, ScanFrames(v, fs[1..], k + 1, next));
    LeaveFrame(step, k, TopLevel);
  }

  /** Entering and leaving frame `k`, then visiting the next `n` frames, is visiting `n + 1`. */
  lemma LeftAll(step: seq<Event>, rest: seq<Event>, k: nat, n: nat)
    requires ContextAfter(step, TopLevel) == TopLevel
    requires Filter(step, IsContextSwitch) == [SwitchToFrame(k), SwitchToDefault]
    requires ContextAfter(rest, TopLevel) == TopLevel
    requires Filter(rest, IsContextSwitch) == Visits(k + 1, n)
    ensures ContextAfter(step + rest, TopLevel) == TopLevel
    ensures Filter(step + rest, IsContextSwitch) == Visits(k, n + 1)
  {
    ContextConcat(step, rest, TopLevel);
    FilterConcat(step, rest, IsContextSwitch);
  }

  /** A frame whose <video> elements include a truthy `src`. */
  ghost predicate Holds(f: Frame)
  {
    f.FrameVideos? && exists i :: 0 <= i < |f.srcs| && Truthy(f.srcs[i])
  }

  /** Frame `j` is the first frame of `fs` that holds a video. */
  ghost predicate IsFirstHolding(fs: seq<Frame>, j: int)
  {
    0 <= j < |fs| && Holds(fs[j]) && forall m :: 0 <= m < j ==> !Holds(fs[m])
  }

  lemma FirstHoldingShift(fs: seq<Frame>, j: int)
    requires fs != [] && !Holds(fs[0])
    ensures IsFirstHolding(fs, j) <==> j >= 1 && IsFirstHolding(fs[1..], j - 1)
  {
    assert forall m :: 1 <= m < |fs| ==> fs[1..][m - 1] == fs[m];
  }

  /** The trace `evs` of the iframe loop from frame `k` ends inside the first frame of `fs`
      that holds a video, after entering and leaving every earlier frame in order. */
  ghost predicate EndsInFirstHolding(fs: seq<Frame>, k: nat, evs: seq<Event>)
  {
    && (exists j :: IsFirstHolding(fs, j))
    && forall j :: IsFirstHolding(fs, j) ==>
         && ContextAfter(evs, TopLevel) == InFrame(k + j)
         && Filter(evs, IsContextSwitch) == Visits(k, j) + [SwitchToFrame(k + j)]
  }

  /** A hit returns from inside the first frame that holds a video, without switching
      back, after entering and leaving every earlier frame in order. */
  lemma {:induction false} FramesHit(v: Variant, fs: seq<Frame>, k: nat, cur: Attr)
    requires ScanFrames(v, fs, k, cur).outcome.Found?
    ensures EndsInFirstHolding(fs, k, ScanFrames(v, fs, k, cur).events)
    decreases |fs|
  {
    if fs[0].FrameVideos? && ScanSrcs(fs[0].srcs, cur).Hit? {
      HitHere(v, fs, k, cur);
    } else {
      var next := if fs[0].FrameVideos? then ScanSrcs(fs[0].srcs, cur).last else cur;
      assert ScanFrames(v, fs[1..], k + 1, next).outcome == ScanFrames(v, fs, k, cur).outcome;
      FramesHit(v, fs[1..], k + 1, next);
      HitLater(v, fs, k, cur);
    }
  }

  lemma HitHere(v: Variant, fs: seq<Frame>, k: nat, cur: Attr)
    requires fs != [] && fs[0].FrameVideos? && ScanSrcs(fs[0].srcs, cur).Hit?
    ensures EndsInFirstHolding(fs, k, ScanFrames(v, fs, k, cur).events)
  {
    var u := ScanSrcs(fs[0].srcs, cur).url;
    ScanHitIff(fs[0].srcs, cur);
    StayInFrame(k, u);
    assert ScanFrames(v, fs, k, cur).events == [SwitchToFrame(k), Log(FoundVia(IframeVideo, u))];
    assert IsFirstHolding(fs, 0);
    assert Visits(k, 0) + [SwitchToFrame(k + 0)] == [SwitchToFrame(k)];
  }

  lemma HitLater(v: Variant, fs: seq<Frame>, k: nat, cur: Attr)
    requires fs != [] && !(fs[0].FrameVideos? && ScanSrcs(fs[0].srcs, cur).Hit?)
    requires var next := if fs[0].FrameVideos? then ScanSrcs(fs[0].srcs, cur).last else cur;
      EndsInFirstHolding(fs[1..], k + 1, ScanFrames(v, fs[1..], k + 1, next).events)
    ensures EndsInFirstHolding(fs, k, ScanFrames(v, fs, k, cur).events)
  {
    if fs[0].FrameVideos? {
      ScanHitIff(fs[0].srcs, cur);
    }
    var next := if fs[0].FrameVideos? then ScanSrcs(fs[0].srcs, cur).last else cur;
    var step := if fs[0].FrameVideos? then [SwitchToFrame(k), SwitchToDefault]
                else [SwitchToFrame(k)] + AppLog(v, FrameSwitchFailed) + [SwitchToDefault];
    var rest := ScanFrames(v, fs[1..], k + 1, next).events;
    assert ScanFrames(v, fs, k, cur).events == step + rest;
    LeaveFrame(step, k, TopLevel);
    EndsAfterLeaving(fs, k, step, rest);
  }

  /** Entering and leaving a frame that holds no video, then ending in the first frame of
      the rest that holds one, is ending in the first frame that holds one. */
  lemma EndsAfterLeaving(fs: seq<Frame>, k: nat, step: seq<Event>, rest: seq<Event>)
    requires fs != [] && !Holds(fs[0])
    requires ContextAfter(step, TopLevel) == TopLevel
    requires Filter(step, IsContextSwitch) == [SwitchToFrame(k), SwitchToDefault]
    requires EndsInFirstHolding(fs[1..], k + 1, rest)
    ensures EndsInFirstHolding(fs, k, step + rest)
  {
    var all := step + rest;
    ContextConcat(step, rest, TopLevel);
    FilterConcat(step, rest, IsContextSwitch);
    var j' :| IsFirstHolding(fs[1..], j');
    FirstHoldingShift(fs, j' + 1);
    forall j | IsFirstHolding(fs, j)
      ensures ContextAfter(all, TopLevel) == InFrame(k + j)
      ensures Filter(all, IsContextSwitch) == Visits(k, j) + [SwitchToFrame(k + j)]
    {
      FirstHoldingShift(fs, j);
      assert Filter(rest, IsContextSwitch) == Visits(k + 1, j - 1) + [SwitchToFrame(k + j)];
      assert Visits(k, j) == [SwitchToFrame(k), SwitchToDefault] + Visits(k + 1, j - 1);
    }
  }

  /** Entering a frame and resetting to the default, with or without a log line between. */
  lemma LeaveFrame(step: seq<Event>, k: nat, c: Context)
    requires step == [SwitchToFrame(k), SwitchToDefault]
          || step == [SwitchToFrame(k), Log(FrameSwitchFailed), SwitchToDefault]
    ensures ContextAfter(step, c) == TopLevel
    ensures Filter(step, IsContextSwitch) == [SwitchToFrame(k), SwitchToDefault]
  {
    var last := [SwitchToDefault];
    assert ContextAfter(last, c) == ContextAfter([], TopLevel);
    assert Filter(last, IsContextSwitch) == [SwitchToDefault] + Filter([], IsContextSwitch);
    if |step| == 2 {
      assert step[1..] == last;
    } else {
      var mid := [Log(FrameSwitchFailed), SwitchToDefault];
      assert step[1..] == mid && mid[1..] == last;
      assert ContextAfter(mid, InFrame(k)) == ContextAfter(last, InFrame(k));
      assert Filter(mid, IsContextSwitch) == [] + Filter(last, IsContextSwitch);
    }
    assert ContextAfter(step, c) == ContextAfter(step[1..], InFrame(k));
    assert Filter(step, IsContextSwitch) == [SwitchToFrame(k)] + Filter(step[1..], IsContextSwitch);
  }

  /** A hit inside frame `k` returns without switching back. */
  lemma StayInFrame(k: nat, u: string)
    ensures ContextAfter([SwitchToFrame(k), Log(FoundVia(IframeVideo, u))], TopLevel) == InFrame(k)
    ensures Filter([SwitchToFrame(k), Log(FoundVia(IframeVideo, u))], IsContextSwitch) == [SwitchToFrame(k)]
  {
    var evs := [SwitchToFrame(k), Log(FoundVia(IframeVideo, u))];
    var last := [Log(FoundVia(IframeVideo, u))];
    assert evs[1..] == last;
    assert ContextAfter(last, InFrame(k)) == ContextAfter([], InFrame(k));
    assert ContextAfter(evs, TopLevel) == ContextAfter(last, InFrame(k));
    assert Filter(last, IsContextSwitch) == [] + Filter([], IsContextSwitch);
  }

  /** An effect outside the page being searched: a page load, a quit or an HTTP request. */
  predicate IsExternal(e: Event) { e.Navigate? || e.Quit? || e.HttpGet? }

  lemma {:induction false} NoExternalMeans(evs: seq<Event>)
    requires Filter(evs, IsExternal) == []
    ensures Filter(evs, IsNavigate) == [] && Filter(evs, IsQuit) == [] && Filter(evs, IsRequest) == []
  {
    if evs != [] {
      NoExternalMeans(evs[1..]);
    }
  }

  lemma ListStepNoExternal(v: Variant, s: Strategy, found: Lookup<Attr>, cur: Attr)
    ensures Filter(ListStep(v, s, found, cur).events, IsExternal) == []
  {
    FilterNone(ListStep(v, s, found, cur).events, IsExternal);
  }

  lemma PlayersStepNoExternal(v: Variant, players: map<string, Attr>, cur: Attr)
    ensures Filter(PlayersStep(v, players, cur).events, IsExternal) == []
  {
    FilterNone(PlayersStep(v, players, cur).events, IsExternal);
  }

  lemma {:induction false} FramesNoExternal(v: Variant, fs: seq<Frame>, k: nat, cur: Attr)
    ensures Filter(ScanFrames(v, fs, k, cur).events, IsExternal) == []
    decreases |fs|
  {
    if fs != [] {
      if fs[0].FrameVideos? && ScanSrcs(fs[0].srcs, cur).Hit? {
        FilterNone(ScanFrames(v, fs, k, cur).events, IsExternal);
      } else {
        var next := if fs[0].FrameVideos? then ScanSrcs(fs[0].srcs, cur).last else cur;
        var step := if fs[0].FrameVideos? then [SwitchToFrame(k), SwitchToDefault]
                    else [SwitchToFrame(k)] + AppLog(v, FrameSwitchFailed) + [SwitchToDefault];
        var rest := ScanFrames(v, fs[1..], k + 1, next);
        assert ScanFrames(v, fs, k, cur) == Prepend(step, rest);
        FramesNoExternal(v, fs[1..], k + 1, next);
        FilterNone(step, IsExternal);
        FilterConcat(step, rest.events, IsExternal);
      }
    }
  }

  lemma FramesStepNoExternal(v: Variant, found: Lookup<Frame>, cur: Attr)
    ensures Filter(FramesStep(v, found, cur).events, IsExternal) == []
  {
    var pre := AppLog(v, Searching(IframeVideo));
    FilterNone(pre, IsExternal);
    if found.Listed? {
      FramesNoExternal(v, found.items, 0, cur);
      FilterConcat(pre, ScanFrames(v, found.items, 0, cur).events, IsExternal);
    } else {
      assert FramesStep(v, found, cur).events == pre + [];
    }
  }

  lemma SourcesNoExternal(v: Variant, p: Page, cur: Attr)
    ensures Filter(FromSources(v, p, cur).events, IsExternal) == []
  {
    var r := ListStep(v, SourceTag, p.sources, cur);
    ListStepNoExternal(v, SourceTag, p.sources, cur);
    if r.outcome.Exhausted? {
      PlayersStepNoExternal(v, p.players, r.outcome.last);
      FilterConcat(r.events, PlayersStep(v, p.players, r.outcome.last).events, IsExternal);
    }
  }

  lemma FromFramesNoExternal(v: Variant, p: Page, cur: Attr)
    ensures Filter(FromFrames(v, p, cur).events, IsExternal) == []
  {
    var r := FramesStep(v, p.frames, cur);
    FramesStepNoExternal(v, p.frames, cur);
    if r.outcome.Exhausted? {
      SourcesNoExternal(v, p, r.outcome.last);
      FilterConcat(r.events, FromSources(v, p, r.outcome.last).events, IsExternal);
    }
  }

  /** The strategies on a loaded page neither load a page nor quit. */
  lemma PageNoExternal(v: Variant, p: Page, cur: Attr)
    ensures Filter(PageRun(v, p, cur).events, IsExternal) == []
  {
    var r := ListStep(v, VideoTag, p.videos, cur);
    ListStepNoExternal(v, VideoTag, p.videos, cur);
    if r.outcome.Exhausted? {
      FromFramesNoExternal(v, p, r.outcome.last);
      FilterConcat(r.events, FromFrames(v, p, r.outcome.last).events, IsExternal);
    }
  }

  /** Each attempt loads the page once and does not quit. */
  lemma AttemptExternal(v: Variant, k: nat, url: string, a: Attempt, cur: Attr)
    ensures Filter(AttemptRun(v, k, url, a, cur).events, IsNavigate) == [Navigate(url)]
    ensures Filter(AttemptRun(v, k, url, a, cur).events, IsQuit) == []
  {
    var body := AttemptBody(v, k, url, a, cur);
    LoadFilter(AppLog(v, AttemptStarted(k + 1)), url, body, IsNavigate);
    LoadFilter(AppLog(v, AttemptStarted(k + 1)), url, body, IsQuit);
    NoExternalMeans(body);
    FilterAll([Navigate(url)], IsNavigate);
  }

  /** Each attempt makes no HTTP request. */
  lemma AttemptNoRequest(v: Variant, k: nat, url: string, a: Attempt, cur: Attr)
    ensures Filter(AttemptRun(v, k, url, a, cur).events, IsRequest) == []
  {
    var body := AttemptBody(v, k, url, a, cur);
    LoadFilter(AppLog(v, AttemptStarted(k + 1)), url, body, IsRequest);
    NoExternalMeans(body);
  }

  /** An attempt is its log line, the page load, and the strategies' effects, which have
      nothing external. */
  lemma AttemptBody(v: Variant, k: nat, url: string, a: Attempt, cur: Attr) returns (body: seq<Event>)
    ensures AttemptRun(v, k, url, a, cur).events == AppLog(v, AttemptStarted(k + 1)) + [Navigate(url)] + body
    ensures Filter(body, IsExternal) == []
  {
    if a.Loaded? {
      body := PageRun(v, a.page, cur).events;
      PageNoExternal(v, a.page, cur);
    } else {
      body := [];
    }
  }

  lemma LoadFilter(pre: seq<Event>, url: string, body: seq<Event>, keep: Event -> bool)
    requires forall e :: e in pre ==> e.Log?
    requires forall e :: keep(e) ==> IsEffect(e)
    ensures Filter(pre + [Navigate(url)] + body, keep) == Filter([Navigate(url)], keep) + Filter(body, keep)
  {
    FilterConcat(pre + [Navigate(url)], body, keep);
    FilterConcat(pre, [Navigate(url)], keep);
    FilterNone(pre, keep);
  }

  /** One turn of the retry loop. */
  lemma RetryUnfold(v: Variant, url: string, attempts: seq<Attempt>, k: nat, cur: Attr)
    requires |attempts| >= RetryCount && k < RetryCount
    ensures var a := AttemptRun(v, k, url, attempts[k], cur);
      Retry(v, url, attempts, k, cur)
        == if a.outcome.Found? then a
           else Prepend(a.events + [Log(Closing(a.outcome.Failed?, k))], Retry(v, url, attempts, k + 1, a.outcome.last))
  {
  }

  /** The retry loop from attempt `k` never quits. */
  lemma {:induction false} RetryNoQuit(v: Variant, url: string, attempts: seq<Attempt>, k: nat, cur: Attr)
    requires |attempts| >= RetryCount && k <= RetryCount
    ensures Filter(Retry(v, url, attempts, k, cur).events, IsQuit) == []
    decreases RetryCount - k
  {
    if k < RetryCount {
      var a := AttemptRun(v, k, url, attempts[k], cur);
      AttemptExternal(v, k, url, attempts[k], cur);
      RetryUnfold(v, url, attempts, k, cur);
      if !a.outcome.Found? {
        var closing := [Log(Closing(a.outcome.Failed?, k))];
        RetryNoQuit(v, url, attempts, k + 1, a.outcome.last);
        FilterConcat(a.events + closing, Retry(v, url, attempts, k + 1, a.outcome.last).events, IsQuit);
        FilterConcat(a.events, closing, IsQuit);
        FilterNone(closing, IsQuit);
      }
    }
  }

  /** The retry loop from attempt `k` makes no HTTP request. */
  lemma {:induction false} RetryNoRequest(v: Variant, url: string, attempts: seq<Attempt>, k: nat, cur: Attr)
    requires |attempts| >= RetryCount && k <= RetryCount
    ensures Filter(Retry(v, url, attempts, k, cur).events, IsRequest) == []
    decreases RetryCount - k
  {
    if k < RetryCount {
      var a := AttemptRun(v, k, url, attempts[k], cur);
      AttemptNoRequest(v, k, url, attempts[k], cur);
      RetryUnfold(v, url, attempts, k, cur);
      if !a.outcome.Found? {
        var closing := [Log(Closing(a.outcome.Failed?, k))];
        RetryNoRequest(v, url, attempts, k + 1, a.outcome.last);
        FilterConcat(a.events + closing, Retry(v, url, attempts, k + 1, a.outcome.last).events, IsRequest);
        FilterConcat(a.events, closing, IsRequest);
        FilterNone(closing, IsRequest);
      }
    }
  }

  /** `n` copies of `e`. */
  function Repeat(e: Event, n: nat): (r: seq<Event>)
    ensures |r| == n
  {
    if n == 0 then [] else [e] + Repeat(e, n - 1)
  }

  lemma {:induction false} RepeatMeans(e: Event, n: nat)
    ensures forall i :: 0 <= i < n ==> Repeat(e, n)[i] == e
  {
    if n > 0 {
      RepeatMeans(e, n - 1);
      assert forall i :: 1 <= i < n ==> Repeat(e, n)[i] == Repeat(e, n - 1)[i - 1];
    }
  }

  /** Every page load of the retry loop is of the requested URL. */
  lemma {:induction false} RetryLoadsUrl(v: Variant, url: string, attempts: seq<Attempt>, k: nat, cur: Attr)
    requires |attempts| >= RetryCount && k <= RetryCount
    ensures var loads := Filter(Retry(v, url, attempts, k, cur).events, IsNavigate);
      loads == Repeat(Navigate(url), |loads|)
    decreases RetryCount - k
  {
    if k < RetryCount {
      var found, next := RetryLoadStep(v, url, attempts, k, cur);
      if !found {
        var later := Filter(Retry(v, url, attempts, k + 1, next).events, IsNavigate);
        RetryLoadsUrl(v, url, attempts, k + 1, next);
        assert Repeat(Navigate(url), 1 + |later|) == [Navigate(url)] + later;
      } else {
        assert Repeat(Navigate(url), 1) == [Navigate(url)] + [];
      }
    }
  }

  /** The retry loop from attempt `k` loads the page once per attempt it makes; it makes
      every remaining attempt unless one of them finds a URL. */
  lemma {:induction false} RetryLoads(v: Variant, url: string, attempts: seq<Attempt>, k: nat, cur: Attr)
    requires |attempts| >= RetryCount && k <= RetryCount
    ensures var loads := |Filter(Retry(v, url, attempts, k, cur).events, IsNavigate)|;
      && loads <= RetryCount - k
      && (k < RetryCount ==> loads >= 1)
      && (!Retry(v, url, attempts, k, cur).outcome.Found? ==> loads == RetryCount - k)
    decreases RetryCount - k
  {
    if k < RetryCount {
      var a := AttemptRun(v, k, url, attempts[k], cur);
      AttemptExternal(v, k, url, attempts[k], cur);
      RetryUnfold(v, url, attempts, k, cur);
      if !a.outcome.Found? {
        var closing := [Log(Closing(a.outcome.Failed?, k))];
        var rest := Retry(v, url, attempts, k + 1, a.outcome.last);
        RetryLoads(v, url, attempts, k + 1, a.outcome.last);
        FilterConcat(a.events + closing, rest.events, IsNavigate);
        FilterConcat(a.events, closing, IsNavigate);
        FilterNone(closing, IsNavigate);
      }
    }
  }

  /** Attempt `a` reads a truthy `src`, and so returns it. */
  ghost predicate Finds(a: Attempt)
  {
    exists i :: 0 <= i < |AttemptReads(a).srcs| && Truthy(AttemptReads(a).srcs[i])
  }

  /** Attempt `j` is the first of the attempts from `k` on that finds a video. */
  ghost predicate IsFirstFinding(attempts: seq<Attempt>, k: nat, j: int)
  {
    k <= j < RetryCount && j < |attempts| && Finds(attempts[j])
    && forall m :: k <= m < j ==> !Finds(attempts[m])
  }

  /** The number of attempts made from attempt `k` on, as a reference: every attempt up to
      and including the first that finds a video. */
  ghost function Made(attempts: seq<Attempt>, k: nat): nat
    requires |attempts| >= RetryCount && k <= RetryCount
    decreases RetryCount - k
  {
    if k == RetryCount then 0 else if Finds(attempts[k]) then 1 else 1 + Made(attempts, k + 1)
  }

  /** The retry loop from attempt `k` loads the page once per attempt it makes. */
  lemma {:induction false} RetryMakes(v: Variant, url: string, attempts: seq<Attempt>, k: nat, cur: Attr)
    requires |attempts| >= RetryCount && k <= RetryCount
    ensures |Filter(Retry(v, url, attempts, k, cur).events, IsNavigate)| == Made(attempts, k)
    decreases RetryCount - k
  {
    if k < RetryCount {
      var found, next := RetryLoadStep(v, url, attempts, k, cur);
      if !found {
        RetryMakes(v, url, attempts, k + 1, next);
      }
    }
  }

  /** The attempts made stop at the first one that finds a video. */
  lemma {:induction false} MadeStops(attempts: seq<Attempt>, k: nat, j: int)
    requires |attempts| >= RetryCount && k <= RetryCount
    requires IsFirstFinding(attempts, k, j)
    ensures Made(attempts, k) == j - k + 1
    decreases RetryCount - k
  {
    if j > k {
      assert !Finds(attempts[k]);
      MadeStops(attempts, k + 1, j);
    }
  }

  /** An attempt returns a video exactly when it reads a truthy `src`. */
  lemma AttemptFindsIff(v: Variant, k: nat, url: string, a: Attempt, cur: Attr)
    ensures AttemptRun(v, k, url, a, cur).outcome.Found? <==> Finds(a)
  {
    AttemptOutcome(v, k, url, a, cur);
    ScanHitIff(AttemptReads(a).srcs, cur);
  }

  /** Attempt `k` loads the page once; the loop goes on to the next attempt, with `next` as
      `video_url`, unless the attempt found a video. */
  lemma RetryLoadStep(v: Variant, url: string, attempts: seq<Attempt>, k: nat, cur: Attr)
    returns (found: bool, next: Attr)
    requires |attempts| >= RetryCount && k < RetryCount
    ensures found <==> Finds(attempts[k])
    ensures Filter(Retry(v, url, attempts, k, cur).events, IsNavigate)
         == [Navigate(url)] + if found then [] else Filter(Retry(v, url, attempts, k + 1, next).events, IsNavigate)
  {
    var a := AttemptRun(v, k, url, attempts[k], cur);
    AttemptFindsIff(v, k, url, attempts[k], cur);
    AttemptExternal(v, k, url, attempts[k], cur);
    RetryUnfold(v, url, attempts, k, cur);
    found := a.outcome.Found?;
    next := if found then cur else a.outcome.last;
    if !found {
      var closing := [Log(Closing(a.outcome.Failed?, k))];
      var rest := Retry(v, url, attempts, k + 1, next);
      FilterConcat(a.events + closing, rest.events, IsNavigate);
      FilterConcat(a.events, closing, IsNavigate);
      FilterNone(closing, IsNavigate);
    }
  }

  /** The effects of `get_video_url` are those of the retry loop followed by the quit. */
  lemma LocateFilter(v: Variant, url: string, attempts: seq<Attempt>, keep: Event -> bool)
    requires |attempts| >= RetryCount && !keep(Log(Visiting(url)))
    ensures Filter(Locate(v, url, attempts).events, keep)
         == Filter(Retry(v, url, attempts, 0, None).events, keep) + Filter([Quit], keep)
  {
    var r := Retry(v, url, attempts, 0, None);
    assert Locate(v, url, attempts).events == [Log(Visiting(url))] + r.events + [Quit];
    FilterAfter(Log(Visiting(url)), r.events, [Quit], keep);
  }

  lemma FilterAfter(x: Event, b: seq<Event>, c: seq<Event>, keep: Event -> bool)
    requires !keep(x)
    ensures Filter([x] + b + c, keep) == Filter(b, keep) + Filter(c, keep)
  {
    var all := [x] + b + c;
    assert all[0] == x && all[1..] == b + c;
    FilterConcat(b, c, keep);
  }

  /** `driver.quit()` runs exactly once, as the last effect, on every path. */
  lemma LocateQuitsOnce(v: Variant, url: string, attempts: seq<Attempt>)
    requires |attempts| >= RetryCount
    ensures var evs := Locate(v, url, attempts).events;
      |evs| > 0 && evs[|evs| - 1] == Quit && Filter(evs, IsQuit) == [Quit]
  {
    RetryNoQuit(v, url, attempts, 0, None);
    LocateFilter(v, url, attempts, IsQuit);
    FilterAll([Quit], IsQuit);
  }

  /** `get_video_url` makes no HTTP request: the download is left to `download_video`. */
  lemma LocateNoRequest(v: Variant, url: string, attempts: seq<Attempt>)
    requires |attempts| >= RetryCount
    ensures Filter(Locate(v, url, attempts).events, IsRequest) == []
  {
    RetryNoRequest(v, url, attempts, 0, None);
    LocateFilter(v, url, attempts, IsRequest);
    FilterNone([Quit], IsRequest);
  }

  /** Every page load is of the requested URL; the page is loaded at least once and at
      most `RetryCount` times: exactly `RetryCount` times when nothing is found, and
      `j + 1` times when attempt `j` is the first to find a video. */
  lemma LocateLoads(v: Variant, url: string, attempts: seq<Attempt>)
    requires |attempts| >= RetryCount
    ensures var loads := Filter(Locate(v, url, attempts).events, IsNavigate);
      && (forall i :: 0 <= i < |loads| ==> loads[i] == Navigate(url))
      && 1 <= |loads| <= RetryCount
      && (!Truthy(Locate(v, url, attempts).videoUrl) ==> |loads| == RetryCount)
      && (forall j :: IsFirstFinding(attempts, 0, j) ==> |loads| == j + 1)
  {
    RetryMakes(v, url, attempts, 0, None);
    forall j | IsFirstFinding(attempts, 0, j) ensures Made(attempts, 0) == j + 1 {
      MadeStops(attempts, 0, j);
    }
    var r := Retry(v, url, attempts, 0, None);
    RetryLoads(v, url, attempts, 0, None);
    RetryLoadsUrl(v, url, attempts, 0, None);
    RepeatMeans(Navigate(url), |Filter(r.events, IsNavigate)|);
    LocateFilter(v, url, attempts, IsNavigate);
    FilterNone([Quit], IsNavigate);
    assert Filter(Locate(v, url, attempts).events, IsNavigate) == Filter(r.events, IsNavigate);
    if r.outcome.Found? {
      FoundIsTruthy(v, url, attempts);
    }
  }

  /** A URL the retry loop finds is never empty. */
  lemma FoundIsTruthy(v: Variant, url: string, attempts: seq<Attempt>)
    requires |attempts| >= RetryCount
    requires Retry(v, url, attempts, 0, None).outcome.Found?
    ensures Truthy(Locate(v, url, attempts).videoUrl)
  {
    RetryOutcome(v, url, attempts, 0, None);
    ScanHitIff(AllReads(attempts, 0), None);
    ScanFirst(AllReads(attempts, 0), None);
    ScanMissLast(AllReads(attempts, 0), None);
    LocateFindsFirstTruthy(v, url, attempts);
  }

  /** A truthy `src` on a top-level <video> of the first attempt ends the search at once:
      the first such `src` is returned after one page load, with no frame entered and no
      later strategy or attempt consulted (whatever they would have seen). */
  lemma TopVideoWins(v: Variant, url: string, attempts: seq<Attempt>, others: seq<Attempt>,
                     frames: Lookup<Frame>, sources: Lookup<Attr>, players: map<string, Attr>)
    requires |attempts| >= RetryCount && |others| >= RetryCount
    requires attempts[0].Loaded? && attempts[0].page.videos.Listed?
    requires exists i :: 0 <= i < |attempts[0].page.videos.items| && Truthy(attempts[0].page.videos.items[i])
    requires others[0] == Loaded(Page(attempts[0].page.videos, frames, sources, players))
    ensures Locate(v, url, others) == Locate(v, url, attempts)
    ensures var vs := attempts[0].page.videos.items;
      forall i :: IsFirstTruthy(vs, i) ==>
        Locate(v, url, attempts) == Located(vs[i],
          [Log(Visiting(url))] + AppLog(v, AttemptStarted(1)) + [Navigate(url)]
          + AppLog(v, Searching(VideoTag)) + [Log(FoundVia(VideoTag, vs[i].value)), Quit])
  {
    var vs := attempts[0].page.videos.items;
    ScanHitIff(vs, None);
    ScanFirst(vs, None);
    ScanMissLast(vs, None);
    assert ScanSrcs(vs, None).Hit?;
    var u := ScanSrcs(vs, None).url;
    var run := Run(Found(u), AppLog(v, AttemptStarted(1)) + [Navigate(url)] + (AppLog(v, Searching(VideoTag)) + [Log(FoundVia(VideoTag, u))]));
    assert ListStep(v, VideoTag, attempts[0].page.videos, None) == Run(Found(u), AppLog(v, Searching(VideoTag)) + [Log(FoundVia(VideoTag, u))]);
    assert AttemptRun(v, 0, url, attempts[0], None) == run;
    assert AttemptRun(v, 0, url, others[0], None) == run;
    RetryUnfold(v, url, attempts, 0, None);
    RetryUnfold(v, url, others, 0, None);
  }

  /** Leaving a failed frame, in either variant, has the same effects. */
  lemma QuietLeave(v: Variant, k: nat)
    ensures Quiet([SwitchToFrame(k)] + AppLog(v, FrameSwitchFailed) + [SwitchToDefault]) == [SwitchToFrame(k), SwitchToDefault]
  {
    QuietConcat([SwitchToFrame(k)], AppLog(v, FrameSwitchFailed), [SwitchToDefault]);
    QuietAppLog(v, FrameSwitchFailed);
    FilterAll([SwitchToFrame(k)], IsEffect);
    FilterAll([SwitchToDefault], IsEffect);
  }

  lemma {:induction false} FramesAgree(fs: seq<Frame>, k: nat, cur: Attr)
    ensures Quiet(ScanFrames(App, fs, k, cur).events) == Quiet(ScanFrames(Spider, fs, k, cur).events)
    decreases |fs|
  {
    if fs != [] && !(fs[0].FrameVideos? && ScanSrcs(fs[0].srcs, cur).Hit?) {
      var next := if fs[0].FrameVideos? then ScanSrcs(fs[0].srcs, cur).last else cur;
      var stepApp := if fs[0].FrameVideos? then [SwitchToFrame(k), SwitchToDefault]
                     else [SwitchToFrame(k)] + AppLog(App, FrameSwitchFailed) + [SwitchToDefault];
      var stepSpider := if fs[0].FrameVideos? then [SwitchToFrame(k), SwitchToDefault]
                        else [SwitchToFrame(k)] + AppLog(Spider, FrameSwitchFailed) + [SwitchToDefault];
      var restApp := ScanFrames(App, fs[1..], k + 1, next);
      var restSpider := ScanFrames(Spider, fs[1..], k + 1, next);
      assert ScanFrames(App, fs, k, cur) == Prepend(stepApp, restApp);
      assert ScanFrames(Spider, fs, k, cur) == Prepend(stepSpider, restSpider);
      FramesAgree(fs[1..], k + 1, next);
      QuietPrepend(stepApp, restApp);
      QuietPrepend(stepSpider, restSpider);
      if !fs[0].FrameVideos? {
        QuietLeave(App, k);
        QuietLeave(Spider, k);
      }
    }
  }

  /** `Prepend` of a log-only prefix is invisible to `Quiet`. */
  lemma QuietPrepend(pre: seq<Event>, r: Run)
    ensures Quiet(Prepend(pre, r).events) == Quiet(pre) + Quiet(r.events)
  {
    FilterConcat(pre, r.events, IsEffect);
  }

  lemma ListStepAgree(s: Strategy, found: Lookup<Attr>, cur: Attr)
    ensures ListStep(App, s, found, cur).outcome == ListStep(Spider, s, found, cur).outcome
    ensures Quiet(ListStep(App, s, found, cur).events) == Quiet(ListStep(Spider, s, found, cur).events)
  {
    var body := match found
      case Raised => Run(Failed(cur), [])
      case Listed(srcs) => Report(s, ScanSrcs(srcs, cur));
    QuietPrepend(AppLog(App, Searching(s)), body);
    QuietPrepend(AppLog(Spider, Searching(s)), body);
    QuietAppLog(App, Searching(s));
    QuietAppLog(Spider, Searching(s));
  }

  lemma FramesStepAgree(found: Lookup<Frame>, cur: Attr)
    ensures FramesStep(App, found, cur).outcome == FramesStep(Spider, found, cur).outcome
    ensures Quiet(FramesStep(App, found, cur).events) == Quiet(FramesStep(Spider, found, cur).events)
  {
    QuietAppLog(App, Searching(IframeVideo));
    QuietAppLog(Spider, Searching(IframeVideo));
    if found.Listed? {
      var ra := ScanFrames(App, found.items, 0, cur);
      var rs := ScanFrames(Spider, found.items, 0, cur);
      FramesAgree(found.items, 0, cur);
      FramesOutcome(App, found.items, 0, cur);
      FramesOutcome(Spider, found.items, 0, cur);
      QuietPrepend(AppLog(App, Searching(IframeVideo)), ra);
      QuietPrepend(AppLog(Spider, Searching(IframeVideo)), rs);
    } else {
      QuietPrepend(AppLog(App, Searching(IframeVideo)), Run(Failed(cur), []));
      QuietPrepend(AppLog(Spider, Searching(IframeVideo)), Run(Failed(cur), []));
    }
  }

  lemma PlayersStepAgree(players: map<string, Attr>, cur: Attr)
    ensures PlayersStep(App, players, cur).outcome == PlayersStep(Spider, players, cur).outcome
    ensures Quiet(PlayersStep(App, players, cur).events) == Quiet(PlayersStep(Spider, players, cur).events)
  {
    var body := Report(PlayerSelector, ScanSrcs(Hits(PlayerSelectors, players), cur));
    QuietPrepend(AppLog(App, Searching(PlayerSelector)), body);
    QuietPrepend(AppLog(Spider, Searching(PlayerSelector)), body);
    QuietAppLog(App, Searching(PlayerSelector));
    QuietAppLog(Spider, Searching(PlayerSelector));
  }

  lemma SourcesAgree(p: Page, cur: Attr)
    ensures FromSources(App, p, cur).outcome == FromSources(Spider, p, cur).outcome
    ensures Quiet(FromSources(App, p, cur).events) == Quiet(FromSources(Spider, p, cur).events)
  {
    var ra := ListStep(App, SourceTag, p.sources, cur);
    var rs := ListStep(Spider, SourceTag, p.sources, cur);
    ListStepAgree(SourceTag, p.sources, cur);
    if ra.outcome.Exhausted? {
      PlayersStepAgree(p.players, ra.outcome.last);
      QuietPrepend(ra.events, PlayersStep(App, p.players, ra.outcome.last));
      QuietPrepend(rs.events, PlayersStep(Spider, p.players, ra.outcome.last));
    }
  }

  lemma FromFramesAgree(p: Page, cur: Attr)
    ensures FromFrames(App, p, cur).outcome == FromFrames(Spider, p, cur).outcome
    ensures Quiet(FromFrames(App, p, cur).events) == Quiet(FromFrames(Spider, p, cur).events)
  {
    var ra := FramesStep(App, p.frames, cur);
    var rs := FramesStep(Spider, p.frames, cur);
    FramesStepAgree(p.frames, cur);
    if ra.outcome.Exhausted? {
      SourcesAgree(p, ra.outcome.last);
      QuietPrepend(ra.events, FromSources(App, p, ra.outcome.last));
      QuietPrepend(rs.events, FromSources(Spider, p, ra.outcome.last));
    }
  }

  lemma PageAgree(p: Page, cur: Attr)
    ensures PageRun(App, p, cur).outcome == PageRun(Spider, p, cur).outcome
    ensures Quiet(PageRun(App, p, cur).events) == Quiet(PageRun(Spider, p, cur).events)
  {
    var ra := ListStep(App, VideoTag, p.videos, cur);
    var rs := ListStep(Spider, VideoTag, p.videos, cur);
    ListStepAgree(VideoTag, p.videos, cur);
    if ra.outcome.Exhausted? {
      FromFramesAgree(p, ra.outcome.last);
      QuietPrepend(ra.events, FromFrames(App, p, ra.outcome.last));
      QuietPrepend(rs.events, FromFrames(Spider, p, ra.outcome.last));
    }
  }

  lemma AttemptAgree(k: nat, url: string, a: Attempt, cur: Attr)
    ensures AttemptRun(App, k, url, a, cur).outcome == AttemptRun(Spider, k, url, a, cur).outcome
    ensures Quiet(AttemptRun(App, k, url, a, cur).events) == Quiet(AttemptRun(Spider, k, url, a, cur).events)
  {
    var introApp := AppLog(App, AttemptStarted(k + 1)) + [Navigate(url)];
    var introSpider := AppLog(Spider, AttemptStarted(k + 1)) + [Navigate(url)];
    FilterConcat(AppLog(App, AttemptStarted(k + 1)), [Navigate(url)], IsEffect);
    FilterConcat(AppLog(Spider, AttemptStarted(k + 1)), [Navigate(url)], IsEffect);
    QuietAppLog(App, AttemptStarted(k + 1));
    QuietAppLog(Spider, AttemptStarted(k + 1));
    if a.Loaded? {
      PageAgree(a.page, cur);
      QuietPrepend(introApp, PageRun(App, a.page, cur));
      QuietPrepend(introSpider, PageRun(Spider, a.page, cur));
    }
  }

  lemma {:induction false} RetryAgree(url: string, attempts: seq<Attempt>, k: nat, cur: Attr)
    requires |attempts| >= RetryCount && k <= RetryCount
    ensures Retry(App, url, attempts, k, cur).outcome == Retry(Spider, url, attempts, k, cur).outcome
    ensures Quiet(Retry(App, url, attempts, k, cur).events) == Quiet(Retry(Spider, url, attempts, k, cur).events)
    decreases RetryCount - k
  {
    if k < RetryCount {
      var ra := AttemptRun(App, k, url, attempts[k], cur);
      var rs := AttemptRun(Spider, k, url, attempts[k], cur);
      AttemptAgree(k, url, attempts[k], cur);
      RetryUnfold(App, url, attempts, k, cur);
      RetryUnfold(Spider, url, attempts, k, cur);
      if !ra.outcome.Found? {
        var closing := [Log(Closing(ra.outcome.Failed?, k))];
        RetryAgree(url, attempts, k + 1, ra.outcome.last);
        QuietPrepend(ra.events + closing, Retry(App, url, attempts, k + 1, ra.outcome.last));
        QuietPrepend(rs.events + closing, Retry(Spider, url, attempts, k + 1, ra.outcome.last));
        FilterConcat(ra.events, closing, IsEffect);
        FilterConcat(rs.events, closing, IsEffect);
      }
    }
  }

  /** vedio_spider.py's `get_video_url` differs from app.py's only in log lines: both
      return the same value and have the same browser effects, in the same order. */
  lemma LocatorVariantsAgree(url: string, attempts: seq<Attempt>)
    requires |attempts| >= RetryCount
    ensures Locate(Spider, url, attempts).videoUrl == Locate(App, url, attempts).videoUrl
    ensures Quiet(Locate(Spider, url, attempts).events) == Quiet(Locate(App, url, attempts).events)
  {
    var ra := Retry(App, url, attempts, 0, None);
    var rs := Retry(Spider, url, attempts, 0, None);
    RetryAgree(url, attempts, 0, None);
    QuietConcat([Log(Visiting(url))], ra.events, [Quit]);
    QuietConcat([Log(Visiting(url))], rs.events, [Quit]);
  }
}
