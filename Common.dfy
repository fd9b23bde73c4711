/** Values shared by the video locator, the downloader and the request handler:
    optional values with Python's truthiness, the two script variants, and the
    ordered sequence of observable effects (log lines, progress updates, browser
    and HTTP actions) that a request produces. */
module Common {

  datatype Option<+T> = None | Some(value: T)

  /** One byte of a downloaded body. */
  newtype byte = x: int | 0 <= x < 256

  /** What `get_attribute('src')` or `request.form.get("url")` gives back:
      None, or a string that may be empty. */
  type Attr = Option<string>

  /** Python truthiness of such a value: None and "" are both falsy. */
  predicate Truthy(a: Attr)
  {
    a.Some? && a.value != ""
  }

  /** The two scripts of the repository. Their logic is the same; app.py emits
      more log lines and names more failure kinds than vedio_spider.py. */
  datatype Variant = App | Spider

  /** The four lookup strategies of the locator, in the order they are tried. */
  datatype Strategy = VideoTag | IframeVideo | SourceTag | PlayerSelector

  /** The log lines sent to the browser. Exception texts are not modelled. */
  datatype LogLine =
    // locator
    | Visiting(url: string)
    | AttemptStarted(attempt: nat)          // app.py only
    | Searching(strategy: Strategy)         // app.py only
    | FoundVia(strategy: Strategy, src: string)
    | FrameSwitchFailed                     // app.py only
    | RetryAfterMiss(attempt: nat)
    | GaveUp
    | RetryAfterError(attempt: nat)
    | ParseError
    // downloader
    | CheckingDir                           // app.py only
    | DirCreated                            // app.py only
    | DirCreateFailed                       // app.py only
    | DownloadStarted(url: string)
    | SendingRequest                        // app.py only
    | RequestSucceeded(status: int)         // app.py only
    | PreparingWrite                        // app.py only
    | TotalSizeIs(size: int)                // app.py only
    | DownloadDone(path: string)
    | FinalSizeIs(bytes: nat)               // app.py only
    | WriteFailed                           // app.py only
    | RequestFailed                         // app.py only
    | DownloadError                         // app.py only
    | DownloadFailed                        // vedio_spider.py only
    // request handler
    | ParseStarted
    | ParseSucceeded
    | ParseFailed

  /** One observable effect, in the order it happens. */
  datatype Event =
    | Log(line: LogLine)                     // send_log(...)
    | Progress(downloaded: nat, total: nat)  // send_progress of downloaded / total * 100
    | ProgressDone                           // send_progress("100%")
    | Navigate(url: string)                  // driver.get(url)
    | SwitchToFrame(index: nat)              // driver.switch_to.frame(iframes[index])
    | SwitchToDefault                        // driver.switch_to.default_content()
    | Quit                                   // driver.quit()
    | HttpGet(url: string, referer: string)  // requests.get(url, headers={'Referer': referer, ...})

  /** A log line that only the verbose script, app.py, emits. */
  function AppLog(v: Variant, line: LogLine): seq<Event>
  {
    if v == App then [Log(line)] else []
  }

  /** The percentage that a progress update reports, before formatting. */
  function Percent(downloaded: nat, total: nat): real
    requires total > 0
  {
    downloaded as real * 100.0 / total as real
  }

  lemma PercentMonotone(d1: nat, d2: nat, total: nat)
    requires total > 0 && d1 <= d2
    ensures Percent(d1, total) <= Percent(d2, total)
  {
    var t := total as real;
    assert d1 as real * 100.0 <= d2 as real * 100.0;
    assert (d2 as real * 100.0 - d1 as real * 100.0) / t >= 0.0;
  }

  lemma PercentHundred(downloaded: nat, total: nat)
    requires total > 0
    ensures Percent(downloaded, total) == 100.0 <==> downloaded == total
  {
    var t := total as real;
    assert Percent(downloaded, total) * t == downloaded as real * 100.0;
  }

  predicate IsLog(e: Event) { e.Log? }
  predicate IsEffect(e: Event) { !e.Log? }
  predicate IsProgress(e: Event) { e.Progress? }
  predicate IsNavigate(e: Event) { e.Navigate? }
  predicate IsContextSwitch(e: Event) { e.SwitchToFrame? || e.SwitchToDefault? }
  predicate IsQuit(e: Event) { e.Quit? }
  predicate IsRequest(e: Event) { e.HttpGet? }
  predicate IsProgressDone(e: Event) { e.ProgressDone? }

  /** The events of `evs` that satisfy `keep`, in order. */
  function Filter(evs: seq<Event>, keep: Event -> bool): (r: seq<Event>)
    ensures |r| <= |evs|
  {
    if evs == [] then []
    else (if keep(evs[0]) then [evs[0]] else []) + Filter(evs[1..], keep)
  }

  /** The events other than log lines: what the two variants must agree on. */
  function Quiet(evs: seq<Event>): seq<Event>
  {
    Filter(evs, IsEffect)
  }

  lemma {:induction false} FilterConcat(a: seq<Event>, b: seq<Event>, keep: Event -> bool)
    ensures Filter(a + b, keep) == Filter(a, keep) + Filter(b, keep)
  {
    if a == [] {
      assert a + b == b;
    } else {
      var head := if keep(a[0]) then [a[0]] else [];
      assert (a + b)[0] == a[0];
      assert (a + b)[1..] == a[1..] + b;
      FilterConcat(a[1..], b, keep);
      assert Filter(a + b, keep) == head + (Filter(a[1..], keep) + Filter(b, keep));
      assert head + (Filter(a[1..], keep) + Filter(b, keep)) == (head + Filter(a[1..], keep)) + Filter(b, keep);
    }
  }

  lemma {:induction false} FilterNone(evs: seq<Event>, keep: Event -> bool)
    requires forall e :: e in evs ==> !keep(e)
    ensures Filter(evs, keep) == []
  {
    if evs != [] {
      assert evs[0] in evs;
      FilterNone(evs[1..], keep);
    }
  }

  lemma {:induction false} FilterAll(evs: seq<Event>, keep: Event -> bool)
    requires forall e :: e in evs ==> keep(e)
    ensures Filter(evs, keep) == evs
  {
    if evs != [] {
      assert evs[0] in evs;
      FilterAll(evs[1..], keep);
      assert evs == [evs[0]] + evs[1..];
    }
  }

  /** Filtering out log lines first does not change a filter that keeps no log line. */
  lemma {:induction false} FilterQuiet(evs: seq<Event>, keep: Event -> bool)
    requires forall e :: keep(e) ==> IsEffect(e)
    ensures Filter(Quiet(evs), keep) == Filter(evs, keep)
  {
    if evs != [] {
      var head := if IsEffect(evs[0]) then [evs[0]] else [];
      FilterQuiet(evs[1..], keep);
      assert Quiet(evs) == head + Quiet(evs[1..]);
      FilterConcat(head, Quiet(evs[1..]), keep);
      if !IsEffect(evs[0]) {
        assert Filter(head, keep) == [];
      } else {
        assert Filter(head, keep) == (if keep(evs[0]) then [evs[0]] else []) + Filter([], keep);
      }
    }
  }

  lemma QuietConcat(a: seq<Event>, b: seq<Event>, c: seq<Event>)
    ensures Quiet(a + b + c) == Quiet(a) + Quiet(b) + Quiet(c)
  {
    FilterConcat(a + b, c, IsEffect);
    FilterConcat(a, b, IsEffect);
  }

  lemma QuietAppLog(v: Variant, line: LogLine)
    ensures Quiet(AppLog(v, line)) == []
  {
    FilterNone(AppLog(v, line), IsEffect);
  }
}
