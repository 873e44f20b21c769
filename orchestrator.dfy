/**
 * Downloading one video: four strategies tried in a fixed order, each with
 * its own options, a metadata probe that picks the format, the download
 * itself, and a check that a large enough video file came out of it. The
 * first strategy that passes wins; otherwise the last error is reported.
 */
module Orchestrator {
  import opened Common
  import opened Text
  import opened Formats
  import opened Files
  import opened Reconcile
  import opened Options
  import opened Cookies

  // ---------------------------------------------------------------------------
  // Strategies.

  /** A strategy: its name, whether it may use cookies, and the player clients it asks for. */
  datatype Strategy = Strategy(name: string, useCookies: bool, playerClients: seq<string>)

  /** `download_strategies()`: the two cookie strategies first, then the two without. */
  function DownloadStrategies(): (r: seq<Strategy>)
    ensures |r| == 4
    ensures forall i :: 0 <= i < |r| ==> (r[i].useCookies <==> i < 2)
    ensures forall i, j :: 0 <= i < j < |r| ==> r[i].name != r[j].name
  {
    [
      Strategy("cookies-desktop-clients", true, ["tv_downgraded", "web", "web_safari"]),
      Strategy("cookies-mobile-clients", true, ["ios_downgraded", "android_vr", "web"]),
      Strategy("no-cookies-mobile", false, ["ios_downgraded", "android_vr"]),
      Strategy("no-cookies-default", false, ["android", "web"])
    ]
  }

  /** The strategy's `extractor_args`: `{"youtube": {"player_client": [...]}}`. */
  function ExtractorArgs(s: Strategy): Value {
    Dict(map["youtube" := Dict(map["player_client" := List(seq(|s.playerClients|, i requires 0 <= i < |s.playerClients| => Str(s.playerClients[i])))])])
  }

  // ---------------------------------------------------------------------------
  // Exceptions.

  /** An exception as the program sees it: its class name and `str(exc)`. */
  datatype Exception = Exception(className: string, message: string)

  /**
   * `summarize_exception(exc)`: the class name for a blank message, or else
   * one non-empty line of at most 180 characters.
   */
  function SummarizeException(e: Exception): (r: string)
    ensures Strip(e.message, Whitespace) == "" ==> r == e.className
    ensures Strip(e.message, Whitespace) != "" ==>
      r != [] && |r| <= 180 && forall c :: c in r ==> !IsLineBreak(c)
  {
    var text := Strip(e.message, Whitespace);
    if text == "" then e.className
    else
      StripEnds(e.message, Whitespace);
      LineBreakIsSpace(text[0]);
      var first := FirstLine(text);
      if |first| > 180 then
        TruncatedHasNoLineBreak(first);
        first[..177] + "..."
      else first
  }

  lemma TruncatedHasNoLineBreak(first: string)
    requires |first| > 180 && forall c :: c in first ==> !IsLineBreak(c)
    ensures forall c :: c in first[..177] + "..." ==> !IsLineBreak(c)
  {
    var r := first[..177] + "...";
    forall c | c in r
      ensures !IsLineBreak(c)
    {
      if c !in first[..177] {
        assert c in "...";
      }
    }
  }

  /** Whether the trimmed message's first line is longer than 180 characters. */
  predicate LongFirstLine(text: string) {
    |text| > 180 && forall i :: 0 <= i <= 180 ==> !IsLineBreak(text[i])
  }

  /**
   * Which of the two shapes the summary of a non-blank message takes: its
   * whole first line when that fits in 180 characters, otherwise the first
   * 177 characters followed by "...".
   */
  lemma SummaryShape(e: Exception)
    requires Strip(e.message, Whitespace) != ""
    ensures var text := Strip(e.message, Whitespace);
      var r := SummarizeException(e);
      !LongFirstLine(text) ==> StartsWith(text, r) && (|r| == |text| || IsLineBreak(text[|r|]))
    ensures var text := Strip(e.message, Whitespace);
      var r := SummarizeException(e);
      LongFirstLine(text) ==> |r| == 180 && r[..177] == text[..177] && r[177..] == "..."
  {
    var text := Strip(e.message, Whitespace);
    var first := FirstLine(text);
    if |first| > 180 {
      forall i | 0 <= i <= 180
        ensures !IsLineBreak(text[i])
      {
        assert text[i] == first[i];
        assert first[i] in first;
      }
      assert first[..177] == text[..177];
    } else if |first| < |text| {
      assert IsLineBreak(text[|first|]);
    }
  }

  // ---------------------------------------------------------------------------
  // The service.

  /** What the metadata probe does: returns the info it extracted, or raises. */
  datatype ProbeOutcome = ProbeOk(info: Value) | ProbeRaised(exc: Exception)

  /** What a download does: raises, or finishes with its info; either way the folder may have changed. */
  datatype DownloadOutcome =
    | DownloadRaised(exc: Exception, after: Disk)
    | DownloadCompleted(info: Value, after: Disk)

  /** The downloader library, reduced to the answers it gives for a URL and options. */
  datatype Service = Service(
    probe: (string, map<string, Value>) -> ProbeOutcome,
    download: (string, map<string, Value>, Disk) -> DownloadOutcome)

  /** What does not change while one URL is downloaded. */
  datatype Job = Job(service: Service, url: string, source: CookieSource, base: map<string, Value>)

  /** `DownloadResult(url, success, title, output_file, strategy, error)`. */
  datatype DownloadResult = DownloadResult(
    url: string, success: bool, title: string, outputFile: Option<string>, strategy: string, error: string)

  const InitialError := "unknown download error"
  const NoOutputError := "yt-dlp finished but no output file was created"
  const TooSmallError := "downloaded file was too small: "
  const ProbeFailedError := "format probe failed: "
  const AllFailed := "all strategies failed"
  /** Files smaller than this many bytes are not accepted as a download. */
  const MinimumSize := 10000

  /** The result when no strategy succeeded. */
  function Failure(url: string, error: string): DownloadResult {
    DownloadResult(url, false, "", None, AllFailed, error)
  }

  // ---------------------------------------------------------------------------
  // One strategy.

  /** `ydl_opts` once the strategy's extractor arguments and cookies are in. */
  function StrategyOptions(base: map<string, Value>, s: Strategy, source: CookieSource): map<string, Value> {
    CookieOptions(base["extractor_args" := ExtractorArgs(s)], source, s.useCookies)
  }

  /** `probe_opts`: a copy of the options told to fetch metadata only. */
  function ProbeOptions(opts: map<string, Value>): map<string, Value> {
    opts["skip_download" := Bool(true)]["quiet" := Bool(true)]["no_warnings" := Bool(true)]["noplaylist" := Bool(true)]
  }

  /**
   * `probe_format` with the handler around it in `download_video`: the
   * selector, its label, and `last_error` afterwards.
   */
  function ProbeSelection(service: Service, url: string, opts: map<string, Value>, lastError: string): (string, string, string) {
    match service.probe(url, ProbeOptions(opts))
    case ProbeOk(info) =>
      var (selector, description) := if info.Dict? then Selection(info.fields) else (GenericSelector, GenericLabel);
      (selector, description, lastError)
    case ProbeRaised(e) => (GenericSelector, GenericLabel, ProbeFailedError + SummarizeException(e))
  }

  /** The newest new video file, else what the info points at. */
  function ChosenOutput(before: Snapshot, info: Value, disk: Disk): Option<string> {
    var created := NewVideoFiles(before, disk);
    if created != [] then Some(created[0]) else ResolvedOutput(info, disk)
  }

  /** `str(info.get("title") or output_file.stem)`, or the stem when the info is not a dictionary. */
  function Title(info: Value, output: string): string {
    if info.Dict? then AsText(Or(Get(info.fields, "title"), Str(Stem(output)))) else Stem(output)
  }

  /** What one strategy leaves: a result, or the error to remember; and the folder. */
  datatype Step = Succeeded(result: DownloadResult, disk: Disk) | Failed(error: string, disk: Disk)

  /** After a finished download: look for the file and judge it. */
  function Judge(url: string, before: Snapshot, info: Value, disk: Disk, strategyName: string): Step {
    match ChosenOutput(before, info, disk)
    case None => Failed(NoOutputError, disk)
    case Some(output) =>
      if Size(disk, output) < MinimumSize then Failed(TooSmallError + Name(output), Unlink(disk, output))
      else Succeeded(DownloadResult(url, true, Title(info, output), Some(output), strategyName, ""), disk)
  }

  /** One pass of the strategy loop of `download_video`. */
  function Attempt(job: Job, before: Snapshot, disk: Disk, lastError: string, s: Strategy): Step {
    var opts := StrategyOptions(job.base, s, job.source);
    var (selector, description, probeError) := ProbeSelection(job.service, job.url, opts, lastError);
    match job.service.download(job.url, opts["format" := Str(selector)], disk)
    case DownloadRaised(e, after) => Failed(SummarizeException(e), after)
    case DownloadCompleted(info, after) => Judge(job.url, before, info, after, s.name + " | " + description)
  }

  /** The label the probe gives a strategy. */
  function ProbeLabel(job: Job, s: Strategy): string {
    ProbeSelection(job.service, job.url, StrategyOptions(job.base, s, job.source), "").1
  }

  /** What the found file has to be. */
  predicate AcceptedOutput(disk: Disk, path: string) {
    IsFile(disk, path) && IsVideoPath(path) && Size(disk, path) >= MinimumSize
  }

  lemma ChosenOutputIsVideo(before: Snapshot, info: Value, disk: Disk)
    requires ChosenOutput(before, info, disk).Some?
    ensures IsFile(disk, ChosenOutput(before, info, disk).value) && IsVideoPath(ChosenOutput(before, info, disk).value)
  {
    var created := NewVideoFiles(before, disk);
    if created != [] {
      NewVideoFilesMembers(before, disk);
      assert created[0] in created;
    }
  }

  /**
   * A strategy succeeds only with an existing video file of at least 10,000
   * bytes; its result names the strategy and its label and has no error.
   */
  lemma AttemptSucceeded(job: Job, before: Snapshot, disk: Disk, lastError: string, s: Strategy)
    requires Attempt(job, before, disk, lastError, s).Succeeded?
    ensures var step := Attempt(job, before, disk, lastError, s);
      var r := step.result;
      r.success && r.url == job.url && r.error == "" && r.strategy == s.name + " | " + ProbeLabel(job, s)
      && r.outputFile.Some? && AcceptedOutput(step.disk, r.outputFile.value)
  {
    var opts := StrategyOptions(job.base, s, job.source);
    var (selector, description, probeError) := ProbeSelection(job.service, job.url, opts, lastError);
    assert description == ProbeLabel(job, s);
    match job.service.download(job.url, opts["format" := Str(selector)], disk)
    case DownloadRaised(e, after) =>
    case DownloadCompleted(info, after) =>
      ChosenOutputIsVideo(before, info, after);
  }

  /**
   * A strategy fails in one of three ways: the download raised, nothing
   * came out, or what came out was too small and is gone from the folder.
   */
  lemma AttemptFailed(job: Job, before: Snapshot, disk: Disk, lastError: string, s: Strategy)
    requires Attempt(job, before, disk, lastError, s).Failed?
    ensures var step := Attempt(job, before, disk, lastError, s);
      var opts := StrategyOptions(job.base, s, job.source);
      var outcome := job.service.download(job.url, opts["format" := Str(ProbeSelection(job.service, job.url, opts, lastError).0)], disk);
      match outcome
      case DownloadRaised(e, after) => step.error == SummarizeException(e) && step.disk == after
      case DownloadCompleted(info, after) =>
        match ChosenOutput(before, info, after)
        case None => step.error == NoOutputError && step.disk == after
        case Some(output) =>
          Size(after, output) < MinimumSize && step.error == TooSmallError + Name(output)
          && !Exists(step.disk, output) && step.disk.nodes == after.nodes - {output}
  {
  }

  /**
   * What a pass does does not depend on the error remembered before it: the
   * download's own outcome, or the judgement of its file, decides the error it leaves.
   */
  lemma AttemptIgnoresLastError(job: Job, before: Snapshot, disk: Disk, e1: string, e2: string, s: Strategy)
    ensures Attempt(job, before, disk, e1, s) == Attempt(job, before, disk, e2, s)
  {
    var opts := StrategyOptions(job.base, s, job.source);
    assert ProbeSelection(job.service, job.url, opts, e1).0 == ProbeSelection(job.service, job.url, opts, e2).0;
    assert ProbeSelection(job.service, job.url, opts, e1).1 == ProbeSelection(job.service, job.url, opts, e2).1;
  }

  /** What a probe tells the format choice: the info it returned, or nothing when it raised. */
  function ProbeInfo(o: ProbeOutcome): Option<Value> {
    match o
    case ProbeOk(info) => Some(info)
    case ProbeRaised(_) => None
  }

  /** The selector and label depend only on the info the probe returned, not on what it raised. */
  lemma SelectionOfSameInfo(s1: Service, s2: Service, url: string, opts: map<string, Value>, lastError: string)
    requires ProbeInfo(s1.probe(url, ProbeOptions(opts))) == ProbeInfo(s2.probe(url, ProbeOptions(opts)))
    ensures ProbeSelection(s1, url, opts, lastError).0 == ProbeSelection(s2, url, opts, lastError).0
    ensures ProbeSelection(s1, url, opts, lastError).1 == ProbeSelection(s2, url, opts, lastError).1
  {
  }

  /** A pass with a probe that raises something else, or the same thing, does the same. */
  lemma AttemptOfSameInfo(job: Job, other: Job, before: Snapshot, disk: Disk, lastError: string, s: Strategy)
    requires other == Job(Service(other.service.probe, job.service.download), job.url, job.source, job.base)
    requires forall u, opts :: ProbeInfo(other.service.probe(u, opts)) == ProbeInfo(job.service.probe(u, opts))
    ensures Attempt(other, before, disk, lastError, s) == Attempt(job, before, disk, lastError, s)
  {
    var opts := StrategyOptions(job.base, s, job.source);
    SelectionOfSameInfo(other.service, job.service, job.url, opts, lastError);
  }

  // ---------------------------------------------------------------------------
  // The strategy loop.

  /** One pass as a function of the folder, the remembered error and the strategy. */
  type Attempter = (Disk, string, Strategy) -> Step

  function AttemptFor(job: Job, before: Snapshot): Attempter {
    (disk: Disk, lastError: string, s: Strategy) => Attempt(job, before, disk, lastError, s)
  }

  /** The passes the loop makes, in strategy order, up to and including the first success. */
  function Steps(attempt: Attempter, disk: Disk, lastError: string, ss: seq<Strategy>): seq<Step>
    decreases |ss|
  {
    if ss == [] then []
    else
      var step := attempt(disk, lastError, ss[0]);
      if step.Succeeded? then [step] else [step] + Steps(attempt, step.disk, step.error, ss[1..])
  }

  /** The folder and the remembered error before pass `i`. */
  function DiskBefore(disk: Disk, steps: seq<Step>, i: nat): Disk
    requires i <= |steps|
  {
    if i == 0 then disk else steps[i - 1].disk
  }

  function ErrorBefore(lastError: string, steps: seq<Step>, i: nat): string
    requires i <= |steps|
  {
    if i == 0 then lastError else if steps[i - 1].Failed? then steps[i - 1].error else lastError
  }

  /** The result of the loop: the success, or the last error. */
  function Outcome(url: string, disk: Disk, lastError: string, steps: seq<Step>): (DownloadResult, Disk) {
    if steps == [] then (Failure(url, lastError), disk)
    else
      var last := steps[|steps| - 1];
      match last
      case Succeeded(result, after) => (result, after)
      case Failed(error, after) => (Failure(url, error), after)
  }

  /** The loop itself: return at the first success, else go on with the error and folder it left. */
  function Run(url: string, attempt: Attempter, disk: Disk, lastError: string, ss: seq<Strategy>): (DownloadResult, Disk)
    decreases |ss|
  {
    if ss == [] then (Failure(url, lastError), disk)
    else
      var step := attempt(disk, lastError, ss[0]);
      if step.Succeeded? then (step.result, step.disk) else Run(url, attempt, step.disk, step.error, ss[1..])
  }

  /**
   * `download_video(url, cookie_source, ...)`: the snapshot is taken once,
   * before the loop. A success carries an accepted file and no error; a
   * failure is "all strategies failed" with an error and no file.
   */
  function DownloadedVideo(job: Job, disk: Disk): (r: (DownloadResult, Disk))
    ensures Reports(job.url, r.0, r.1)
  {
    var before := SnapshotOf(disk);
    AttemptsReport(job, before);
    RunReports(job.url, AttemptFor(job, before), disk, InitialError, DownloadStrategies());
    Run(job.url, AttemptFor(job, before), disk, InitialError, DownloadStrategies())
  }

  /** What a result for `url` looks like, with the folder it leaves. */
  predicate Reports(url: string, result: DownloadResult, disk: Disk) {
    result.url == url
    && (result.success ==> result.error == "" && result.outputFile.Some? && AcceptedOutput(disk, result.outputFile.value))
    && (!result.success ==> result == Failure(url, result.error))
  }

  /** What a pass that succeeds reports. */
  predicate PassReports(url: string, step: Step) {
    step.Succeeded? ==> step.result.success && Reports(url, step.result, step.disk)
  }

  lemma AttemptsReport(job: Job, before: Snapshot)
    ensures forall d, e, s :: PassReports(job.url, AttemptFor(job, before)(d, e, s))
  {
    forall d, e, s
      ensures PassReports(job.url, AttemptFor(job, before)(d, e, s))
    {
      if Attempt(job, before, d, e, s).Succeeded? {
        AttemptSucceeded(job, before, d, e, s);
      }
    }
  }

  /** The loop reports only what its passes report, or the failure. */
  lemma {:induction false} RunReports(url: string, attempt: Attempter, disk: Disk, lastError: string, ss: seq<Strategy>)
    requires forall d, e, s :: PassReports(url, attempt(d, e, s))
    decreases |ss|
    ensures var r := Run(url, attempt, disk, lastError, ss); Reports(url, r.0, r.1)
  {
    if ss != [] {
      var step := attempt(disk, lastError, ss[0]);
      if step.Failed? {
        RunReports(url, attempt, step.disk, step.error, ss[1..]);
      }
    }
  }

  /** Two loops whose passes agree everywhere end alike. */
  lemma {:induction false} RunOfSamePasses(url: string, a1: Attempter, a2: Attempter, disk: Disk, lastError: string, ss: seq<Strategy>)
    requires forall d, e, s :: a1(d, e, s) == a2(d, e, s)
    decreases |ss|
    ensures Run(url, a1, disk, lastError, ss) == Run(url, a2, disk, lastError, ss)
  {
    if ss != [] {
      var step := a1(disk, lastError, ss[0]);
      if step.Failed? {
        RunOfSamePasses(url, a1, a2, step.disk, step.error, ss[1..]);
      }
    }
  }

  /**
   * The error a failed probe records is never reported: `download_video`
   * ends the same whatever the probe raised, as long as it raised.
   */
  lemma ProbeErrorOverwritten(job: Job, probe: (string, map<string, Value>) -> ProbeOutcome, disk: Disk)
    requires forall u, opts :: ProbeInfo(probe(u, opts)) == ProbeInfo(job.service.probe(u, opts))
    ensures DownloadedVideo(Job(Service(probe, job.service.download), job.url, job.source, job.base), disk)
      == DownloadedVideo(job, disk)
  {
    var other := Job(Service(probe, job.service.download), job.url, job.source, job.base);
    var before := SnapshotOf(disk);
    forall d, e, s
      ensures AttemptFor(other, before)(d, e, s) == AttemptFor(job, before)(d, e, s)
    {
      AttemptOfSameInfo(job, other, before, d, e, s);
    }
    RunOfSamePasses(job.url, AttemptFor(other, before), AttemptFor(job, before), disk, InitialError, DownloadStrategies());
  }

  /** The loop ends as its trace of passes says: with the last pass's success, or with its error. */
  lemma {:induction false} RunIsOutcome(url: string, attempt: Attempter, disk: Disk, lastError: string, ss: seq<Strategy>)
    decreases |ss|
    ensures Run(url, attempt, disk, lastError, ss) == Outcome(url, disk, lastError, Steps(attempt, disk, lastError, ss))
  {
    if ss != [] {
      var step := attempt(disk, lastError, ss[0]);
      if step.Failed? {
        RunIsOutcome(url, attempt, step.disk, step.error, ss[1..]);
        var rest := Steps(attempt, step.disk, step.error, ss[1..]);
        assert Steps(attempt, disk, lastError, ss) == [step] + rest;
        if rest != [] {
          assert ([step] + rest)[|rest|] == rest[|rest| - 1];
        }
      }
    }
  }

  /** Every pass but the last failed; the loop stops early only on a success. */
  lemma {:induction false} StepsShape(attempt: Attempter, disk: Disk, lastError: string, ss: seq<Strategy>)
    decreases |ss|
    ensures var steps := Steps(attempt, disk, lastError, ss);
      |steps| <= |ss| && (ss != [] ==> steps != [])
      && (forall i :: 0 <= i < |steps| - 1 ==> steps[i].Failed?)
      && (|steps| < |ss| ==> steps[|steps| - 1].Succeeded?)
  {
    if ss != [] {
      var step := attempt(disk, lastError, ss[0]);
      if step.Failed? {
        var rest := Steps(attempt, step.disk, step.error, ss[1..]);
        StepsShape(attempt, step.disk, step.error, ss[1..]);
        var steps := [step] + rest;
        assert Steps(attempt, disk, lastError, ss) == steps;
        forall i | 0 <= i < |steps| - 1
          ensures steps[i].Failed?
        {
          if i > 0 {
            assert steps[i] == rest[i - 1];
          }
        }
      }
    }
  }

  /** Pass `i` tries strategy `i` on the folder and with the error the previous pass left. */
  lemma {:induction false} StepsInOrder(attempt: Attempter, disk: Disk, lastError: string, ss: seq<Strategy>)
    decreases |ss|
    ensures |Steps(attempt, disk, lastError, ss)| <= |ss|
    ensures var steps := Steps(attempt, disk, lastError, ss);
      forall i :: 0 <= i < |steps| ==>
        steps[i] == attempt(DiskBefore(disk, steps, i), ErrorBefore(lastError, steps, i), ss[i])
  {
    StepsShape(attempt, disk, lastError, ss);
    if ss != [] {
      var step := attempt(disk, lastError, ss[0]);
      if step.Failed? {
        var rest := Steps(attempt, step.disk, step.error, ss[1..]);
        StepsInOrder(attempt, step.disk, step.error, ss[1..]);
        var steps := [step] + rest;
        assert Steps(attempt, disk, lastError, ss) == steps;
        forall i | 0 <= i < |steps|
          ensures steps[i] == attempt(DiskBefore(disk, steps, i), ErrorBefore(lastError, steps, i), ss[i])
        {
          if i > 0 {
            assert steps[i] == rest[i - 1] && ss[i] == ss[1..][i - 1];
            if i > 1 {
              assert steps[i - 1] == rest[i - 2];
              assert DiskBefore(disk, steps, i) == DiskBefore(step.disk, rest, i - 1);
              assert ErrorBefore(lastError, steps, i) == ErrorBefore(step.error, rest, i - 1);
            }
          }
        }
      }
    }
  }

  /**
   * What the loop reports: the last pass's success, or, once every strategy
   * has failed, "all strategies failed" with the error of the last pass.
   */
  lemma OutcomeOfSteps(url: string, attempt: Attempter, disk: Disk, lastError: string, ss: seq<Strategy>)
    requires ss != []
    ensures var steps := Steps(attempt, disk, lastError, ss);
      var k := |steps| - 1;
      var (result, after) := Outcome(url, disk, lastError, steps);
      0 <= k < |ss|
      && (steps[k].Succeeded? ==> result == steps[k].result && after == steps[k].disk)
      && (steps[k].Failed? ==> k == |ss| - 1 && result == Failure(url, steps[k].error) && after == steps[k].disk)
  {
    StepsShape(attempt, disk, lastError, ss);
  }

  /** The passes `download_video` makes. */
  function DownloadSteps(job: Job, disk: Disk): seq<Step> {
    Steps(AttemptFor(job, SnapshotOf(disk)), disk, InitialError, DownloadStrategies())
  }

  /**
   * A successful download is the success of strategy `k`, every earlier one
   * having failed; its result carries an accepted file, that strategy's name
   * and label, and no error.
   */
  lemma DownloadSucceeded(job: Job, disk: Disk) returns (k: nat)
    requires DownloadedVideo(job, disk).0.success
    ensures var (result, after) := DownloadedVideo(job, disk);
      var ss := DownloadStrategies();
      k < |ss| && k == |DownloadSteps(job, disk)| - 1
      && (forall j :: 0 <= j < k ==> DownloadSteps(job, disk)[j].Failed?)
      && result.strategy == ss[k].name + " | " + ProbeLabel(job, ss[k])
      && result.url == job.url && result.error == ""
      && result.outputFile.Some? && AcceptedOutput(after, result.outputFile.value)
  {
    var ss := DownloadStrategies();
    var before := SnapshotOf(disk);
    var attempt := AttemptFor(job, before);
    var steps := Steps(attempt, disk, InitialError, ss);
    assert steps == DownloadSteps(job, disk);
    StepsShape(attempt, disk, InitialError, ss);
    StepsInOrder(attempt, disk, InitialError, ss);
    OutcomeOfSteps(job.url, attempt, disk, InitialError, ss);
    RunIsOutcome(job.url, attempt, disk, InitialError, ss);
    k := |steps| - 1;
    var d := DiskBefore(disk, steps, k);
    var e := ErrorBefore(InitialError, steps, k);
    assert steps[k] == Attempt(job, before, d, e, ss[k]);
    AttemptSucceeded(job, before, d, e, ss[k]);
  }

  /** A failed download has tried all four strategies and reports the error of the last. */
  lemma DownloadFailed(job: Job, disk: Disk)
    requires !DownloadedVideo(job, disk).0.success
    ensures var steps := DownloadSteps(job, disk);
      |steps| == 4 && (forall i :: 0 <= i < 4 ==> steps[i].Failed?)
      && DownloadedVideo(job, disk).0 == Failure(job.url, steps[3].error)
  {
    var ss := DownloadStrategies();
    var before := SnapshotOf(disk);
    var attempt := AttemptFor(job, before);
    var steps := Steps(attempt, disk, InitialError, ss);
    assert steps == DownloadSteps(job, disk);
    StepsShape(attempt, disk, InitialError, ss);
    StepsInOrder(attempt, disk, InitialError, ss);
    OutcomeOfSteps(job.url, attempt, disk, InitialError, ss);
    RunIsOutcome(job.url, attempt, disk, InitialError, ss);
    var k := |steps| - 1;
    var d := DiskBefore(disk, steps, k);
    var e := ErrorBefore(InitialError, steps, k);
    assert steps[k] == Attempt(job, before, d, e, ss[k]);
    if steps[k].Succeeded? {
      AttemptSucceeded(job, before, d, e, ss[k]);
    }
  }

  // ---------------------------------------------------------------------------
  // The loop as the program runs it.

  /** `probe_format(url, ydl_opts)` inside its handler. */
  method ProbeFormat(service: Service, url: string, opts: map<string, Value>, lastError: string)
    returns (selector: string, description: string, error: string)
    ensures (selector, description, error) == ProbeSelection(service, url, opts, lastError)
  {
    error := lastError;
    match service.probe(url, ProbeOptions(opts))
    case ProbeOk(info) =>
      if info.Dict? {
        selector, description := ChooseDownloadFormat(info.fields);
      } else {
        selector, description := GenericSelector, GenericLabel;
      }
    case ProbeRaised(e) =>
      selector, description := GenericSelector, GenericLabel;
      error := ProbeFailedError + SummarizeException(e);
  }

  /** The part of a pass after the download finished. */
  method JudgeDownload(url: string, before: Snapshot, info: Value, disk: Disk, strategyName: string) returns (step: Step)
    ensures step == Judge(url, before, info, disk, strategyName)
  {
    var created := FindNewVideoFiles(before, disk);
    var output: Option<string>;
    if created != [] {
      output := Some(created[0]);
    } else {
      output := ResolveOutputFromInfo(info, disk);
    }
    if output.None? {
      return Failed(NoOutputError, disk);
    }
    var path := output.value;
    if Size(disk, path) < MinimumSize {
      return Failed(TooSmallError + Name(path), Unlink(disk, path));
    }
    var title := Stem(path);
    if info.Dict? {
      title := AsText(Or(Get(info.fields, "title"), Str(title)));
    }
    return Succeeded(DownloadResult(url, true, title, output, strategyName, ""), disk);
  }

  /** One pass of the loop, with the options built in place. */
  method TryStrategy(job: Job, before: Snapshot, disk: Disk, lastError: string, s: Strategy) returns (step: Step)
    ensures step == Attempt(job, before, disk, lastError, s)
  {
    var opts := new OptionsDict(job.base);
    opts.Set("extractor_args", ExtractorArgs(s));
    ApplyCookieSource(opts, job.source, s.useCookies);
    assert opts.entries == StrategyOptions(job.base, s, job.source);
    var selector, description, error := ProbeFormat(job.service, job.url, opts.entries, lastError);
    opts.Set("format", Str(selector));
    var strategyName := s.name + " | " + description;
    match job.service.download(job.url, opts.entries, disk)
    case DownloadRaised(e, after) =>
      step := Failed(SummarizeException(e), after);
    case DownloadCompleted(info, after) =>
      step := JudgeDownload(job.url, before, info, after, strategyName);
  }

  method DownloadVideo(job: Job, disk: Disk) returns (result: DownloadResult, after: Disk)
    ensures (result, after) == DownloadedVideo(job, disk)
  {
    var before := SnapshotOutputFolder(disk);
    var lastError := InitialError;
    var strategies := DownloadStrategies();
    ghost var attempt := AttemptFor(job, before);
    after := disk;
    var i := 0;
    assert strategies[i..] == strategies;
    while i < |strategies|
      invariant 0 <= i <= |strategies|
      invariant Run(job.url, attempt, disk, InitialError, strategies) == Run(job.url, attempt, after, lastError, strategies[i..])
    {
      var step := TryStrategy(job, before, after, lastError, strategies[i]);
      assert step == attempt(after, lastError, strategies[i]);
      assert strategies[i..][0] == strategies[i] && strategies[i..][1..] == strategies[i + 1..];
      if step.Succeeded? {
        return step.result, step.disk;
      }
      lastError := step.error;
      after := step.disk;
      i := i + 1;
    }
    assert strategies[i..] == [];
    result := Failure(job.url, lastError);
  }
}
