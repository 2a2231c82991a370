/** The feature extraction pass: one left-to-right scan over the attempts of
    a test accumulates timing, error, attachment and console features into an
    analysis, then averages and the variance flag are derived. The
    per-failed-attempt log-line sets are returned beside the analysis rather
    than stored in it. */
module Extractor {
  import opened Wrappers
  import opened Seqs
  import opened Strings
  import opened Types
  import opened LogLines
  import opened Patterns
  import opened Analysis

  const MessageLineLimit: nat := 5
  const UnknownError: string := "Unknown Error"
  const DefaultErrorType: string := "Error"
  const TimeoutErrorType: string := "TimeoutError"
  const ConsoleHint: string := "Errors/Warnings in console of failed runs"

  // ---------------------------------------------------------------------
  // Error fingerprints

  /** The message, or "Unknown Error" when it is absent or empty. */
  function MessageText(e: TestError): string {
    OrElse(e.message, UnknownError)
  }

  function MessageLines(e: TestError): seq<string> {
    Split(MessageText(e), '\n')
  }

  /** The deduplication key: the first five lines of the message. */
  function MessageKey(e: TestError): (r: string)
    ensures r <= MessageText(e)
  {
    var lines := MessageLines(e);
    var n := if |lines| < MessageLineLimit then |lines| else MessageLineLimit;
    JoinPrefix(lines, n, "\n");
    JoinSplitRoundTrip(MessageText(e), '\n');
    Join(lines[..n], "\n")
  }

  /** The type label: "TimeoutError" when the message mentions a timeout,
      otherwise the error's value, or "Error". */
  function ErrorType(e: TestError): (r: string)
    ensures r != ""
  {
    if Contains(ToLower(Join(MessageLines(e), " ")), "timeout") then TimeoutErrorType
    else OrElse(e.value, DefaultErrorType)
  }

  /** The key is made of the first (at most five) lines of the message, it
      is a prefix of the message, and a message of at most five lines is its
      own key. */
  lemma MessageKeyIsFirstLines(e: TestError)
    ensures var lines := MessageLines(e);
      Split(MessageKey(e), '\n') == lines[..if |lines| < MessageLineLimit then |lines| else MessageLineLimit]
    ensures MessageKey(e) <= MessageText(e)
    ensures |MessageLines(e)| <= MessageLineLimit ==> MessageKey(e) == MessageText(e)
  {
    var lines := MessageLines(e);
    var n := if |lines| < MessageLineLimit then |lines| else MessageLineLimit;
    assert forall p :: p in lines[..n] ==> p in lines;
    SplitJoinRoundTrip(lines[..n], '\n');
    JoinPrefix(lines, n, "\n");
    JoinSplitRoundTrip(MessageText(e), '\n');
    assert lines[..|lines|] == lines;
  }

  /** The label is "TimeoutError" whenever the message (or "Unknown
      Error") contains "timeout" in any ASCII case; otherwise it is the
      error's value, or "Error" when that is absent or empty. */
  lemma ErrorTypeLabel(e: TestError)
    ensures ContainsIgnoreCase(MessageText(e), "timeout") ==> ErrorType(e) == TimeoutErrorType
    ensures !ContainsIgnoreCase(MessageText(e), "timeout") ==> ErrorType(e) == OrElse(e.value, DefaultErrorType)
  {
    TimeoutAcrossLines(e);
  }

  /** Joining the lines with spaces does not change whether the message
      mentions a timeout. */
  lemma TimeoutAcrossLines(e: TestError)
    ensures Contains(ToLower(Join(MessageLines(e), " ")), "timeout") <==> ContainsIgnoreCase(MessageText(e), "timeout")
  {
    var m := MessageText(e);
    JoinSplit(m, '\n', ' ');
    assert Join(MessageLines(e), " ") == Replace(m, '\n', ' ');
    ContainsAcrossNewlineReplace(m, "timeout");
  }

  /** "Unknown Error" is a single line. */
  lemma UnknownErrorOneLine()
    ensures Split(UnknownError, '\n') == [UnknownError]
  {
    assert forall k :: 0 <= k < |UnknownError| ==> UnknownError[k] != '\n';
    SplitWithoutSep(UnknownError, '\n');
  }

  /** "Unknown Error" does not mention a timeout, in any ASCII case. */
  lemma UnknownErrorNoTimeout()
    ensures !ContainsIgnoreCase(UnknownError, "timeout")
  {
    var lower := ToLower(UnknownError);
    assert forall k :: 0 <= k < |lower| ==> lower[k] != 't';
    forall i | 0 <= i <= |lower| - 7 ensures !OccursAt(lower, "timeout", i) {
      assert lower[i] != 't';
    }
  }

  /** An error without a message (or with an empty one) is keyed
      "Unknown Error", and since that text holds no "timeout" its label is
      the error's value, or "Error" when that is absent or empty too. */
  lemma ErrorDefaults(e: TestError)
    ensures !Truthy(e.message) ==> MessageKey(e) == UnknownError
    ensures !Truthy(e.message) && !Truthy(e.value) ==> ErrorType(e) == DefaultErrorType
    ensures !Truthy(e.message) && Truthy(e.value) ==> ErrorType(e) == e.value.value
  {
    if !Truthy(e.message) {
      UnknownErrorOneLine();
      UnknownErrorNoTimeout();
      assert MessageLines(e)[..1] == [UnknownError];
      ErrorTypeLabel(e);
    }
  }

  /** A failed or timed-out attempt that carries an error object. */
  predicate IsErroredFailure(a: RunAttempt) {
    IsFailure(a.status) && a.error.Some?
  }

  function AttemptMessageKey(a: RunAttempt): string {
    if a.error.Some? then MessageKey(a.error.value) else ""
  }

  function AttemptErrorType(a: RunAttempt): string {
    if a.error.Some? then ErrorType(a.error.value) else ""
  }

  // ---------------------------------------------------------------------
  // Attachments and console output

  datatype AttachmentKind = TraceFile | Screenshot | Video | Ignored

  /** Which list, if any, an attachment of a failed attempt goes to. */
  function Classify(att: Attachment): (r: AttachmentKind)
    ensures r != Ignored ==> Truthy(att.path)
  {
    if att.name == "trace" && Truthy(att.path) then TraceFile
    else if StartsWith(att.contentType, "image/") && Truthy(att.path) then Screenshot
    else if StartsWith(att.contentType, "video/") && Truthy(att.path) then Video
    else Ignored
  }

  /** Every attachment that lands in a list has a path, a trace name beats
      an image or video content type, and an image content type beats a
      video one. */
  lemma ClassifyPrecedence(att: Attachment)
    ensures Classify(att) != Ignored ==> Truthy(att.path)
    ensures Classify(att) == TraceFile <==> att.name == "trace" && Truthy(att.path)
    ensures Classify(att) == Screenshot <==>
      att.name != "trace" && StartsWith(att.contentType, "image/") && Truthy(att.path)
    ensures Classify(att) == Video <==>
      && att.name != "trace" && !StartsWith(att.contentType, "image/")
      && StartsWith(att.contentType, "video/") && Truthy(att.path)
  {
  }

  /** The paths of the attachments of kind `kind`, in order. */
  function ClassifiedPaths(atts: seq<Attachment>, kind: AttachmentKind): (paths: seq<string>)
    decreases |atts|
  {
    if |atts| == 0 then []
    else
      var att := atts[|atts| - 1];
      ClassifiedPaths(atts[..|atts| - 1], kind)
        + (if Classify(att) == kind && kind != Ignored then [att.path.value] else [])
  }

  /** Every collected path is the non-empty path of an attachment of that
      kind. */
  lemma {:induction false} ClassifiedPathsFrom(atts: seq<Attachment>, kind: AttachmentKind, p: string)
    requires p in ClassifiedPaths(atts, kind)
    ensures kind != Ignored && p != ""
    ensures exists j :: 0 <= j < |atts| && Classify(atts[j]) == kind && atts[j].path == Some(p)
    decreases |atts|
  {
    var init := atts[..|atts| - 1];
    if p in ClassifiedPaths(init, kind) {
      ClassifiedPathsFrom(init, kind, p);
      var j :| 0 <= j < |init| && Classify(init[j]) == kind && init[j].path == Some(p);
      assert atts[j] == init[j];
    } else {
      assert Classify(atts[|atts| - 1]) == kind;
    }
  }

  /** Some path is collected exactly when some attachment is of that kind
      and the kind is a listed one. */
  lemma {:induction false} ClassifiedNonEmpty(atts: seq<Attachment>, kind: AttachmentKind)
    ensures |ClassifiedPaths(atts, kind)| > 0 <==>
      kind != Ignored && exists j :: 0 <= j < |atts| && Classify(atts[j]) == kind
    decreases |atts|
  {
    if |atts| > 0 {
      var init := atts[..|atts| - 1];
      ClassifiedNonEmpty(init, kind);
      if exists j :: 0 <= j < |init| && Classify(init[j]) == kind {
        var j :| 0 <= j < |init| && Classify(init[j]) == kind;
        assert atts[j] == init[j];
      }
      if exists j :: 0 <= j < |atts| && Classify(atts[j]) == kind {
        var j :| 0 <= j < |atts| && Classify(atts[j]) == kind;
        if j < |init| {
          assert init[j] == atts[j];
        }
      }
    }
  }

  function TracePaths(a: RunAttempt): seq<string> {
    ClassifiedPaths(a.attachments, TraceFile)
  }

  function ScreenshotPaths(a: RunAttempt): seq<string> {
    ClassifiedPaths(a.attachments, Screenshot)
  }

  function VideoPaths(a: RunAttempt): seq<string> {
    ClassifiedPaths(a.attachments, Video)
  }

  /** stdout and stderr chunks joined with line breaks. */
  function ConsoleText(a: RunAttempt): string {
    Join(Chunks(a), "\n")
  }

  predicate HasConsoleKeyword(a: RunAttempt) {
    ConsoleKeyword(ConsoleText(a))
  }

  function DurationOf(a: RunAttempt): nat {
    a.duration
  }

  // ---------------------------------------------------------------------
  // The scan

  /** The key and type label of one error. */
  datatype Fingerprint = Fingerprint(key: string, typeLabel: string)

  /** What the loop body reads from one attempt. */
  datatype Contribution = Contribution(
    status: TestStatus,
    duration: nat,
    fingerprint: Option<Fingerprint>,
    traces: seq<string>,
    screenshots: seq<string>,
    videos: seq<string>,
    consoleMatch: bool,
    logLines: set<string>)

  function Contribute(a: RunAttempt): Contribution {
    Contribution(
      a.status,
      a.duration,
      if a.error.Some? then Some(Fingerprint(MessageKey(a.error.value), ErrorType(a.error.value))) else None,
      TracePaths(a),
      ScreenshotPaths(a),
      VideoPaths(a),
      HasConsoleKeyword(a),
      AttemptLines(a))
  }

  predicate IsPassedC(c: Contribution) { c.status == Passed }
  predicate IsFailedC(c: Contribution) { IsFailure(c.status) }
  predicate IsErroredC(c: Contribution) { IsFailure(c.status) && c.fingerprint.Some? }
  function DurationC(c: Contribution): nat { c.duration }
  function LinesC(c: Contribution): set<string> { c.logLines }
  function KeyC(c: Contribution): string { if c.fingerprint.Some? then c.fingerprint.value.key else "" }
  function LabelC(c: Contribution): string { if c.fingerprint.Some? then c.fingerprint.value.typeLabel else "" }
  function TracesC(c: Contribution): seq<string> { c.traces }
  function ScreenshotsC(c: Contribution): seq<string> { c.screenshots }
  function VideosC(c: Contribution): seq<string> { c.videos }

  /** The analysis being filled in, and the locals of the loop. */
  datatype Scan = Scan(
    analysis: FlakyAnalysis,
    durations: seq<nat>,
    passedDurations: seq<nat>,
    failedDurations: seq<nat>,
    errorMessages: seq<string>,
    errorTypes: seq<string>,
    failedLogSets: seq<set<string>>)

  function StartScan(analysis: FlakyAnalysis): Scan {
    Scan(analysis, [], [], [], [], [], [])
  }

  /** What a failed or timed-out attempt adds beyond its duration. */
  function ScanFailure(st: Scan, c: Contribution): Scan {
    var an := st.analysis;
    var es := an.errorSummary;
    var att := an.relevantAttachments;
    var st1 := st.(
      failedDurations := st.failedDurations + [c.duration],
      failedLogSets := st.failedLogSets + [c.logLines]);
    var st2 :=
      if c.fingerprint.Some? then
        st1.(
          analysis := an.(errorSummary := es.(count := es.count + 1)),
          errorMessages := AddUnique(st1.errorMessages, c.fingerprint.value.key),
          errorTypes := AddUnique(st1.errorTypes, c.fingerprint.value.typeLabel))
      else st1;
    var an2 := st2.analysis;
    var att2 := RelevantAttachments(
      att.failedTraces + c.traces,
      att.failedScreenshots + c.screenshots,
      att.failedVideos + c.videos);
    var hints :=
      if c.consoleMatch then AddUnique(an2.consoleOutputHints, ConsoleHint)
      else an2.consoleOutputHints;
    st2.(analysis := an2.(relevantAttachments := att2, consoleOutputHints := hints))
  }

  /** One iteration of the loop over attempts. */
  function ScanAttempt(st: Scan, c: Contribution): Scan {
    var t := st.analysis.timing;
    var t' := t.(
      minDurationMs := MinExt(t.minDurationMs, c.duration),
      maxDurationMs := if c.duration > t.maxDurationMs then c.duration else t.maxDurationMs);
    var st' := st.(
      analysis := st.analysis.(timing := t'),
      durations := st.durations + [c.duration]);
    if c.status == Passed then st'.(passedDurations := st'.passedDurations + [c.duration])
    else if IsFailure(c.status) then ScanFailure(st', c)
    else st'
  }

  function ScanAll(cs: seq<Contribution>, st: Scan): Scan
    decreases |cs|
  {
    if |cs| == 0 then st
    else ScanAttempt(ScanAll(cs[..|cs| - 1], st), cs[|cs| - 1])
  }

  function Sum(ds: seq<nat>): nat
    decreases |ds|
  {
    if |ds| == 0 then 0 else Sum(ds[..|ds| - 1]) + ds[|ds| - 1]
  }

  function Mean(ds: seq<nat>): real
    requires |ds| > 0
  {
    (Sum(ds) as real) / (|ds| as real)
  }

  /** A sum of values between `lo` and `hi` lies between `n·lo` and
      `n·hi`. */
  lemma {:induction false} SumBounds(ds: seq<nat>, lo: int, hi: int)
    requires forall i :: 0 <= i < |ds| ==> lo <= ds[i] <= hi
    ensures |ds| * lo <= Sum(ds) <= |ds| * hi
    decreases |ds|
  {
    if |ds| > 0 {
      var init := ds[..|ds| - 1];
      var n := |init|;
      assert forall i :: 0 <= i < n ==> init[i] == ds[i];
      SumBounds(init, lo, hi);
      assert (n + 1) * lo == n * lo + lo;
      assert (n + 1) * hi == n * hi + hi;
    }
  }

  /** A quotient of a sum between `n·lo` and `n·hi` by `n` lies between
      `lo` and `hi`. */
  lemma QuotientBounds(s: int, n: int, lo: int, hi: int)
    requires n > 0 && n * lo <= s <= n * hi
    ensures lo as real <= (s as real) / (n as real) <= hi as real
  {
    var q := (s as real) / (n as real);
    assert q * (n as real) == s as real;
    assert (n * lo) as real == (n as real) * (lo as real);
    assert (n * hi) as real == (n as real) * (hi as real);
  }

  /** The mean lies between any lower and upper bound of the values. */
  lemma MeanBounds(ds: seq<nat>, lo: int, hi: int)
    requires |ds| > 0
    requires forall i :: 0 <= i < |ds| ==> lo <= ds[i] <= hi
    ensures lo as real <= Mean(ds) <= hi as real
  {
    SumBounds(ds, lo, hi);
    QuotientBounds(Sum(ds), |ds|, lo, hi);
  }

  /** After the loop: averages, the variance flag and the deduplicated
      error lists. */
  function Finish(st: Scan): FlakyAnalysis {
    var an := st.analysis;
    var t := an.timing;
    var high :=
      && |st.durations| > 1
      && ExceedsTwice(t.maxDurationMs, t.minDurationMs)
      && |st.failedDurations| > 0
      && |st.passedDurations| > 0;
    var t' := t.(
      avgDurationMs := if |st.durations| > 0 then Mean(st.durations) else t.avgDurationMs,
      passedAvgDurationMs :=
        if |st.passedDurations| > 0 then Some(Mean(st.passedDurations)) else t.passedAvgDurationMs,
      failedAvgDurationMs :=
        if |st.failedDurations| > 0 then Some(Mean(st.failedDurations)) else t.failedAvgDurationMs,
      durationVarianceHigh := if high then true else t.durationVarianceHigh);
    an.(timing := t', errorSummary := an.errorSummary.(messages := st.errorMessages, types := st.errorTypes))
  }

  /** The result of the extraction pass. */
  datatype Extraction = Extraction(analysis: FlakyAnalysis, failedLogSets: seq<set<string>>)

  /** Pass 1 over one test, accumulating into `analysis`. */
  function ExtractBaseFeatures(test: AggregatedTestResult, analysis: FlakyAnalysis): Extraction {
    var st := ScanAll(Map(test.attempts, Contribute), StartScan(analysis));
    Extraction(Finish(st), st.failedLogSets)
  }

  // ---------------------------------------------------------------------
  // What the scan computes, stated without the loop

  /** One iteration, field by field. */
  lemma ScanStep(st: Scan, c: Contribution)
    ensures var r := ScanAttempt(st, c);
      && r.durations == st.durations + [c.duration]
      && r.passedDurations == st.passedDurations + (if IsPassedC(c) then [c.duration] else [])
      && r.failedDurations == st.failedDurations + (if IsFailedC(c) then [c.duration] else [])
      && r.failedLogSets == st.failedLogSets + (if IsFailedC(c) then [c.logLines] else [])
      && r.errorMessages == (if IsErroredC(c) then AddUnique(st.errorMessages, KeyC(c)) else st.errorMessages)
      && r.errorTypes == (if IsErroredC(c) then AddUnique(st.errorTypes, LabelC(c)) else st.errorTypes)
      && r.analysis.errorSummary.count == st.analysis.errorSummary.count + (if IsErroredC(c) then 1 else 0)
      && r.analysis.relevantAttachments.failedTraces ==
           st.analysis.relevantAttachments.failedTraces + (if IsFailedC(c) then c.traces else [])
      && r.analysis.relevantAttachments.failedScreenshots ==
           st.analysis.relevantAttachments.failedScreenshots + (if IsFailedC(c) then c.screenshots else [])
      && r.analysis.relevantAttachments.failedVideos ==
           st.analysis.relevantAttachments.failedVideos + (if IsFailedC(c) then c.videos else [])
      && r.analysis.consoleOutputHints ==
           (if IsFailedC(c) && c.consoleMatch then AddUnique(st.analysis.consoleOutputHints, ConsoleHint)
            else st.analysis.consoleOutputHints)
  {
  }

  /** One iteration on the distinct keys and labels. */
  lemma ScanFingerprintStep(st: Scan, c: Contribution)
    ensures var r := ScanAttempt(st, c);
      && r.errorMessages == (if IsErroredC(c) then AddUnique(st.errorMessages, KeyC(c)) else st.errorMessages)
      && r.errorTypes == (if IsErroredC(c) then AddUnique(st.errorTypes, LabelC(c)) else st.errorTypes)
  {
  }

  /** One iteration leaves the identity, the reasons and the averages
      alone. */
  lemma ScanKeepsStep(st: Scan, c: Contribution)
    ensures var r := ScanAttempt(st, c).analysis;
      var a := st.analysis;
      && r.testId == a.testId && r.title == a.title && r.location == a.location
      && r.potentialReasons == a.potentialReasons
      && r.timing.avgDurationMs == a.timing.avgDurationMs
      && r.timing.passedAvgDurationMs == a.timing.passedAvgDurationMs
      && r.timing.failedAvgDurationMs == a.timing.failedAvgDurationMs
      && r.timing.durationVarianceHigh == a.timing.durationVarianceHigh
  {
  }

  /** One iteration on the running minimum and maximum. */
  lemma ScanTimingStep(st: Scan, c: Contribution)
    ensures var t := st.analysis.timing;
      var r := ScanAttempt(st, c).analysis.timing;
      && r.minDurationMs == MinExt(t.minDurationMs, c.duration)
      && r.maxDurationMs == (if c.duration > t.maxDurationMs then c.duration else t.maxDurationMs)
  {
  }

  /** Every attempt's duration is recorded, in order. */
  lemma {:induction false} ScanDurations(cs: seq<Contribution>, st: Scan)
    ensures ScanAll(cs, st).durations == st.durations + Map(cs, DurationC)
    decreases |cs|
  {
    if |cs| > 0 {
      var init := cs[..|cs| - 1];
      var c := cs[|cs| - 1];
      ScanDurations(init, st);
      assert ScanAll(cs, st).durations == ScanAll(init, st).durations + [c.duration];
      assert cs == init + [c];
      MapAppend(init, [c], DurationC);
    }
  }

  /** The passed attempts' durations are recorded, in order. */
  lemma {:induction false} ScanPassedDurations(cs: seq<Contribution>, st: Scan)
    ensures ScanAll(cs, st).passedDurations == st.passedDurations + Map(Filter(cs, IsPassedC), DurationC)
    decreases |cs|
  {
    if |cs| > 0 {
      var init := cs[..|cs| - 1];
      var c := cs[|cs| - 1];
      ScanPassedDurations(init, st);
      var p := Filter(init, IsPassedC);
      if IsPassedC(c) {
        assert ScanAll(cs, st).passedDurations == ScanAll(init, st).passedDurations + [c.duration];
        assert Filter(cs, IsPassedC) == p + [c];
        MapAppend(p, [c], DurationC);
      } else {
        assert ScanAll(cs, st).passedDurations == ScanAll(init, st).passedDurations;
        assert Filter(cs, IsPassedC) == p;
      }
    }
  }

  /** The failed and timed-out attempts' durations and log sets are
      recorded, in order. */
  lemma {:induction false} ScanFailedLists(cs: seq<Contribution>, st: Scan)
    ensures ScanAll(cs, st).failedDurations == st.failedDurations + Map(Filter(cs, IsFailedC), DurationC)
    ensures ScanAll(cs, st).failedLogSets == st.failedLogSets + Map(Filter(cs, IsFailedC), LinesC)
    decreases |cs|
  {
    if |cs| > 0 {
      var init := cs[..|cs| - 1];
      var c := cs[|cs| - 1];
      ScanFailedLists(init, st);
      var f := Filter(init, IsFailedC);
      if IsFailedC(c) {
        assert ScanAll(cs, st).failedDurations == ScanAll(init, st).failedDurations + [c.duration];
        assert ScanAll(cs, st).failedLogSets == ScanAll(init, st).failedLogSets + [c.logLines];
        assert Filter(cs, IsFailedC) == f + [c];
        MapAppend(f, [c], DurationC);
        MapAppend(f, [c], LinesC);
      } else {
        assert ScanAll(cs, st).failedDurations == ScanAll(init, st).failedDurations;
        assert ScanAll(cs, st).failedLogSets == ScanAll(init, st).failedLogSets;
        assert Filter(cs, IsFailedC) == f;
      }
    }
  }

  /** The running minimum is at most the starting value and every duration,
      and is one of them. */
  lemma {:induction false} ScanMin(cs: seq<Contribution>, st: Scan)
    ensures var m := ScanAll(cs, st).analysis.timing.minDurationMs;
      var m0 := st.analysis.timing.minDurationMs;
      && ExtLe(m, m0)
      && (forall i :: 0 <= i < |cs| ==> ExtLe(m, Finite(cs[i].duration)))
      && (m == m0 || exists i :: 0 <= i < |cs| && m == Finite(cs[i].duration))
    decreases |cs|
  {
    if |cs| > 0 {
      var init := cs[..|cs| - 1];
      ScanMin(init, st);
      ScanTimingStep(ScanAll(init, st), cs[|cs| - 1]);
      var m := ScanAll(cs, st).analysis.timing.minDurationMs;
      var mi := ScanAll(init, st).analysis.timing.minDurationMs;
      assert m == MinExt(mi, cs[|cs| - 1].duration);
      forall i | 0 <= i < |cs| ensures ExtLe(m, Finite(cs[i].duration)) {
        if i < |init| {
          assert init[i] == cs[i];
        }
      }
      if m != st.analysis.timing.minDurationMs && m == mi {
        var i :| 0 <= i < |init| && mi == Finite(init[i].duration);
        assert init[i] == cs[i];
      }
    }
  }

  /** The running maximum is at least the starting value and every
      duration, and is one of them. */
  lemma {:induction false} ScanMax(cs: seq<Contribution>, st: Scan)
    ensures var m := ScanAll(cs, st).analysis.timing.maxDurationMs;
      var m0 := st.analysis.timing.maxDurationMs;
      && m0 <= m
      && (forall i :: 0 <= i < |cs| ==> cs[i].duration <= m)
      && (m == m0 || exists i :: 0 <= i < |cs| && m == cs[i].duration)
    decreases |cs|
  {
    if |cs| > 0 {
      var init := cs[..|cs| - 1];
      ScanMax(init, st);
      ScanTimingStep(ScanAll(init, st), cs[|cs| - 1]);
      var m := ScanAll(cs, st).analysis.timing.maxDurationMs;
      var mi := ScanAll(init, st).analysis.timing.maxDurationMs;
      forall i | 0 <= i < |cs| ensures cs[i].duration <= m {
        if i < |init| {
          assert init[i] == cs[i];
        }
      }
      if m != st.analysis.timing.maxDurationMs && m == mi {
        var i :| 0 <= i < |init| && mi == init[i].duration;
        assert init[i] == cs[i];
      }
    }
  }

  /** The error count grows by one per failed or timed-out attempt with an
      error. */
  lemma {:induction false} ScanErrorCount(cs: seq<Contribution>, st: Scan)
    ensures ScanAll(cs, st).analysis.errorSummary.count == st.analysis.errorSummary.count + |Filter(cs, IsErroredC)|
    decreases |cs|
  {
    if |cs| > 0 {
      var init := cs[..|cs| - 1];
      var c := cs[|cs| - 1];
      ScanErrorCount(init, st);
      if IsErroredC(c) {
        assert ScanAll(cs, st).analysis.errorSummary.count == ScanAll(init, st).analysis.errorSummary.count + 1;
      } else {
        assert ScanAll(cs, st).analysis.errorSummary.count == ScanAll(init, st).analysis.errorSummary.count;
      }
    }
  }

  /** The message keys of the failed attempts with an error are added, in
      order, to the insertion-ordered set. */
  lemma {:induction false} ScanErrorMessages(cs: seq<Contribution>, st: Scan)
    ensures ScanAll(cs, st).errorMessages == AddAll(st.errorMessages, Map(Filter(cs, IsErroredC), KeyC))
    decreases |cs|
  {
    if |cs| > 0 {
      var init := cs[..|cs| - 1];
      var c := cs[|cs| - 1];
      ScanErrorMessages(init, st);
      ScanFingerprintStep(ScanAll(init, st), c);
      var e := Filter(init, IsErroredC);
      if IsErroredC(c) {
        assert Filter(cs, IsErroredC) == e + [c];
        MapAppend(e, [c], KeyC);
        AddAllSnoc(st.errorMessages, Map(e, KeyC), KeyC(c));
      } else {
        assert Filter(cs, IsErroredC) == e;
      }
    }
  }

  /** The type labels of the failed attempts with an error are added, in
      order, to the insertion-ordered set. */
  lemma {:induction false} ScanErrorTypes(cs: seq<Contribution>, st: Scan)
    ensures ScanAll(cs, st).errorTypes == AddAll(st.errorTypes, Map(Filter(cs, IsErroredC), LabelC))
    decreases |cs|
  {
    if |cs| > 0 {
      var init := cs[..|cs| - 1];
      var c := cs[|cs| - 1];
      ScanErrorTypes(init, st);
      ScanFingerprintStep(ScanAll(init, st), c);
      var e := Filter(init, IsErroredC);
      if IsErroredC(c) {
        assert Filter(cs, IsErroredC) == e + [c];
        MapAppend(e, [c], LabelC);
        AddAllSnoc(st.errorTypes, Map(e, LabelC), LabelC(c));
      } else {
        assert Filter(cs, IsErroredC) == e;
      }
    }
  }

  /** The trace list grows by the failed attempts' trace paths, in order. */
  lemma {:induction false} ScanTraces(cs: seq<Contribution>, st: Scan)
    ensures ScanAll(cs, st).analysis.relevantAttachments.failedTraces ==
      st.analysis.relevantAttachments.failedTraces + FlatMap(Filter(cs, IsFailedC), TracesC)
    decreases |cs|
  {
    if |cs| > 0 {
      var init := cs[..|cs| - 1];
      var c := cs[|cs| - 1];
      ScanTraces(init, st);
      ScanStep(ScanAll(init, st), c);
      var f := Filter(init, IsFailedC);
      if IsFailedC(c) {
        assert Filter(cs, IsFailedC) == f + [c];
        assert (f + [c])[..|f|] == f;
      } else {
        assert Filter(cs, IsFailedC) == f;
      }
    }
  }

  /** The screenshot list grows by the failed attempts' screenshot paths,
      in order. */
  lemma {:induction false} ScanScreenshots(cs: seq<Contribution>, st: Scan)
    ensures ScanAll(cs, st).analysis.relevantAttachments.failedScreenshots ==
      st.analysis.relevantAttachments.failedScreenshots + FlatMap(Filter(cs, IsFailedC), ScreenshotsC)
    decreases |cs|
  {
    if |cs| > 0 {
      var init := cs[..|cs| - 1];
      var c := cs[|cs| - 1];
      ScanScreenshots(init, st);
      ScanStep(ScanAll(init, st), c);
      var f := Filter(init, IsFailedC);
      if IsFailedC(c) {
        assert Filter(cs, IsFailedC) == f + [c];
        assert (f + [c])[..|f|] == f;
      } else {
        assert Filter(cs, IsFailedC) == f;
      }
    }
  }

  /** The video list grows by the failed attempts' video paths, in order. */
  lemma {:induction false} ScanVideos(cs: seq<Contribution>, st: Scan)
    ensures ScanAll(cs, st).analysis.relevantAttachments.failedVideos ==
      st.analysis.relevantAttachments.failedVideos + FlatMap(Filter(cs, IsFailedC), VideosC)
    decreases |cs|
  {
    if |cs| > 0 {
      var init := cs[..|cs| - 1];
      var c := cs[|cs| - 1];
      ScanVideos(init, st);
      ScanStep(ScanAll(init, st), c);
      var f := Filter(init, IsFailedC);
      if IsFailedC(c) {
        assert Filter(cs, IsFailedC) == f + [c];
        assert (f + [c])[..|f|] == f;
      } else {
        assert Filter(cs, IsFailedC) == f;
      }
    }
  }

  predicate IsConsoleFailureC(c: Contribution) { IsFailedC(c) && c.consoleMatch }

  /** The console hint is added once if any failed or timed-out attempt's
      console text matches the keyword pattern. */
  lemma {:induction false} ScanHints(cs: seq<Contribution>, st: Scan)
    ensures var h0 := st.analysis.consoleOutputHints;
      ScanAll(cs, st).analysis.consoleOutputHints ==
        if Any(cs, IsConsoleFailureC) then AddUnique(h0, ConsoleHint) else h0
    decreases |cs|
  {
    if |cs| > 0 {
      var init := cs[..|cs| - 1];
      var c := cs[|cs| - 1];
      ScanHints(init, st);
      ScanStep(ScanAll(init, st), c);
      var h0 := st.analysis.consoleOutputHints;
      if Any(init, IsConsoleFailureC) && IsConsoleFailureC(c) {
        assert AddUnique(AddUnique(h0, ConsoleHint), ConsoleHint) == AddUnique(h0, ConsoleHint);
      }
    }
  }

  /** The scan leaves identity, reasons, averages and the variance flag
      alone. */
  lemma {:induction false} ScanKeeps(cs: seq<Contribution>, st: Scan)
    ensures var r := ScanAll(cs, st).analysis;
      var a := st.analysis;
      && r.testId == a.testId && r.title == a.title && r.location == a.location
      && r.potentialReasons == a.potentialReasons
      && r.timing.avgDurationMs == a.timing.avgDurationMs
      && r.timing.passedAvgDurationMs == a.timing.passedAvgDurationMs
      && r.timing.failedAvgDurationMs == a.timing.failedAvgDurationMs
      && r.timing.durationVarianceHigh == a.timing.durationVarianceHigh
    decreases |cs|
  {
    if |cs| > 0 {
      ScanKeeps(cs[..|cs| - 1], st);
      ScanKeepsStep(ScanAll(cs[..|cs| - 1], st), cs[|cs| - 1]);
    }
  }

  // ---------------------------------------------------------------------
  // What extraction computes, stated on the attempts

  predicate IsConsoleFailure(a: RunAttempt) {
    IsFailedAttempt(a) && HasConsoleKeyword(a)
  }

  /** The contributions agree with the attempts they come from. */
  lemma ContributedDurations(ats: seq<RunAttempt>)
    ensures Map(Map(ats, Contribute), DurationC) == Map(ats, DurationOf)
  {
  }

  lemma ContributedPassed(ats: seq<RunAttempt>)
    ensures Filter(Map(ats, Contribute), IsPassedC) == Map(Filter(ats, IsPassedAttempt), Contribute)
  {
    FilterMap(ats, Contribute, IsPassedC, IsPassedAttempt);
  }

  lemma ContributedFailed(ats: seq<RunAttempt>)
    ensures Filter(Map(ats, Contribute), IsFailedC) == Map(Filter(ats, IsFailedAttempt), Contribute)
  {
    FilterMap(ats, Contribute, IsFailedC, IsFailedAttempt);
  }

  lemma ContributedErrored(ats: seq<RunAttempt>)
    ensures Filter(Map(ats, Contribute), IsErroredC) == Map(Filter(ats, IsErroredFailure), Contribute)
  {
    FilterMap(ats, Contribute, IsErroredC, IsErroredFailure);
  }

  /** The minimum and maximum are bounds of the starting values and of
      every attempt's duration, and each is attained by one of them. */
  lemma ExtractMinMax(test: AggregatedTestResult, a0: FlakyAnalysis)
    ensures var ats := test.attempts;
      var t := ExtractBaseFeatures(test, a0).analysis.timing;
      && ExtLe(t.minDurationMs, a0.timing.minDurationMs)
      && (forall i :: 0 <= i < |ats| ==> ExtLe(t.minDurationMs, Finite(ats[i].duration)))
      && (t.minDurationMs == a0.timing.minDurationMs
          || exists i :: 0 <= i < |ats| && t.minDurationMs == Finite(ats[i].duration))
      && a0.timing.maxDurationMs <= t.maxDurationMs
      && (forall i :: 0 <= i < |ats| ==> ats[i].duration <= t.maxDurationMs)
      && (t.maxDurationMs == a0.timing.maxDurationMs
          || exists i :: 0 <= i < |ats| && t.maxDurationMs == ats[i].duration)
  {
    var cs := Map(test.attempts, Contribute);
    ScanMin(cs, StartScan(a0));
    ScanMax(cs, StartScan(a0));
  }

  /** The average is the mean of all durations; with no attempt it is
      left as it was. */
  lemma ExtractAverage(test: AggregatedTestResult, a0: FlakyAnalysis)
    ensures var ats := test.attempts;
      ExtractBaseFeatures(test, a0).analysis.timing.avgDurationMs ==
        if |ats| > 0 then Mean(Map(ats, DurationOf)) else a0.timing.avgDurationMs
  {
    var cs := Map(test.attempts, Contribute);
    var st := ScanAll(cs, StartScan(a0));
    ScanDurations(cs, StartScan(a0));
    ScanKeeps(cs, StartScan(a0));
    ContributedDurations(test.attempts);
    assert st.durations == Map(test.attempts, DurationOf);
  }

  /** The passed average is the mean of the passed attempts' durations; with
      no passed attempt it is left as it was. */
  lemma ExtractPassedAverage(test: AggregatedTestResult, a0: FlakyAnalysis)
    ensures var ps := Filter(test.attempts, IsPassedAttempt);
      ExtractBaseFeatures(test, a0).analysis.timing.passedAvgDurationMs ==
        if |ps| > 0 then Some(Mean(Map(ps, DurationOf))) else a0.timing.passedAvgDurationMs
  {
    var cs := Map(test.attempts, Contribute);
    var st := ScanAll(cs, StartScan(a0));
    var ps := Filter(test.attempts, IsPassedAttempt);
    ScanPassedDurations(cs, StartScan(a0));
    ScanKeeps(cs, StartScan(a0));
    ContributedPassed(test.attempts);
    ContributedDurations(ps);
    assert st.passedDurations == Map(ps, DurationOf);
  }

  /** The failed average is the mean of the failed and timed-out attempts'
      durations; with no such attempt it is left as it was. */
  lemma ExtractFailedAverage(test: AggregatedTestResult, a0: FlakyAnalysis)
    ensures var fs := Filter(test.attempts, IsFailedAttempt);
      ExtractBaseFeatures(test, a0).analysis.timing.failedAvgDurationMs ==
        if |fs| > 0 then Some(Mean(Map(fs, DurationOf))) else a0.timing.failedAvgDurationMs
  {
    var cs := Map(test.attempts, Contribute);
    var st := ScanAll(cs, StartScan(a0));
    var fs := Filter(test.attempts, IsFailedAttempt);
    ScanFailedLists(cs, StartScan(a0));
    ScanKeeps(cs, StartScan(a0));
    ContributedFailed(test.attempts);
    ContributedDurations(fs);
    assert st.failedDurations == Map(fs, DurationOf);
  }

  /** The variance flag is raised exactly when it already was, or there is
      more than one attempt, both a passed and a failed or timed-out one,
      and the maximum exceeds twice the minimum. */
  lemma ExtractVariance(test: AggregatedTestResult, a0: FlakyAnalysis)
    ensures var ats := test.attempts;
      var t := ExtractBaseFeatures(test, a0).analysis.timing;
      t.durationVarianceHigh <==>
        || a0.timing.durationVarianceHigh
        || (&& |ats| > 1
            && |Filter(ats, IsPassedAttempt)| > 0
            && |Filter(ats, IsFailedAttempt)| > 0
            && ExceedsTwice(t.maxDurationMs, t.minDurationMs))
  {
    var ats := test.attempts;
    var cs := Map(ats, Contribute);
    var st := StartScan(a0);
    ScanDurations(cs, st);
    ScanPassedDurations(cs, st);
    ScanFailedLists(cs, st);
    ScanKeeps(cs, st);
    ContributedPassed(ats);
    ContributedFailed(ats);
  }

  /** The count grows by the number of failed or timed-out attempts with an
      error. */
  lemma ExtractErrorCount(test: AggregatedTestResult, a0: FlakyAnalysis)
    ensures ExtractBaseFeatures(test, a0).analysis.errorSummary.count ==
      a0.errorSummary.count + |Filter(test.attempts, IsErroredFailure)|
  {
    ScanErrorCount(Map(test.attempts, Contribute), StartScan(a0));
    ContributedErrored(test.attempts);
  }

  /** The messages are the distinct keys of the failed or timed-out attempts
      with an error, in order of first occurrence. */
  lemma ExtractErrorMessages(test: AggregatedTestResult, a0: FlakyAnalysis)
    ensures ExtractBaseFeatures(test, a0).analysis.errorSummary.messages ==
      Dedup(Map(Filter(test.attempts, IsErroredFailure), AttemptMessageKey))
  {
    var es := Filter(test.attempts, IsErroredFailure);
    ScanErrorMessages(Map(test.attempts, Contribute), StartScan(a0));
    ContributedErrored(test.attempts);
    MapOfMap(es, Contribute, KeyC, AttemptMessageKey);
  }

  /** The types are the distinct labels of the failed or timed-out attempts
      with an error, in order of first occurrence. */
  lemma ExtractErrorTypes(test: AggregatedTestResult, a0: FlakyAnalysis)
    ensures ExtractBaseFeatures(test, a0).analysis.errorSummary.types ==
      Dedup(Map(Filter(test.attempts, IsErroredFailure), AttemptErrorType))
  {
    var es := Filter(test.attempts, IsErroredFailure);
    ScanErrorTypes(Map(test.attempts, Contribute), StartScan(a0));
    ContributedErrored(test.attempts);
    MapOfMap(es, Contribute, LabelC, AttemptErrorType);
  }

  /** The path lists grow by the classified paths of the failed or
      timed-out attempts, in order. */
  lemma ExtractAttachments(test: AggregatedTestResult, a0: FlakyAnalysis)
    ensures var fs := Filter(test.attempts, IsFailedAttempt);
      var r := ExtractBaseFeatures(test, a0).analysis.relevantAttachments;
      var r0 := a0.relevantAttachments;
      && r.failedTraces == r0.failedTraces + FlatMap(fs, TracePaths)
      && r.failedScreenshots == r0.failedScreenshots + FlatMap(fs, ScreenshotPaths)
      && r.failedVideos == r0.failedVideos + FlatMap(fs, VideoPaths)
  {
    var ats := test.attempts;
    var cs := Map(ats, Contribute);
    var st := StartScan(a0);
    var fs := Filter(ats, IsFailedAttempt);
    ScanTraces(cs, st);
    ScanScreenshots(cs, st);
    ScanVideos(cs, st);
    ContributedFailed(ats);
    FlatMapOfMap(fs, Contribute, TracesC, TracePaths);
    FlatMapOfMap(fs, Contribute, ScreenshotsC, ScreenshotPaths);
    FlatMapOfMap(fs, Contribute, VideosC, VideoPaths);
  }

  /** The console hint is added, once, exactly when some failed or timed-out
      attempt's console output matches the keyword pattern. */
  lemma ExtractHints(test: AggregatedTestResult, a0: FlakyAnalysis)
    ensures var ats := test.attempts;
      var h0 := a0.consoleOutputHints;
      ExtractBaseFeatures(test, a0).analysis.consoleOutputHints ==
        if exists i :: 0 <= i < |ats| && IsConsoleFailure(ats[i]) then AddUnique(h0, ConsoleHint) else h0
  {
    var ats := test.attempts;
    var cs := Map(ats, Contribute);
    ScanHints(cs, StartScan(a0));
    AnyMember(cs, IsConsoleFailureC);
    assert forall i :: 0 <= i < |ats| ==> (IsConsoleFailureC(cs[i]) <==> IsConsoleFailure(ats[i]));
  }

  /** One log-line set per failed or timed-out attempt, in order. */
  lemma ExtractLogSets(test: AggregatedTestResult, a0: FlakyAnalysis)
    ensures ExtractBaseFeatures(test, a0).failedLogSets == Map(Filter(test.attempts, IsFailedAttempt), AttemptLines)
  {
    var ats := test.attempts;
    var cs := Map(ats, Contribute);
    ScanFailedLists(cs, StartScan(a0));
    ContributedFailed(ats);
    MapOfMap(Filter(ats, IsFailedAttempt), Contribute, LinesC, AttemptLines);
  }

  /** Extraction leaves the identity and the reasons alone. */
  lemma ExtractKeeps(test: AggregatedTestResult, a0: FlakyAnalysis)
    ensures var r := ExtractBaseFeatures(test, a0).analysis;
      && r.testId == a0.testId && r.title == a0.title && r.location == a0.location
      && r.potentialReasons == a0.potentialReasons
  {
    ScanKeeps(Map(test.attempts, Contribute), StartScan(a0));
  }
}
