/** The diagnosis record one test receives, and the only way the rule
    engine changes it: adding a reason tag. */
module Analysis {
  import opened Wrappers
  import opened Seqs

  /** An integer or positive infinity: the running minimum starts at
      `Infinity`. */
  datatype ExtInt = PosInfinity | Finite(value: int)

  /** `a <= b` on extended integers. */
  predicate ExtLe(a: ExtInt, b: ExtInt) {
    b.PosInfinity? || (a.Finite? && a.value <= b.value)
  }

  /** `Math.min(e, d)`. */
  function MinExt(e: ExtInt, d: int): (r: ExtInt)
    ensures r.Finite? && ExtLe(r, e) && r.value <= d
    ensures r == e || r == Finite(d)
  {
    if e.PosInfinity? || d < e.value then Finite(d) else e
  }

  /** `max > min * 2`; nothing exceeds twice infinity. */
  predicate ExceedsTwice(max: int, min: ExtInt) {
    min.Finite? && max > 2 * min.value
  }

  datatype ErrorSummary = ErrorSummary(count: nat, messages: seq<string>, types: seq<string>)

  datatype Timing = Timing(
    minDurationMs: ExtInt,
    maxDurationMs: int,
    avgDurationMs: real,
    passedAvgDurationMs: Option<real>,
    failedAvgDurationMs: Option<real>,
    durationVarianceHigh: bool)

  datatype RelevantAttachments = RelevantAttachments(
    failedTraces: seq<string>,
    failedScreenshots: seq<string>,
    failedVideos: seq<string>)

  /** The analysis of one test. `potentialReasons` is an insertion-ordered
      set of reason tags. */
  datatype FlakyAnalysis = FlakyAnalysis(
    testId: string,
    title: string,
    location: string,
    potentialReasons: seq<string>,
    errorSummary: ErrorSummary,
    timing: Timing,
    consoleOutputHints: seq<string>,
    relevantAttachments: RelevantAttachments)

  /** `analysis.potentialReasons.add(tag)`. */
  function WithReason(a: FlakyAnalysis, tag: string): FlakyAnalysis {
    a.(potentialReasons := AddUnique(a.potentialReasons, tag))
  }

  /** `WithReason` when `condition` holds. */
  function WithReasonIf(a: FlakyAnalysis, condition: bool, tag: string): FlakyAnalysis {
    if condition then WithReason(a, tag) else a
  }

  /** `r` is `a` with possibly some reason tags appended, and nothing else
      changed. */
  predicate OnlyAddsReasons(a: FlakyAnalysis, r: FlakyAnalysis) {
    && r == a.(potentialReasons := r.potentialReasons)
    && a.potentialReasons <= r.potentialReasons
    && (NoDup(a.potentialReasons) ==> NoDup(r.potentialReasons))
  }
}
