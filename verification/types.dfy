/** The aggregated test data shared by the reporter plugin and the
    dashboard: statuses, errors, attachments, attempts and the per-test
    record. */
module Types {
  import opened Wrappers

  /** The five terminal statuses of one test attempt. */
  datatype TestStatus = Passed | Failed | TimedOut | Skipped | Interrupted

  /** `failed` and `timedOut`: the statuses every component treats as a
      failure. */
  predicate IsFailure(s: TestStatus) {
    s == Failed || s == TimedOut
  }

  /** The parts of a runner error the analysis reads. */
  datatype TestError = TestError(message: Option<string>, value: Option<string>)

  /** A file or blob the runner attached to an attempt. */
  datatype Attachment = Attachment(name: string, contentType: string, path: Option<string>)

  /** One execution of a test. Console chunks are text. */
  datatype RunAttempt = RunAttempt(
    attempt: nat,
    status: TestStatus,
    duration: nat,
    error: Option<TestError>,
    stdout: seq<string>,
    stderr: seq<string>,
    attachments: seq<Attachment>)

  /** All attempts of one test, grouped by the reporter. */
  datatype AggregatedTestResult = AggregatedTestResult(
    id: string,
    title: string,
    location: string,
    finalStatus: TestStatus,
    isFlaky: bool,
    attempts: seq<RunAttempt>)

  predicate IsPassedAttempt(a: RunAttempt) {
    a.status == Passed
  }

  predicate IsFailedAttempt(a: RunAttempt) {
    IsFailure(a.status)
  }

  /** JavaScript truthiness of an optional string: present and non-empty. */
  predicate Truthy(o: Option<string>) {
    o.Some? && o.value != ""
  }

  /** `o || fallback` for an optional string. */
  function OrElse(o: Option<string>, fallback: string): (r: string)
    ensures Truthy(o) ==> r == o.value
    ensures !Truthy(o) ==> r == fallback
  {
    if Truthy(o) then o.value else fallback
  }
}
