/** The reporter's test-run logger: a map from test id to the aggregated
    record of all its attempts, kept in first-seen order. */
module Logger {
  import opened Wrappers
  import opened Seqs
  import opened Types

  /** What the logger reads of a runner test case. The location arrives
      already formatted as `file:line:column`. */
  datatype TestCase = TestCase(id: string, title: string, location: string)

  /** What the logger reads of one runner result. */
  datatype TestResult = TestResult(
    retry: nat,
    status: TestStatus,
    duration: nat,
    error: Option<TestError>,
    stdout: seq<string>,
    stderr: seq<string>,
    attachments: seq<Attachment>)

  /** The logger's insertion-ordered map: the keys in first-seen order and
      the records. */
  datatype Log = Log(order: seq<string>, entries: map<string, AggregatedTestResult>)

  const EmptyLog: Log := Log([], map[])

  predicate HasPassed(attempts: seq<RunAttempt>) {
    exists i :: 0 <= i < |attempts| && attempts[i].status == Passed
  }

  predicate HasFailed(attempts: seq<RunAttempt>) {
    exists i :: 0 <= i < |attempts| && IsFailure(attempts[i].status)
  }

  /** The flakiness rule: more than one attempt, one of them passed and one
      of them failed or timed out. */
  predicate IsFlakyHistory(attempts: seq<RunAttempt>) {
    |attempts| > 1 && HasPassed(attempts) && HasFailed(attempts)
  }

  /** The record the logger keeps consistent: its attempts are non-empty,
      the final status is the last attempt's, and the flag follows the
      flakiness rule. */
  predicate Consistent(e: AggregatedTestResult) {
    && |e.attempts| > 0
    && e.finalStatus == e.attempts[|e.attempts| - 1].status
    && e.isFlaky == IsFlakyHistory(e.attempts)
  }

  /** The logger's invariant: the key order lists each key once, and every
      record is stored under its own id. */
  predicate Valid(log: Log) {
    && NoDup(log.order)
    && (forall id | id in log.entries :: id in log.order)
    && (forall id | id in log.order :: id in log.entries)
    && (forall id | id in log.entries :: log.entries[id].id == id)
  }

  /** Every record is consistent. */
  predicate AllConsistent(log: Log) {
    forall id | id in log.entries :: Consistent(log.entries[id])
  }

  /** The attempt record built from a runner result. */
  function ToAttempt(result: TestResult): RunAttempt {
    RunAttempt(result.retry, result.status, result.duration, result.error,
               result.stdout, result.stderr, result.attachments)
  }

  /** The record created for a test seen for the first time. */
  function NewEntry(test: TestCase): AggregatedTestResult {
    AggregatedTestResult(test.id, test.title, test.location, Skipped, false, [])
  }

  /** One attempt pushed onto a record, with the final status and the flag
      brought up to date. */
  function Record(e: AggregatedTestResult, result: TestResult): AggregatedTestResult {
    var attempts := e.attempts + [ToAttempt(result)];
    var flaky := |attempts| > 1 && HasPassed(attempts) && HasFailed(attempts);
    e.(attempts := attempts, finalStatus := result.status, isFlaky := flaky)
  }

  /** Creates the test's record when it is new. */
  function Ensure(log: Log, test: TestCase): Log {
    if test.id in log.entries then log
    else Log(log.order + [test.id], log.entries[test.id := NewEntry(test)])
  }

  /** Records one attempt: creates the test's record when it is new, appends
      the attempt, sets the final status and recomputes the flag. */
  function LogTestAttempt(log: Log, test: TestCase, result: TestResult): (r: Log)
    ensures r.entries.Keys == log.entries.Keys + {test.id}
    ensures r.entries[test.id].attempts ==
      (if test.id in log.entries then log.entries[test.id].attempts else []) + [ToAttempt(result)]
  {
    var log1 := Ensure(log, test);
    log1.(entries := log1.entries[test.id := Record(log1.entries[test.id], result)])
  }

  /** The length test of the flakiness rule is redundant: a passed and a
      failed attempt are already two attempts. */
  lemma FlakyRule(attempts: seq<RunAttempt>)
    ensures IsFlakyHistory(attempts) <==> HasPassed(attempts) && HasFailed(attempts)
  {
    if HasPassed(attempts) && HasFailed(attempts) {
      var i :| 0 <= i < |attempts| && attempts[i].status == Passed;
      var j :| 0 <= j < |attempts| && IsFailure(attempts[j].status);
      assert i != j;
    }
  }

  /** A recorded attempt leaves the record consistent, whatever it held. */
  lemma RecordConsistent(e: AggregatedTestResult, result: TestResult)
    ensures Consistent(Record(e, result))
    ensures Record(e, result).attempts == e.attempts + [ToAttempt(result)]
    ensures Record(e, result).finalStatus == result.status
  {
  }

  /** One logged attempt: a new test gets a record with its id, title and
      location; the attempt is appended to exactly that test's attempts; the
      final status becomes the attempt's; no other record changes. */
  lemma LogTestAttemptSpec(log: Log, test: TestCase, result: TestResult)
    ensures var r := LogTestAttempt(log, test, result);
      && r.entries.Keys == log.entries.Keys + {test.id}
      && (forall id | id in log.entries && id != test.id :: r.entries[id] == log.entries[id])
      && r.entries[test.id].finalStatus == result.status
      && (test.id !in log.entries ==>
            && r.order == log.order + [test.id]
            && r.entries[test.id] == AggregatedTestResult(test.id, test.title, test.location, result.status, false, [ToAttempt(result)]))
      && (test.id in log.entries ==>
            var e := log.entries[test.id];
            && r.order == log.order
            && r.entries[test.id] == e.(attempts := e.attempts + [ToAttempt(result)],
                                       finalStatus := result.status,
                                       isFlaky := IsFlakyHistory(e.attempts + [ToAttempt(result)])))
  {
  }

  lemma EmptyLogValid()
    ensures Valid(EmptyLog) && AllConsistent(EmptyLog)
  {
  }

  /** Logging keeps the invariant, and appends a new test's id to the key
      order. */
  lemma LogTestAttemptValid(log: Log, test: TestCase, result: TestResult)
    requires Valid(log)
    ensures Valid(LogTestAttempt(log, test, result))
    ensures LogTestAttempt(log, test, result).order
      == if test.id in log.order then log.order else log.order + [test.id]
  {
    var r := LogTestAttempt(log, test, result);
    if test.id !in log.entries {
      assert test.id !in log.order;
      forall i, j | 0 <= i < j < |r.order| ensures r.order[i] != r.order[j] {
        if j == |log.order| {
          assert log.order[i] in log.order;
        }
      }
    }
  }

  /** Logging keeps every record consistent. */
  lemma LogTestAttemptConsistent(log: Log, test: TestCase, result: TestResult)
    requires AllConsistent(log)
    ensures AllConsistent(LogTestAttempt(log, test, result))
  {
    RecordConsistent(Ensure(log, test).entries[test.id], result);
  }

  /** A flaky test stays flaky whatever is logged next. */
  lemma FlakyStaysFlaky(log: Log, test: TestCase, result: TestResult, id: string)
    requires AllConsistent(log) && id in log.entries && log.entries[id].isFlaky
    ensures LogTestAttempt(log, test, result).entries[id].isFlaky
  {
    var e := log.entries[id];
    if id == test.id {
      var a := e.attempts + [ToAttempt(result)];
      var i :| 0 <= i < |e.attempts| && e.attempts[i].status == Passed;
      var j :| 0 <= j < |e.attempts| && IsFailure(e.attempts[j].status);
      assert a[i] == e.attempts[i] && a[j] == e.attempts[j];
    }
  }

  /** A pass after a failure (or a failure after a pass) makes the test
      flaky. */
  lemma OppositeOutcomeMakesFlaky(log: Log, test: TestCase, result: TestResult)
    requires AllConsistent(log) && test.id in log.entries
    requires var last := log.entries[test.id].finalStatus;
      (last == Passed && IsFailure(result.status)) || (IsFailure(last) && result.status == Passed)
    ensures LogTestAttempt(log, test, result).entries[test.id].isFlaky
  {
    var e := log.entries[test.id];
    var a := e.attempts + [ToAttempt(result)];
    var n := |e.attempts|;
    assert a[n - 1] == e.attempts[n - 1] && a[n].status == result.status;
  }

  /** `Array.from(map.values())`: the records in first-seen order. */
  function GetAggregatedResults(log: Log): (r: seq<AggregatedTestResult>)
    requires Valid(log)
    ensures |r| == |log.order|
    ensures forall i :: 0 <= i < |r| ==> r[i].id == log.order[i] && log.entries[r[i].id] == r[i]
    ensures forall x :: x in r <==> exists id :: id in log.entries && log.entries[id] == x
  {
    var r := seq(|log.order|, i requires 0 <= i < |log.order| => log.entries[log.order[i]]);
    assert forall x :: x in r ==> exists id :: id in log.entries && log.entries[id] == x by {
      forall x | x in r ensures exists id :: id in log.entries && log.entries[id] == x {
        var i :| 0 <= i < |r| && r[i] == x;
        assert log.order[i] in log.entries;
      }
    }
    assert forall x :: (exists id :: id in log.entries && log.entries[id] == x) ==> x in r by {
      forall x | exists id :: id in log.entries && log.entries[id] == x ensures x in r {
        var id :| id in log.entries && log.entries[id] == x;
        var i :| 0 <= i < |log.order| && log.order[i] == id;
        assert r[i] == x;
      }
    }
    r
  }

  predicate IsFlakyRecord(e: AggregatedTestResult) {
    e.isFlaky
  }

  function RecordId(e: AggregatedTestResult): string {
    e.id
  }

  /** Whether `id` is stored with the flaky flag. */
  function FlakyIdTest(log: Log): string -> bool {
    (id: string) => id in log.entries && log.entries[id].isFlaky
  }

  /** The ids of the tests flagged flaky, in first-seen order. */
  function FlakyIds(log: Log): seq<string> {
    Filter(log.order, FlakyIdTest(log))
  }

  /** The aggregated results that are flagged flaky: exactly the stored
      flaky records, in first-seen order. */
  function GetFlakyTests(log: Log): (r: seq<AggregatedTestResult>)
    requires Valid(log)
    ensures forall x :: x in r <==> exists id :: id in log.entries && log.entries[id] == x && x.isFlaky
    ensures Map(r, RecordId) == FlakyIds(log)
  {
    var all := GetAggregatedResults(log);
    assert Map(all, RecordId) == log.order;
    FilterMap(all, RecordId, FlakyIdTest(log), IsFlakyRecord);
    Filter(all, IsFlakyRecord)
  }

  // ---------------------------------------------------------------------
  // A whole run: logging a sequence of results

  datatype Event = Event(test: TestCase, result: TestResult)

  function EventId(e: Event): string {
    e.test.id
  }

  function EventAttempt(e: Event): RunAttempt {
    ToAttempt(e.result)
  }

  /** The log after every event of a run, in order. */
  function Replay(events: seq<Event>): Log
    decreases |events|
  {
    if |events| == 0 then EmptyLog
    else
      var n := |events|;
      LogTestAttempt(Replay(events[..n - 1]), events[n - 1].test, events[n - 1].result)
  }

  /** The attempts of the run's events for test `id`, in order. */
  function AttemptsOf(events: seq<Event>, id: string): seq<RunAttempt> {
    Map(Filter(events, (e: Event) => e.test.id == id), EventAttempt)
  }

  /** Appending an event appends its attempt to its own test's attempts
      only. */
  lemma AttemptsOfSnoc(prev: seq<Event>, ev: Event, id: string)
    ensures AttemptsOf(prev + [ev], id)
      == AttemptsOf(prev, id) + (if ev.test.id == id then [EventAttempt(ev)] else [])
  {
    var p := (e: Event) => e.test.id == id;
    FilterAppend(prev, [ev], p);
    MapAppend(Filter(prev, p), if p(ev) then [ev] else [], EventAttempt);
  }

  /** A test with no event has no attempts. */
  lemma AttemptsOfAbsent(events: seq<Event>, id: string)
    requires id !in Map(events, EventId)
    ensures AttemptsOf(events, id) == []
  {
    FilterNonEmpty(events, (e: Event) => e.test.id == id);
  }

  /** The ids of a run are those before its last event, then that event's. */
  lemma EventIdsSnoc(events: seq<Event>)
    requires |events| > 0
    ensures Map(events, EventId) == Map(events[..|events| - 1], EventId) + [events[|events| - 1].test.id]
  {
    var n := |events|;
    assert forall i :: 0 <= i < n - 1 ==> events[..n - 1][i] == events[i];
  }

  /** `log` is valid and is keyed by the tests of `events` in first-seen
      order. */
  predicate Tracks(log: Log, events: seq<Event>) {
    Valid(log) && log.order == Dedup(Map(events, EventId))
  }

  /** Logging the last event keeps the log valid and its keys the
      first-seen order of the events' tests. */
  lemma OrderStep(log: Log, events: seq<Event>)
    requires |events| > 0 && Tracks(log, events[..|events| - 1])
    ensures Tracks(LogTestAttempt(log, events[|events| - 1].test, events[|events| - 1].result), events)
  {
    var n := |events|;
    var ev := events[n - 1];
    LogTestAttemptValid(log, ev.test, ev.result);
    EventIdsSnoc(events);
    DedupSnoc(Map(events[..n - 1], EventId), ev.test.id);
    assert LogTestAttempt(log, ev.test, ev.result).order == AddUnique(log.order, ev.test.id);
  }

  lemma {:induction false} ReplayTracks(events: seq<Event>)
    ensures Tracks(Replay(events), events)
    decreases |events|
  {
    if |events| == 0 {
      EmptyLogValid();
      assert Map(events, EventId) == [];
    } else {
      ReplayTracks(events[..|events| - 1]);
      OrderStep(Replay(events[..|events| - 1]), events);
    }
  }

  /** After a run the log is valid and holds a record for exactly the tests
      seen, in first-seen order. */
  lemma ReplayOrder(events: seq<Event>)
    ensures Valid(Replay(events))
    ensures Replay(events).order == Dedup(Map(events, EventId))
    ensures forall id :: id in Replay(events).entries <==> id in Map(events, EventId)
  {
    ReplayTracks(events);
  }

  /** Logging the last event extends the attempts of its own test only. */
  lemma AttemptsStep(log: Log, events: seq<Event>)
    requires |events| > 0
    requires forall id :: id in log.entries <==> id in Map(events[..|events| - 1], EventId)
    requires forall id | id in log.entries :: log.entries[id].attempts == AttemptsOf(events[..|events| - 1], id)
    ensures var ev := events[|events| - 1];
      var r := LogTestAttempt(log, ev.test, ev.result);
      forall id | id in r.entries :: r.entries[id].attempts == AttemptsOf(events, id)
  {
    var prev := events[..|events| - 1];
    var ev := events[|events| - 1];
    var r := LogTestAttempt(log, ev.test, ev.result);
    LogTestAttemptSpec(log, ev.test, ev.result);
    assert events == prev + [ev];
    forall id | id in r.entries ensures r.entries[id].attempts == AttemptsOf(events, id) {
      AttemptsOfSnoc(prev, ev, id);
      if id !in log.entries {
        AttemptsOfAbsent(prev, id);
      }
    }
  }

  /** After a run each record's attempts are that test's results in the
      order they were logged. */
  lemma {:induction false} ReplayAttempts(events: seq<Event>)
    ensures forall id | id in Replay(events).entries :: Replay(events).entries[id].attempts == AttemptsOf(events, id)
    decreases |events|
  {
    if |events| > 0 {
      var prev := events[..|events| - 1];
      ReplayAttempts(prev);
      ReplayOrder(prev);
      AttemptsStep(Replay(prev), events);
    }
  }

  lemma {:induction false} ReplayConsistent(events: seq<Event>)
    ensures AllConsistent(Replay(events))
    decreases |events|
  {
    if |events| > 0 {
      var n := |events|;
      ReplayConsistent(events[..n - 1]);
      LogTestAttemptConsistent(Replay(events[..n - 1]), events[n - 1].test, events[n - 1].result);
    }
  }

  /** After a run, a test is flagged flaky exactly when one of its results
      passed and another failed or timed out, and its final status is that
      of its last result. */
  lemma ReplayFlaky(events: seq<Event>, id: string)
    requires id in Replay(events).entries
    ensures var a := AttemptsOf(events, id);
      && |a| > 0
      && Replay(events).entries[id].finalStatus == a[|a| - 1].status
      && (Replay(events).entries[id].isFlaky <==> HasPassed(a) && HasFailed(a))
  {
    ReplayOrder(events);
    ReplayAttempts(events);
    ReplayConsistent(events);
    FlakyRule(AttemptsOf(events, id));
  }
}
