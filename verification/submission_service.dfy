/**
 * The submission service's batch operations: persisting a batch with the
 * caller stamped on every item, and relaying each item to the external
 * collector, then turning the settled calls into one response entry each.
 */
module Services {
  import opened Wrappers
  import opened PhpValues
  import opened Repositories

  /** The JSON form of the `now()` value sent with a relay call. */
  type Timestamp = string

  /** The collector's endpoint, relative to its base URI. */
  const RelayPath := "/posts"
  const SubmittedAtKey := StrKey("submitted_at")
  const StudentIdKey := StrKey("student_id")

  const RelayFailedText := "Failed to log submission"
  const RelayLoggedLogText := "Submission logged to external service"
  const RelayFailedLogText := "Failed to log submission to external service"

  /** One asynchronous POST handed to the HTTP client, with its JSON body. */
  datatype OutboundRequest = Post(path: string, json: seq<Entry>)

  /** How one relay call settled: with its decoded response body, or with the message of the exception that rejected it. */
  datatype Settled = Fulfilled(body: Value) | Rejected(reason: string)

  /** One entry of the log results: `['status' => 'success', 'data' => ...]` or `['status' => 'error', 'message' => ..., 'error' => ...]`. */
  datatype LogResult = LogSuccess(data: Value) | LogError(message: string, error: string) {
    function Status(): string {
      if LogSuccess? then "success" else "error"
    }
  }

  /** A line written through the log facade. */
  datatype LogLine = Info(message: string, context: seq<Entry>) | Error(message: string, reason: string)

  /** The entry and the log line one settled call produces. */
  datatype Report = Report(result: LogResult, line: LogLine)

  /** `$data['user_id'] = Auth::id()`, with the authenticated caller passed in. */
  function Stamp(data: seq<Entry>, callerId: int): seq<Entry> {
    Set(data, UserIdKey, Int(callerId))
  }

  /** A stamped item carries the caller as `user_id` and every other field unchanged. */
  lemma StampFields(data: seq<Entry>, callerId: int)
    ensures Lookup(Stamp(data, callerId), UserIdKey) == Some(Int(callerId))
    ensures forall k :: k != UserIdKey ==> Lookup(Stamp(data, callerId), k) == Lookup(data, k)
  {
    SetLookup(data, UserIdKey, Int(callerId));
  }

  /** The rows inserted for `items`, in order, when the first insert receives `firstId`. */
  function StampedRows(items: seq<seq<Entry>>, callerId: int, firstId: nat): seq<Submission> {
    if items == [] then []
    else
      var last := |items| - 1;
      StampedRows(items[..last], callerId, firstId) + [Submission(firstId + last, Stamp(items[last], callerId))]
  }

  /** The number of inserts that succeed before the first one the database refuses, out of `n`. */
  function Written(verdict: nat -> Option<DbError>, n: nat): (k: nat)
    ensures k <= n
    ensures forall j :: 0 <= j < k ==> verdict(j).None?
    ensures k < n ==> verdict(k).Some?
  {
    if n == 0 then 0
    else
      var k := Written(verdict, n - 1);
      if k < n - 1 then k else if verdict(n - 1).Some? then n - 1 else n
  }

  /** The JSON body of the relay call for one item: its assignment id, the time and the caller as student. */
  function RelayPayload(item: seq<Entry>, submittedAt: Timestamp, callerId: int): seq<Entry> {
    [Entry(AssignmentIdKey, Get(item, AssignmentIdKey)), Entry(SubmittedAtKey, Str(submittedAt)), Entry(StudentIdKey, Int(callerId))]
  }

  /** The payload carries the item's assignment id, the time and the caller as student, and neither the content nor a `user_id`. */
  lemma RelayPayloadFields(item: seq<Entry>, submittedAt: Timestamp, callerId: int)
    ensures var json := RelayPayload(item, submittedAt, callerId);
      && Lookup(json, AssignmentIdKey) == Some(Get(item, AssignmentIdKey))
      && Lookup(json, StudentIdKey) == Some(Int(callerId))
      && Lookup(json, SubmittedAtKey) == Some(Str(submittedAt))
      && Lookup(json, ContentKey) == None && Lookup(json, UserIdKey) == None
  {
    assert |AssignmentIdKey.s| == 13 && |SubmittedAtKey.s| == 12 && |StudentIdKey.s| == 10;
    assert |ContentKey.s| == 7 && |UserIdKey.s| == 7;
    var json := RelayPayload(item, submittedAt, callerId);
    var last := [Entry(StudentIdKey, Int(callerId))];
    assert json[1..][1..] == last;
    assert AssignmentIdKey != StudentIdKey && SubmittedAtKey != StudentIdKey;
    assert Lookup(last, StudentIdKey) == Some(Int(callerId));
    assert Lookup(json[1..], StudentIdKey) == Some(Int(callerId));
  }

  /** The relay calls issued for `items`, in order; `clock(k)` is what the k-th `now()` returns. */
  function Requests(items: seq<seq<Entry>>, callerId: int, clock: nat -> Timestamp): seq<OutboundRequest> {
    if items == [] then []
    else
      var last := |items| - 1;
      Requests(items[..last], callerId, clock) + [Post(RelayPath, RelayPayload(items[last], clock(last), callerId))]
  }

  /** Settlement: the outcome of each of the first `n` calls, in call order, none cancelled. */
  function Settle(n: nat, relay: nat -> Settled): seq<Settled> {
    seq(n, i requires 0 <= i < n => relay(i))
  }

  /**
   * The entry and log line for one settled call. A fulfilled call is logged
   * with its decoded body as context when that body is an array, and with no
   * context otherwise (see ReportAsWritten for the code as written).
   */
  function ReportFor(s: Settled): Report {
    match s
    case Fulfilled(body) =>
      Report(LogSuccess(body), Info(RelayLoggedLogText, if body.Arr? then body.entries else []))
    case Rejected(reason) =>
      Report(LogError(RelayFailedText, reason), Error(RelayFailedLogText, reason))
  }

  /** The response entries for the settled calls, one per call, in order. */
  function LogResults(settled: seq<Settled>): seq<LogResult> {
    if settled == [] then []
    else LogResults(settled[..|settled| - 1]) + [ReportFor(settled[|settled| - 1]).result]
  }

  /** The log lines written for the settled calls, one per call, in order. */
  function LogLines(settled: seq<Settled>): seq<LogLine> {
    if settled == [] then []
    else LogLines(settled[..|settled| - 1]) + [ReportFor(settled[|settled| - 1]).line]
  }

  // ---------------------------------------------------------------------
  // Properties of the batch functions

  /** Row i is item i stamped with the caller (StampFields says what that keeps), with id `firstId + i`. */
  lemma {:induction false} StampedRowsAt(items: seq<seq<Entry>>, callerId: int, firstId: nat)
    ensures |StampedRows(items, callerId, firstId)| == |items|
    ensures forall i :: 0 <= i < |items| ==>
      StampedRows(items, callerId, firstId)[i] == Submission(firstId + i, Stamp(items[i], callerId))
  {
    if items != [] {
      var last := |items| - 1;
      var init := items[..last];
      StampedRowsAt(init, callerId, firstId);
      assert StampedRows(items, callerId, firstId)
          == StampedRows(init, callerId, firstId) + [Submission(firstId + last, Stamp(items[last], callerId))];
      assert forall i :: 0 <= i < |init| ==> init[i] == items[i];
    }
  }

  /** Exactly one call per item, in item order: call i posts item i's payload with the i-th clock reading (RelayPayload says what it carries). */
  lemma {:induction false} RequestsAt(items: seq<seq<Entry>>, callerId: int, clock: nat -> Timestamp)
    ensures |Requests(items, callerId, clock)| == |items|
    ensures forall i :: 0 <= i < |items| ==>
      Requests(items, callerId, clock)[i] == Post(RelayPath, RelayPayload(items[i], clock(i), callerId))
  {
    if items != [] {
      var last := |items| - 1;
      var init := items[..last];
      RequestsAt(init, callerId, clock);
      assert Requests(items, callerId, clock)
          == Requests(init, callerId, clock) + [Post(RelayPath, RelayPayload(items[last], clock(last), callerId))];
      assert forall i :: 0 <= i < |init| ==> init[i] == items[i];
    }
  }

  /**
   * Entry i describes call i: a fulfilled call becomes `success` with the
   * decoded body as data, a rejected one becomes `error` with the fixed
   * message and the rejection's message.
   */
  lemma {:induction false} LogResultsAt(settled: seq<Settled>)
    ensures |LogResults(settled)| == |settled|
    ensures forall i :: 0 <= i < |settled| ==>
      && (LogResults(settled)[i].Status() == "success" <==> settled[i].Fulfilled?)
      && (settled[i].Fulfilled? ==> LogResults(settled)[i] == LogSuccess(settled[i].body))
      && (settled[i].Rejected? ==> LogResults(settled)[i] == LogError(RelayFailedText, settled[i].reason))
  {
    if settled != [] {
      var init := settled[..|settled| - 1];
      LogResultsAt(init);
      assert forall i :: 0 <= i < |init| ==> init[i] == settled[i];
    }
  }

  /** Line i is an info line for a fulfilled call and an error line, carrying the rejection's message, for a rejected one. */
  lemma {:induction false} LogLinesAt(settled: seq<Settled>)
    ensures |LogLines(settled)| == |settled|
    ensures forall i :: 0 <= i < |settled| ==>
      && (LogLines(settled)[i].Error? <==> settled[i].Rejected?)
      && (settled[i].Rejected? ==> LogLines(settled)[i] == Error(RelayFailedLogText, settled[i].reason))
      && (settled[i].Fulfilled? ==> LogLines(settled)[i].message == RelayLoggedLogText)
  {
    if settled != [] {
      var init := settled[..|settled| - 1];
      LogLinesAt(init);
      assert forall i :: 0 <= i < |init| ==> init[i] == settled[i];
    }
  }

  /** The entry for one call depends on that call's outcome alone: other calls failing changes nothing about it. */
  lemma LogResultIsolated(s1: seq<Settled>, s2: seq<Settled>, i: nat)
    requires |s1| == |s2| && i < |s1| && s1[i] == s2[i]
    ensures |LogResults(s1)| == |s1| && |LogResults(s2)| == |s2| && LogResults(s1)[i] == LogResults(s2)[i]
  {
    LogResultsAt(s1);
    LogResultsAt(s2);
  }

  /** Extending the items by one appends that item's row. */
  lemma StampedRowsStep(items: seq<seq<Entry>>, i: nat, callerId: int, firstId: nat)
    requires i < |items|
    ensures StampedRows(items[..i + 1], callerId, firstId)
         == StampedRows(items[..i], callerId, firstId) + [Submission(firstId + i, Stamp(items[i], callerId))]
  {
    assert items[..i + 1][..i] == items[..i];
  }

  /** Extending the items by one appends that item's call. */
  lemma RequestsStep(items: seq<seq<Entry>>, i: nat, callerId: int, clock: nat -> Timestamp)
    requires i < |items|
    ensures Requests(items[..i + 1], callerId, clock)
         == Requests(items[..i], callerId, clock) + [Post(RelayPath, RelayPayload(items[i], clock(i), callerId))]
  {
    assert items[..i + 1][..i] == items[..i];
  }

  /** Extending the settled calls by one appends that call's entry and log line. */
  lemma ReportsStep(settled: seq<Settled>, j: nat)
    requires j < |settled|
    ensures LogResults(settled[..j + 1]) == LogResults(settled[..j]) + [ReportFor(settled[j]).result]
    ensures LogLines(settled[..j + 1]) == LogLines(settled[..j]) + [ReportFor(settled[j]).line]
  {
    assert settled[..j + 1][..j] == settled[..j];
  }

  /** When the first `k` inserts succeed and, if `k < n`, insert `k` fails, exactly `k` rows are written. */
  lemma WrittenUnique(verdict: nat -> Option<DbError>, n: nat, k: nat)
    requires k <= n
    requires forall j :: 0 <= j < k ==> verdict(j).None?
    requires k < n ==> verdict(k).Some?
    ensures Written(verdict, n) == k
  {
  }

  // ---------------------------------------------------------------------
  // The service object

  class SubmissionService {
    const repository: SubmissionRepository
    /** The calls handed to the HTTP client, in the order they were issued. */
    var outbox: seq<OutboundRequest>
    /** The lines written to the application log. */
    var log: seq<LogLine>

    ghost predicate Valid()
      reads this, repository
    {
      repository.Valid()
    }

    constructor (repository: SubmissionRepository)
      requires repository.Valid()
      ensures Valid() && this.repository == repository && outbox == [] && log == []
    {
      this.repository := repository;
      outbox := [];
      log := [];
    }

    /** `createSubmission`: the item, stamped with the caller, handed to the repository. */
    method CreateSubmission(data: seq<Entry>, callerId: int, verdict: Option<DbError>) returns (r: Result<Submission, DbError>)
      requires Valid()
      modifies repository
      ensures Valid()
      ensures r == if verdict.None? then Success(Submission(old(repository.nextId), Stamp(data, callerId))) else Failure(verdict.value)
      ensures repository.rows == old(repository.rows) + (if r.Success? then [r.value] else [])
      ensures repository.nextId == old(repository.nextId) + (if r.Success? then 1 else 0)
    {
      r := repository.Create(Stamp(data, callerId), verdict);
    }

    /**
     * `createMultipleSubmissions`: one insert per item, in order, each
     * stamped with the caller. `verdict(k)` is the database's answer to the
     * k-th insert; the first refusal escapes as an error and the rows
     * written before it stay.
     */
    method CreateMultipleSubmissions(submissions: seq<seq<Entry>>, callerId: int, verdict: nat -> Option<DbError>)
      returns (r: Result<seq<Submission>, DbError>)
      requires Valid()
      modifies repository
      ensures Valid()
      ensures var k := Written(verdict, |submissions|);
        && repository.rows == old(repository.rows) + StampedRows(submissions[..k], callerId, old(repository.nextId))
        && repository.nextId == old(repository.nextId) + k
        && r == if k == |submissions| then Success(StampedRows(submissions, callerId, old(repository.nextId)))
                else Failure(verdict(k).value)
    {
      ghost var firstId := repository.nextId;
      var results := [];
      var i := 0;
      while i < |submissions|
        invariant 0 <= i <= |submissions|
        invariant repository.Valid()
        invariant forall j :: 0 <= j < i ==> verdict(j).None?
        invariant results == StampedRows(submissions[..i], callerId, firstId)
        invariant repository.rows == old(repository.rows) + results
        invariant repository.nextId == firstId + i
      {
        var created := repository.Create(Stamp(submissions[i], callerId), verdict(i));
        if created.Failure? {
          WrittenUnique(verdict, |submissions|, i);
          return Failure(created.error);
        }
        StampedRowsStep(submissions, i, callerId, firstId);
        results := results + [created.value];
        i := i + 1;
      }
      WrittenUnique(verdict, |submissions|, i);
      assert submissions[..i] == submissions;
      r := Success(results);
    }

    /**
     * `logSubmissionsToExternalService`: one relay call per item, issued in
     * order; then every call is settled, and each outcome becomes one
     * response entry and one log line. `clock(k)` is the k-th `now()` and
     * `relay(k)` how the k-th call settles.
     */
    method LogSubmissionsToExternalService(submissions: seq<seq<Entry>>, callerId: int, clock: nat -> Timestamp, relay: nat -> Settled)
      returns (responses: seq<LogResult>)
      modifies this
      ensures outbox == old(outbox) + Requests(submissions, callerId, clock)
      ensures responses == LogResults(Settle(|submissions|, relay))
      ensures log == old(log) + LogLines(Settle(|submissions|, relay))
    {
      var i := 0;
      while i < |submissions|
        invariant 0 <= i <= |submissions|
        invariant outbox == old(outbox) + Requests(submissions[..i], callerId, clock)
        invariant log == old(log)
      {
        var call := Post(RelayPath, RelayPayload(submissions[i], clock(i), callerId));
        RequestsStep(submissions, i, callerId, clock);
        outbox := outbox + [call];
        i := i + 1;
      }
      assert submissions[..i] == submissions;
      var results := Settle(|submissions|, relay);
      responses := [];
      var j := 0;
      while j < |results|
        invariant 0 <= j <= |results|
        invariant outbox == old(outbox) + Requests(submissions, callerId, clock)
        invariant responses == LogResults(results[..j])
        invariant log == old(log) + LogLines(results[..j])
      {
        var report := ReportFor(results[j]);
        ReportsStep(results, j);
        responses := responses + [report.result];
        log := log + [report.line];
        j := j + 1;
      }
      assert results[..j] == results;
    }
  }

  // ---------------------------------------------------------------------
  // The outcome mapping as written

  /**
   * The mapping of one settled call exactly as the source writes it: the
   * decoded body is passed to the info log as its context array, so a body
   * that is not a JSON object or array raises a type error (None here) that
   * escapes the whole relay step.
   */
  function ReportAsWritten(s: Settled): Option<Report> {
    match s
    case Fulfilled(body) =>
      if body.Arr? then Some(Report(LogSuccess(body), Info(RelayLoggedLogText, body.entries))) else None
    case Rejected(reason) =>
      Some(Report(LogError(RelayFailedText, reason), Error(RelayFailedLogText, reason)))
  }

  /** The response entries as written: no entries at all once one call's mapping raises. */
  function LogResultsAsWritten(settled: seq<Settled>): Option<seq<LogResult>> {
    if settled == [] then Some([])
    else
      match (LogResultsAsWritten(settled[..|settled| - 1]), ReportAsWritten(settled[|settled| - 1]))
      case (Some(init), Some(report)) => Some(init + [report.result])
      case _ => None
  }

  /** As written, one fulfilled call whose body does not decode to an array loses the response for the whole batch. */
  lemma {:induction false} NonArrayBodyAbortsAsWritten(settled: seq<Settled>, i: nat)
    requires i < |settled| && settled[i].Fulfilled? && !settled[i].body.Arr?
    ensures LogResultsAsWritten(settled) == None
  {
    var last := |settled| - 1;
    if i < last {
      NonArrayBodyAbortsAsWritten(settled[..last], i);
    }
  }

  /** Where every fulfilled body is an array, the code as written and the corrected mapping agree. */
  lemma {:induction false} AsWrittenAgreesOnArrayBodies(settled: seq<Settled>)
    requires forall i :: 0 <= i < |settled| && settled[i].Fulfilled? ==> settled[i].body.Arr?
    ensures LogResultsAsWritten(settled) == Some(LogResults(settled))
  {
    if settled != [] {
      var init := settled[..|settled| - 1];
      assert forall i :: 0 <= i < |init| ==> init[i] == settled[i];
      AsWrittenAgreesOnArrayBodies(init);
    }
  }

  /** A concrete case: a call fulfilled with the JSON body `42`, which decodes to an integer rather than an array. */
  lemma ScalarBodyCounterexample()
    ensures LogResultsAsWritten([Fulfilled(Int(42))]) == None
    ensures LogResults([Fulfilled(Int(42))]) == [LogSuccess(Int(42))]
  {
  }
}
