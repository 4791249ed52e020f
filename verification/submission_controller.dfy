/**
 * The controller action behind `POST submissions/multiple`: validate the
 * batch, persist every item, relay every item, and answer with both result
 * lists side by side.
 */
module Controllers {
  import opened Wrappers
  import opened PhpValues
  import opened Repositories
  import Request = StoreMultipleRequest
  import opened Services

  const ProcessedText := "Submissions processed successfully"

  /** What the action answers. */
  datatype Response =
    | Forbidden                                              // 403: authorize() refused
    | Unprocessable(errors: seq<Request.ValidationError>)    // 422: a rule failed
    | ServerError(error: DbError)                            // an insert's exception escaped the action
    | Ok(message: string, dbResults: seq<Submission>, logResults: seq<LogResult>)

  /** Everything one request does: its response, the rows it adds, the relay calls it issues and the log lines it writes. */
  datatype Effects = Effects(response: Response, persisted: seq<Submission>, relayed: seq<OutboundRequest>, logged: seq<LogLine>)

  /**
   * The effects of one `storeMultiple` request with the given body, for a
   * caller whose first insert receives `firstId`. `existing` holds the ids
   * of the assignments table; `verdict`, `clock` and `relay` are the
   * database's answers, the `now()` readings and the relay calls' outcomes.
   */
  function StoreMultipleEffects(body: seq<Entry>, existing: set<int>, callerId: int, firstId: nat,
                                verdict: nat -> Option<DbError>, clock: nat -> Timestamp, relay: nat -> Settled): Effects
  {
    if !Request.Authorize() then Effects(Forbidden, [], [], [])
    else
      match Request.Validate(body, existing)
      case Failure(errors) => Effects(Unprocessable(errors), [], [], [])
      case Success(items) => BatchEffects(items, callerId, firstId, verdict, clock, relay)
  }

  /** The effects of a validated batch: every insert first; then, unless one was refused, every relay call. */
  function BatchEffects(items: seq<seq<Entry>>, callerId: int, firstId: nat,
                        verdict: nat -> Option<DbError>, clock: nat -> Timestamp, relay: nat -> Settled): Effects
  {
    var k := Written(verdict, |items|);
    var rows := StampedRows(items[..k], callerId, firstId);
    if k < |items| then Effects(ServerError(verdict(k).value), rows, [], [])
    else
      var settled := Settle(|items|, relay);
      Effects(Ok(ProcessedText, rows, LogResults(settled)), rows, Requests(items, callerId, clock), LogLines(settled))
  }

  class SubmissionController {
    const submissionService: SubmissionService

    ghost predicate Valid()
      reads this, submissionService, submissionService.repository
    {
      submissionService.Valid()
    }

    constructor (submissionService: SubmissionService)
      requires submissionService.Valid()
      ensures Valid() && this.submissionService == submissionService
    {
      this.submissionService := submissionService;
    }

    /**
     * A request to `POST submissions/multiple`: the form request is
     * authorized and validated before the action runs; a failed rule is
     * answered with 422 and the action never starts.
     */
    method Handle(body: seq<Entry>, existing: set<int>, callerId: int,
                  verdict: nat -> Option<DbError>, clock: nat -> Timestamp, relay: nat -> Settled)
      returns (response: Response)
      requires Valid()
      modifies submissionService, submissionService.repository
      ensures Valid()
      ensures var e := StoreMultipleEffects(body, existing, callerId, old(submissionService.repository.nextId), verdict, clock, relay);
        && response == e.response
        && submissionService.repository.rows == old(submissionService.repository.rows) + e.persisted
        && submissionService.repository.nextId == old(submissionService.repository.nextId) + |e.persisted|
        && submissionService.outbox == old(submissionService.outbox) + e.relayed
        && submissionService.log == old(submissionService.log) + e.logged
    {
      if !Request.Authorize() {
        return Forbidden;
      }
      var validated := Request.Validate(body, existing);
      if validated.Failure? {
        return Unprocessable(validated.error);
      }
      ValidatedBatch(body, existing, callerId, submissionService.repository.nextId, verdict, clock, relay);
      response := StoreMultiple(validated.value, callerId, verdict, clock, relay);
    }

    /** `storeMultiple`: every validated item is inserted, then every item is relayed. */
    method StoreMultiple(items: seq<seq<Entry>>, callerId: int,
                         verdict: nat -> Option<DbError>, clock: nat -> Timestamp, relay: nat -> Settled)
      returns (response: Response)
      requires Valid()
      modifies submissionService, submissionService.repository
      ensures Valid()
      ensures var e := BatchEffects(items, callerId, old(submissionService.repository.nextId), verdict, clock, relay);
        && response == e.response
        && submissionService.repository.rows == old(submissionService.repository.rows) + e.persisted
        && submissionService.repository.nextId == old(submissionService.repository.nextId) + |e.persisted|
        && submissionService.outbox == old(submissionService.outbox) + e.relayed
        && submissionService.log == old(submissionService.log) + e.logged
    {
      StampedRowsAt(items[..Written(verdict, |items|)], callerId, submissionService.repository.nextId);
      var dbResults := submissionService.CreateMultipleSubmissions(items, callerId, verdict);
      if dbResults.Failure? {
        return ServerError(dbResults.error);
      }
      assert items[..|items|] == items;
      var logResults := submissionService.LogSubmissionsToExternalService(items, callerId, clock, relay);
      response := Ok(ProcessedText, dbResults.value, logResults);
    }
  }

  // ---------------------------------------------------------------------
  // Properties of the action

  /** The form request never refuses: every request reaches validation. */
  lemma NeverForbidden(body: seq<Entry>, existing: set<int>, callerId: int, firstId: nat,
                       verdict: nat -> Option<DbError>, clock: nat -> Timestamp, relay: nat -> Settled)
    ensures StoreMultipleEffects(body, existing, callerId, firstId, verdict, clock, relay).response != Forbidden
  {
  }

  /** An invalid batch is answered with every rule failure and causes no insert, no relay call and no log line. */
  lemma InvalidBatchHasNoEffect(body: seq<Entry>, existing: set<int>, callerId: int, firstId: nat,
                                verdict: nat -> Option<DbError>, clock: nat -> Timestamp, relay: nat -> Settled)
    requires !Request.BatchValid(body, existing)
    ensures var e := StoreMultipleEffects(body, existing, callerId, firstId, verdict, clock, relay);
      && e.response == Unprocessable(Request.Errors(body, existing))
      && e.response.errors != []
      && e.persisted == [] && e.relayed == [] && e.logged == []
  {
  }

  /** A list of more than five submissions is refused with the size message before anything is written. */
  lemma OversizedBatchHasNoEffect(body: seq<Entry>, existing: set<int>, callerId: int, firstId: nat,
                                  verdict: nat -> Option<DbError>, clock: nat -> Timestamp, relay: nat -> Settled)
    requires Lookup(body, Request.SubmissionsKey).Some? && Lookup(body, Request.SubmissionsKey).value.Arr?
    requires |Request.Submitted(body)| > Request.MaxSubmissions
    ensures var e := StoreMultipleEffects(body, existing, callerId, firstId, verdict, clock, relay);
      && e.response.Unprocessable?
      && Request.ValidationError(Request.Submissions, Request.Custom(Request.SubmissionsMaxText)) in e.response.errors
      && e.persisted == [] && e.relayed == []
  {
    Request.BatchSizeBound(body, existing);
  }

  /** A batch whose inserts all succeed yields one record, one relay call, one entry and one log line per item, in item order. */
  lemma {:induction false} BatchEffectsAligned(items: seq<seq<Entry>>, callerId: int, firstId: nat,
                                               verdict: nat -> Option<DbError>, clock: nat -> Timestamp, relay: nat -> Settled)
    requires BatchEffects(items, callerId, firstId, verdict, clock, relay).response.Ok?
    ensures var e := BatchEffects(items, callerId, firstId, verdict, clock, relay);
      && e.response.message == ProcessedText
      && e.response.dbResults == e.persisted
      && |e.persisted| == |items| && |e.response.logResults| == |items| && |e.relayed| == |items| && |e.logged| == |items|
      && (forall i :: 0 <= i < |items| ==> e.persisted[i] == Submission(firstId + i, Stamp(items[i], callerId)))
      && (forall i :: 0 <= i < |items| ==> e.relayed[i] == Post(RelayPath, RelayPayload(items[i], clock(i), callerId)))
      && (forall i :: 0 <= i < |items| ==> (e.response.logResults[i].Status() == "success" <==> relay(i).Fulfilled?))
      && (forall i :: 0 <= i < |items| && relay(i).Fulfilled? ==> e.response.logResults[i] == LogSuccess(relay(i).body))
      && (forall i :: 0 <= i < |items| && relay(i).Rejected? ==> e.response.logResults[i] == LogError(RelayFailedText, relay(i).reason))
  {
    assert items[..|items|] == items;
    StampedRowsAt(items, callerId, firstId);
    RequestsAt(items, callerId, clock);
    LogResultsAt(Settle(|items|, relay));
    LogLinesAt(Settle(|items|, relay));
  }

  /**
   * A processed batch answers with the fixed message and one record, one
   * relay call and one entry per submitted element, all in input order:
   * record i is element i's fields with the caller as `user_id`, call i
   * carries element i's assignment id and the caller as student and never
   * the content, entry i says whether call i succeeded.
   */
  lemma ProcessedBatchIsAligned(body: seq<Entry>, existing: set<int>, callerId: int, firstId: nat,
                                verdict: nat -> Option<DbError>, clock: nat -> Timestamp, relay: nat -> Settled)
    requires StoreMultipleEffects(body, existing, callerId, firstId, verdict, clock, relay).response.Ok?
    ensures var e := StoreMultipleEffects(body, existing, callerId, firstId, verdict, clock, relay);
      var n := |Request.Submitted(body)|;
      && 1 <= n <= Request.MaxSubmissions
      && e.response.message == ProcessedText
      && e.response.dbResults == e.persisted
      && |e.persisted| == n && |e.response.logResults| == n && |e.relayed| == n
      && forall i :: 0 <= i < n ==>
        && e.persisted[i].id == firstId + i
        && Lookup(e.persisted[i].attributes, UserIdKey) == Some(Int(callerId))
        && Lookup(e.persisted[i].attributes, AssignmentIdKey) == Request.FieldValue(Request.Submitted(body)[i].val, Request.AssignmentId)
        && Lookup(e.persisted[i].attributes, ContentKey) == Request.FieldValue(Request.Submitted(body)[i].val, Request.Content)
        && Lookup(e.relayed[i].json, StudentIdKey) == Some(Int(callerId))
        && Lookup(e.relayed[i].json, ContentKey) == None
        && (e.response.logResults[i].Status() == "success" <==> relay(i).Fulfilled?)
  {
    var items := Request.Validate(body, existing).value;
    var e := StoreMultipleEffects(body, existing, callerId, firstId, verdict, clock, relay);
    ValidatedBatch(body, existing, callerId, firstId, verdict, clock, relay);
    ValidatedFields(body, existing, callerId);
    BatchEffectsAligned(items, callerId, firstId, verdict, clock, relay);
    forall i | 0 <= i < |items|
      ensures e.persisted[i].id == firstId + i
      ensures Lookup(e.persisted[i].attributes, UserIdKey) == Some(Int(callerId))
      ensures Lookup(e.persisted[i].attributes, AssignmentIdKey) == Request.FieldValue(Request.Submitted(body)[i].val, Request.AssignmentId)
      ensures Lookup(e.persisted[i].attributes, ContentKey) == Request.FieldValue(Request.Submitted(body)[i].val, Request.Content)
      ensures Lookup(e.relayed[i].json, StudentIdKey) == Some(Int(callerId))
      ensures Lookup(e.relayed[i].json, ContentKey) == None
    {
      assert e.persisted[i] == Submission(firstId + i, Stamp(items[i], callerId));
      assert e.relayed[i] == Post(RelayPath, RelayPayload(items[i], clock(i), callerId));
      StampFields(items[i], callerId);
      RelayPayloadFields(items[i], clock(i), callerId);
    }
  }

  /** A valid batch's effects are those of its validated items. */
  lemma ValidatedBatch(body: seq<Entry>, existing: set<int>, callerId: int, firstId: nat,
                       verdict: nat -> Option<DbError>, clock: nat -> Timestamp, relay: nat -> Settled)
    requires Request.Validate(body, existing).Success?
    ensures StoreMultipleEffects(body, existing, callerId, firstId, verdict, clock, relay)
         == BatchEffects(Request.Validate(body, existing).value, callerId, firstId, verdict, clock, relay)
  {
  }

  /** Stamping a validated item keeps the submitted element's two fields. */
  lemma ValidatedFields(body: seq<Entry>, existing: set<int>, callerId: int)
    requires Request.Validate(body, existing).Success?
    ensures var items := Request.Validate(body, existing).value;
      && 1 <= |items| == |Request.Submitted(body)| <= Request.MaxSubmissions
      && forall i :: 0 <= i < |items| ==>
        && Lookup(Stamp(items[i], callerId), AssignmentIdKey) == Request.FieldValue(Request.Submitted(body)[i].val, Request.AssignmentId)
        && Lookup(Stamp(items[i], callerId), ContentKey) == Request.FieldValue(Request.Submitted(body)[i].val, Request.Content)
  {
    var items := Request.Validate(body, existing).value;
    Request.ValidatedItems(body, existing);
    assert AssignmentIdKey != UserIdKey by { assert |AssignmentIdKey.s| != |UserIdKey.s|; }
    assert ContentKey != UserIdKey by { assert ContentKey.s[0] != UserIdKey.s[0]; }
    forall i | 0 <= i < |items|
      ensures Lookup(Stamp(items[i], callerId), AssignmentIdKey) == Lookup(items[i], AssignmentIdKey)
      ensures Lookup(Stamp(items[i], callerId), ContentKey) == Lookup(items[i], ContentKey)
    {
      StampFields(items[i], callerId);
    }
  }

  /**
   * A relay call that fails is reported in its own entry only: the entry
   * carries the fixed message and the failure's message, every record is
   * still returned, and an entry whose call succeeded stays a success.
   */
  lemma RelayFailureIsIsolated(body: seq<Entry>, existing: set<int>, callerId: int, firstId: nat,
                               verdict: nat -> Option<DbError>, clock: nat -> Timestamp, relay: nat -> Settled, i: nat)
    requires StoreMultipleEffects(body, existing, callerId, firstId, verdict, clock, relay).response.Ok?
    requires i < |Request.Submitted(body)| && relay(i).Rejected?
    ensures var e := StoreMultipleEffects(body, existing, callerId, firstId, verdict, clock, relay);
      && |e.response.logResults| == |e.response.dbResults| == |Request.Submitted(body)|
      && e.response.logResults[i] == LogError(RelayFailedText, relay(i).reason)
      && forall j :: 0 <= j < |Request.Submitted(body)| && relay(j).Fulfilled? ==>
           e.response.logResults[j] == LogSuccess(relay(j).body)
  {
    var items := Request.Validate(body, existing).value;
    ValidatedBatch(body, existing, callerId, firstId, verdict, clock, relay);
    ValidatedFields(body, existing, callerId);
    BatchEffectsAligned(items, callerId, firstId, verdict, clock, relay);
  }

  /** How the relay calls settle changes neither which records are written nor the records returned. */
  lemma RelayNeverTouchesRecords(body: seq<Entry>, existing: set<int>, callerId: int, firstId: nat,
                                 verdict: nat -> Option<DbError>, clock1: nat -> Timestamp, relay1: nat -> Settled,
                                 clock2: nat -> Timestamp, relay2: nat -> Settled)
    ensures var e1 := StoreMultipleEffects(body, existing, callerId, firstId, verdict, clock1, relay1);
      var e2 := StoreMultipleEffects(body, existing, callerId, firstId, verdict, clock2, relay2);
      && e1.persisted == e2.persisted
      && e1.response.Ok? == e2.response.Ok?
      && (e1.response.Ok? ==> e1.response.dbResults == e2.response.dbResults == e1.persisted)
  {
  }

  /**
   * A refused insert ends the action before any relay call: the rows
   * inserted before it stay, the refusal is the answer, and nothing is
   * relayed or logged.
   */
  lemma WriteFailureStopsBeforeRelay(body: seq<Entry>, existing: set<int>, callerId: int, firstId: nat,
                                     verdict: nat -> Option<DbError>, clock: nat -> Timestamp, relay: nat -> Settled)
    requires StoreMultipleEffects(body, existing, callerId, firstId, verdict, clock, relay).response.ServerError?
    ensures var e := StoreMultipleEffects(body, existing, callerId, firstId, verdict, clock, relay);
      var k := |e.persisted|;
      && k < |Request.Submitted(body)|
      && (forall j :: 0 <= j < k ==> verdict(j).None?)
      && verdict(k) == Some(e.response.error)
      && e.relayed == [] && e.logged == []
  {
    var items := Request.Validate(body, existing).value;
    ValidatedBatch(body, existing, callerId, firstId, verdict, clock, relay);
    ValidatedFields(body, existing, callerId);
    BatchEffectsStopped(items, callerId, firstId, verdict, clock, relay);
  }

  /** A batch with a refused insert keeps the rows before it, answers with the refusal and relays nothing. */
  lemma BatchEffectsStopped(items: seq<seq<Entry>>, callerId: int, firstId: nat,
                            verdict: nat -> Option<DbError>, clock: nat -> Timestamp, relay: nat -> Settled)
    requires BatchEffects(items, callerId, firstId, verdict, clock, relay).response.ServerError?
    ensures var e := BatchEffects(items, callerId, firstId, verdict, clock, relay);
      var k := |e.persisted|;
      && k == Written(verdict, |items|) < |items|
      && (forall j :: 0 <= j < k ==> verdict(j).None?)
      && verdict(k) == Some(e.response.error)
      && e.relayed == [] && e.logged == []
  {
    var k := Written(verdict, |items|);
    StampedRowsAt(items[..k], callerId, firstId);
  }

  /** One element of the example batches: assignment 1 with the given content. */
  function ExampleItem(content: string): seq<Entry> {
    [Entry(AssignmentIdKey, Int(1)), Entry(ContentKey, Str(content))]
  }

  /** The body of the two-item example: two elements for assignment 1, with contents `a` and `b`. */
  function TwoItemsBody(a: string, b: string): seq<Entry> {
    [Entry(Request.SubmissionsKey, Arr([Entry(IntKey(0), Arr(ExampleItem(a))), Entry(IntKey(1), Arr(ExampleItem(b)))]))]
  }

  /** An example element passes its rules when assignment 1 exists and the content is not blank. */
  lemma ExampleItemValid(content: string, existing: set<int>)
    requires 1 in existing && !Blank(content)
    ensures Request.ItemValid(Arr(ExampleItem(content)), existing)
    ensures Request.FieldValue(Arr(ExampleItem(content)), Request.Content) == Some(Str(content))
  {
    var item := ExampleItem(content);
    assert AssignmentIdKey != ContentKey by { assert |AssignmentIdKey.s| != |ContentKey.s|; }
    assert item[1..] == [Entry(ContentKey, Str(content))];
  }

  /** The two-item body passes validation when assignment 1 exists and neither content is blank. */
  lemma TwoItemsBodyValid(a: string, b: string, existing: set<int>)
    requires 1 in existing && !Blank(a) && !Blank(b)
    ensures Request.BatchValid(TwoItemsBody(a, b), existing)
    ensures |Request.Submitted(TwoItemsBody(a, b))| == 2
    ensures Request.FieldValue(Request.Submitted(TwoItemsBody(a, b))[0].val, Request.Content) == Some(Str(a))
    ensures Request.FieldValue(Request.Submitted(TwoItemsBody(a, b))[1].val, Request.Content) == Some(Str(b))
  {
    var body := TwoItemsBody(a, b);
    var elements := [Entry(IntKey(0), Arr(ExampleItem(a))), Entry(IntKey(1), Arr(ExampleItem(b)))];
    ExampleItemValid(a, existing);
    ExampleItemValid(b, existing);
    assert elements[0].val == Arr(ExampleItem(a)) && elements[1].val == Arr(ExampleItem(b));
    assert Lookup(body, Request.SubmissionsKey) == Some(Arr(elements));
    assert Request.Submitted(body) == elements;
  }

  /**
   * Two submissions for assignment 1 with contents `a` and `b`, where the
   * second relay call fails: both records are written and returned, the
   * first entry is a success and the second an error with the failure's
   * message.
   */
  lemma TwoItemsSecondRelayFails(a: string, b: string, callerId: int, firstId: nat, verdict: nat -> Option<DbError>,
                                 clock: nat -> Timestamp, relay: nat -> Settled, existing: set<int>)
    requires 1 in existing && !Blank(a) && !Blank(b)
    requires verdict(0).None? && verdict(1).None?
    requires relay(0).Fulfilled? && relay(1).Rejected?
    ensures var e := StoreMultipleEffects(TwoItemsBody(a, b), existing, callerId, firstId, verdict, clock, relay);
      && e.response.Ok?
      && |e.response.dbResults| == 2
      && Lookup(e.response.dbResults[0].attributes, ContentKey) == Some(Str(a))
      && Lookup(e.response.dbResults[1].attributes, ContentKey) == Some(Str(b))
      && e.response.logResults == [LogSuccess(relay(0).body), LogError(RelayFailedText, relay(1).reason)]
  {
    TwoItemsBodyValid(a, b, existing);
    assert Written(verdict, 2) == 2;
    TwoValidItems(TwoItemsBody(a, b), existing, callerId, firstId, verdict, clock, relay);
  }

  /** A valid two-element batch whose inserts succeed returns both records and one entry per relay call. */
  lemma TwoValidItems(body: seq<Entry>, existing: set<int>, callerId: int, firstId: nat,
                      verdict: nat -> Option<DbError>, clock: nat -> Timestamp, relay: nat -> Settled)
    requires Request.BatchValid(body, existing) && |Request.Submitted(body)| == 2
    requires Written(verdict, 2) == 2
    ensures var e := StoreMultipleEffects(body, existing, callerId, firstId, verdict, clock, relay);
      && e.response.Ok?
      && |e.response.dbResults| == 2
      && Lookup(e.response.dbResults[0].attributes, ContentKey) == Request.FieldValue(Request.Submitted(body)[0].val, Request.Content)
      && Lookup(e.response.dbResults[1].attributes, ContentKey) == Request.FieldValue(Request.Submitted(body)[1].val, Request.Content)
      && e.response.logResults == [ReportFor(relay(0)).result, ReportFor(relay(1)).result]
  {
    assert Request.Validate(body, existing).Success?;
    var items := Request.Validate(body, existing).value;
    ValidatedBatch(body, existing, callerId, firstId, verdict, clock, relay);
    assert BatchEffects(items, callerId, firstId, verdict, clock, relay).response.Ok?;
    ProcessedBatchIsAligned(body, existing, callerId, firstId, verdict, clock, relay);
    LogResultsOfTwo(Settle(2, relay));
  }

  /** Two settled calls give two entries, in call order. */
  lemma LogResultsOfTwo(settled: seq<Settled>)
    requires |settled| == 2
    ensures LogResults(settled) == [ReportFor(settled[0]).result, ReportFor(settled[1]).result]
  {
    assert settled[..1][..0] == [];
    assert LogResults(settled[..1]) == [ReportFor(settled[0]).result];
  }
}
