# Batch submissions: validate, persist, relay

A Dafny model of the batch-submission pipeline of a Laravel learning-management
backend. It covers `POST submissions/multiple`:

- the form request `StoreMultipleSubmissionsRequest` checks the body;
- `SubmissionController::storeMultiple` hands the validated list to `SubmissionService`;
- the service inserts every item through the repository, stamping it with the caller as `user_id`;
- it then relays each item's assignment id, a timestamp and the caller to an external logging endpoint;
- finally it maps each settled relay call to a `success` or `error` entry;
- the response returns the records and the entries side by side.

Modules, one per concern:

| file | module | what it holds |
|---|---|---|
| `wrappers.dfy` | `Wrappers` | `Option` and `Result` |
| `php_int.dfy` | `PhpInt` | PHP's decimal form of an integer; `filter_var(..., FILTER_VALIDATE_INT)` on strings |
| `php_values.dfy` | `PhpValues` | decoded JSON as PHP values; arrays as ordered key/value lists; `$a[$k]`, `$a[$k] = $v`, `trim`, the integer filter on any value |
| `repositories.dfy` | `Repositories` | the submissions table as a class: rows plus the next id, with `create` |
| `store_multiple_request.dfy` | `StoreMultipleRequest` | `authorize()`, `rules()` and `messages()` as one pure validation pass |
| `submission_service.dfy` | `Services` | the service class with its two batch loops; the specification functions they are proved against; the outcome mapping as written |
| `submission_controller.dfy` | `Controllers` | the controller class; the request's effects as a function; properties of the whole action |

The environment is passed in as functions indexed by call number. None of it is read ambiently:

- `Auth::id()` becomes `callerId`.
- `verdict(k)` is the database's answer to the k-th insert: `None`, or the message of the exception it raises.
- `clock(k)` is the k-th `now()`.
- `relay(k)` is how the k-th relay call settles: `Fulfilled(decoded body)` or `Rejected(message)`.
- `existing` is the set of ids in the `assignments` table.

The model follows the code on these points:

- A `submissions` value that is present but not an array fails the `array` rule with the framework's default message. The "Submissions array is required." text applies only to a missing, null, blank or empty value.
- A non-empty JSON object passes the `array` rule, because it decodes to a PHP array.
- `validated()` keeps only `assignment_id` and `content` of each element. Other client keys, `user_id` included, never reach the repository.
- The relay payload carries no `content`.
- A fulfilled relay call is never an error outcome, whatever its body. A body that is not JSON decodes to `null`, as a JSON `null` does, and the call still counts as fulfilled. As written, `Log::info` then raises; see Findings.

## Model

| member | source | states |
|---|---|---|
| PhpInt.ParseIntAccepts | app/Http/Requests/StoreMultipleSubmissionsRequest.php:26 | the integer filter reads a string as `n` exactly when `n` is in range and the trimmed string is an integer text of `n` (both directions) |
| PhpInt.ParseSignedAccepted | app/Http/Requests/StoreMultipleSubmissionsRequest.php:26 | whatever trimmed text the filter accepts is an integer text of the value it yields |
| PhpInt.ParseSignedIntegerText | app/Http/Requests/StoreMultipleSubmissionsRequest.php:26 | every integer text of an in-range value passes the filter as that value |
| PhpInt.ShowNatDigitsValue | app/Http/Requests/StoreMultipleSubmissionsRequest.php:26 | a digit run with no leading zero is the decimal form of the positive number it denotes |
| PhpInt.ParseDigit | app/Http/Requests/StoreMultipleSubmissionsRequest.php:26 | a lone digit 1 to 9 passes the filter as its value |
| PhpInt.ParseShowInt | app/Http/Requests/StoreMultipleSubmissionsRequest.php:26 | every 64-bit integer, written in decimal, passes the integer filter and reads back as itself |
| PhpValues.Lookup | app/Services/SubmissionService.php:69 | `$a[$k]` finds a binding of `$k` in the array when it returns one, and returns none exactly when no entry has key `$k` |
| PhpValues.SetLookup | app/Services/SubmissionService.php:116 | after `$a[$k] = $v`, `$k` reads `$v` and every other key reads as before; the array grows by one entry exactly when `$k` was new |
| PhpValues.FilterValidateInt | app/Http/Requests/StoreMultipleSubmissionsRequest.php:26 | an in-range integer passes as itself; `true` passes as 1; `false`, arrays and null fail; any accepted value is a 64-bit integer |
| PhpValues.FilterValidateIntString | app/Http/Requests/StoreMultipleSubmissionsRequest.php:26 | a string passes as `n` exactly when `n` is a 64-bit integer and the string, stripped of surrounding spaces, tabs and line breaks, is `n` in decimal, `+` before a non-negative `n` in decimal, or `-0` for 0: leading zeros, inner spaces, a second sign or overflow fail |
| PhpValues.BlankIsNotInteger | app/Http/Requests/StoreMultipleSubmissionsRequest.php:26 | a string that `trim` empties never passes the integer filter |
| Repositories.SubmissionRepository.Create | app/Repositories/SubmissionRepository.php:20-23 | an accepted insert appends exactly one row with the next id and returns it; a refused insert changes nothing and returns the error; ids stay increasing |
| StoreMultipleRequest.Authorize | app/Http/Requests/StoreMultipleSubmissionsRequest.php:12-15 | every request is authorized |
| StoreMultipleRequest.MessageFor | app/Http/Requests/StoreMultipleSubmissionsRequest.php:36-44 | the four customised (attribute, rule) pairs get their texts; every other failure gets the rule's default text |
| StoreMultipleRequest.DefaultMessage | app/Http/Requests/StoreMultipleSubmissionsRequest.php:36-44 | a rule other than `required` and `max` gets the framework's default text on every attribute |
| StoreMultipleRequest.Validate | app/Http/Requests/StoreMultipleSubmissionsRequest.php:22-29 | success exactly when the batch is valid, with one validated element per submitted element (1 to 5); failure carries every failure the rules report (with `exists` skipped after a failed `integer`), never none |
| StoreMultipleRequest.ValidatedItems | app/Http/Requests/StoreMultipleSubmissionsRequest.php:24-28 | validated element i holds exactly `assignment_id` and `content`, with the values submitted element i carries |
| StoreMultipleRequest.ValidatedItemFields | app/Http/Requests/StoreMultipleSubmissionsRequest.php:26-27 | reducing an element that has both fields to them keeps their values |
| StoreMultipleRequest.FieldErrorsEmpty | app/Http/Requests/StoreMultipleSubmissionsRequest.php:26-27 | an element's `assignment_id` rules pass exactly when it is present and its integer reading is an existing id; its `content` rules pass exactly when it is a non-blank string |
| StoreMultipleRequest.AssignmentIdSingleFailure | app/Http/Requests/StoreMultipleSubmissionsRequest.php:26 | a filled `assignment_id` reports at most one failure: `integer` alone when the integer filter rejects it, `exists` alone when it reads as an integer that is not an existing id; `exists` is skipped after a failed `integer` |
| StoreMultipleRequest.ArrayAssignmentIdFailsInteger | app/Http/Requests/StoreMultipleSubmissionsRequest.php:26 | a non-empty array `assignment_id` fails `integer` and nothing else, whatever its members, because `exists` never runs after a failed `integer` |
| StoreMultipleRequest.WildcardErrorsEmpty | app/Http/Requests/StoreMultipleSubmissionsRequest.php:26-27 | a wildcard rule reports nothing exactly when every element passes it |
| StoreMultipleRequest.WildcardErrorsAllPass | app/Http/Requests/StoreMultipleSubmissionsRequest.php:26-27 | the expanded rule reports nothing exactly when the elements pass one after another, head first |
| StoreMultipleRequest.AllPassEvery | app/Http/Requests/StoreMultipleSubmissionsRequest.php:26-27 | elements passing head first is the same as every element passing |
| StoreMultipleRequest.ValidIff | app/Http/Requests/StoreMultipleSubmissionsRequest.php:24-28 | no rule fails exactly when `submissions` is an array of 1 to 5 elements, each of them valid |
| StoreMultipleRequest.MissingSubmissionsRejected | app/Http/Requests/StoreMultipleSubmissionsRequest.php:25-39 | a missing, null, blank or empty `submissions` gives exactly one failure, "Submissions array is required." |
| StoreMultipleRequest.NonArraySubmissionsRejected | app/Http/Requests/StoreMultipleSubmissionsRequest.php:25 | a present non-array `submissions` fails the array rule first, and no element rule reports anything |
| StoreMultipleRequest.BatchSizeBound | app/Http/Requests/StoreMultipleSubmissionsRequest.php:25-40 | more than five elements give "You can only submit up to 5 assignments at a time."; one to five pass the list's rules |
| StoreMultipleRequest.WildcardErrorsInclude | app/Http/Requests/StoreMultipleSubmissionsRequest.php:26-27 | every failure of one element's field appears among the wildcard rule's failures |
| StoreMultipleRequest.InvalidItemRejectsBatch | app/Http/Requests/StoreMultipleSubmissionsRequest.php:24-28 | one invalid element fails the whole request, with a failure naming that element |
| Services.StampFields | app/Services/SubmissionService.php:43-44 | a stamped item has the caller as `user_id`, overwriting any earlier value, and every other field unchanged |
| Services.RelayPayloadFields | app/Services/SubmissionService.php:67-73 | a relay payload carries the item's `assignment_id`, the time and the caller as `student_id`; it has no `content` and no `user_id` |
| Services.Written | app/Services/SubmissionService.php:115-118 | the inserts before the k-th all succeed, and the k-th, if any, is refused |
| Services.StampedRowsAt | app/Services/SubmissionService.php:113-120 | one row per item, in item order: row i is item i stamped with the caller, with id `firstId + i` |
| Services.RequestsAt | app/Services/SubmissionService.php:66-74 | one relay call per item, in item order, call i posting item i's payload to `/posts` |
| Services.LogResultsAt | app/Services/SubmissionService.php:79-102 | one entry per settled call, in order: `success` exactly for fulfilled calls, with the decoded body as data; `error` for rejected ones, with "Failed to log submission" and the rejection's message |
| Services.LogLinesAt | app/Services/SubmissionService.php:85-92 | one log line per settled call: an error line exactly for rejected calls, carrying the rejection's message, and an info line for fulfilled ones |
| Services.LogResultIsolated | app/Services/SubmissionService.php:77-100 | an entry depends on its own call's outcome only; other calls failing changes nothing about it |
| Services.StampedRowsStep | app/Services/SubmissionService.php:115-118 | handling one more item appends that item's row |
| Services.RequestsStep | app/Services/SubmissionService.php:66-74 | handling one more item appends that item's call |
| Services.ReportsStep | app/Services/SubmissionService.php:80-100 | handling one more outcome appends its entry and its log line |
| Services.WrittenUnique | app/Services/SubmissionService.php:115-118 | the number of inserts before the first refusal is determined by the answers |
| Services.SubmissionService.CreateSubmission | app/Services/SubmissionService.php:41-45 | the item, stamped with the caller, becomes one new row with the next id, and the next id advances by one; a refused insert adds nothing, leaves the next id as it was and returns the error |
| Services.SubmissionService.CreateMultipleSubmissions | app/Services/SubmissionService.php:111-121 | the table grows by the stamped rows of the inserts before the first refusal and the next id advances by their number; all rows, in item order, are returned when none is refused, otherwise the refusal |
| Services.SubmissionService.LogSubmissionsToExternalService | app/Services/SubmissionService.php:62-103 | the outbox grows by one call per item in order; the result is the entry list of the settled calls under the corrected mapping of Findings (`LogResults`), and the log grows by that mapping's one line per call |
| Services.NonArrayBodyAbortsAsWritten | app/Services/SubmissionService.php:83-85 | as written, one fulfilled call whose body does not decode to an array loses every entry of the batch |
| Services.AsWrittenAgreesOnArrayBodies | app/Services/SubmissionService.php:80-100 | where every fulfilled body decodes to an array, the code as written and the corrected mapping give the same entries |
| Services.ScalarBodyCounterexample | app/Services/SubmissionService.php:83-85 | a call fulfilled with the JSON body `42`: as written no entries; corrected, one `success` entry with 42 as data |
| Controllers.SubmissionController.Handle | routes/api.php:26 | a request's response and its rows, relay calls and log lines are those `StoreMultipleEffects` gives for its body, and the next id advances by the number of rows written |
| Controllers.SubmissionController.StoreMultiple | app/Http/Controllers/SubmissionController.php:76-88 | for the validated list, every insert runs first and then every relay call; the response, rows, outbox and log are those `BatchEffects` gives, and the next id advances by the number of rows written |
| Controllers.NeverForbidden | app/Http/Requests/StoreMultipleSubmissionsRequest.php:12-15 | no request to the action is refused by the form request |
| Controllers.InvalidBatchHasNoEffect | app/Http/Controllers/SubmissionController.php:78-81 | an invalid batch is answered with its non-empty failure list; nothing is inserted, relayed or logged |
| Controllers.OversizedBatchHasNoEffect | app/Http/Requests/StoreMultipleSubmissionsRequest.php:25-40 | more than five submissions are refused with the size text before anything is written or relayed |
| Controllers.BatchEffectsAligned | app/Http/Controllers/SubmissionController.php:80-87 | a batch whose inserts all succeed returns one record, one relay call, one entry and one log line per item, in item order |
| Controllers.ProcessedBatchIsAligned | app/Http/Controllers/SubmissionController.php:78-87 | a processed request answers "Submissions processed successfully" with `db_results` equal to the rows written and as long as `log_results` and the submitted list; record i holds element i's fields with the caller as `user_id`; call i carries the caller and no content; entry i succeeds exactly when call i did |
| Controllers.ValidatedBatch | app/Http/Controllers/SubmissionController.php:78-81 | a valid body's effects are those of its validated list |
| Controllers.ValidatedFields | app/Http/Controllers/SubmissionController.php:78-80 | a stamped validated element keeps the submitted element's two fields |
| Controllers.RelayFailureIsIsolated | app/Http/Controllers/SubmissionController.php:80-87 | a failed relay call shows only in its own entry; every record is still returned and every succeeded call stays a success |
| Controllers.RelayNeverTouchesRecords | app/Http/Controllers/SubmissionController.php:80-81 | how the relay calls settle changes neither the rows written nor the records returned |
| Controllers.WriteFailureStopsBeforeRelay | app/Http/Controllers/SubmissionController.php:80-81 | a refused insert ends the action: the earlier rows stay, the refusal is the answer, nothing is relayed or logged |
| Controllers.BatchEffectsStopped | app/Services/SubmissionService.php:115-118 | with a refused insert, the rows are those before it and no call is issued |
| Controllers.ExampleItemValid | app/Http/Requests/StoreMultipleSubmissionsRequest.php:26-27 | an element for an existing assignment with non-blank content passes its rules |
| Controllers.TwoItemsBodyValid | app/Http/Requests/StoreMultipleSubmissionsRequest.php:24-28 | the two-element example body is valid and its elements carry the given contents |
| Controllers.TwoValidItems | app/Http/Controllers/SubmissionController.php:80-87 | a valid two-element batch whose inserts succeed returns both records with their contents and one entry per relay call |
| Controllers.TwoItemsSecondRelayFails | app/Http/Controllers/SubmissionController.php:80-87 | two submissions, second relay call failing: both records are returned, the first entry is a success and the second an error with the failure's message |
| Controllers.LogResultsOfTwo | app/Services/SubmissionService.php:79-102 | two settled calls give their two entries in order |

## Left out

- HTTP and concurrency. The Guzzle client, `postAsync` and `Utils::settle` are not modelled. The outbox records the calls issued, and `relay(k)` says how each settles. Settlement never cancels a call.
- `now()`. It is the input `clock(k)`, an opaque timestamp string.
- `json_decode`. A fulfilled call carries its already-decoded body.
- The `Auth` facade. It is the input `callerId`.
- The framework's default message texts. They appear only as `Default(rule)`; their wording is not part of this model.
- The 422 response's summary `message`, and how errors are grouped per attribute in the JSON. The model keeps the flat, ordered list of failures.
- `exists:assignments,id`. The database's comparison is approximated: a value's integer reading must be in `existing`. A float such as `1.0`, or a string the database would coerce, is judged by the integer filter instead. An array value never reaches this rule: it always fails `integer` first, and the framework skips `exists` on an attribute that has already failed.
- Services.SubmissionService.LogSubmissionsToExternalService: an item without `assignment_id` is relayed with a null id. In PHP the missing key raises a warning, which the framework turns into an exception that ends the relay step. Items that come through the controller always carry the key (`StoreMultipleRequest.ValidatedItems`). Only direct callers of the service could pass such an item.
- Services.ReportFor: a body that is not JSON cannot be told apart from a JSON `null`, because both decode to `null`. The corrected mapping gives such a call a `success` entry with null data. The model leaves open whether a body that is not JSON at all should be an `error` outcome instead.
- Floats and PHP's float-to-string conversion. JSON numbers with a fraction are not part of `Value`.
- Request middleware such as `TrimStrings` and `ConvertEmptyStringsToNull`. Strings reach the rules as sent, and `required` does its own trim check.
- Duplicate keys in a JSON object. A decoded array never repeats a key; `Lookup` takes the first binding.
- Eloquent details of `Submission::create`: mass-assignment filtering (`$fillable`), timestamps and attribute casting. A row is the attribute list it was created with, plus its id.
- Serialising `db_results` through `SubmissionResource`. The response carries the records themselves.
- The context of `Log::error`, which is the exception object. It is modelled as the exception's message.
- Where an exception from `create` ends up. The response is modelled as `ServerError(message)`; the framework's exception rendering is not modelled.
- The order "all inserts before any relay call" as a single interleaved trace. It follows from the frames instead: `CreateMultipleSubmissions` may change only the repository, and `LogSubmissionsToExternalService` only the service's outbox and log. `StoreMultiple` calls them in that order.
- The role gate on the route (`CheckStudentRole`). It runs before the action and is not modelled.

## Findings

| source | as written | input that shows it | evidently intended | confidence | as-written member | corrected member |
|---|---|---|---|---|---|---|
| app/Services/SubmissionService.php:83-85 | the decoded body is passed as the context argument of `Log::info`, which takes an array; a body that does not decode to an array raises a type error, and the whole relay step ends without a response after every row was written | one relay call fulfilled with the JSON body `42` (a scalar, not an array) | logging is best-effort and never fails the outcome: a call whose body decodes to a JSON value gets a `success` entry with that value as data; for a body that is not JSON at all the intended outcome is open | not executed | Services.NonArrayBodyAbortsAsWritten | Services.LogResultsAt |

`Services.ReportAsWritten` and `Services.LogResultsAsWritten` model the mapping as written. `Services.ScalarBodyCounterexample` gives the concrete input.

The corrected mapping, `Services.ReportFor` and `Services.LogResults`, logs such a body with an empty context. `Services.LogResultsAt` proves that the corrected mapping is total and order-preserving: one entry per call, `success` exactly for fulfilled calls. `Services.AsWrittenAgreesOnArrayBodies` proves that the two mappings agree whenever every body decodes to an array. The service and the controller use the corrected mapping.
