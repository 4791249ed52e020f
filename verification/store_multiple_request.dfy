/**
 * The form request that guards the batch endpoint: `authorize()`, the three
 * rules of `rules()` and the custom texts of `messages()`, turned into one
 * pure validation pass over the decoded request body.
 */
module StoreMultipleRequest {
  import opened Wrappers
  import opened PhpValues
  import opened Repositories

  /** `max:5` on `submissions`. */
  const MaxSubmissions := 5

  const SubmissionsKey := StrKey("submissions")

  const SubmissionsRequiredText := "Submissions array is required."
  const SubmissionsMaxText := "You can only submit up to 5 assignments at a time."
  const AssignmentIdRequiredText := "Assignment ID is required for each submission."
  const ContentRequiredText := "Content is required for each submission."

  datatype Rule = Required | IsArray | Max | IsInteger | Exists | IsString

  datatype Field = AssignmentId | Content

  /** `submissions`, or `submissions.<key>.assignment_id` / `submissions.<key>.content`. */
  datatype Attribute = Submissions | Item(key: Key, field: Field)

  /** A text from `messages()`, or the framework's default text for the rule (its wording is not part of this model). */
  datatype Message = Custom(text: string) | Default(rule: Rule)

  datatype ValidationError = ValidationError(attribute: Attribute, message: Message)

  /** Every caller may send the request; the student-role gate sits on the route. */
  function Authorize(): (allowed: bool)
    ensures allowed
  {
    true
  }

  /** `messages()`: the four customised (attribute, rule) pairs, the default text for every other failure. */
  function MessageFor(a: Attribute, rule: Rule): (m: Message)
    ensures m.Custom? <==> rule == Required || (rule == Max && a == Submissions)
    ensures m.Default? ==> m.rule == rule
    ensures a == Submissions && rule == Required ==> m == Custom(SubmissionsRequiredText)
    ensures a == Submissions && rule == Max ==> m == Custom(SubmissionsMaxText)
    ensures a.Item? && a.field == AssignmentId && rule == Required ==> m == Custom(AssignmentIdRequiredText)
    ensures a.Item? && a.field == Content && rule == Required ==> m == Custom(ContentRequiredText)
  {
    match (a, rule)
    case (Submissions, Required) => Custom(SubmissionsRequiredText)
    case (Submissions, Max) => Custom(SubmissionsMaxText)
    case (Item(_, AssignmentId), Required) => Custom(AssignmentIdRequiredText)
    case (Item(_, Content), Required) => Custom(ContentRequiredText)
    case _ => Default(rule)
  }

  /** A rule `messages()` does not customise for the attribute gets the default text. */
  lemma DefaultMessage(a: Attribute, rule: Rule)
    requires rule != Required && rule != Max
    ensures MessageFor(a, rule) == Default(rule)
  {
    var m := MessageFor(a, rule);
    assert !m.Custom?;
  }

  function Fail(a: Attribute, rule: Rule): ValidationError {
    ValidationError(a, MessageFor(a, rule))
  }

  /** The `required` rule: present, and neither null, nor a string `trim` would empty, nor an empty array. */
  predicate Filled(v: Option<Value>) {
    match v
    case None => false
    case Some(Null) => false
    case Some(Str(s)) => !Blank(s)
    case Some(Arr(entries)) => |entries| > 0
    case Some(_) => true
  }

  /** The size `max` compares: the element count of an array, the character count of any other value's string form. */
  function Size(v: Value): nat {
    if v.Arr? then |v.entries| else |ToPhpString(v)|
  }

  /** A value whose integer reading is the id of an existing assignment (the database's comparison, approximated). */
  predicate ExistingId(v: Value, existing: set<int>) {
    var n := FilterValidateInt(v);
    n.Some? && n.value in existing
  }

  function FieldKey(f: Field): Key {
    match f
    case AssignmentId => AssignmentIdKey
    case Content => ContentKey
  }

  /** `submissions.<key>.<field>` for one element of the list; an element that is not an array has no fields. */
  function FieldValue(item: Value, f: Field): Option<Value> {
    if item.Arr? then Lookup(item.entries, FieldKey(f)) else None
  }

  /** The elements `submissions.*` ranges over: none unless the body's `submissions` is an array. */
  function Submitted(body: seq<Entry>): seq<Entry> {
    var submissions := Lookup(body, SubmissionsKey);
    if submissions.Some? && submissions.value.Arr? then submissions.value.entries else []
  }

  /** `required|array|max:5` on `submissions`; a failed `required` stops the attribute's other rules. */
  function SubmissionsErrors(v: Option<Value>): seq<ValidationError> {
    if !Filled(v) then [Fail(Submissions, Required)]
    else
      (if v.value.Arr? then [] else [Fail(Submissions, IsArray)])
      + (if Size(v.value) <= MaxSubmissions then [] else [Fail(Submissions, Max)])
  }

  /**
   * `required|integer|exists:assignments,id` or `required|string` on one
   * element's field. A failed `required` stops the other rules; `exists`, a
   * database rule, is skipped once the attribute has failed `integer`.
   */
  function FieldErrors(key: Key, f: Field, v: Option<Value>, existing: set<int>): seq<ValidationError> {
    var a := Item(key, f);
    if !Filled(v) then [Fail(a, Required)]
    else
      match f
      case AssignmentId =>
        if FilterValidateInt(v.value).None? then [Fail(a, IsInteger)]
        else if ExistingId(v.value, existing) then []
        else [Fail(a, Exists)]
      case Content =>
        if v.value.Str? then [] else [Fail(a, IsString)]
  }

  /** A wildcard rule `submissions.*.<field>`, expanded over the elements in list order. */
  function WildcardErrors(items: seq<Entry>, f: Field, existing: set<int>): seq<ValidationError> {
    if items == [] then []
    else FieldErrors(items[0].key, f, FieldValue(items[0].val, f), existing) + WildcardErrors(items[1..], f, existing)
  }

  /** Every failure of the request, in the order the rules are listed: `submissions`, then each element's `assignment_id`, then each element's `content`. */
  function Errors(body: seq<Entry>, existing: set<int>): seq<ValidationError> {
    var items := Submitted(body);
    SubmissionsErrors(Lookup(body, SubmissionsKey)) + WildcardErrors(items, AssignmentId, existing) + WildcardErrors(items, Content, existing)
  }

  /** An element the rules accept: an array whose `assignment_id` reads as the id of an existing assignment and whose `content` is a string that is not blank. */
  predicate ItemValid(item: Value, existing: set<int>) {
    && item.Arr?
    && Lookup(item.entries, AssignmentIdKey).Some?
    && FilterValidateInt(Lookup(item.entries, AssignmentIdKey).value).Some?
    && FilterValidateInt(Lookup(item.entries, AssignmentIdKey).value).value in existing
    && Lookup(item.entries, ContentKey).Some?
    && Lookup(item.entries, ContentKey).value.Str?
    && !Blank(Lookup(item.entries, ContentKey).value.s)
  }

  /** A batch the rules accept: `submissions` is an array of one to five elements, each of them valid. */
  predicate BatchValid(body: seq<Entry>, existing: set<int>) {
    var submissions := Lookup(body, SubmissionsKey);
    && submissions.Some?
    && submissions.value.Arr?
    && 1 <= |submissions.value.entries| <= MaxSubmissions
    && forall i :: 0 <= i < |submissions.value.entries| ==> ItemValid(submissions.value.entries[i].val, existing)
  }

  /** One element of `validated()['submissions']`: only the two validated keys are kept, in rule order. */
  function ValidatedItem(item: Value): seq<Entry> {
    var fields := if item.Arr? then item.entries else [];
    [Entry(AssignmentIdKey, Get(fields, AssignmentIdKey)), Entry(ContentKey, Get(fields, ContentKey))]
  }

  /**
   * The form request's validation: the list of validated elements when no
   * rule fails, otherwise every failure (the 422 response).
   */
  function Validate(body: seq<Entry>, existing: set<int>): (r: Result<seq<seq<Entry>>, seq<ValidationError>>)
    ensures r.Success? <==> BatchValid(body, existing)
    ensures r.Failure? ==> r.error == Errors(body, existing) && r.error != []
    ensures r.Success? ==>
      && |r.value| == |Submitted(body)|
      && 1 <= |r.value| <= MaxSubmissions
  {
    ValidIff(body, existing);
    var errors := Errors(body, existing);
    if errors != [] then Failure(errors)
    else
      var items := Submitted(body);
      Success(seq(|items|, i requires 0 <= i < |items| => ValidatedItem(items[i].val)))
  }

  /**
   * Validated element i holds exactly two fields, `assignment_id` and
   * `content`, with the values element i of the request carries.
   */
  lemma ValidatedItems(body: seq<Entry>, existing: set<int>)
    requires Validate(body, existing).Success?
    ensures var items := Submitted(body);
      var validated := Validate(body, existing).value;
      forall i :: 0 <= i < |validated| ==>
        && |validated[i]| == 2
        && Lookup(validated[i], AssignmentIdKey) == FieldValue(items[i].val, AssignmentId)
        && Lookup(validated[i], ContentKey) == FieldValue(items[i].val, Content)
  {
    var items := Submitted(body);
    var validated := Validate(body, existing).value;
    forall i | 0 <= i < |validated|
      ensures Lookup(validated[i], AssignmentIdKey) == FieldValue(items[i].val, AssignmentId)
      ensures Lookup(validated[i], ContentKey) == FieldValue(items[i].val, Content)
    {
      assert validated[i] == ValidatedItem(items[i].val);
      assert ItemValid(items[i].val, existing);
      ValidatedItemFields(items[i].val);
    }
  }

  /** An element that carries both fields, reduced to them, keeps their values. */
  lemma ValidatedItemFields(item: Value)
    requires FieldValue(item, AssignmentId).Some? && FieldValue(item, Content).Some?
    ensures |ValidatedItem(item)| == 2
    ensures Lookup(ValidatedItem(item), AssignmentIdKey) == FieldValue(item, AssignmentId)
    ensures Lookup(ValidatedItem(item), ContentKey) == FieldValue(item, Content)
  {
    var r := ValidatedItem(item);
    assert AssignmentIdKey != ContentKey by { assert |AssignmentIdKey.s| != |ContentKey.s|; }
    assert r[1..] == [Entry(ContentKey, r[1].val)];
  }

  // ---------------------------------------------------------------------
  // What the rules accept and reject

  /** A field's rules pass exactly when the element satisfies that half of ItemValid. */
  lemma FieldErrorsEmpty(key: Key, item: Value, existing: set<int>)
    ensures FieldErrors(key, AssignmentId, FieldValue(item, AssignmentId), existing) == [] <==>
      item.Arr? && Lookup(item.entries, AssignmentIdKey).Some? &&
      ExistingId(Lookup(item.entries, AssignmentIdKey).value, existing)
    ensures FieldErrors(key, Content, FieldValue(item, Content), existing) == [] <==>
      item.Arr? && Lookup(item.entries, ContentKey).Some? &&
      Lookup(item.entries, ContentKey).value.Str? && !Blank(Lookup(item.entries, ContentKey).value.s)
  {
    var v := FieldValue(item, AssignmentId);
    if v.Some? && FilterValidateInt(v.value).Some? && v.value.Str? {
      if Blank(v.value.s) {
        BlankIsNotInteger(v.value.s);
      }
    }
  }

  /**
   * A filled `assignment_id` reports exactly one failure when it does not
   * pass as an existing id: `integer` when the filter rejects it, `exists`
   * otherwise. The two are never reported together.
   */
  lemma AssignmentIdSingleFailure(key: Key, v: Value, existing: set<int>)
    requires Filled(Some(v))
    ensures FilterValidateInt(v).None? ==>
      FieldErrors(key, AssignmentId, Some(v), existing) == [ValidationError(Item(key, AssignmentId), Default(IsInteger))]
    ensures FilterValidateInt(v).Some? && FilterValidateInt(v).value !in existing ==>
      FieldErrors(key, AssignmentId, Some(v), existing) == [ValidationError(Item(key, AssignmentId), Default(Exists))]
    ensures |FieldErrors(key, AssignmentId, Some(v), existing)| <= 1
  {
    var a := Item(key, AssignmentId);
    var n := FilterValidateInt(v);
    assert FieldErrors(key, AssignmentId, Some(v), existing) ==
      if n.None? then [Fail(a, IsInteger)] else if n.value in existing then [] else [Fail(a, Exists)];
    DefaultMessage(a, IsInteger);
    DefaultMessage(a, Exists);
  }

  /** A non-empty array `assignment_id` fails `integer` and nothing else, whatever its members. */
  lemma ArrayAssignmentIdFailsInteger(key: Key, entries: seq<Entry>, existing: set<int>)
    requires entries != []
    ensures FieldErrors(key, AssignmentId, Some(Arr(entries)), existing) == [ValidationError(Item(key, AssignmentId), Default(IsInteger))]
  {
    AssignmentIdSingleFailure(key, Arr(entries), existing);
  }

  /** One element's rules for `field` report nothing. */
  predicate FieldPasses(item: Entry, f: Field, existing: set<int>) {
    FieldErrors(item.key, f, FieldValue(item.val, f), existing) == []
  }

  /** Every element passes its rules for `f`, checked head first. */
  predicate AllPass(items: seq<Entry>, f: Field, existing: set<int>) {
    items == [] || (FieldPasses(items[0], f, existing) && AllPass(items[1..], f, existing))
  }

  lemma {:induction false} WildcardErrorsAllPass(items: seq<Entry>, f: Field, existing: set<int>)
    ensures WildcardErrors(items, f, existing) == [] <==> AllPass(items, f, existing)
  {
    if items != [] {
      WildcardErrorsAllPass(items[1..], f, existing);
    }
  }

  lemma {:induction false} AllPassEvery(items: seq<Entry>, f: Field, existing: set<int>)
    ensures AllPass(items, f, existing) <==> forall i :: 0 <= i < |items| ==> FieldPasses(items[i], f, existing)
  {
    if items != [] {
      AllPassEvery(items[1..], f, existing);
      assert forall i :: 1 <= i < |items| ==> items[1..][i - 1] == items[i];
    }
  }

  lemma WildcardErrorsEmpty(items: seq<Entry>, f: Field, existing: set<int>)
    ensures WildcardErrors(items, f, existing) == [] <==> forall i :: 0 <= i < |items| ==> FieldPasses(items[i], f, existing)
  {
    WildcardErrorsAllPass(items, f, existing);
    AllPassEvery(items, f, existing);
  }

  /** The validation pass reports nothing exactly when the batch is valid. */
  lemma ValidIff(body: seq<Entry>, existing: set<int>)
    ensures Errors(body, existing) == [] <==> BatchValid(body, existing)
  {
    var items := Submitted(body);
    WildcardErrorsEmpty(items, AssignmentId, existing);
    WildcardErrorsEmpty(items, Content, existing);
    forall i | 0 <= i < |items|
      ensures (FieldPasses(items[i], AssignmentId, existing) && FieldPasses(items[i], Content, existing))
              <==> ItemValid(items[i].val, existing)
    {
      FieldErrorsEmpty(items[i].key, items[i].val, existing);
    }
  }

  /** A missing, null, blank or empty `submissions` yields the one required message and nothing else. */
  lemma MissingSubmissionsRejected(body: seq<Entry>, existing: set<int>)
    requires !Filled(Lookup(body, SubmissionsKey))
    ensures Errors(body, existing) == [ValidationError(Submissions, Custom(SubmissionsRequiredText))]
  {
  }

  /** A `submissions` value that is present but not an array fails the array rule, and no element rule runs. */
  lemma NonArraySubmissionsRejected(body: seq<Entry>, existing: set<int>)
    requires Filled(Lookup(body, SubmissionsKey)) && !Lookup(body, SubmissionsKey).value.Arr?
    ensures Errors(body, existing)[0] == ValidationError(Submissions, Default(IsArray))
    ensures forall e :: e in Errors(body, existing) ==> e.attribute == Submissions
  {
  }

  /** More than five elements fail the max rule with its custom text; one to five pass the size check. */
  lemma BatchSizeBound(body: seq<Entry>, existing: set<int>)
    requires Lookup(body, SubmissionsKey).Some? && Lookup(body, SubmissionsKey).value.Arr?
    ensures var n := |Lookup(body, SubmissionsKey).value.entries|;
      && (n > MaxSubmissions ==> ValidationError(Submissions, Custom(SubmissionsMaxText)) in Errors(body, existing))
      && (1 <= n <= MaxSubmissions ==> SubmissionsErrors(Lookup(body, SubmissionsKey)) == [])
  {
    var n := |Lookup(body, SubmissionsKey).value.entries|;
    if n > MaxSubmissions {
      assert Errors(body, existing)[0] == ValidationError(Submissions, Custom(SubmissionsMaxText));
    }
  }

  lemma {:induction false} WildcardErrorsInclude(items: seq<Entry>, f: Field, existing: set<int>, i: nat)
    requires i < |items|
    ensures forall e :: e in FieldErrors(items[i].key, f, FieldValue(items[i].val, f), existing) ==> e in WildcardErrors(items, f, existing)
  {
    var head := FieldErrors(items[0].key, f, FieldValue(items[0].val, f), existing);
    var tail := WildcardErrors(items[1..], f, existing);
    assert WildcardErrors(items, f, existing) == head + tail;
    if i > 0 {
      WildcardErrorsInclude(items[1..], f, existing, i - 1);
      assert items[1..][i - 1] == items[i];
    }
  }

  /** One invalid element rejects the whole batch, with at least one failure naming that element. */
  lemma InvalidItemRejectsBatch(body: seq<Entry>, existing: set<int>, i: nat)
    requires Lookup(body, SubmissionsKey).Some? && Lookup(body, SubmissionsKey).value.Arr?
    requires i < |Lookup(body, SubmissionsKey).value.entries|
    requires !ItemValid(Lookup(body, SubmissionsKey).value.entries[i].val, existing)
    ensures Validate(body, existing).Failure?
    ensures exists e :: e in Errors(body, existing) && e.attribute.Item? && e.attribute.key == Lookup(body, SubmissionsKey).value.entries[i].key
  {
    var items := Lookup(body, SubmissionsKey).value.entries;
    var item := items[i];
    FieldErrorsEmpty(item.key, item.val, existing);
    var errs := Errors(body, existing);
    var idErrors := FieldErrors(item.key, AssignmentId, FieldValue(item.val, AssignmentId), existing);
    var contentErrors := FieldErrors(item.key, Content, FieldValue(item.val, Content), existing);
    WildcardErrorsInclude(items, AssignmentId, existing, i);
    WildcardErrorsInclude(items, Content, existing, i);
    if idErrors != [] {
      assert idErrors[0] in errs;
    } else {
      assert contentErrors[0] in errs;
    }
  }
}
