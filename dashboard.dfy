/** The dashboard page's controller: the state cells behind the record form and
    the handlers that change them — typing into the form, submitting it,
    editing and deleting a listed record, choosing the form type, and opening
    and closing the form. Requests to the backend are returned to the caller,
    and what the backend answers is passed in. */
module Dashboard {
  import opened JsValues
  import opened FormValidation
  import opened Records

  const BackendUrl: string := "https://schoolbe-lcox.onrender.com"

  const NoFormTypeMessage: string := "Form type is not selected"
  const DuplicateEmailMessage: string := "The email you entered already exists. Please use a different email."
  const GenericErrorMessage: string := "An error occurred. Please try again later."
  const NetworkErrorMessage: string := "Network error. Please check your internet connection."

  /** A request the page sends to the backend. */
  datatype Request = Post(url: string, payload: Draft) | Put(url: string, payload: Draft) | Delete(url: string)

  /** How the backend answers a submitted form: it accepts it, it refuses it
      with a response body, or no response arrives. */
  datatype Outcome = Success | ServerError(data: Value) | NoResponse

  /** `!formType` is false: a form type is chosen. */
  predicate FormTypeChosen(formType: Option<string>) {
    formType.Some? && formType.value != ""
  }

  // ---------------------------------------------------------------- handleSubmit, as a function

  /** Where a submission stops: no form type, validation threw, validation
      failed, the cleaned contact details are incomplete, or a request is sent. */
  datatype Step =
    | NoFormType
    | ValidationThrew
    | Invalid(errors: map<string, string>)
    | MissingContact
    | Send(request: Request)

  /** The request for a cleaned payload: an update of the record being edited,
      or a creation. */
  function SaveRequest(formType: string, editingItemId: Value, payload: Draft): Request {
    if Truthy(editingItemId) then Put(BackendUrl + "/" + formType + "/" + ToJsString(editingItemId), payload)
    else Post(BackendUrl + "/" + formType + "/create", payload)
  }

  /** How far `handleSubmit` gets with the given draft. */
  function SubmitStep(formType: Option<string>, draft: Draft, editingItemId: Value): Step {
    if !FormTypeChosen(formType) then NoFormType
    else
      var ft := formType.value;
      match ValidationOf(FieldsFor(ft), draft)
      case Threw => ValidationThrew
      case Checked(valid, errors) =>
        if !valid then Invalid(errors)
        else
          var payload := CleanData(draft, ft);
          var contact := Prop(payload, "contactDetails");
          if ft != "class" && (!Truthy(Get(contact, "email")) || !Truthy(Get(contact, "phone"))) then MissingContact
          else Send(SaveRequest(ft, editingItemId, payload))
  }

  /** `formError` once the request is answered: cleared on success, the server's
      message on a refusal (the duplicate-email refusal reworded, a falsy one
      replaced by the generic message), the network message without a response.
      A refusal without a body makes the handler throw, leaving the cleared error. */
  function FormErrorAfter(outcome: Outcome): Value {
    match outcome
    case Success => Str("")
    case ServerError(data) =>
      if data.Undef? || data.Null? then Str("")
      else
        var e := Get(data, "error");
        if e == Str("Email already exists") then Str(DuplicateEmailMessage)
        else Or(e, Str(GenericErrorMessage))
    case NoResponse => Str(NetworkErrorMessage)
  }

  /** Every answered failure shows a message: the page renders `formError` when
      it is truthy, and after a refusal with a body or a lost connection it is. */
  lemma FailureAlwaysShown(outcome: Outcome)
    ensures Truthy(FormErrorAfter(outcome)) <==>
              outcome.NoResponse? || (outcome.ServerError? && !outcome.data.Undef? && !outcome.data.Null?)
    ensures outcome.ServerError? && Get(outcome.data, "error") == Str("Email already exists") ==>
              FormErrorAfter(outcome) == Str(DuplicateEmailMessage)
    ensures outcome.ServerError? && Truthy(Get(outcome.data, "error")) &&
            Get(outcome.data, "error") != Str("Email already exists") ==>
              FormErrorAfter(outcome) == Get(outcome.data, "error")
    ensures outcome.ServerError? && outcome.data.Obj? && !Truthy(Get(outcome.data, "error")) ==>
              FormErrorAfter(outcome) == Str(GenericErrorMessage)
  {
  }

  /** A submission without a form type stops at once; with one, it is
      validated against the field list of that type. */
  lemma SubmitNeedsFormType(formType: Option<string>, draft: Draft, editingItemId: Value)
    ensures SubmitStep(formType, draft, editingItemId).NoFormType? <==> !FormTypeChosen(formType)
    ensures FormTypeChosen(formType) ==>
              (SubmitStep(formType, draft, editingItemId).ValidationThrew? <==>
                 ValidationOf(FieldsFor(formType.value), draft).Threw?)
  {
  }

  /** A request is sent only for a draft that passes validation, and carries
      the cleaned draft: a PUT to the edited record when one is being edited, a
      POST to the type's create endpoint otherwise. */
  lemma SendOnlyValid(formType: Option<string>, draft: Draft, editingItemId: Value)
    requires SubmitStep(formType, draft, editingItemId).Send?
    ensures FormTypeChosen(formType)
    ensures ValidationOf(FieldsFor(formType.value), draft) == Checked(true, map[])
    ensures var r := SubmitStep(formType, draft, editingItemId).request;
      && r.payload == CleanData(draft, formType.value)
      && (Truthy(editingItemId) ==>
            r.Put? && r.url == BackendUrl + "/" + formType.value + "/" + ToJsString(editingItemId))
      && (!Truthy(editingItemId) ==> r.Post? && r.url == BackendUrl + "/" + formType.value + "/create")
  {
    ValidationMeaning(FieldsFor(formType.value), draft);
  }

  /** A failed validation reports at least one message, each non-empty. */
  lemma InvalidReportsErrors(formType: Option<string>, draft: Draft, editingItemId: Value)
    requires SubmitStep(formType, draft, editingItemId).Invalid?
    ensures var errors := SubmitStep(formType, draft, editingItemId).errors;
      && errors != map[]
      && (forall k :: k in errors ==> errors[k] != "")
      && (forall k :: k in errors ==> exists i :: FailsAt(FieldsFor(formType.value), draft, i) && FieldsFor(formType.value)[i].name == k)
  {
    ValidationMeaning(FieldsFor(formType.value), draft);
  }

  /** A person form that passed validation has a truthy email and phone, and
      cleaning keeps them, so the contact-details check after cleaning never
      stops a submission. */
  lemma ContactCheckUnreachable(formType: Option<string>, draft: Draft, editingItemId: Value)
    ensures !SubmitStep(formType, draft, editingItemId).MissingContact?
  {
    if FormTypeChosen(formType) && formType.value != "class" {
      var ft := formType.value;
      var fields := FieldsFor(ft);
      var v := ValidationOf(fields, draft);
      if v.Checked? && v.valid {
        ValidationMeaning(fields, draft);
        ValidationThrows(fields, draft);
        FieldListsWellFormed(ft);
        ContactPasses(fields, draft, 3);
        ContactPasses(fields, draft, 4);
        CleanPersonKeys(draft, ft);
        CleanPersonContact(draft, ft);
      }
    }
  }

  /** A field of a passing validation whose value was read does not fail. */
  lemma ContactPasses(fields: seq<Field>, draft: Draft, i: nat)
    requires i < |fields| && IsContactField(fields[i].name)
    requires ValidationOf(fields, draft) == Checked(true, map[])
    ensures FieldValue(fields[i], draft).Some? && Truthy(FieldValue(fields[i], draft).value)
  {
    ValidationMeaning(fields, draft);
    ValidationThrows(fields, draft);
    var v := FieldValue(fields[i], draft).value;
    assert !FailsAt(fields, draft, i) by {
      assert fields[i].name !in ValidationOf(fields, draft).errors;
    }
    ContactRule(fields[i], v);
  }

  /** A class form whose five fields are all truthy passes validation and is
      sent: POSTed to /class/create, or PUT to the edited class. */
  lemma CompleteClassFormIsSent(draft: Draft, editingItemId: Value)
    requires forall f :: f in ClassFields ==> Truthy(Prop(draft, f.name))
    ensures SubmitStep(Some("class"), draft, editingItemId) ==
              Send(SaveRequest("class", editingItemId, CleanData(draft, "class")))
  {
    FieldListsWellFormed("class");
    OrdinaryFieldsPass(ClassFields, draft);
  }

  /** Fields without contact fields, all truthy in the draft, pass validation. */
  lemma OrdinaryFieldsPass(fields: seq<Field>, draft: Draft)
    requires forall f :: f in fields ==> !IsContactField(f.name) && Truthy(Prop(draft, f.name))
    ensures ValidationOf(fields, draft) == Checked(true, map[])
  {
    ValidationThrows(fields, draft);
    assert ValidationOf(fields, draft).Checked? by {
      forall i | 0 <= i < |fields| ensures FieldValue(fields[i], draft).Some? {
        assert fields[i] in fields;
      }
    }
    ValidationMeaning(fields, draft);
    forall i | 0 <= i < |fields| ensures !FailsAt(fields, draft, i) {
      assert fields[i] in fields;
      PresenceRule(fields[i], Prop(draft, fields[i].name));
    }
    assert ValidationOf(fields, draft).errors == map[];
  }

  /** An empty class list posts an empty `students` array. */
  lemma ClassPayloadStudents(draft: Draft, editingItemId: Value)
    requires forall f :: f in ClassFields ==> Truthy(Prop(draft, f.name))
    requires !Truthy(Prop(draft, "students"))
    ensures SubmitStep(Some("class"), draft, editingItemId).Send?
    ensures SubmitStep(Some("class"), draft, editingItemId).request.payload["students"] == Arr([])
  {
    CompleteClassFormIsSent(draft, editingItemId);
    CleanClassPayload(draft);
  }

  /** The placeholder option 'Select' is a truthy form type: it validates the
      student fields and would post to /Select/create. */
  lemma PlaceholderFormType()
    ensures FormTypeChosen(Some("Select")) && FieldsFor("Select") == StudentFields
    ensures SaveRequest("Select", Null, map[]).url == BackendUrl + "/Select/create"
  {
  }

  /** `handleChange` clears the error under `field`; a change of the nested
      email or phone clears `contactDetails`, not the field's own error. */
  function ErrorsAfterChange(errors: map<string, string>, field: string): (r: map<string, string>)
    ensures r.Keys == errors.Keys + {field} && r[field] == ""
    ensures forall k :: k in errors && k != field ==> r[k] == errors[k]
  {
    errors[field := ""]
  }

  /** The delete request for a record, sent only once a form type is chosen. */
  function DeleteRequest(formType: Option<string>, itemId: Value): Option<Request> {
    if FormTypeChosen(formType) then Some(Delete(BackendUrl + "/" + formType.value + "/" + ToJsString(itemId)))
    else None
  }

  /** Nothing is deleted before a form type is chosen; after that, a record is
      deleted at the very address its update is PUT to, whatever the payload. */
  lemma DeleteTargetsUpdatedRecord(formType: Option<string>, itemId: Value, payload: Draft)
    ensures DeleteRequest(formType, itemId).None? <==> !FormTypeChosen(formType)
    ensures FormTypeChosen(formType) && Truthy(itemId) ==>
              && SaveRequest(formType.value, itemId, payload).Put?
              && DeleteRequest(formType, itemId) == Some(Delete(SaveRequest(formType.value, itemId, payload).url))
  {
  }

  // ---------------------------------------------------------------- the controller

  /** The page's state cells that the form handlers read and write. */
  class Controller {
    var formType: Option<string>
    var formData: Draft
    var errors: map<string, string>
    var editingItemId: Value
    var formError: Value
    var showForm: bool
    var activeComponent: Option<string>

    constructor ()
      ensures formType == None && formData == InitialFormData && errors == map[]
      ensures editingItemId == Null && formError == Str("") && !showForm && activeComponent == None
    {
      formType := None;
      formData := InitialFormData;
      errors := map[];
      editingItemId := Null;
      formError := Str("");
      showForm := false;
      activeComponent := None;
    }

    /** `handleChange(field, value, isNested, nestedField)`. */
    method HandleChange(field: string, value: Value, isNested: bool, nestedField: string)
      modifies this
      ensures formData == ChangeDraft(old(formData), field, value, isNested, nestedField)
      ensures errors == ErrorsAfterChange(old(errors), field)
      ensures formType == old(formType) && editingItemId == old(editingItemId)
      ensures formError == old(formError) && showForm == old(showForm) && activeComponent == old(activeComponent)
    {
      formData := ChangeDraft(formData, field, value, isNested, nestedField);
      errors := errors[field := ""];
    }

    /** `handleSubmit`, the request's answer given as `outcome`; returns the
        request sent, if any. */
    method HandleSubmit(outcome: Outcome) returns (request: Option<Request>)
      modifies this
      ensures var step := SubmitStep(old(formType), old(formData), old(editingItemId));
        && (request.Some? <==> step.Send?)
        && (step.Send? ==> request.value == step.request)
        && (step.NoFormType? ==> formError == Str(NoFormTypeMessage) && errors == old(errors))
        && (!step.NoFormType? ==> errors == if step.Invalid? then step.errors else map[])
        && (!step.NoFormType? && !step.Send? ==> formError == Str(""))
        && (step.Send? ==> formError == FormErrorAfter(outcome))
        && (step.Send? && outcome.Success? ==>
              formData == InitialFormData && editingItemId == Null && !showForm)
        && (!(step.Send? && outcome.Success?) ==>
              formData == old(formData) && editingItemId == old(editingItemId) && showForm == old(showForm))
      ensures formType == old(formType) && activeComponent == old(activeComponent)
    {
      ghost var step := SubmitStep(formType, formData, editingItemId);
      request := None;
      if !FormTypeChosen(formType) {
        formError := Str(NoFormTypeMessage);
        return;
      }
      formError := Str("");
      errors := map[];
      var ft := formType.value;
      var validation := ValidateForm(FieldsFor(ft), formData);
      if validation.Threw? {
        assert step == ValidationThrew;
        return;
      }
      if !validation.valid {
        assert step == Invalid(validation.errors);
        errors := validation.errors;
        return;
      }
      var cleaned := CleanData(formData, ft);
      if ft != "class" {
        var contact := Prop(cleaned, "contactDetails");
        if !Truthy(Get(contact, "email")) || !Truthy(Get(contact, "phone")) {
          assert step == MissingContact;
          return;
        }
      }
      assert step == Send(SaveRequest(ft, editingItemId, cleaned));
      request := Some(SaveRequest(ft, editingItemId, cleaned));
      Answer(outcome);
    }

    /** The part of `handleSubmit` after the request: a success resets the form
        and closes it, a failure sets `formError` and keeps the form. */
    method Answer(outcome: Outcome)
      modifies this
      ensures outcome.ServerError? && (outcome.data.Undef? || outcome.data.Null?) ==> formError == old(formError)
      ensures !(outcome.ServerError? && (outcome.data.Undef? || outcome.data.Null?)) ==> formError == FormErrorAfter(outcome)
      ensures outcome.Success? ==> formData == InitialFormData && editingItemId == Null && !showForm
      ensures !outcome.Success? ==> formData == old(formData) && editingItemId == old(editingItemId) && showForm == old(showForm)
      ensures formType == old(formType) && errors == old(errors) && activeComponent == old(activeComponent)
    {
      match outcome {
        case Success =>
          formData := InitialFormData;
          editingItemId := Null;
          formError := Str("");
          showForm := false;
        case ServerError(data) =>
          if !(data.Undef? || data.Null?) {
            var e := Get(data, "error");
            if e == Str("Email already exists") {
              formError := Str(DuplicateEmailMessage);
            } else {
              formError := Or(e, Str(GenericErrorMessage));
            }
          }
        case NoResponse =>
          formError := Str(NetworkErrorMessage);
      }
    }

    /** `handleEdit(item)`: shows the form, then loads the record's draft and
        remembers its id; where building the draft throws, only the form is shown. */
    method HandleEdit(item: Value)
      modifies this
      ensures showForm
      ensures EditDraft(item).Some? ==> formData == EditDraft(item).value && editingItemId == Get(item, "_id")
      ensures EditDraft(item).None? ==> formData == old(formData) && editingItemId == old(editingItemId)
      ensures formType == old(formType) && errors == old(errors)
      ensures formError == old(formError) && activeComponent == old(activeComponent)
    {
      showForm := true;
      var draft := EditDraft(item);
      if draft.Some? {
        formData := draft.value;
        editingItemId := Get(item, "_id");
      }
    }

    /** `handleDelete(itemId)`: the DELETE request once a form type is chosen. */
    method HandleDelete(itemId: Value) returns (request: Option<Request>)
      ensures request == DeleteRequest(formType, itemId)
      ensures request.Some? <==> FormTypeChosen(formType)
    {
      if !FormTypeChosen(formType) {
        return None;
      }
      request := Some(Delete(BackendUrl + "/" + formType.value + "/" + ToJsString(itemId)));
    }

    /** `handleFormTypeChange(type)`: the form type changes and the analytics
        panel closes; the draft, the errors and the edited id stay. */
    method HandleFormTypeChange(newType: string)
      modifies this
      ensures formType == Some(newType) && activeComponent == None
      ensures formData == old(formData) && errors == old(errors) && editingItemId == old(editingItemId)
      ensures formError == old(formError) && showForm == old(showForm)
    {
      formType := Some(newType);
      activeComponent := None;
    }

    /** `handleCreate`: shows the form and nothing else. */
    method HandleCreate()
      modifies this
      ensures showForm
      ensures formType == old(formType) && formData == old(formData) && errors == old(errors)
      ensures editingItemId == old(editingItemId) && formError == old(formError)
      ensures activeComponent == old(activeComponent)
    {
      showForm := true;
    }

    /** `handleClose`: hides the form and nothing else. */
    method HandleClose()
      modifies this
      ensures !showForm
      ensures formType == old(formType) && formData == old(formData) && errors == old(errors)
      ensures editingItemId == old(editingItemId) && formError == old(formError)
      ensures activeComponent == old(activeComponent)
    {
      showForm := false;
    }
  }

  // ---------------------------------------------------------------- scenarios

  /** Submitting before choosing a form type sends nothing and says so. */
  method SubmitWithoutFormType() returns (sent: Option<Request>, shown: Value)
    ensures sent.None? && shown == Str(NoFormTypeMessage)
  {
    var c := new Controller();
    sent := c.HandleSubmit(Success);
    shown := c.formError;
  }

  lemma InitialDraftPersonValues()
    ensures Prop(InitialFormData, "studentName") == Str("")
    ensures Prop(InitialFormData, "contactDetails") == EmptyContact
  {
  }

  /** A chosen form type whose validation fails stops with its errors. */
  lemma SubmitStepInvalid(formType: Option<string>, draft: Draft, editingItemId: Value)
    requires FormTypeChosen(formType)
    requires ValidationOf(FieldsFor(formType.value), draft).Checked?
    requires !ValidationOf(FieldsFor(formType.value), draft).valid
    ensures SubmitStep(formType, draft, editingItemId) == Invalid(ValidationOf(FieldsFor(formType.value), draft).errors)
  {
  }

  /** A form whose first field is an empty ordinary field, and whose fields can
      all be read, fails validation with that field required. */
  lemma FirstFieldRequired(fields: seq<Field>, draft: Draft)
    requires |fields| > 0 && !IsContactField(fields[0].name) && DistinctNames(fields)
    requires Prop(draft, fields[0].name) == Str("")
    requires forall i :: 0 <= i < |fields| ==> FieldValue(fields[i], draft).Some?
    ensures ValidationOf(fields, draft).Checked?
    ensures !ValidationOf(fields, draft).valid
    ensures fields[0].name in ValidationOf(fields, draft).errors
    ensures ValidationOf(fields, draft).errors[fields[0].name] == RequiredMessage(fields[0])
  {
    ValidationThrows(fields, draft);
    assert FailsAt(fields, draft, 0);
    ValidationMeaning(fields, draft);
    ValidationMessageOf(fields, draft, 0);
  }

  /** With contact details present every field can be read. */
  lemma FieldsReadable(fields: seq<Field>, draft: Draft)
    requires Prop(draft, "contactDetails").Obj?
    ensures forall i :: 0 <= i < |fields| ==> FieldValue(fields[i], draft).Some?
  {
  }

  /** A student draft with contact details and an empty name fails validation,
      the name reported as required. */
  lemma StudentNameRequired(draft: Draft)
    requires Prop(draft, "studentName") == Str("")
    requires Prop(draft, "contactDetails").Obj?
    ensures ValidationOf(StudentFields, draft).Checked?
    ensures !ValidationOf(StudentFields, draft).valid
    ensures "studentName" in ValidationOf(StudentFields, draft).errors
    ensures ValidationOf(StudentFields, draft).errors["studentName"] == "Student Name is required."
  {
    var fields := StudentFields;
    FieldListsWellFormed("student");
    FieldsReadable(fields, draft);
    FirstFieldRequired(fields, draft);
    StudentNameMessage();
  }

  lemma StudentNameMessage()
    ensures RequiredMessage(StudentFields[0]) == "Student Name is required."
  {
  }

  /** The untouched student form fails validation with the name required. */
  lemma EmptyStudentFormErrors()
    ensures ValidationOf(StudentFields, InitialFormData).Checked?
    ensures !ValidationOf(StudentFields, InitialFormData).valid
    ensures "studentName" in ValidationOf(StudentFields, InitialFormData).errors
    ensures ValidationOf(StudentFields, InitialFormData).errors["studentName"] == "Student Name is required."
  {
    InitialDraftPersonValues();
    StudentNameRequired(InitialFormData);
  }

  lemma EmptyStudentFormInvalid(editingItemId: Value)
    ensures SubmitStep(Some("student"), InitialFormData, editingItemId).Invalid?
    ensures "studentName" in SubmitStep(Some("student"), InitialFormData, editingItemId).errors
    ensures SubmitStep(Some("student"), InitialFormData, editingItemId).errors["studentName"] == "Student Name is required."
  {
    EmptyStudentFormErrors();
    SubmitStepInvalid(Some("student"), InitialFormData, editingItemId);
  }

  /** Submitting the untouched student form sends nothing and reports the
      missing name. */
  method SubmitEmptyStudentForm() returns (sent: Option<Request>, nameError: string)
    ensures sent.None? && nameError == "Student Name is required."
  {
    var c := new Controller();
    c.HandleFormTypeChange("student");
    EmptyStudentFormInvalid(Null);
    sent := c.HandleSubmit(Success);
    nameError := c.errors["studentName"];
  }

  /** Editing a record, closing the form and pressing Create keeps the edited
      record's draft and id, so the created form updates that record. */
  method CreateAfterEditScenario() returns (id: Value, showing: bool, draftKept: bool)
    ensures id == Str("s1") && showing && draftKept
  {
    var item := Obj(map["_id" := Str("s1"), "studentName" := Str("Asha")]);
    var c := new Controller();
    c.HandleFormTypeChange("student");
    assert EditDraft(item).Some?;
    c.HandleEdit(item);
    c.HandleClose();
    c.HandleCreate();
    id := c.editingItemId;
    showing := c.showForm;
    draftKept := c.formData == EditDraft(item).value;
  }

  /** Once a record is being edited, a submission that gets through is a PUT
      to that record. */
  lemma EditedRecordIsUpdated(formType: Option<string>, draft: Draft)
    requires SubmitStep(formType, draft, Str("s1")).Send?
    ensures SubmitStep(formType, draft, Str("s1")).request ==
              Put(BackendUrl + "/" + formType.value + "/s1", CleanData(draft, formType.value))
  {
  }
}
