/** Client-side validation of the record form (`validateForm` in the dashboard
    page) and the three field lists it is applied to. */
module FormValidation {
  import opened JsValues

  /** The part of a field descriptor that validation reads. */
  datatype Field = Field(name: string, caption: string)  // caption: the label shown and used in messages

  const ClassFields: seq<Field> := [
    Field("className", "Class Name"),
    Field("year", "Year"),
    Field("teacher", "Select Teacher"),
    Field("studentFees", "Student Fees"),
    Field("maxStudents", "Max Students")
  ]

  const StudentFields: seq<Field> := [
    Field("studentName", "Student Name"),
    Field("gender", "Gender"),
    Field("dob", "Date of Birth"),
    Field("email", "Email"),
    Field("phone", "Phone"),
    Field("feesPaid", "Fees Paid"),
    Field("class", "Select Class")
  ]

  const TeacherFields: seq<Field> := [
    Field("teacherName", "Teacher Name"),
    Field("gender", "Gender"),
    Field("dob", "Date of Birth"),
    Field("email", "Email"),
    Field("phone", "Phone"),
    Field("salary", "Salary"),
    Field("assignedClass", "Assigned Class ID")
  ]

  /** The field list a submission validates: class fields for 'class', teacher
      fields for 'teacher', student fields for every other form type. */
  function FieldsFor(formType: string): seq<Field> {
    if formType == "class" then ClassFields
    else if formType == "teacher" then TeacherFields
    else StudentFields
  }

  predicate DistinctNames(fields: seq<Field>) {
    forall i, j :: 0 <= i < j < |fields| ==> fields[i].name != fields[j].name
  }

  /** Every form type's field list names each field once, and only the person
      forms carry the two contact fields. */
  lemma FieldListsWellFormed(formType: string)
    ensures DistinctNames(FieldsFor(formType))
    ensures formType != "class" ==>
              Field("email", "Email") in FieldsFor(formType) && Field("phone", "Phone") in FieldsFor(formType)
    ensures formType == "class" ==> forall f :: f in FieldsFor(formType) ==> !IsContactField(f.name)
  {
    var fs := FieldsFor(formType);
    if formType != "class" {
      assert fs[3] == Field("email", "Email") && fs[4] == Field("phone", "Phone");
    }
  }

  /** Email and phone live in the nested contact details, not at the top level. */
  predicate IsContactField(name: string) {
    name == "email" || name == "phone"
  }

  // ---------------------------------------------------------------- the email pattern
  // The pattern is ^[\w-]+(\.[\w-]+)*@([\w-]+\.)+[a-zA-Z]{2,7}$ (no flags, so
  // \w is [A-Za-z0-9_] and $ anchors at the very end).

  predicate IsWordChar(c: char) {
    ('A' <= c <= 'Z') || ('a' <= c <= 'z') || ('0' <= c <= '9') || c == '_' || c == '-'
  }

  predicate IsAsciiLetter(c: char) {
    ('A' <= c <= 'Z') || ('a' <= c <= 'z')
  }

  /** Non-empty runs of word characters separated by single dots:
      `[\w-]+(\.[\w-]+)*`. */
  predicate DotSeparated(t: string) {
    && |t| > 0
    && t[0] != '.'
    && t[|t| - 1] != '.'
    && (forall k :: 0 <= k < |t| ==> IsWordChar(t[k]) || t[k] == '.')
    && (forall k :: 0 <= k < |t| - 1 ==> t[k] == '.' ==> t[k + 1] != '.')
  }

  /** The final label: `[a-zA-Z]{2,7}`. */
  predicate TopLevelLabel(t: string) {
    2 <= |t| <= 7 && forall k :: 0 <= k < |t| ==> IsAsciiLetter(t[k])
  }

  /** The pattern read off the regular expression: a local part, an `@`, one or
      more labels each followed by a dot, and a top-level label. */
  ghost predicate MatchesEmailPattern(s: string) {
    exists i, j ::
      && 0 <= i < j < |s|
      && s[i] == '@'
      && s[j] == '.'
      && DotSeparated(s[..i])
      && DotSeparated(s[i + 1..j])
      && TopLevelLabel(s[j + 1..])
  }

  /** The position of the first `c` in `s`, or `|s|` if there is none. */
  function IndexOf(s: string, c: char): (k: nat)
    ensures k <= |s|
    ensures k < |s| ==> s[k] == c
    ensures forall i :: 0 <= i < k ==> s[i] != c
  {
    if s == [] then 0
    else if s[0] == c then 0
    else 1 + IndexOf(s[1..], c)
  }

  /** The position of the last `c` in `s`, or -1 if there is none. */
  function LastIndexOf(s: string, c: char): (k: int)
    ensures -1 <= k < |s|
    ensures k >= 0 ==> s[k] == c
    ensures forall i :: k < i < |s| ==> s[i] != c
  {
    if s == [] then -1
    else if s[|s| - 1] == c then |s| - 1
    else LastIndexOf(s[..|s| - 1], c)
  }

  /** The email check as a decision: split at the first `@`, and split the
      domain at its last dot. */
  predicate IsValidEmail(s: string) {
    var at := IndexOf(s, '@');
    && at < |s|
    && DotSeparated(s[..at])
    && var d := s[at + 1..];
       var dot := LastIndexOf(d, '.');
       && dot >= 0
       && DotSeparated(d[..dot])
       && TopLevelLabel(d[dot + 1..])
  }

  lemma IndexOfAt(s: string, c: char, i: nat)
    requires i < |s| && s[i] == c
    requires forall k :: 0 <= k < i ==> s[k] != c
    ensures IndexOf(s, c) == i
  {
  }

  lemma LastIndexOfAt(s: string, c: char, i: nat)
    requires i < |s| && s[i] == c
    requires forall k :: i < k < |s| ==> s[k] != c
    ensures LastIndexOf(s, c) == i
  {
  }

  /** A string the decision accepts matches the pattern. */
  lemma EmailDecisionSound(s: string)
    requires IsValidEmail(s)
    ensures MatchesEmailPattern(s)
  {
    var at := IndexOf(s, '@');
    var d := s[at + 1..];
    var dot := LastIndexOf(d, '.');
    var j := at + 1 + dot;
    assert s[at + 1..j] == d[..dot];
    assert s[j + 1..] == d[dot + 1..];
    assert s[j] == '.';
  }

  /** A string matching the pattern is accepted by the decision: the local part
      holds no `@`, and the top-level label no dot. */
  lemma EmailDecisionComplete(s: string, i: nat, j: nat)
    requires 0 <= i < j < |s| && s[i] == '@' && s[j] == '.'
    requires DotSeparated(s[..i]) && DotSeparated(s[i + 1..j]) && TopLevelLabel(s[j + 1..])
    ensures IsValidEmail(s)
  {
    var local := s[..i];
    forall k | 0 <= k < i ensures s[k] != '@' {
      assert s[k] == local[k];
    }
    IndexOfAt(s, '@', i);
    var d := s[i + 1..];
    var dot := j - i - 1;
    var top := s[j + 1..];
    forall k | dot < k < |d| ensures d[k] != '.' {
      assert d[k] == top[k - dot - 1];
    }
    LastIndexOfAt(d, '.', dot);
    assert d[..dot] == s[i + 1..j];
    assert d[dot + 1..] == top;
  }

  /** The decision agrees with the regular expression on every string. */
  lemma EmailDecisionMatchesPattern(s: string)
    ensures IsValidEmail(s) <==> MatchesEmailPattern(s)
  {
    if IsValidEmail(s) {
      EmailDecisionSound(s);
    }
    if MatchesEmailPattern(s) {
      var i, j :| && 0 <= i < j < |s| && s[i] == '@' && s[j] == '.'
                  && DotSeparated(s[..i]) && DotSeparated(s[i + 1..j]) && TopLevelLabel(s[j + 1..]);
      EmailDecisionComplete(s, i, j);
    }
  }

  /** The phone check `^\d{10}$`: exactly ten decimal digits. */
  predicate IsValidPhone(s: string) {
    |s| == 10 && forall i :: 0 <= i < |s| ==> IsDigit(s[i])
  }

  // ---------------------------------------------------------------- per-field rule

  const InvalidEmailMessage: string := "Please enter a valid email."
  const InvalidPhoneMessage: string := "Please enter a valid phone number."

  function RequiredMessage(f: Field): string {
    f.caption + " is required."
  }

  /** The value a field is checked against: email and phone are read from the
      draft's contact details, which must then be an object or a primitive
      (reading a property of undefined or null throws, giving None). */
  function FieldValue(f: Field, draft: map<string, Value>): Option<Value> {
    if IsContactField(f.name) then
      var contact := Prop(draft, "contactDetails");
      if contact.Undef? || contact.Null? then None else Some(Get(contact, f.name))
    else Some(Prop(draft, f.name))
  }

  /** The message a field's value earns, if any. */
  function FieldError(f: Field, v: Value): Option<string> {
    if IsContactField(f.name) then
      if !Truthy(v) then Some(RequiredMessage(f))
      else if f.name == "email" && !IsValidEmail(ToJsString(v)) then Some(InvalidEmailMessage)
      else if f.name == "phone" && !IsValidPhone(ToJsString(v)) then Some(InvalidPhoneMessage)
      else None
    else if v == Undef || v == Null || v == Str("") then Some(RequiredMessage(f))
    else None
  }

  /** Ordinary fields are only checked for presence: undefined, null and ''
      are rejected with "<label> is required.", while false and 0 pass. */
  lemma PresenceRule(f: Field, v: Value)
    requires !IsContactField(f.name)
    ensures FieldError(f, v).Some? <==> v == Undef || v == Null || v == Str("")
    ensures FieldError(f, v).Some? ==> FieldError(f, v).value == f.caption + " is required."
    ensures FieldError(f, Bool(false)).None? && FieldError(f, Num(0)).None?
  {
  }

  /** The contact fields: an empty value is required, a present email must
      match the pattern, a present phone must be ten digits. */
  lemma ContactRule(f: Field, v: Value)
    requires IsContactField(f.name)
    ensures !Truthy(v) ==> FieldError(f, v) == Some(f.caption + " is required.")
    ensures Truthy(v) && f.name == "email" ==>
              (FieldError(f, v) == Some(InvalidEmailMessage) <==> !MatchesEmailPattern(ToJsString(v)))
    ensures Truthy(v) && f.name == "email" ==> FieldError(f, v).None? == MatchesEmailPattern(ToJsString(v))
    ensures Truthy(v) && f.name == "phone" ==>
              (FieldError(f, v) == Some(InvalidPhoneMessage) <==> !IsValidPhone(ToJsString(v)))
    ensures Truthy(v) && f.name == "phone" ==> FieldError(f, v).None? == IsValidPhone(ToJsString(v))
  {
    EmailDecisionMatchesPattern(ToJsString(v));
  }

  /** Every message is non-empty. */
  lemma MessagesNonEmpty(f: Field, v: Value)
    requires FieldError(f, v).Some?
    ensures FieldError(f, v).value != ""
  {
    assert |RequiredMessage(f)| >= |" is required."|;
  }

  // ---------------------------------------------------------------- the whole form

  /** The outcome of `validateForm`: it threw, or it produced `{valid, errors}`. */
  datatype Validation = Threw | Checked(valid: bool, errors: map<string, string>)

  /** Validation of the fields in order: each failing field writes its message
      under its name, a later field overwriting an earlier one of the same name. */
  function ValidationOf(fields: seq<Field>, draft: map<string, Value>): Validation {
    if fields == [] then Checked(true, map[])
    else
      match ValidationOf(fields[..|fields| - 1], draft)
      case Threw => Threw
      case Checked(valid, errors) =>
        var f := fields[|fields| - 1];
        match FieldValue(f, draft)
        case None => Threw
        case Some(v) =>
          match FieldError(f, v)
          case None => Checked(valid, errors)
          case Some(m) => Checked(false, errors[f.name := m])
  }

  /** A field that fails, given by its position. */
  ghost predicate FailsAt(fields: seq<Field>, draft: map<string, Value>, i: int) {
    0 <= i < |fields| && FieldValue(fields[i], draft).Some? && FieldError(fields[i], FieldValue(fields[i], draft).value).Some?
  }

  /** Validation throws exactly when a contact field is validated while the
      draft has no contact details. */
  lemma {:induction false} ValidationThrows(fields: seq<Field>, draft: map<string, Value>)
    ensures ValidationOf(fields, draft).Threw? <==> exists i :: 0 <= i < |fields| && FieldValue(fields[i], draft).None?
  {
    if fields != [] {
      var p := fields[..|fields| - 1];
      ValidationThrows(p, draft);
      assert forall i :: 0 <= i < |p| ==> p[i] == fields[i];
    }
  }

  /** What `{valid, errors}` means: `valid` is false exactly when an entry was
      written; an entry is written for a name exactly when a field of that name
      fails; every entry is a non-empty message. */
  lemma ValidationMeaning(fields: seq<Field>, draft: map<string, Value>)
    requires ValidationOf(fields, draft).Checked?
    ensures ValidationOf(fields, draft).valid <==> ValidationOf(fields, draft).errors == map[]
    ensures forall k :: k in ValidationOf(fields, draft).errors <==>
              exists i :: FailsAt(fields, draft, i) && fields[i].name == k
    ensures forall k :: k in ValidationOf(fields, draft).errors ==> ValidationOf(fields, draft).errors[k] != ""
  {
    ValidationValid(fields, draft);
    ValidationErrorKeys(fields, draft);
    ValidationMessagesNonEmpty(fields, draft);
  }

  lemma {:induction false} ValidationValid(fields: seq<Field>, draft: map<string, Value>)
    requires ValidationOf(fields, draft).Checked?
    ensures ValidationOf(fields, draft).valid <==> ValidationOf(fields, draft).errors == map[]
  {
    if fields != [] {
      var f := fields[|fields| - 1];
      ValidationValid(fields[..|fields| - 1], draft);
      var r := ValidationOf(fields, draft);
      if FieldError(f, FieldValue(f, draft).value).Some? {
        assert f.name in r.errors;
      }
    }
  }

  lemma {:induction false} ValidationErrorKeys(fields: seq<Field>, draft: map<string, Value>)
    requires ValidationOf(fields, draft).Checked?
    ensures forall k :: k in ValidationOf(fields, draft).errors <==>
              exists i :: FailsAt(fields, draft, i) && fields[i].name == k
  {
    if fields != [] {
      var p := fields[..|fields| - 1];
      ValidationErrorKeys(p, draft);
      assert forall i :: 0 <= i < |p| ==> p[i] == fields[i];
      assert forall i :: FailsAt(fields, draft, i) && i < |p| <==> FailsAt(p, draft, i);
      var f := fields[|fields| - 1];
      var prev := ValidationOf(p, draft).errors;
      var errors := ValidationOf(fields, draft).errors;
      if FieldError(f, FieldValue(f, draft).value).Some? {
        assert FailsAt(fields, draft, |fields| - 1);
        assert errors.Keys == prev.Keys + {f.name};
      } else {
        assert !FailsAt(fields, draft, |fields| - 1);
        assert errors == prev;
      }
    }
  }

  lemma {:induction false} ValidationMessagesNonEmpty(fields: seq<Field>, draft: map<string, Value>)
    requires ValidationOf(fields, draft).Checked?
    ensures forall k :: k in ValidationOf(fields, draft).errors ==> ValidationOf(fields, draft).errors[k] != ""
  {
    if fields != [] {
      var f := fields[|fields| - 1];
      ValidationMessagesNonEmpty(fields[..|fields| - 1], draft);
      var v := FieldValue(f, draft).value;
      if FieldError(f, v).Some? {
        MessagesNonEmpty(f, v);
      }
    }
  }

  /** When the field names are distinct, the entry under a failing field's name
      is that field's own message. */
  lemma {:induction false} ValidationMessageOf(fields: seq<Field>, draft: map<string, Value>, i: nat)
    requires ValidationOf(fields, draft).Checked? && DistinctNames(fields)
    requires FailsAt(fields, draft, i)
    ensures fields[i].name in ValidationOf(fields, draft).errors
    ensures ValidationOf(fields, draft).errors[fields[i].name] == FieldError(fields[i], FieldValue(fields[i], draft).value).value
  {
    var p := fields[..|fields| - 1];
    assert forall k :: 0 <= k < |p| ==> p[k] == fields[k];
    if i < |p| {
      ValidationMessageOf(p, draft, i);
    }
  }

  /** `validateForm`: walks the fields once, clearing `valid` and recording a
      message for every field that fails. */
  method ValidateForm(fields: seq<Field>, draft: map<string, Value>) returns (result: Validation)
    ensures result == ValidationOf(fields, draft)
    ensures result.Checked? ==> (result.valid <==> result.errors == map[])
  {
    var valid := true;
    var errors: map<string, string> := map[];
    var i := 0;
    while i < |fields|
      invariant 0 <= i <= |fields|
      invariant ValidationOf(fields[..i], draft) == Checked(valid, errors)
      invariant valid <==> errors == map[]
    {
      var field := fields[i];
      assert fields[..i + 1][..i] == fields[..i];
      var value := FieldValue(field, draft);
      if value.None? {
        ValidationThrows(fields, draft);
        return Threw;
      }
      var message := FieldError(field, value.value);
      if message.Some? {
        valid := false;
        errors := errors[field.name := message.value];
        assert field.name in errors;
      }
      i := i + 1;
    }
    assert fields[..i] == fields;
    result := Checked(valid, errors);
  }

  // ---------------------------------------------------------------- examples

  /** Without a dot after the `@` there is no top-level label. */
  lemma EmailExampleNoTopLevel()
    ensures !IsValidEmail("foo@bar")
  {
    IndexOfAt("foo@bar", '@', 3);
    assert "foo@bar"[4..] == "bar";
  }

  /** An empty local part is rejected. */
  lemma EmailExampleNoLocalPart()
    ensures !IsValidEmail("@bar.com")
  {
    IndexOfAt("@bar.com", '@', 0);
  }

  lemma {:induction false} IndexOfAbsent(s: string, c: char)
    requires forall k :: 0 <= k < |s| ==> s[k] != c
    ensures IndexOf(s, c) == |s|
  {
    if s != [] {
      IndexOfAbsent(s[1..], c);
    }
  }

  /** A string without `@` is rejected. */
  lemma EmailExampleNoAt()
    ensures !IsValidEmail("foo.bar.com")
  {
    var s := "foo.bar.com";
    assert forall k :: 0 <= k < |s| ==> s[k] in "fobar.cm";
    IndexOfAbsent(s, '@');
  }

  lemma LocalPartExample()
    ensures DotSeparated("a.b-c")
  {
    var t := "a.b-c";
    assert t[0] == 'a' && t[1] == '.' && t[2] == 'b' && t[3] == '-' && t[4] == 'c';
  }

  lemma DomainLabelsExample()
    ensures DotSeparated("sub.example")
  {
    var t := "sub.example";
    assert forall k :: 0 <= k < |t| && k != 3 ==> IsWordChar(t[k]);
  }

  /** A slice equals `t` once it agrees with `t` character by character. */
  lemma SliceIs(s: string, i: nat, t: string)
    requires i + |t| <= |s|
    requires forall k :: 0 <= k < |t| ==> s[i + k] == t[k]
    ensures s[i..i + |t|] == t
  {
  }

  /** A dotted local part with a dash and a two-label domain is accepted. */
  lemma EmailExampleAccepted()
    ensures IsValidEmail("a.b-c@sub.example.co")
  {
    var s := "a.b-c@sub.example.co";
    SliceIs(s, 0, "a.b-c");
    LocalPartExample();
    SliceIs(s, 6, "sub.example");
    DomainLabelsExample();
    assert s[18..] == "co";
    assert TopLevelLabel("co");
    EmailDecisionComplete(s, 5, 17);
  }

  /** The phone examples: ten digits pass; too short, too long or with dashes fail. */
  lemma PhoneExamples()
    ensures IsValidPhone("9876543210")
    ensures !IsValidPhone("98765")
    ensures !IsValidPhone("98765432100")
    ensures !IsValidPhone("987-654-3210")
  {
  }
}
