/** The draft behind the dashboard's record form and what is built from it:
    the initial draft, the `handleChange` updater, the payload `cleanData`
    sends to the backend, and the draft `handleEdit` builds from a listed record. */
module Records {
  import opened JsValues

  /** The draft is an object; it is modelled by its property map. */
  type Draft = map<string, Value>

  const EmptyContact: Value := Obj(map["email" := Str(""), "phone" := Str("")])

  /** `initialFormData`: every field empty, fees not paid. */
  const InitialFormData: Draft := map[
    "className" := Str(""),
    "year" := Str(""),
    "teacher" := Str(""),
    "studentFees" := Str(""),
    "maxStudents" := Str(""),
    "studentName" := Str(""),
    "gender" := Str(""),
    "dob" := Str(""),
    "contactDetails" := EmptyContact,
    "feesPaid" := Bool(false),
    "class" := Str(""),
    "teacherName" := Str(""),
    "salary" := Str(""),
    "assignedClass" := Str("")
  ]

  // ---------------------------------------------------------------- handleChange

  /** The updater `handleChange` hands to `setFormData`: a nested change
      spreads the value held under `field` into a new object and sets one
      property of it, any other change replaces `field` itself. */
  function ChangeDraft(prev: Draft, field: string, value: Value, isNested: bool, nestedField: string): Draft {
    if isNested && nestedField != "" then
      prev[field := Obj(Spread(Prop(prev, field))[nestedField := value])]
    else
      prev[field := value]
  }

  /** A change touches only `field`: a plain change stores the value there, a
      nested change stores it under `nestedField` in a fresh object holding
      every other property that spreading the old value copies. */
  lemma ChangeDraftFrame(prev: Draft, field: string, value: Value, isNested: bool, nestedField: string)
    ensures var next := ChangeDraft(prev, field, value, isNested, nestedField);
      && next.Keys == prev.Keys + {field}
      && (forall k :: k != field ==> Prop(next, k) == Prop(prev, k))
      && (!(isNested && nestedField != "") ==> next[field] == value)
      && (isNested && nestedField != "" ==>
            && next[field].Obj?
            && Get(next[field], nestedField) == value
            && next[field].props.Keys == Spread(Prop(prev, field)).Keys + {nestedField}
            && forall k :: k != nestedField ==> Get(next[field], k) == Prop(Spread(Prop(prev, field)), k))
  {
  }

  /** A nested change on a property holding a string keeps the string's
      characters as index properties beside the new one. */
  lemma NestedChangeOnString()
    ensures ChangeDraft(map["contactDetails" := Str("ab")], "contactDetails", Str("x"), true, "email")["contactDetails"]
              == Obj(map["0" := Str("a"), "1" := Str("b"), "email" := Str("x")])
  {
    var xs := [Str("a"), Str("b")];
    assert Chars("ab") == xs;
    assert xs[..1] == [Str("a")] && [Str("a")][..0] == [];
    assert NatToString(0) == "0" && NatToString(1) == "1";
    assert IndexProps([Str("a")]) == map["0" := Str("a")];
    assert Spread(Str("ab")) == map["0" := Str("a"), "1" := Str("b")];
  }

  // ---------------------------------------------------------------- cleanData

  const ClassPayloadKeys: set<string> :=
    {"className", "year", "teacher", "teacherName", "studentFees", "maxStudents", "students"}

  const PersonPayloadKeys: set<string> :=
    {"studentName", "class", "dob", "email", "phone", "gender", "feesPaid",
     "contactDetails", "teacherName", "salary", "assignedClass"}

  /** A class payload: the object literal `cleanData` returns for 'class'. */
  function ClassPayload(className: Value, year: Value, teacher: Value, teacherName: Value,
                        studentFees: Value, maxStudents: Value, students: Value): Draft {
    map[
      "className" := className,
      "year" := year,
      "teacher" := teacher,
      "teacherName" := teacherName,
      "studentFees" := studentFees,
      "maxStudents" := maxStudents,
      "students" := students
    ]
  }

  /** A person payload: the object literal `cleanData` returns for the other
      form types, the contact details repeated at the top level. */
  function PersonPayload(studentName: Value, cls: Value, dob: Value, email: Value, phone: Value,
                         gender: Value, feesPaid: Value, teacherName: Value, salary: Value,
                         assignedClass: Value): Draft {
    map[
      "studentName" := studentName,
      "class" := cls,
      "dob" := dob,
      "email" := email,
      "phone" := phone,
      "gender" := gender,
      "feesPaid" := feesPaid,
      "contactDetails" := Obj(map["email" := email, "phone" := phone]),
      "teacherName" := teacherName,
      "salary" := salary,
      "assignedClass" := assignedClass
    ]
  }

  /** `cleanData(data, formType)`: the payload the backend expects, a class
      record for 'class' and the shared person record otherwise. */
  function CleanData(data: Draft, formType: string): Draft {
    if formType == "class" then
      ClassPayload(Prop(data, "className"), Prop(data, "year"), Prop(data, "teacher"),
                   Prop(data, "teacherName"), Prop(data, "studentFees"), Prop(data, "maxStudents"),
                   Or(Prop(data, "students"), Arr([])))
    else
      var contact := Prop(data, "contactDetails");
      PersonPayload(Or(Prop(data, "studentName"), Str("")),
                    Or(Or(Prop(data, "class"), Prop(data, "class")), Str("")),
                    Or(Prop(data, "dob"), Null),
                    Or(Get(contact, "email"), Str("")),
                    Or(Get(contact, "phone"), Str("")),
                    Or(Prop(data, "gender"), Str("")),
                    Or(Prop(data, "feesPaid"), Bool(false)),
                    Or(Prop(data, "teacherName"), Str("")),
                    Or(Prop(data, "salary"), Str("")),
                    Str(ToJsString(Or(Prop(data, "assignedClass"), Str("")))))
  }

  /** A class payload has exactly the seven class keys; the six scalar ones are
      copied from the draft and `students` is `[]` when the draft's is falsy and
      the draft's own list otherwise. */
  lemma CleanClassPayload(data: Draft)
    ensures var r := CleanData(data, "class");
      && r.Keys == ClassPayloadKeys
      && (forall k :: k in ClassPayloadKeys && k != "students" ==> r[k] == Prop(data, k))
      && (Truthy(Prop(data, "students")) ==> r["students"] == Prop(data, "students"))
      && (!Truthy(Prop(data, "students")) ==> r["students"] == Arr([]))
  {
  }

  lemma CleanPersonKeys(data: Draft, formType: string)
    requires formType != "class"
    ensures CleanData(data, formType).Keys == PersonPayloadKeys
  {
    var contact := Prop(data, "contactDetails");
    PersonPayloadDomain(Or(Prop(data, "studentName"), Str("")),
                        Or(Or(Prop(data, "class"), Prop(data, "class")), Str("")),
                        Or(Prop(data, "dob"), Null),
                        Or(Get(contact, "email"), Str("")),
                        Or(Get(contact, "phone"), Str("")),
                        Or(Prop(data, "gender"), Str("")),
                        Or(Prop(data, "feesPaid"), Bool(false)),
                        Or(Prop(data, "teacherName"), Str("")),
                        Or(Prop(data, "salary"), Str("")),
                        Str(ToJsString(Or(Prop(data, "assignedClass"), Str("")))));
  }

  lemma PersonPayloadDomain(studentName: Value, cls: Value, dob: Value, email: Value, phone: Value,
                            gender: Value, feesPaid: Value, teacherName: Value, salary: Value,
                            assignedClass: Value)
    ensures PersonPayload(studentName, cls, dob, email, phone, gender, feesPaid, teacherName, salary,
                          assignedClass).Keys == PersonPayloadKeys
  {
    var r := PersonPayload(studentName, cls, dob, email, phone, gender, feesPaid, teacherName, salary,
                           assignedClass);
    PersonPayloadKeysWithin(studentName, cls, dob, email, phone, gender, feesPaid, teacherName, salary,
                            assignedClass);
    PersonPayloadKeysCover(studentName, cls, dob, email, phone, gender, feesPaid, teacherName, salary,
                           assignedClass);
    SameKeys(r, PersonPayloadKeys);
  }

  lemma PersonPayloadKeysWithin(studentName: Value, cls: Value, dob: Value, email: Value, phone: Value,
                                gender: Value, feesPaid: Value, teacherName: Value, salary: Value,
                                assignedClass: Value)
    ensures forall k ::
              (k in PersonPayload(studentName, cls, dob, email, phone, gender, feesPaid, teacherName, salary,
                                  assignedClass))
              ==> k in PersonPayloadKeys
  {
  }

  lemma PersonPayloadKeysCover(studentName: Value, cls: Value, dob: Value, email: Value, phone: Value,
                                gender: Value, feesPaid: Value, teacherName: Value, salary: Value,
                                assignedClass: Value)
    ensures forall k :: k in PersonPayloadKeys ==>
              k in PersonPayload(studentName, cls, dob, email, phone, gender, feesPaid, teacherName, salary,
                                 assignedClass)
  {
  }

  /** A map whose keys are, one by one, the members of `ks` has `ks` as its key set. */
  lemma SameKeys(m: Draft, ks: set<string>)
    requires forall k :: k in m ==> k in ks
    requires forall k :: k in ks ==> k in m
    ensures m.Keys == ks
  {
  }

  lemma CleanPersonDefined(data: Draft, formType: string)
    requires formType != "class"
    ensures forall k :: k in CleanData(data, formType) ==> CleanData(data, formType)[k] != Undef
  {
  }

  lemma CleanPersonContact(data: Draft, formType: string)
    requires formType != "class"
    ensures var r := CleanData(data, formType);
      && r["email"] == Get(r["contactDetails"], "email")
      && r["phone"] == Get(r["contactDetails"], "phone")
      && (Truthy(r["email"]) <==> Truthy(Get(Prop(data, "contactDetails"), "email")))
      && (Truthy(r["phone"]) <==> Truthy(Get(Prop(data, "contactDetails"), "phone")))
      && r["assignedClass"].Str?
  {
  }

  /** Each person field of the payload is the draft's value, or its default
      when the draft's is falsy: '' for the texts, null for `dob`, false for
      `feesPaid`; `assignedClass` is that value as a string. */
  lemma CleanPersonFields(data: Draft, formType: string)
    requires formType != "class"
    ensures var r := CleanData(data, formType);
      var contact := Prop(data, "contactDetails");
      && r["studentName"] == Or(Prop(data, "studentName"), Str(""))
      && r["class"] == Or(Prop(data, "class"), Str(""))
      && r["dob"] == Or(Prop(data, "dob"), Null)
      && r["gender"] == Or(Prop(data, "gender"), Str(""))
      && r["feesPaid"] == Or(Prop(data, "feesPaid"), Bool(false))
      && r["teacherName"] == Or(Prop(data, "teacherName"), Str(""))
      && r["salary"] == Or(Prop(data, "salary"), Str(""))
      && r["email"] == Or(Get(contact, "email"), Str(""))
      && r["phone"] == Or(Get(contact, "phone"), Str(""))
      && r["assignedClass"] == Str(ToJsString(Or(Prop(data, "assignedClass"), Str(""))))
  {
    var contact := Prop(data, "contactDetails");
    var studentName := Or(Prop(data, "studentName"), Str(""));
    var cls := Or(Or(Prop(data, "class"), Prop(data, "class")), Str(""));
    var dob := Or(Prop(data, "dob"), Null);
    var email := Or(Get(contact, "email"), Str(""));
    var phone := Or(Get(contact, "phone"), Str(""));
    var gender := Or(Prop(data, "gender"), Str(""));
    var feesPaid := Or(Prop(data, "feesPaid"), Bool(false));
    var teacherName := Or(Prop(data, "teacherName"), Str(""));
    var salary := Or(Prop(data, "salary"), Str(""));
    var assignedClass := Str(ToJsString(Or(Prop(data, "assignedClass"), Str(""))));
    assert CleanData(data, formType) ==
             PersonPayload(studentName, cls, dob, email, phone, gender, feesPaid, teacherName, salary, assignedClass);
    PersonPayloadNames(studentName, cls, dob, email, phone, gender, feesPaid, teacherName, salary, assignedClass);
    PersonPayloadRest(studentName, cls, dob, email, phone, gender, feesPaid, teacherName, salary, assignedClass);
    assert Or(Prop(data, "class"), Prop(data, "class")) == Prop(data, "class");
  }

  /** A person payload is total: it has exactly the person keys and none of them
      is undefined; every field carries the draft's value or its default; the
      top-level email and phone equal those in the nested contact details,
      which come from the draft's; `assignedClass` is a string. */
  lemma CleanPersonPayload(data: Draft, formType: string)
    requires formType != "class"
    ensures var r := CleanData(data, formType);
      && r.Keys == PersonPayloadKeys
      && (forall k :: k in r ==> r[k] != Undef)
      && r["email"] == Get(r["contactDetails"], "email")
      && r["phone"] == Get(r["contactDetails"], "phone")
      && (Truthy(r["email"]) <==> Truthy(Get(Prop(data, "contactDetails"), "email")))
      && (Truthy(r["phone"]) <==> Truthy(Get(Prop(data, "contactDetails"), "phone")))
      && r["assignedClass"].Str?
    ensures var r := CleanData(data, formType);
      var contact := Prop(data, "contactDetails");
      && r["studentName"] == Or(Prop(data, "studentName"), Str(""))
      && r["class"] == Or(Prop(data, "class"), Str(""))
      && r["dob"] == Or(Prop(data, "dob"), Null)
      && r["gender"] == Or(Prop(data, "gender"), Str(""))
      && r["feesPaid"] == Or(Prop(data, "feesPaid"), Bool(false))
      && r["teacherName"] == Or(Prop(data, "teacherName"), Str(""))
      && r["salary"] == Or(Prop(data, "salary"), Str(""))
      && r["email"] == Or(Get(contact, "email"), Str(""))
      && r["phone"] == Or(Get(contact, "phone"), Str(""))
      && r["assignedClass"] == Str(ToJsString(Or(Prop(data, "assignedClass"), Str(""))))
  {
    CleanPersonKeys(data, formType);
    CleanPersonDefined(data, formType);
    CleanPersonContact(data, formType);
    CleanPersonFields(data, formType);
  }

  lemma PersonPayloadNames(studentName: Value, cls: Value, dob: Value, email: Value, phone: Value,
                            gender: Value, feesPaid: Value, teacherName: Value, salary: Value,
                            assignedClass: Value)
    ensures var r := PersonPayload(studentName, cls, dob, email, phone, gender, feesPaid, teacherName, salary, assignedClass);
      && Prop(r, "studentName") == studentName && Prop(r, "class") == cls && Prop(r, "dob") == dob
      && Prop(r, "gender") == gender && Prop(r, "feesPaid") == feesPaid
  {
  }

  lemma PersonPayloadRest(studentName: Value, cls: Value, dob: Value, email: Value, phone: Value,
                          gender: Value, feesPaid: Value, teacherName: Value, salary: Value,
                          assignedClass: Value)
    ensures var r := PersonPayload(studentName, cls, dob, email, phone, gender, feesPaid, teacherName, salary, assignedClass);
      && Prop(r, "teacherName") == teacherName && Prop(r, "salary") == salary
      && Prop(r, "assignedClass") == assignedClass
      && Get(Prop(r, "contactDetails"), "email") == email
      && Get(Prop(r, "contactDetails"), "phone") == phone
  {
  }

  /** `x || d` is already settled: applying it twice changes nothing. */
  lemma OrIdempotent(x: Value, d: Value)
    ensures Or(Or(x, d), d) == Or(x, d)
  {
  }

  /** Cleaning an already cleaned payload changes nothing. */
  lemma CleanDataIdempotent(data: Draft, formType: string)
    ensures CleanData(CleanData(data, formType), formType) == CleanData(data, formType)
  {
    var r := CleanData(data, formType);
    if formType == "class" {
      CleanClassPayload(data);
    } else {
      var contact := Prop(data, "contactDetails");
      var studentName := Or(Prop(data, "studentName"), Str(""));
      var cls := Or(Or(Prop(data, "class"), Prop(data, "class")), Str(""));
      var dob := Or(Prop(data, "dob"), Null);
      var email := Or(Get(contact, "email"), Str(""));
      var phone := Or(Get(contact, "phone"), Str(""));
      var gender := Or(Prop(data, "gender"), Str(""));
      var feesPaid := Or(Prop(data, "feesPaid"), Bool(false));
      var teacherName := Or(Prop(data, "teacherName"), Str(""));
      var salary := Or(Prop(data, "salary"), Str(""));
      var assignedClass := Str(ToJsString(Or(Prop(data, "assignedClass"), Str(""))));
      assert r == PersonPayload(studentName, cls, dob, email, phone, gender, feesPaid, teacherName, salary, assignedClass);
      PersonPayloadNames(studentName, cls, dob, email, phone, gender, feesPaid, teacherName, salary, assignedClass);
      PersonPayloadRest(studentName, cls, dob, email, phone, gender, feesPaid, teacherName, salary, assignedClass);
      assert Or(assignedClass, Str("")) == assignedClass;
    }
  }

  // ---------------------------------------------------------------- handleEdit

  /** `v.slice(0, 10)`: the first ten characters of a string or elements of an
      array; any other value has no `slice` and the call throws (None). */
  function SliceTen(v: Value): Option<Value> {
    match v
    case Str(s) => Some(Str(if |s| <= 10 then s else s[..10]))
    case Arr(xs) => Some(Arr(if |xs| <= 10 then xs else xs[..10]))
    case _ => None
  }

  const EditDraftKeys: set<string> :=
    {"className", "year", "teacher", "studentFees", "maxStudents", "students",
     "studentName", "gender", "dob", "contactDetails", "feesPaid", "class",
     "teacherName", "salary", "assignedClass"}

  /** The record counts as a class exactly when its `class` property is truthy. */
  predicate LooksLikeClass(item: Value) {
    Truthy(Get(item, "class"))
  }

  /** The draft `handleEdit` builds from a listed record, or None where
      building it throws (the record is undefined or null, or a person record's
      truthy `dob` has no `slice`). */
  function EditDraft(item: Value): Option<Draft> {
    if item.Undef? || item.Null? then None
    else
      var isClass := LooksLikeClass(item);
      var dob :=
        if isClass then Some(Str(""))
        else if Truthy(Get(item, "dob")) then SliceTen(Get(item, "dob"))
        else Some(Str(""));
      if dob.None? then None
      else
        var contact := Get(item, "contactDetails");
        Some(EditForm(
          if isClass then Or(Get(item, "class"), Str("")) else Str(""),
          if isClass then Or(Get(item, "year"), Str("")) else Str(""),
          if isClass then Or(Get(item, "teacher"), Str("")) else Str(""),
          if isClass then Or(Get(item, "studentFees"), Str("")) else Str(""),
          if isClass then Or(Get(item, "maxStudents"), Str("")) else Str(""),
          if isClass then Or(Get(item, "students"), Arr([])) else Arr([]),
          if !isClass then Or(Get(item, "studentName"), Str("")) else Str(""),
          if !isClass then Or(Get(item, "gender"), Str("")) else Str(""),
          dob.value,
          if !isClass then
            Obj(map["email" := Or(Get(contact, "email"), Str("")), "phone" := Or(Get(contact, "phone"), Str(""))])
          else Obj(map[]),
          if !isClass then Or(Get(item, "feesPaid"), Bool(true)) else Bool(true),
          if !isClass then Or(Get(item, "class"), Str("")) else Str(""),
          if !isClass then Or(Get(item, "teacherName"), Str("")) else Str(""),
          if !isClass then Or(Get(item, "salary"), Str("")) else Str(""),
          if !isClass then Or(Get(item, "assignedClass"), Str("")) else Str("")))
  }

  /** The object literal `handleEdit` hands to `setFormData`. */
  function EditForm(className: Value, year: Value, teacher: Value, studentFees: Value, maxStudents: Value,
                    students: Value, studentName: Value, gender: Value, dob: Value, contactDetails: Value,
                    feesPaid: Value, cls: Value, teacherName: Value, salary: Value, assignedClass: Value): Draft {
    map[
      "className" := className,
      "year" := year,
      "teacher" := teacher,
      "studentFees" := studentFees,
      "maxStudents" := maxStudents,
      "students" := students,
      "studentName" := studentName,
      "gender" := gender,
      "dob" := dob,
      "contactDetails" := contactDetails,
      "feesPaid" := feesPaid,
      "class" := cls,
      "teacherName" := teacherName,
      "salary" := salary,
      "assignedClass" := assignedClass
    ]
  }

  /** The object literal's keys, and the values it stores under the keys the
      lemmas below read. */
  lemma EditFormKeys(className: Value, year: Value, teacher: Value, studentFees: Value, maxStudents: Value,
                     students: Value, studentName: Value, gender: Value, dob: Value, contactDetails: Value,
                     feesPaid: Value, cls: Value, teacherName: Value, salary: Value, assignedClass: Value)
    ensures var d := EditForm(className, year, teacher, studentFees, maxStudents, students, studentName,
                              gender, dob, contactDetails, feesPaid, cls, teacherName, salary, assignedClass);
      && d.Keys == EditDraftKeys
      && d["className"] == className && d["year"] == year && d["teacher"] == teacher
      && d["studentFees"] == studentFees && d["maxStudents"] == maxStudents && d["students"] == students
      && d["studentName"] == studentName && d["gender"] == gender
      && d["dob"] == dob && d["contactDetails"] == contactDetails && d["feesPaid"] == feesPaid
      && d["class"] == cls && d["teacherName"] == teacherName && d["salary"] == salary
      && d["assignedClass"] == assignedClass
  {
    var d := EditForm(className, year, teacher, studentFees, maxStudents, students, studentName,
                      gender, dob, contactDetails, feesPaid, cls, teacherName, salary, assignedClass);
    EditFormKeysWithin(className, year, teacher, studentFees, maxStudents, students, studentName,
                       gender, dob, contactDetails, feesPaid, cls, teacherName, salary, assignedClass);
    EditFormKeysCover(className, year, teacher, studentFees, maxStudents, students, studentName,
                      gender, dob, contactDetails, feesPaid, cls, teacherName, salary, assignedClass);
    SameKeys(d, EditDraftKeys);
    EditFormClassReads(className, year, teacher, studentFees, maxStudents, students, studentName,
                       gender, dob, contactDetails, feesPaid, cls, teacherName, salary, assignedClass);
    EditFormPersonReads(className, year, teacher, studentFees, maxStudents, students, studentName,
                        gender, dob, contactDetails, feesPaid, cls, teacherName, salary, assignedClass);
  }

  lemma EditFormClassReads(className: Value, year: Value, teacher: Value, studentFees: Value, maxStudents: Value,
                           students: Value, studentName: Value, gender: Value, dob: Value, contactDetails: Value,
                           feesPaid: Value, cls: Value, teacherName: Value, salary: Value, assignedClass: Value)
    ensures var d := EditForm(className, year, teacher, studentFees, maxStudents, students, studentName,
                              gender, dob, contactDetails, feesPaid, cls, teacherName, salary, assignedClass);
      && d["className"] == className && d["year"] == year && d["teacher"] == teacher
      && d["studentFees"] == studentFees && d["maxStudents"] == maxStudents && d["students"] == students
  {
  }

  lemma EditFormPersonReads(className: Value, year: Value, teacher: Value, studentFees: Value, maxStudents: Value,
                            students: Value, studentName: Value, gender: Value, dob: Value, contactDetails: Value,
                            feesPaid: Value, cls: Value, teacherName: Value, salary: Value, assignedClass: Value)
    ensures var d := EditForm(className, year, teacher, studentFees, maxStudents, students, studentName,
                              gender, dob, contactDetails, feesPaid, cls, teacherName, salary, assignedClass);
      && d["studentName"] == studentName && d["gender"] == gender
      && d["dob"] == dob && d["contactDetails"] == contactDetails && d["feesPaid"] == feesPaid
      && d["class"] == cls && d["teacherName"] == teacherName && d["salary"] == salary
      && d["assignedClass"] == assignedClass
  {
  }

  lemma EditFormKeysWithin(className: Value, year: Value, teacher: Value, studentFees: Value, maxStudents: Value,
                        students: Value, studentName: Value, gender: Value, dob: Value, contactDetails: Value,
                        feesPaid: Value, cls: Value, teacherName: Value, salary: Value, assignedClass: Value)
    ensures forall k ::
              (k in EditForm(className, year, teacher, studentFees, maxStudents, students, studentName,
                             gender, dob, contactDetails, feesPaid, cls, teacherName, salary, assignedClass))
              ==> k in EditDraftKeys
  {
  }

  lemma EditFormKeysCover(className: Value, year: Value, teacher: Value, studentFees: Value, maxStudents: Value,
                        students: Value, studentName: Value, gender: Value, dob: Value, contactDetails: Value,
                        feesPaid: Value, cls: Value, teacherName: Value, salary: Value, assignedClass: Value)
    ensures forall k :: k in EditDraftKeys ==>
              k in EditForm(className, year, teacher, studentFees, maxStudents, students, studentName,
                            gender, dob, contactDetails, feesPaid, cls, teacherName, salary, assignedClass)
  {
  }

  /** Building the edit draft throws exactly for an undefined or null record,
      or for a person record whose truthy `dob` is neither a string nor an array. */
  lemma EditDraftThrows(item: Value)
    ensures EditDraft(item).None? <==>
              || item.Undef? || item.Null?
              || (!LooksLikeClass(item) && Truthy(Get(item, "dob"))
                  && !Get(item, "dob").Str? && !Get(item, "dob").Arr?)
  {
  }

  /** The record's shape decides everything: a record with a truthy `class` is
      edited as a class, its `class` becoming the class name, its class fields
      copied (empty when falsy) and every person field left empty; any other
      record is edited as a person, its person fields copied with the empty
      defaults, its `dob` cut to ten characters, and every class field empty.
      `feesPaid` is `true` for a class and `x || true` for a person. */
  lemma EditDraftClassifies(item: Value)
    requires EditDraft(item).Some?
    ensures var d := EditDraft(item).value;
      && d.Keys == EditDraftKeys
      && d["class"] == Str("")
      && (LooksLikeClass(item) ==>
            && d["className"] == Get(item, "class")
            && d["year"] == Or(Get(item, "year"), Str(""))
            && d["teacher"] == Or(Get(item, "teacher"), Str(""))
            && d["studentFees"] == Or(Get(item, "studentFees"), Str(""))
            && d["maxStudents"] == Or(Get(item, "maxStudents"), Str(""))
            && d["students"] == Or(Get(item, "students"), Arr([]))
            && d["studentName"] == Str("") && d["gender"] == Str("") && d["dob"] == Str("")
            && d["teacherName"] == Str("") && d["salary"] == Str("") && d["assignedClass"] == Str("")
            && d["contactDetails"] == Obj(map[])
            && d["feesPaid"] == Bool(true))
      && (!LooksLikeClass(item) ==>
            && d["className"] == Str("") && d["year"] == Str("") && d["teacher"] == Str("")
            && d["studentFees"] == Str("") && d["maxStudents"] == Str("") && d["students"] == Arr([])
            && d["studentName"] == Or(Get(item, "studentName"), Str(""))
            && d["gender"] == Or(Get(item, "gender"), Str(""))
            && d["dob"] == (if Truthy(Get(item, "dob")) then SliceTen(Get(item, "dob")).value else Str(""))
            && Get(d["contactDetails"], "email") == Or(Get(Get(item, "contactDetails"), "email"), Str(""))
            && Get(d["contactDetails"], "phone") == Or(Get(Get(item, "contactDetails"), "phone"), Str(""))
            && d["feesPaid"] == Or(Get(item, "feesPaid"), Bool(true))
            && d["teacherName"] == Or(Get(item, "teacherName"), Str(""))
            && d["salary"] == Or(Get(item, "salary"), Str(""))
            && d["assignedClass"] == Or(Get(item, "assignedClass"), Str("")))
  {
    EditDraftFields(item);
    var d := EditDraft(item).value;
    if LooksLikeClass(item) {
      assert Or(Get(item, "class"), Str("")) == Get(item, "class");
    } else {
      var contact := Get(item, "contactDetails");
      var m := map["email" := Or(Get(contact, "email"), Str("")), "phone" := Or(Get(contact, "phone"), Str(""))];
      assert d["contactDetails"] == Obj(m);
      assert m["email"] == Or(Get(contact, "email"), Str(""));
    }
  }

  /** The arguments `EditDraft` passes, read back from the draft. */
  lemma EditDraftFields(item: Value)
    requires EditDraft(item).Some?
    ensures var d := EditDraft(item).value;
      var isClass := LooksLikeClass(item);
      var contact := Get(item, "contactDetails");
      && d.Keys == EditDraftKeys
      && d["className"] == (if isClass then Or(Get(item, "class"), Str("")) else Str(""))
      && d["year"] == (if isClass then Or(Get(item, "year"), Str("")) else Str(""))
      && d["teacher"] == (if isClass then Or(Get(item, "teacher"), Str("")) else Str(""))
      && d["studentFees"] == (if isClass then Or(Get(item, "studentFees"), Str("")) else Str(""))
      && d["maxStudents"] == (if isClass then Or(Get(item, "maxStudents"), Str("")) else Str(""))
      && d["students"] == (if isClass then Or(Get(item, "students"), Arr([])) else Arr([]))
      && d["studentName"] == (if !isClass then Or(Get(item, "studentName"), Str("")) else Str(""))
      && d["gender"] == (if !isClass then Or(Get(item, "gender"), Str("")) else Str(""))
      && d["dob"] ==
           (if !isClass && Truthy(Get(item, "dob")) then SliceTen(Get(item, "dob")).value else Str(""))
      && d["contactDetails"] ==
           (if !isClass then
              Obj(map["email" := Or(Get(contact, "email"), Str("")), "phone" := Or(Get(contact, "phone"), Str(""))])
            else Obj(map[]))
      && d["feesPaid"] == (if !isClass then Or(Get(item, "feesPaid"), Bool(true)) else Bool(true))
      && d["class"] == (if !isClass then Or(Get(item, "class"), Str("")) else Str(""))
      && d["teacherName"] == (if !isClass then Or(Get(item, "teacherName"), Str("")) else Str(""))
      && d["salary"] == (if !isClass then Or(Get(item, "salary"), Str("")) else Str(""))
      && d["assignedClass"] == (if !isClass then Or(Get(item, "assignedClass"), Str("")) else Str(""))
  {
    var isClass := LooksLikeClass(item);
    var contact := Get(item, "contactDetails");
    var dob :=
      if isClass then Some(Str(""))
      else if Truthy(Get(item, "dob")) then SliceTen(Get(item, "dob"))
      else Some(Str(""));
    EditFormKeys(
      if isClass then Or(Get(item, "class"), Str("")) else Str(""),
      if isClass then Or(Get(item, "year"), Str("")) else Str(""),
      if isClass then Or(Get(item, "teacher"), Str("")) else Str(""),
      if isClass then Or(Get(item, "studentFees"), Str("")) else Str(""),
      if isClass then Or(Get(item, "maxStudents"), Str("")) else Str(""),
      if isClass then Or(Get(item, "students"), Arr([])) else Arr([]),
      if !isClass then Or(Get(item, "studentName"), Str("")) else Str(""),
      if !isClass then Or(Get(item, "gender"), Str("")) else Str(""),
      dob.value,
      if !isClass then
        Obj(map["email" := Or(Get(contact, "email"), Str("")), "phone" := Or(Get(contact, "phone"), Str(""))])
      else Obj(map[]),
      if !isClass then Or(Get(item, "feesPaid"), Bool(true)) else Bool(true),
      if !isClass then Or(Get(item, "class"), Str("")) else Str(""),
      if !isClass then Or(Get(item, "teacherName"), Str("")) else Str(""),
      if !isClass then Or(Get(item, "salary"), Str("")) else Str(""),
      if !isClass then Or(Get(item, "assignedClass"), Str("")) else Str(""));
  }

  /** `x || true` is never falsy: the edit draft's `feesPaid` is always truthy,
      and is `true` itself whenever the record's `feesPaid` is a boolean. */
  lemma EditDraftFeesPaid(item: Value)
    requires EditDraft(item).Some?
    ensures Truthy(EditDraft(item).value["feesPaid"])
    ensures Get(item, "feesPaid").Bool? || Get(item, "feesPaid").Undef? ==>
              EditDraft(item).value["feesPaid"] == Bool(true)
  {
  }

  /** A person draft is built only when the record's `class` is falsy, so the
      edit draft's `class` is always empty: a student's class reference is
      never carried into the form. */
  lemma EditDraftClassAlwaysEmpty(item: Value)
    requires EditDraft(item).Some?
    ensures EditDraft(item).value["class"] == Str("")
  {
  }

  /** A student record that carries its class reference is therefore edited as
      a class: its name and contact details are dropped from the draft. */
  lemma EditStudentWithClassLosesName()
    ensures var item := Obj(map["_id" := Str("s1"), "studentName" := Str("Asha"), "class" := Str("c7")]);
      && EditDraft(item).Some?
      && EditDraft(item).value["studentName"] == Str("")
      && EditDraft(item).value["className"] == Str("c7")
  {
    var item := Obj(map["_id" := Str("s1"), "studentName" := Str("Asha"), "class" := Str("c7")]);
    assert Get(item, "class") == Str("c7");
    assert LooksLikeClass(item);
    assert EditDraft(item).Some?;
    EditDraftClassifies(item);
  }
}
