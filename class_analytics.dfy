/** The class analytics panel: gender counts over the students of one class or
    of all classes, the class of each student looked up for its teacher and
    year, and the list of class filter buttons. */
module ClassAnalytics {
  import opened JsValues
  import opened Collections

  /** A student record as the panel reads it. A missing gender is the empty
      string, which the counts treat the same way. */
  datatype Student = Student(studentName: Value, gender: string, className: Value)

  /** A class record as the panel reads it. */
  datatype ClassInfo = ClassInfo(className: Value, teacherName: Value, year: Value)

  /** What `getClassDetails` returns. */
  datatype ClassDetails = ClassDetails(teacher: Value, year: Value)

  // ---------------------------------------------------------------- gender counts

  /** `student.gender && student.gender.trim().toLowerCase() === g`. */
  predicate HasGender(s: Student, g: string) {
    s.gender != "" && ToLowerAscii(Trim(s.gender)) == g
  }

  /** `studentsList.filter(student => … === g).length`. */
  function CountGender(list: seq<Student>, g: string): nat {
    |Filter(list, s => HasGender(s, g))|
  }

  /** A gender is counted whatever its case: a stored gender without white
      space at its ends counts as its lower-case form. */
  lemma CapitalGenderCounts(name: Value, gender: string, className: Value)
    requires gender != [] && !IsJsWhitespace(gender[0]) && !IsJsWhitespace(gender[|gender| - 1])
    ensures HasGender(Student(name, gender, className), ToLowerAscii(gender))
  {
    TrimUnchanged(gender);
  }

  /** A gender is counted whatever the white space around it: padding it with a
      space on each side changes nothing. */
  lemma PaddedGenderCounts(name: Value, gender: string, className: Value)
    requires gender != [] && !IsJsWhitespace(gender[0]) && !IsJsWhitespace(gender[|gender| - 1])
    ensures HasGender(Student(name, [' '] + gender + [' '], className), ToLowerAscii(gender))
  {
    TrimOneSpace(gender);
  }

  /** An empty gender is counted for neither. */
  lemma EmptyGenderUncounted(name: Value, className: Value)
    ensures !HasGender(Student(name, "", className), "male")
    ensures !HasGender(Student(name, "", className), "female")
  {
  }

  /** No student is counted both male and female, so the two counts together
      never exceed the number of students. */
  lemma GenderCountsBounded(list: seq<Student>)
    ensures CountGender(list, "male") + CountGender(list, "female") <= |list|
  {
    FilterDisjointLength(list, s => HasGender(s, "male"), s => HasGender(s, "female"));
  }

  /** The count of a gender is the number of students of that gender, each
      counted as often as it occurs. */
  lemma CountGenderMeaning(list: seq<Student>, g: string)
    ensures forall s :: multiset(Filter(list, s => HasGender(s, g)))[s] == if HasGender(s, g) then multiset(list)[s] else 0
    ensures CountGender(list, g) == |Filter(list, s => HasGender(s, g))|
  {
    FilterMultiset(list, s => HasGender(s, g));
  }

  // ---------------------------------------------------------------- class filter

  /** `students.filter(student => student.className === c)`. */
  function InClass(students: seq<Student>, c: Value): seq<Student> {
    Filter(students, (s: Student) => s.className == c)
  }

  /** The students of a class are exactly the students whose class it is, in
      their original order. */
  lemma InClassSpec(students: seq<Student>, c: Value)
    ensures forall s :: s in InClass(students, c) <==> s in students && s.className == c
    ensures multiset(InClass(students, c)) <= multiset(students)
  {
    FilterMultiset(students, (s: Student) => s.className == c);
    var f := InClass(students, c);
    forall s ensures multiset(f)[s] <= multiset(students)[s] {
    }
  }

  /** One class never has more students of a gender than all classes together. */
  lemma ClassCountBounded(students: seq<Student>, c: Value, g: string)
    ensures CountGender(InClass(students, c), g) <= CountGender(students, g)
  {
    FilterOfFilterLength(students, s => HasGender(s, g), (s: Student) => s.className == c);
  }

  // ---------------------------------------------------------------- class details

  /** `classes.find(c => c.className === className)`. */
  function FindClass(classes: seq<ClassInfo>, className: Value): (r: Option<ClassInfo>)
    ensures r.Some? ==> r.value in classes && r.value.className == className
  {
    if classes == [] then None
    else if classes[0].className == className then Some(classes[0])
    else FindClass(classes[1..], className)
  }

  /** `getClassDetails(className)`: the teacher and year of the class, or 'N/A'
      for both when no class has that name. */
  function GetClassDetails(classes: seq<ClassInfo>, className: Value): ClassDetails {
    match FindClass(classes, className)
    case Some(c) => ClassDetails(c.teacherName, c.year)
    case None => ClassDetails(Str("N/A"), Str("N/A"))
  }

  /** The details come from the first class with that name; when there is
      none they are 'N/A'. */
  lemma {:induction false} GetClassDetailsSpec(classes: seq<ClassInfo>, className: Value)
    ensures (exists i :: 0 <= i < |classes| && classes[i].className == className) <==>
              FindClass(classes, className).Some?
    ensures forall i ::
              (&& 0 <= i < |classes| && classes[i].className == className
               && (forall j :: 0 <= j < i ==> classes[j].className != className)) ==>
              GetClassDetails(classes, className) == ClassDetails(classes[i].teacherName, classes[i].year)
    ensures (forall i :: 0 <= i < |classes| ==> classes[i].className != className) ==>
              GetClassDetails(classes, className) == ClassDetails(Str("N/A"), Str("N/A"))
  {
    FindClassFirst(classes, className);
  }

  /** `find` returns the first class with the name, and nothing when there is none. */
  lemma {:induction false} FindClassFirst(classes: seq<ClassInfo>, className: Value)
    ensures (exists i :: 0 <= i < |classes| && classes[i].className == className) <==>
              FindClass(classes, className).Some?
    ensures forall i ::
              (&& 0 <= i < |classes| && classes[i].className == className
               && (forall j :: 0 <= j < i ==> classes[j].className != className)) ==>
              FindClass(classes, className) == Some(classes[i])
  {
    if classes != [] {
      var tail := classes[1..];
      FindClassFirst(tail, className);
      if classes[0].className != className {
        assert FindClass(classes, className) == FindClass(tail, className);
        forall i | 0 < i < |classes| && classes[i].className == className
          ensures tail[i - 1].className == className
        {
        }
        forall i | (&& 0 < i < |classes| && classes[i].className == className
                    && (forall j :: 0 <= j < i ==> classes[j].className != className))
          ensures FindClass(classes, className) == Some(classes[i])
        {
          assert tail[i - 1] == classes[i];
          assert forall j :: 0 <= j < i - 1 ==> tail[j].className != className by {
            forall j | 0 <= j < i - 1 ensures tail[j].className != className {
              assert tail[j] == classes[j + 1];
            }
          }
        }
      }
    }
  }

  // ---------------------------------------------------------------- filter buttons

  function ClassNames(students: seq<Student>): seq<Value> {
    seq(|students|, i requires 0 <= i < |students| => students[i].className)
  }

  /** `[...new Set(students.map(student => student.className))]`. */
  function UniqueClasses(students: seq<Student>): seq<Value> {
    Distinct(ClassNames(students))
  }

  /** A button per class: none repeated, one for every student's class, in the
      order the classes first occur among the students. */
  lemma UniqueClassesSpec(students: seq<Student>)
    ensures NoDuplicates(UniqueClasses(students))
    ensures forall c :: c in UniqueClasses(students) <==> c in ClassNames(students)
    ensures forall c :: c in ClassNames(students) <==> exists i :: 0 <= i < |students| && students[i].className == c
    ensures forall i, j :: 0 <= i < j < |UniqueClasses(students)| ==>
              FirstIndex(ClassNames(students), UniqueClasses(students)[i]) <
              FirstIndex(ClassNames(students), UniqueClasses(students)[j])
  {
    var names := ClassNames(students);
    DistinctSpec(names);
    forall c ensures c in names <==> exists i :: 0 <= i < |students| && students[i].className == c {
      if c in names {
        var i :| 0 <= i < |names| && names[i] == c;
        assert students[i].className == c;
      }
      if exists i :: 0 <= i < |students| && students[i].className == c {
        var i :| 0 <= i < |students| && students[i].className == c;
        assert names[i] == c;
      }
    }
  }

  // ---------------------------------------------------------------- component state

  /** What the two requests of `fetchAllData` bring back: nothing when either
      fails, otherwise the student data (None when it is not an array) and the
      class list. */
  datatype Fetch = Failed | Fetched(studentData: Option<seq<Student>>, classData: seq<ClassInfo>)

  /** The panel's state cells. */
  class Panel {
    var students: seq<Student>
    var filteredStudents: seq<Student>
    var maleCount: nat
    var femaleCount: nat
    var selectedClass: Value
    var classes: seq<ClassInfo>

    /** The counts shown are those of the students listed, and the students
        listed are some of the loaded ones. */
    ghost predicate Valid()
      reads this
    {
      && maleCount == CountGender(filteredStudents, "male")
      && femaleCount == CountGender(filteredStudents, "female")
      && multiset(filteredStudents) <= multiset(students)
    }

    constructor ()
      ensures Valid()
      ensures students == [] && filteredStudents == [] && classes == []
      ensures maleCount == 0 && femaleCount == 0 && selectedClass == Str("")
    {
      students := [];
      filteredStudents := [];
      maleCount := 0;
      femaleCount := 0;
      selectedClass := Str("");
      classes := [];
    }

    /** `calculateGenderCounts(list)`. */
    method CalculateGenderCounts(list: seq<Student>)
      modifies this
      ensures maleCount == CountGender(list, "male") && femaleCount == CountGender(list, "female")
      ensures maleCount + femaleCount <= |list|
      ensures students == old(students) && filteredStudents == old(filteredStudents)
      ensures selectedClass == old(selectedClass) && classes == old(classes)
    {
      GenderCountsBounded(list);
      maleCount := |Filter(list, s => HasGender(s, "male"))|;
      femaleCount := |Filter(list, s => HasGender(s, "female"))|;
    }

    /** `fetchAllData` once its requests are answered: an array of students
        replaces the students, lists them all and counts them; anything else
        leaves the panel as it was. */
    method Load(fetch: Fetch)
      requires Valid()
      modifies this
      ensures Valid()
      ensures fetch.Fetched? && fetch.studentData.Some? ==>
                && students == fetch.studentData.value && filteredStudents == students
                && classes == fetch.classData
      ensures !(fetch.Fetched? && fetch.studentData.Some?) ==>
                students == old(students) && filteredStudents == old(filteredStudents)
                && classes == old(classes) && maleCount == old(maleCount) && femaleCount == old(femaleCount)
      ensures selectedClass == old(selectedClass)
    {
      if fetch.Fetched? && fetch.studentData.Some? {
        var data := fetch.studentData.value;
        students := data;
        filteredStudents := data;
        classes := fetch.classData;
        CalculateGenderCounts(data);
      }
    }

    /** Lists the students of class `c` and counts them. */
    method HandleClassFilter(c: Value)
      requires Valid()
      modifies this
      ensures Valid()
      ensures selectedClass == c && filteredStudents == InClass(students, c)
      ensures students == old(students) && classes == old(classes)
      ensures maleCount <= CountGender(students, "male") && femaleCount <= CountGender(students, "female")
    {
      selectedClass := c;
      var filtered := InClass(students, c);
      InClassSpec(students, c);
      ClassCountBounded(students, c, "male");
      ClassCountBounded(students, c, "female");
      filteredStudents := filtered;
      CalculateGenderCounts(filtered);
    }

    /** Lists every student again and counts them all. */
    method HandleAllClassesFilter()
      requires Valid()
      modifies this
      ensures Valid()
      ensures selectedClass == Str("") && filteredStudents == students
      ensures maleCount == CountGender(students, "male") && femaleCount == CountGender(students, "female")
      ensures students == old(students) && classes == old(classes)
    {
      selectedClass := Str("");
      filteredStudents := students;
      CalculateGenderCounts(students);
    }
  }

  lemma FemaleStudent(s: Student)
    requires s.gender == "female"
    ensures HasGender(s, "female") && !HasGender(s, "male")
  {
    var g := s.gender;
    assert g[0] == 'f' && g[|g| - 1] == 'e';
    CapitalGenderCounts(s.studentName, g, s.className);
    ToLowerAsciiUnchanged(g);
  }

  lemma MaleStudent(s: Student)
    requires s.gender == "male"
    ensures HasGender(s, "male") && !HasGender(s, "female")
  {
    var g := s.gender;
    assert g[0] == 'm' && g[|g| - 1] == 'e';
    CapitalGenderCounts(s.studentName, g, s.className);
    ToLowerAsciiUnchanged(g);
  }

  /** The counts for a female, a male and a female student. */
  lemma ThreeStudentCounts(a: Student, b: Student, c: Student)
    requires HasGender(a, "female") && !HasGender(a, "male")
    requires HasGender(b, "male") && !HasGender(b, "female")
    requires HasGender(c, "female") && !HasGender(c, "male")
    ensures CountGender([a, b, c], "male") == 1 && CountGender([a, b, c], "female") == 2
    ensures CountGender([c], "male") == 0 && CountGender([c], "female") == 1
  {
    var male := s => HasGender(s, "male");
    var female := s => HasGender(s, "female");
    assert [a, b, c][1..] == [b, c];
    assert [b, c][1..] == [c];
    assert Filter([c], male) == [];
    assert Filter([b, c], male) == [b];
    assert Filter([a, b, c], male) == [b];
    assert Filter([c], female) == [c];
    assert Filter([b, c], female) == [c];
    assert Filter([a, b, c], female) == [a, c];
  }

  lemma OneOfClass(a: Student, b: Student, c: Student, k: Value)
    requires a.className != k && b.className != k && c.className == k
    ensures InClass([a, b, c], k) == [c]
  {
    var p := (s: Student) => s.className == k;
    assert [a, b, c][1..] == [b, c];
    assert [b, c][1..] == [c];
    assert Filter([c], p) == [c];
    assert Filter([b, c], p) == [c];
  }

  /** Loading two students of class 7A and one of 7B, then choosing 7B,
      counts the 7B student alone; choosing all classes counts all three. */
  method FilterScenario() returns (classMale: nat, classFemale: nat, allMale: nat, allFemale: nat)
    ensures classMale == 0 && classFemale == 1
    ensures allMale == 1 && allFemale == 2
  {
    var p := new Panel();
    var a := Student(Str("Asha"), "female", Str("7A"));
    var b := Student(Str("Ravi"), "male", Str("7A"));
    var c := Student(Str("Meera"), "female", Str("7B"));
    FemaleStudent(a);
    MaleStudent(b);
    FemaleStudent(c);
    ThreeStudentCounts(a, b, c);
    p.Load(Fetched(Some([a, b, c]), []));
    OneOfClass(a, b, c, Str("7B"));
    p.HandleClassFilter(Str("7B"));
    classMale, classFemale := p.maleCount, p.femaleCount;
    p.HandleAllClassesFilter();
    allMale, allFemale := p.maleCount, p.femaleCount;
  }
}
