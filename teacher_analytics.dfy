/** The teacher analytics panel: salaries against class fees, as per-teacher and
    per-class bar charts in a monthly or yearly view and as the two totals with
    the profit or loss between them. Amounts are integers. */
module TeacherAnalytics {
  import opened JsValues

  datatype Teacher = Teacher(teacherName: Value, salary: int)

  datatype ClassFee = ClassFee(className: Value, studentFees: int)

  // ---------------------------------------------------------------- totals

  /** `teachers.reduce((sum, teacher) => sum + teacher.salary, 0)`. */
  function TotalSalaries(teachers: seq<Teacher>): int {
    if teachers == [] then 0
    else TotalSalaries(teachers[..|teachers| - 1]) + teachers[|teachers| - 1].salary
  }

  /** `classes.reduce((sum, classItem) => sum + classItem.studentFees, 0)`. */
  function TotalFees(classes: seq<ClassFee>): int {
    if classes == [] then 0
    else TotalFees(classes[..|classes| - 1]) + classes[|classes| - 1].studentFees
  }

  /** The salary total of two lists of teachers is the sum of their totals. */
  lemma {:induction false} TotalSalariesAppend(a: seq<Teacher>, b: seq<Teacher>)
    ensures TotalSalaries(a + b) == TotalSalaries(a) + TotalSalaries(b)
  {
    if b != [] {
      assert (a + b)[..|a + b| - 1] == a + b[..|b| - 1];
      TotalSalariesAppend(a, b[..|b| - 1]);
    } else {
      assert a + b == a;
    }
  }

  /** The fee total of two lists of classes is the sum of their totals. */
  lemma {:induction false} TotalFeesAppend(a: seq<ClassFee>, b: seq<ClassFee>)
    ensures TotalFees(a + b) == TotalFees(a) + TotalFees(b)
  {
    if b != [] {
      assert (a + b)[..|a + b| - 1] == a + b[..|b| - 1];
      TotalFeesAppend(a, b[..|b| - 1]);
    } else {
      assert a + b == a;
    }
  }

  /** `totalStudentFees - totalTeacherSalaries`. */
  function TotalDifference(fees: int, salaries: int): int {
    fees - salaries
  }

  /** `totalDifference >= 0`. */
  predicate IsProfit(fees: int, salaries: int) {
    TotalDifference(fees, salaries) >= 0
  }

  /** The school makes a profit exactly when the fees cover the salaries, and
      the difference is the amount by which they do, or fall short. */
  lemma ProfitMeaning(fees: int, salaries: int)
    ensures IsProfit(fees, salaries) <==> fees >= salaries
    ensures salaries + TotalDifference(fees, salaries) == fees
    ensures IsProfit(fees, salaries) ==> Abs(TotalDifference(fees, salaries)) == fees - salaries
    ensures !IsProfit(fees, salaries) ==> Abs(TotalDifference(fees, salaries)) == salaries - fees
  {
  }

  // ---------------------------------------------------------------- bar charts

  /** The salary bars: each teacher's salary, times twelve in any view but the
      monthly one. */
  function SalaryBars(teachers: seq<Teacher>, viewMode: string): (bars: seq<int>)
    ensures |bars| == |teachers|
  {
    if teachers == [] then []
    else
      var last := teachers[|teachers| - 1].salary;
      SalaryBars(teachers[..|teachers| - 1], viewMode) + [if viewMode == "monthly" then last else last * 12]
  }

  /** The fee bars: each class's fees, the same in both views. */
  function FeeBars(classes: seq<ClassFee>, viewMode: string): (bars: seq<int>)
    ensures |bars| == |classes|
  {
    if classes == [] then []
    else
      FeeBars(classes[..|classes| - 1], viewMode) + [classes[|classes| - 1].studentFees]
  }

  function SumOf(xs: seq<int>): int {
    if xs == [] then 0 else SumOf(xs[..|xs| - 1]) + xs[|xs| - 1]
  }

  /** Each yearly salary bar is twelve of its teacher's monthly salary, each
      monthly bar the salary itself, and the yearly bars add up to twelve times
      the salary total. */
  lemma {:induction false} SalaryBarsByMode(teachers: seq<Teacher>)
    ensures forall i :: 0 <= i < |teachers| ==> SalaryBars(teachers, "monthly")[i] == teachers[i].salary
    ensures forall i :: 0 <= i < |teachers| ==> SalaryBars(teachers, "yearly")[i] == 12 * teachers[i].salary
    ensures SumOf(SalaryBars(teachers, "monthly")) == TotalSalaries(teachers)
    ensures SumOf(SalaryBars(teachers, "yearly")) == 12 * TotalSalaries(teachers)
  {
    if teachers != [] {
      var p := teachers[..|teachers| - 1];
      SalaryBarsByMode(p);
      var m := SalaryBars(teachers, "monthly");
      var y := SalaryBars(teachers, "yearly");
      assert m[..|m| - 1] == SalaryBars(p, "monthly");
      assert y[..|y| - 1] == SalaryBars(p, "yearly");
    }
  }

  /** The fee bars do not depend on the view, and each is its class's fees. */
  lemma {:induction false} FeeBarsModeIndependent(classes: seq<ClassFee>, m1: string, m2: string)
    ensures FeeBars(classes, m1) == FeeBars(classes, m2)
    ensures forall i :: 0 <= i < |classes| ==> FeeBars(classes, m1)[i] == classes[i].studentFees
    ensures SumOf(FeeBars(classes, m1)) == TotalFees(classes)
  {
    if classes != [] {
      var p := classes[..|classes| - 1];
      FeeBarsModeIndependent(p, m1, m2);
      var f := FeeBars(classes, m1);
      assert f[..|f| - 1] == FeeBars(p, m1);
    }
  }

  /** `teacherData.map(teacher => teacher.teacherName)`. */
  function SalaryLabels(teachers: seq<Teacher>): seq<Value> {
    seq(|teachers|, i requires 0 <= i < |teachers| => teachers[i].teacherName)
  }

  /** `classData.map(classItem => classItem.className)`. */
  function FeeLabels(classes: seq<ClassFee>): seq<Value> {
    seq(|classes|, i requires 0 <= i < |classes| => classes[i].className)
  }

  /** The text above a salary bar: the teacher's name, or '' past the list. */
  function SalaryBarLabel(teachers: seq<Teacher>, dataIndex: int): (r: Value)
    ensures 0 <= dataIndex < |teachers| ==> r == SalaryLabels(teachers)[dataIndex]
    ensures !(0 <= dataIndex < |teachers|) ==> r == Str("")
  {
    if 0 <= dataIndex < |teachers| then teachers[dataIndex].teacherName else Str("")
  }

  // ---------------------------------------------------------------- totals chart

  const Rupee: char := '\U{20B9}'

  function Status(fees: int, salaries: int): string {
    if IsProfit(fees, salaries) then "Profit" else "Loss"
  }

  /** The text above a bar of the totals chart: the fee total over the first
      bar, the salary total and the profit or loss over the second. */
  function ComparisonLabel(fees: int, salaries: int, dataIndex: int): string {
    if dataIndex == 0 then "Fees: " + [Rupee] + IntToString(fees)
    else
      "Salaries: " + [Rupee] + IntToString(salaries) + "\n" + StatusLine(fees, salaries)
  }

  /** The text over the first bar reads back as the fee total. */
  lemma FeesLabelReadsBack(fees: int, salaries: int)
    ensures var text := ComparisonLabel(fees, salaries, 0);
      |text| > 7 && text[..7] == "Fees: " + [Rupee] && ReadInt(text[7..]) == Some(fees)
  {
    var text := ComparisonLabel(fees, salaries, 0);
    assert text[7..] == IntToString(fees);
    ReadIntRoundTrip(fees);
  }

  /** The second line of the text over the second bar. */
  function StatusLine(fees: int, salaries: int): string {
    Status(fees, salaries) + ": " + [Rupee] + NatToString(Abs(TotalDifference(fees, salaries)))
  }

  /** The status line says 'Profit' exactly when the fees cover the salaries,
      and 'Loss' otherwise, and ends with the size of the difference. */
  lemma StatusLineReadsBack(fees: int, salaries: int)
    ensures var line := StatusLine(fees, salaries);
      && (IsProfit(fees, salaries) ==>
            |line| > 9 && line[..9] == "Profit: " + [Rupee] && ReadInt(line[9..]) == Some(fees - salaries))
      && (!IsProfit(fees, salaries) ==>
            |line| > 7 && line[..7] == "Loss: " + [Rupee] && ReadInt(line[7..]) == Some(salaries - fees))
  {
    var amount := NatToString(Abs(TotalDifference(fees, salaries)));
    var line := StatusLine(fees, salaries);
    ReadIntRoundTrip(Abs(TotalDifference(fees, salaries)));
    if IsProfit(fees, salaries) {
      assert line == "Profit: " + [Rupee] + amount;
      assert line[9..] == amount;
    } else {
      assert line == "Loss: " + [Rupee] + amount;
      assert line[7..] == amount;
    }
  }

  /** The text over the second bar is two lines: the first reads back as the
      salary total, the second is the status line. */
  lemma SalariesLabelReadsBack(fees: int, salaries: int, dataIndex: int)
    requires dataIndex != 0
    ensures var text := ComparisonLabel(fees, salaries, dataIndex);
      exists k :: && 11 < k < |text|
                  && text[..11] == "Salaries: " + [Rupee]
                  && ReadInt(text[11..k]) == Some(salaries)
                  && text[k] == '\n'
                  && text[k + 1..] == StatusLine(fees, salaries)
  {
    var text := ComparisonLabel(fees, salaries, dataIndex);
    var first := "Salaries: " + [Rupee] + IntToString(salaries);
    var k := |first|;
    assert text == first + "\n" + StatusLine(fees, salaries);
    assert text[..11] == first[..11];
    assert text[11..k] == IntToString(salaries);
    assert text[k + 1..] == StatusLine(fees, salaries);
    ReadIntRoundTrip(salaries);
    assert text[k] == '\n';
  }

  /** A loss of two on seven in salaries against five in fees. */
  lemma LossLabelExample()
    ensures ComparisonLabel(5, 7, 1) == "Salaries: " + [Rupee] + "7\nLoss: " + [Rupee] + "2"
    ensures ComparisonLabel(5, 7, 0) == "Fees: " + [Rupee] + "5"
  {
  }

  // ---------------------------------------------------------------- component state

  /** What `fetchAnalyticsData` brings back: nothing when a request fails,
      otherwise the teachers and the classes. */
  datatype Fetch = Failed | Fetched(teachers: seq<Teacher>, classes: seq<ClassFee>)

  function NextViewMode(viewMode: string): (r: string)
    ensures r == "monthly" || r == "yearly"
    ensures r == "yearly" <==> viewMode == "monthly"
  {
    if viewMode == "monthly" then "yearly" else "monthly"
  }

  /** Toggling twice restores a monthly or yearly view. */
  lemma NextViewModeTwice(viewMode: string)
    requires viewMode == "monthly" || viewMode == "yearly"
    ensures NextViewMode(NextViewMode(viewMode)) == viewMode
  {
  }

  /** The panel's state cells. */
  class Panel {
    var teacherData: seq<Teacher>
    var classData: seq<ClassFee>
    var totalStudentFees: int
    var totalTeacherSalaries: int
    var viewMode: string

    /** The view is monthly or yearly and the totals are those of the data. */
    ghost predicate Valid()
      reads this
    {
      && (viewMode == "monthly" || viewMode == "yearly")
      && totalTeacherSalaries == TotalSalaries(teacherData)
      && totalStudentFees == TotalFees(classData)
    }

    constructor ()
      ensures Valid() && viewMode == "monthly"
      ensures teacherData == [] && classData == [] && totalStudentFees == 0 && totalTeacherSalaries == 0
    {
      teacherData := [];
      classData := [];
      totalStudentFees := 0;
      totalTeacherSalaries := 0;
      viewMode := "monthly";
    }

    /** Stores the fetched teachers and classes with their totals; a failed
        fetch changes nothing. */
    method Load(fetch: Fetch)
      requires Valid()
      modifies this
      ensures Valid() && viewMode == old(viewMode)
      ensures fetch.Fetched? ==> teacherData == fetch.teachers && classData == fetch.classes
      ensures fetch.Failed? ==> teacherData == old(teacherData) && classData == old(classData)
    {
      if fetch.Fetched? {
        teacherData := fetch.teachers;
        classData := fetch.classes;
        totalTeacherSalaries := TotalSalaries(fetch.teachers);
        totalStudentFees := TotalFees(fetch.classes);
      }
    }

    method HandleToggle()
      requires Valid()
      modifies this
      ensures Valid() && viewMode == NextViewMode(old(viewMode))
      ensures teacherData == old(teacherData) && classData == old(classData)
      ensures totalStudentFees == old(totalStudentFees) && totalTeacherSalaries == old(totalTeacherSalaries)
    {
      viewMode := NextViewMode(viewMode);
    }

    /** The salary chart as the panel shows it. */
    function SalaryChart(): seq<int>
      reads this
    {
      SalaryBars(teacherData, viewMode)
    }
  }

  /** Two teachers of 100 and 200 a month show as 1200 and 2400 in the yearly
      view, and two toggles bring the monthly view back. */
  method ToggleScenario() returns (yearly: seq<int>, monthly: seq<int>, mode: string)
    ensures yearly == [1200, 2400]
    ensures monthly == [100, 200]
    ensures mode == "monthly"
  {
    var p := new Panel();
    var t1 := Teacher(Str("A"), 100);
    var t2 := Teacher(Str("B"), 200);
    p.Load(Fetched([t1, t2], []));
    p.HandleToggle();
    SalaryBarsByMode([t1, t2]);
    yearly := p.SalaryChart();
    p.HandleToggle();
    monthly := p.SalaryChart();
    mode := p.viewMode;
  }
}
