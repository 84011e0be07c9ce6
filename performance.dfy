/** The student marks book (Pr_12.py): a list of (name, marks) pairs filled
    through a validated "add student" action, and a report that bands every
    mark into a letter grade with `pd.cut(..., right=False)`. */
module Performance {

  import opened Wrappers
  import opened Numeric

  /** The grade labels, worst first. */
  datatype Grade = F | D | C | B | A | APlus

  /** The bin edges and labels handed to `pd.cut`. */
  const Bins: seq<int> := [0, 50, 60, 70, 80, 90, 100]
  const Labels: seq<Grade> := [F, D, C, B, A, APlus]

  predicate StrictlyIncreasing(bins: seq<int>)
  {
    forall i, j :: 0 <= i < j < |bins| ==> bins[i] < bins[j]
  }

  /** `pd.cut` with `right=False`: the index of the half-open bin
      [bins[i], bins[i+1]) holding x, or None (NaN) when x lies outside
      [bins[0], bins[|bins|-1]). */
  function Cut(bins: seq<int>, x: int): (r: Option<nat>)
    requires StrictlyIncreasing(bins)
    ensures r.Some? ==> r.value + 1 < |bins| && bins[r.value] <= x < bins[r.value + 1]
    ensures r.None? <==> |bins| < 2 || x < bins[0] || bins[|bins| - 1] <= x
  {
    if |bins| < 2 then None
    else if bins[0] <= x < bins[1] then Some(0)
    else
      match Cut(bins[1..], x)
      case None => None
      case Some(i) => Some(i + 1)
  }

  /** Bins are disjoint, so a later value never falls in an earlier bin. */
  lemma CutMonotone(bins: seq<int>, x1: int, x2: int)
    requires StrictlyIncreasing(bins)
    requires x1 <= x2 && Cut(bins, x1).Some? && Cut(bins, x2).Some?
    ensures Cut(bins, x1).value <= Cut(bins, x2).value
  {
  }

  /** The position of a grade in the label list: 0 for F up to 5 for A+. */
  function Rank(g: Grade): (k: nat)
    ensures k < |Labels| && Labels[k] == g
  {
    match g
    case F => 0
    case D => 1
    case C => 2
    case B => 3
    case A => 4
    case APlus => 5
  }

  /** The grade column entry for one mark: defined exactly on 0..99. */
  function GradeOf(marks: int): (g: Option<Grade>)
    ensures g.Some? <==> 0 <= marks < 100
  {
    match Cut(Bins, marks)
    case None => None
    case Some(i) => Some(Labels[i])
  }

  /** The bands are half-open and lower-inclusive. */
  lemma GradeBands(marks: int)
    ensures GradeOf(marks) == Some(F) <==> 0 <= marks < 50
    ensures GradeOf(marks) == Some(D) <==> 50 <= marks < 60
    ensures GradeOf(marks) == Some(C) <==> 60 <= marks < 70
    ensures GradeOf(marks) == Some(B) <==> 70 <= marks < 80
    ensures GradeOf(marks) == Some(A) <==> 80 <= marks < 90
    ensures GradeOf(marks) == Some(APlus) <==> 90 <= marks < 100
  {
  }

  /** A higher mark never gets a worse grade. */
  lemma GradeMonotone(m1: int, m2: int)
    requires 0 <= m1 <= m2 < 100
    ensures Rank(GradeOf(m1).value) <= Rank(GradeOf(m2).value)
  {
  }

  datatype Student = Student(name: string, marks: int)

  /** A row of the report's data frame: name, marks and the Grade column. */
  datatype GradedRow = GradedRow(name: string, marks: int, grade: Option<Grade>)

  /** The Grade column added to the frame: one row per student, in list order. */
  function GradeRows(students: seq<Student>): (rows: seq<GradedRow>)
    ensures |rows| == |students|
    ensures forall i :: 0 <= i < |rows| ==>
              rows[i].name == students[i].name && rows[i].marks == students[i].marks &&
              rows[i].grade == GradeOf(students[i].marks)
  {
    if students == [] then []
    else
      var s := students[0];
      [GradedRow(s.name, s.marks, GradeOf(s.marks))] + GradeRows(students[1..])
  }

  class PerformanceAnalyzer {

    var students: seq<Student>

    /** Every stored mark came from a digit string, so none is negative. */
    ghost predicate Valid()
      reads this
    {
      forall i :: 0 <= i < |students| ==> students[i].marks >= 0
    }

    constructor ()
      ensures Valid() && students == []
    {
      students := [];
    }

    /** Appends (name, int(marks)) when the name is non-empty and the marks
        field is numeric; otherwise rejects and leaves the list as it was. */
    method AddStudent(name: string, marks: string) returns (accepted: bool)
      requires Valid()
      modifies this
      ensures Valid()
      ensures accepted <==> name != [] && IsNumeric(marks)
      ensures accepted ==> students == old(students) + [Student(name, ParseNat(marks))]
      ensures !accepted ==> students == old(students)
    {
      if name != [] && IsNumeric(marks) {
        students := students + [Student(name, ParseNat(marks))];
        accepted := true;
      } else {
        accepted := false;
      }
    }

    /** The graded frame of the report, or None (a warning) on an empty list.
        Only a mark of 100 or more is left without a grade. */
    function GenerateReport(): (report: Option<seq<GradedRow>>)
      requires Valid()
      reads this
      ensures report.None? <==> students == []
      ensures report.Some? ==> report.value == GradeRows(students)
      ensures report.Some? ==> forall i :: 0 <= i < |students| ==>
                (report.value[i].grade.None? <==> students[i].marks >= 100)
    {
      if students == [] then None else Some(GradeRows(students))
    }
  }
}
