/** The teacher's grades page, src/pages/CalificacionesProfesor.tsx: the
    grade sheet of the selected course (four periods per student), its
    average, and the edit session that copies the sheet, changes one
    period at a time within 0..20, and saves or discards the copy. */
module GradesPage {
  import opened Wrappers
  import opened Domain
  import opened Lists
  import opened CoursesStore
  import AttendancePage

  /** One row of the sheet: a student and their period grades. */
  datatype GradeRow = GradeRow(studentId: string, studentName: string, grades: seq<Grade>)

  /** The four ungraded periods of a student with no stored record. */
  const FourEmpty: seq<Grade> := [None, None, None, None]

  const MinGrade: real := 0.0
  const MaxGrade: real := 20.0

  // ---- The average ----

  /** The grades that are numbers, in order. */
  function Numbers(gs: seq<Grade>): (xs: seq<real>)
    ensures |xs| <= |gs|
    ensures |xs| == 0 <==> forall i :: 0 <= i < |gs| ==> gs[i].None?
  {
    if gs == [] then []
    else
      var rest := Numbers(gs[1..]);
      assert forall i :: 1 <= i < |gs| ==> gs[i] == gs[1..][i - 1];
      match gs[0]
      case Some(x) => [x] + rest
      case None => rest
  }

  /** The numbers kept lie in any range that holds every numeric grade. */
  lemma {:induction false} NumbersInRange(gs: seq<Grade>, lo: real, hi: real)
    requires forall i :: 0 <= i < |gs| && gs[i].Some? ==> lo <= gs[i].value <= hi
    ensures forall j :: 0 <= j < |Numbers(gs)| ==> lo <= Numbers(gs)[j] <= hi
  {
    if gs != [] {
      assert forall i :: 1 <= i < |gs| ==> gs[i] == gs[1..][i - 1];
      NumbersInRange(gs[1..], lo, hi);
    }
  }

  function Sum(xs: seq<real>): real
  {
    if xs == [] then 0.0 else xs[0] + Sum(xs[1..])
  }

  /** A sum of numbers between `lo` and `hi` lies between `n * lo` and `n * hi`. */
  lemma {:induction false} SumBounds(xs: seq<real>, lo: real, hi: real)
    requires forall j :: 0 <= j < |xs| ==> lo <= xs[j] <= hi
    ensures |xs| as real * lo <= Sum(xs) <= |xs| as real * hi
  {
    if xs != [] {
      SumBounds(xs[1..], lo, hi);
    }
  }

  /** A total between `n * lo` and `n * hi` has its mean between `lo` and `hi`. */
  lemma MeanBounds(total: real, n: real, lo: real, hi: real)
    requires n > 0.0 && n * lo <= total <= n * hi
    ensures lo <= total / n <= hi
  {
    assert total == n * (total / n);
  }

  /** `Math.round(x * 10) / 10`: to the nearest tenth, halves upward. */
  function RoundTenth(x: real): real
  {
    ((x * 10.0 + 0.5).Floor as real) / 10.0
  }

  /** Rounding moves a value by at most a twentieth. */
  lemma RoundTenthClose(x: real)
    ensures x - 0.05 < RoundTenth(x) <= x + 0.05
  {
    var f := (x * 10.0 + 0.5).Floor;
    assert x * 10.0 + 0.5 - 1.0 < f as real <= x * 10.0 + 0.5;
  }

  /** The average of the numeric grades, rounded to a tenth; none when no
      period has a number. */
  function ComputeAverage(gs: seq<Grade>): (avg: Option<real>)
    ensures avg.None? <==> forall i :: 0 <= i < |gs| ==> gs[i].None?
  {
    var xs := Numbers(gs);
    if |xs| == 0 then None else Some(RoundTenth(Sum(xs) / |xs| as real))
  }

  /** When every number is a valid grade, so is the average. */
  lemma AverageInRange(gs: seq<Grade>)
    requires forall i :: 0 <= i < |gs| && gs[i].Some? ==> MinGrade <= gs[i].value <= MaxGrade
    ensures ComputeAverage(gs).Some? ==> MinGrade <= ComputeAverage(gs).value <= MaxGrade
  {
    var xs := Numbers(gs);
    if |xs| > 0 {
      NumbersInRange(gs, MinGrade, MaxGrade);
      SumBounds(xs, MinGrade, MaxGrade);
      var n := |xs| as real;
      var mean := Sum(xs) / n;
      MeanBounds(Sum(xs), n, MinGrade, MaxGrade);
      var f := (mean * 10.0 + 0.5).Floor;
      assert 0 <= f <= 200;
    }
  }

  /** The average lies within a twentieth of the mean and never outside
      the range of the numbers averaged. */
  lemma AverageNearMean(gs: seq<Grade>, lo: real, hi: real)
    requires exists i :: 0 <= i < |gs| && gs[i].Some?
    requires forall i :: 0 <= i < |gs| && gs[i].Some? ==> lo <= gs[i].value <= hi
    ensures var xs := Numbers(gs);
            && |xs| > 0
            && lo <= Sum(xs) / |xs| as real <= hi
            && ComputeAverage(gs) == Some(RoundTenth(Sum(xs) / |xs| as real))
            && Sum(xs) / |xs| as real - 0.05 < ComputeAverage(gs).value <= Sum(xs) / |xs| as real + 0.05
  {
    var xs := Numbers(gs);
    var i :| 0 <= i < |gs| && gs[i].Some?;
    assert |xs| > 0;
    NumbersInRange(gs, lo, hi);
    MeanOfBounded(xs, lo, hi);
    RoundTenthClose(Sum(xs) / |xs| as real);
  }

  /** The mean of a non-empty list of bounded values is bounded. */
  lemma MeanOfBounded(xs: seq<real>, lo: real, hi: real)
    requires |xs| > 0 && forall j :: 0 <= j < |xs| ==> lo <= xs[j] <= hi
    ensures lo <= Sum(xs) / |xs| as real <= hi
  {
    SumBounds(xs, lo, hi);
    MeanBounds(Sum(xs), |xs| as real, lo, hi);
  }

  // ---- The sheet ----

  /** The test "this record is student `studentId`'s". */
  function RecordOf(studentId: string): GradeRecord -> bool {
    (r: GradeRecord) => r.studentId == studentId
  }

  /** The test "this sheet is course `courseId`'s". */
  function SheetOf(courseId: string): CourseGrades -> bool {
    (g: CourseGrades) => g.courseId == courseId
  }

  /** A student's stored grades, or four empty periods: the grades of the
      first record of the sheet with the student's id, when the sheet has
      one. A stored record with an empty list still counts, an array being
      truthy. */
  function StoredGrades(saved: Option<CourseGrades>, studentId: string): (gs: seq<Grade>)
    ensures saved.None? ==> gs == FourEmpty
    ensures saved.Some? ==>
              var k := FindIndex(saved.value.grades, RecordOf(studentId));
              && (k >= 0 ==> gs == saved.value.grades[k].grades)
              && (k < 0 ==> gs == FourEmpty)
  {
    match saved
    case None => FourEmpty
    case Some(cg) =>
      match Find(cg.grades, RecordOf(studentId))
      case Some(r) => r.grades
      case None => FourEmpty
  }

  /** The sheet of the selected course: one row per roster student, in
      roster order, with the grades of that course's first stored record.
      No course selected: no rows. */
  function CurrentGrades(current: Option<Course>, all: seq<CourseGrades>, selected: string): seq<GradeRow>
  {
    match current
    case None => []
    case Some(c) =>
      var saved := Find(all, SheetOf(selected));
      seq(|c.students|, i requires 0 <= i < |c.students| =>
        GradeRow(c.students[i].id, c.students[i].name, StoredGrades(saved, c.students[i].id)))
  }

  lemma CurrentGradesSpec(c: Course, all: seq<CourseGrades>, selected: string)
    ensures var rows := CurrentGrades(Some(c), all, selected);
            && |rows| == |c.students|
            && (forall i :: 0 <= i < |rows| ==> rows[i].studentId == c.students[i].id && rows[i].studentName == c.students[i].name)
            && ((forall g :: g in all ==> g.courseId != selected) ==> forall i :: 0 <= i < |rows| ==> rows[i].grades == FourEmpty)
            && (var k := FindIndex(all, SheetOf(selected));
                k >= 0 ==> forall i :: 0 <= i < |rows| ==> rows[i].grades == StoredGrades(Some(all[k]), c.students[i].id))
  {
    if forall g :: g in all ==> g.courseId != selected {
      assert forall j :: 0 <= j < |all| ==> !SheetOf(selected)(all[j]) by {
        forall j | 0 <= j < |all| ensures !SheetOf(selected)(all[j]) { assert all[j] in all; }
      }
    }
  }

  /** A student's grades after setting period `idx`: that period holds the
      new value; a list too short is first padded with empty periods. */
  function SetPeriod(current: seq<Grade>, idx: nat, v: Grade): (r: seq<Grade>)
    ensures |r| == if idx < |current| then |current| else idx + 1
    ensures r[idx] == v
    ensures forall j :: 0 <= j < |current| && j != idx ==> r[j] == current[j]
    ensures forall j :: |current| <= j < idx ==> r[j] == None
  {
    if idx < |current| then current[idx := v]
    else current + seq(idx - |current|, _ => None) + [v]
  }

  /** An accepted entry: empty, or a number from 0 to 20. */
  predicate Acceptable(v: Grade) {
    v.None? || MinGrade <= v.value <= MaxGrade
  }

  predicate AllValid(gs: seq<Grade>) {
    forall j :: 0 <= j < |gs| ==> Acceptable(gs[j])
  }

  /** Setting an accepted entry keeps a list of valid grades valid. */
  lemma SetPeriodKeepsValid(current: seq<Grade>, idx: nat, v: Grade)
    requires AllValid(current) && Acceptable(v)
    ensures AllValid(SetPeriod(current, idx, v))
  {
    var r := SetPeriod(current, idx, v);
    forall j | 0 <= j < |r| ensures Acceptable(r[j]) {
      if j < |current| && j != idx { assert r[j] == current[j]; }
    }
  }

  /** The records saved: each row's edited grades when it has an entry in
      the edit copy, its sheet grades otherwise. */
  function SavePayload(rows: seq<GradeRow>, edited: map<string, seq<Grade>>): (r: seq<GradeRecord>)
    ensures |r| == |rows|
    ensures forall i :: 0 <= i < |rows| ==> r[i].studentId == rows[i].studentId
    ensures forall i :: 0 <= i < |rows| && rows[i].studentId !in edited ==> r[i].grades == rows[i].grades
    ensures forall i :: 0 <= i < |rows| && rows[i].studentId in edited ==> r[i].grades == edited[rows[i].studentId]
  {
    seq(|rows|, i requires 0 <= i < |rows| =>
      GradeRecord(rows[i].studentId, if rows[i].studentId in edited then edited[rows[i].studentId] else rows[i].grades))
  }

  /** The edit copy the session starts from: every row's id is a key, and
      it maps to the grades of the last row with that id. */
  ghost predicate IsEditCopy(rows: seq<GradeRow>, edited: map<string, seq<Grade>>) {
    && (forall id :: id in edited <==> exists i :: 0 <= i < |rows| && rows[i].studentId == id)
    && (forall i :: (0 <= i < |rows| && forall j :: i < j < |rows| ==> rows[j].studentId != rows[i].studentId)
                       ==> edited[rows[i].studentId] == rows[i].grades)
  }

  /** Copying one more row keeps the copy faithful to the rows so far. */
  lemma EditCopySnoc(rows: seq<GradeRow>, m: map<string, seq<Grade>>, row: GradeRow)
    requires IsEditCopy(rows, m)
    ensures IsEditCopy(rows + [row], m[row.studentId := row.grades])
  {
    var rows' := rows + [row];
    var m' := m[row.studentId := row.grades];
    forall id ensures id in m' <==> exists i :: 0 <= i < |rows'| && rows'[i].studentId == id {
      if id in m && id != row.studentId {
        var i :| 0 <= i < |rows| && rows[i].studentId == id;
        assert rows'[i] == rows[i];
      }
      if id == row.studentId {
        assert rows'[|rows|] == row;
      }
    }
    forall i | 0 <= i < |rows'| && (forall j :: i < j < |rows'| ==> rows'[j].studentId != rows'[i].studentId)
      ensures m'[rows'[i].studentId] == rows'[i].grades
    {
      if i < |rows| {
        assert rows'[i] == rows[i];
        assert rows'[|rows|] == row;
        forall j | i < j < |rows| ensures rows[j].studentId != rows[i].studentId {
          assert rows'[j] == rows[j];
        }
      }
    }
  }

  /** The `forEach` that fills the edit copy, one row at a time; a later
      row with the same id overwrites an earlier one. */
  method CopyGrades(rows: seq<GradeRow>) returns (m: map<string, seq<Grade>>)
    ensures IsEditCopy(rows, m)
  {
    m := map[];
    var i := 0;
    while i < |rows|
      invariant 0 <= i <= |rows|
      invariant IsEditCopy(rows[..i], m)
    {
      EditCopySnoc(rows[..i], m, rows[i]);
      assert rows[..i + 1] == rows[..i] + [rows[i]];
      m := m[rows[i].studentId := rows[i].grades];
      i := i + 1;
    }
    assert rows[..i] == rows;
  }

  /** Saving an untouched copy of a sheet whose ids are distinct saves the
      sheet as it is. */
  lemma SaveUntouchedCopy(rows: seq<GradeRow>, edited: map<string, seq<Grade>>)
    requires IsEditCopy(rows, edited)
    requires forall i, j :: 0 <= i < j < |rows| ==> rows[i].studentId != rows[j].studentId
    ensures forall i :: 0 <= i < |rows| ==> SavePayload(rows, edited)[i] == GradeRecord(rows[i].studentId, rows[i].grades)
  {
  }

  class GradesPage {
    var selectedCourse: string
    var editMode: bool
    var editedGrades: map<string, seq<Grade>>
    const userId: Option<string>
    const store: CourseStore

    constructor (store: CourseStore, userId: Option<string>)
      ensures this.store == store && this.userId == userId
      ensures selectedCourse == "" && !editMode && editedGrades == map[]
    {
      this.store := store;
      this.userId := userId;
      selectedCourse := "";
      editMode := false;
      editedGrades := map[];
    }

    function Current(): Option<Course>
      reads this, store
    {
      AttendancePage.CurrentCourse(AttendancePage.TeacherCourses(store.courses, userId), selectedCourse)
    }

    function Rows(): seq<GradeRow>
      reads this, store
    {
      CurrentGrades(Current(), store.courseGrades, selectedCourse)
    }

    method SelectInitialCourse(navCourseId: Option<string>)
      modifies this
      ensures selectedCourse == AttendancePage.InitialSelection(navCourseId,
                AttendancePage.TeacherCourses(store.courses, userId), old(selectedCourse))
      ensures editMode == old(editMode) && editedGrades == old(editedGrades)
    {
      selectedCourse := AttendancePage.InitialSelection(navCourseId,
                          AttendancePage.TeacherCourses(store.courses, userId), selectedCourse);
    }

    /** Does nothing without a selected course; otherwise copies every
        row's grades into the edit copy and enters edit mode. */
    method StartEdit()
      modifies this
      ensures old(Current()).None? ==> editMode == old(editMode) && editedGrades == old(editedGrades)
      ensures old(Current()).Some? ==> editMode && IsEditCopy(old(Rows()), editedGrades)
      ensures selectedCourse == old(selectedCourse)
    {
      if Current().None? {
        return;
      }
      editedGrades := CopyGrades(Rows());
      editMode := true;
    }

    method CancelEdit()
      modifies this
      ensures !editMode && editedGrades == map[]
      ensures selectedCourse == old(selectedCourse)
    {
      editedGrades := map[];
      editMode := false;
    }

    /** An empty field clears the period; a number outside 0..20 is
        rejected and nothing changes; otherwise the student's grades (their
        edited ones, or four empty periods) get the period set. */
    method UpdateGrade(studentId: string, periodIdx: nat, value: Grade) returns (accepted: bool)
      modifies this
      ensures accepted <==> Acceptable(value)
      ensures !accepted ==> editedGrades == old(editedGrades)
      ensures accepted ==> editedGrades == old(editedGrades)[studentId :=
                SetPeriod(if studentId in old(editedGrades) then old(editedGrades)[studentId] else FourEmpty, periodIdx, value)]
      ensures editMode == old(editMode) && selectedCourse == old(selectedCourse)
    {
      if value.Some? && (value.value < MinGrade || value.value > MaxGrade) {
        return false;
      }
      var current := if studentId in editedGrades then editedGrades[studentId] else FourEmpty;
      editedGrades := editedGrades[studentId := SetPeriod(current, periodIdx, value)];
      return true;
    }

    /** Does nothing without a selected course; otherwise stores the
        payload as the course's grades and leaves edit mode. */
    method SaveGrades()
      modifies this, store, store.storage
      ensures old(Current()).None? ==>
                (&& editMode == old(editMode) && editedGrades == old(editedGrades)
                 && store.courseGrades == old(store.courseGrades) && store.storage.slots == old(store.storage.slots))
      ensures old(Current()).Some? ==>
                var saved := CourseGrades(old(selectedCourse), SavePayload(old(Rows()), old(editedGrades)));
                && store.courseGrades == Upsert(old(store.courseGrades), saved, SameCourse(saved))
                && store.storage.slots == old(store.storage.slots)[Storage.GradesKey := Storage.GradesDoc(store.courseGrades)]
                && !editMode && editedGrades == map[]
      ensures store.courses == old(store.courses) && store.attendance == old(store.attendance)
      ensures selectedCourse == old(selectedCourse)
    {
      if Current().Some? {
        store.SaveCourseGrades(CourseGrades(selectedCourse, SavePayload(Rows(), editedGrades)));
        editMode := false;
        editedGrades := map[];
      }
    }
  }

  /** Valid entries stay valid: after an update the student's grades are
      valid when they were before (or absent), whatever was entered. */
  lemma UpdateKeepsValid(edited: map<string, seq<Grade>>, studentId: string, idx: nat, value: Grade)
    requires studentId in edited ==> AllValid(edited[studentId])
    requires Acceptable(value)
    ensures AllValid(SetPeriod(if studentId in edited then edited[studentId] else FourEmpty, idx, value))
  {
    SetPeriodKeepsValid(if studentId in edited then edited[studentId] else FourEmpty, idx, value);
  }
}
