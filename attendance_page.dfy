/** The teacher's attendance page, src/pages/AsistenciaProfesor.tsx: the
    teacher's courses, the stored days of the selected course with student
    names looked up, the month filter, the Monday-to-Friday week grouping,
    the day tallies and border colour, and the recording sheet that is
    started, edited, saved or cancelled. */
module AttendancePage {
  import opened Wrappers
  import opened Domain
  import opened Lists
  import opened CoursesStore

  /** One row of the recording sheet or of a displayed day. */
  datatype StudentAttendance = StudentAttendance(studentId: string, studentName: string, status: AttendanceStatus)

  /** A stored day as the page shows it, with the course and student names. */
  datatype DayView = DayView(date: string, courseId: string, courseName: string, attendance: seq<StudentAttendance>)

  const Unknown := "Desconocido"

  /** The month selected when the page opens (0-based: November). */
  const DefaultMonth := 10

  // ---- The teacher's courses and the selected course ----

  /** The courses whose teacher id equals the session user's id. With no
      user the id is `undefined`, which equals the `undefined` teacher id
      of a course nobody teaches. */
  function TeacherCourses(courses: seq<Course>, userId: Option<string>): seq<Course>
  {
    Filter(courses, (c: Course) => c.teacherId == userId)
  }

  lemma TeacherCoursesSpec(courses: seq<Course>, userId: Option<string>)
    ensures forall c :: c in TeacherCourses(courses, userId) <==> c in courses && c.teacherId == userId
    ensures IsSubseq(TeacherCourses(courses, userId), courses)
  {
    FilterIsSubseq(courses, (c: Course) => c.teacherId == userId);
  }

  /** Without a session user the page lists the courses with no teacher. */
  lemma NoUserSeesUntaught(courses: seq<Course>)
    ensures TeacherCourses(courses, None) == Filter(courses, (c: Course) => c.teacherId.None?)
  {
    FilterExt(courses, (c: Course) => c.teacherId == None, (c: Course) => c.teacherId.None?);
  }

  /** The selected course: the first of the teacher's courses with that id. */
  function CurrentCourse(mine: seq<Course>, selected: string): (r: Option<Course>)
    ensures r.Some? <==> exists j :: 0 <= j < |mine| && mine[j].id == selected
    ensures r.Some? ==> r.value in mine && r.value.id == selected
  {
    Find(mine, (c: Course) => c.id == selected)
  }

  /** The course selected by the page's effect: a course id passed by
      navigation when it is one of the teacher's courses, otherwise the
      first of them when nothing is selected yet, otherwise the selection
      as it was. */
  function InitialSelection(navCourseId: Option<string>, mine: seq<Course>, selected: string): (r: string)
    ensures navCourseId.Some? && navCourseId.value != "" && CurrentCourse(mine, navCourseId.value).Some? ==> r == navCourseId.value
    ensures r == selected || CurrentCourse(mine, r).Some?
    ensures selected == "" && |mine| > 0 ==> CurrentCourse(mine, r).Some?
  {
    if navCourseId.Some? && navCourseId.value != "" && CurrentCourse(mine, navCourseId.value).Some? then navCourseId.value
    else if |mine| > 0 && selected == "" then
      assert mine[0].id == mine[0].id;
      mine[0].id
    else selected
  }

  // ---- The stored days of the selected course ----

  /** The name shown for a student id: the first roster entry's name, or
      "Desconocido" when there is none or its name is empty. */
  function StudentName(c: Course, studentId: string): (name: string)
    ensures name != ""
    ensures (forall j :: 0 <= j < |c.students| ==> c.students[j].id != studentId) ==> name == Unknown
    ensures forall j :: (&& 0 <= j < |c.students| && c.students[j].id == studentId && c.students[j].name != ""
                         && (forall i :: 0 <= i < j ==> c.students[i].id != studentId)) ==> name == c.students[j].name
  {
    var k := FindIndex(c.students, (s: Student) => s.id == studentId);
    if k >= 0 && c.students[k].name != "" then c.students[k].name else Unknown
  }

  function ViewOf(d: DayAttendance, c: Course): DayView
  {
    DayView(d.date, d.courseId, c.name,
            seq(|d.attendance|, j requires 0 <= j < |d.attendance| =>
              StudentAttendance(d.attendance[j].studentId, StudentName(c, d.attendance[j].studentId), d.attendance[j].status)))
  }

  /** The records a sheet saves: id and status of every row, in order. */
  function ToRecords(rows: seq<StudentAttendance>): (r: seq<AttendanceRecord>)
    ensures |r| == |rows|
    ensures forall j :: 0 <= j < |rows| ==> r[j].studentId == rows[j].studentId && r[j].status == rows[j].status
  {
    seq(|rows|, j requires 0 <= j < |rows| => AttendanceRecord(rows[j].studentId, rows[j].status))
  }

  /** The stored days of the selected course, in storage order, shown with
      the course's name and each student's name. Nothing is shown when no
      course is selected. */
  function CourseAttendance(attendance: seq<DayAttendance>, selected: string, current: Option<Course>): seq<DayView>
  {
    match current
    case None => []
    case Some(c) =>
      var days := Filter(attendance, (d: DayAttendance) => d.courseId == selected);
      seq(|days|, i requires 0 <= i < |days| => ViewOf(days[i], c))
  }

  /** Each shown day is a stored day of the selected course, with the same
      date and, once the names are dropped again, the same records; there
      is one shown day per stored day of that course. */
  lemma CourseAttendanceSpec(attendance: seq<DayAttendance>, selected: string, c: Course)
    ensures var views := CourseAttendance(attendance, selected, Some(c));
            && |views| == Count(attendance, (d: DayAttendance) => d.courseId == selected)
            && forall v :: v in views ==>
                 (&& v.courseId == selected && v.courseName == c.name
                  && exists d :: d in attendance && d.courseId == selected && d.date == v.date
                                 && ToRecords(v.attendance) == d.attendance)
  {
    var days := Filter(attendance, (d: DayAttendance) => d.courseId == selected);
    var views := CourseAttendance(attendance, selected, Some(c));
    forall v | v in views
      ensures v.courseId == selected && v.courseName == c.name
      ensures exists d :: d in attendance && d.courseId == selected && d.date == v.date
                          && ToRecords(v.attendance) == d.attendance
    {
      var i :| 0 <= i < |views| && views[i] == v;
      assert v == ViewOf(days[i], c);
      assert days[i] in days;
      assert ToRecords(v.attendance) == days[i].attendance;
    }
  }

  // ---- Month filter and weeks ----

  /** The school days of the selected month: the day of the week is
      neither Sunday (0) nor Saturday (6) and the 0-based month matches.
      The calendar is a parameter: `weekday` and `month` read an ISO date. */
  function MonthFiltered(days: seq<DayView>, weekday: string -> int, month: string -> int, selectedMonth: int): seq<DayView>
  {
    Filter(days, (d: DayView) => weekday(d.date) != 0 && weekday(d.date) != 6 && month(d.date) == selectedMonth)
  }

  lemma MonthFilteredSpec(days: seq<DayView>, weekday: string -> int, month: string -> int, selectedMonth: int)
    ensures var r := MonthFiltered(days, weekday, month, selectedMonth);
            && IsSubseq(r, days)
            && forall d :: d in r <==> d in days && weekday(d.date) != 0 && weekday(d.date) != 6 && month(d.date) == selectedMonth
  {
    FilterIsSubseq(days, (d: DayView) => weekday(d.date) != 0 && weekday(d.date) != 6 && month(d.date) == selectedMonth);
  }

  /** The groups laid end to end. */
  function Flatten<T>(gs: seq<seq<T>>): seq<T>
  {
    if gs == [] then [] else Flatten(gs[..|gs| - 1]) + gs[|gs| - 1]
  }

  lemma FlattenSnoc<T>(gs: seq<seq<T>>, g: seq<T>)
    ensures Flatten(gs + [g]) == Flatten(gs) + g
  {
    assert (gs + [g])[..|gs|] == gs;
  }

  /** Two consecutive days stay in one week unless the first is a Friday
      or the second a Monday. */
  predicate Joined(weekday: string -> int, a: DayView, b: DayView) {
    weekday(a.date) != 5 && weekday(b.date) != 1
  }

  function Last<T>(s: seq<T>): T
    requires |s| > 0
  {
    s[|s| - 1]
  }

  /** Every two consecutive days of the group are joined. */
  predicate Unbroken(weekday: string -> int, g: seq<DayView>) {
    forall j :: 1 <= j < |g| ==> Joined(weekday, g[j - 1], g[j])
  }

  /** The last day of one week and the first of the next are not joined. */
  predicate CutBetween(weekday: string -> int, a: seq<DayView>, b: seq<DayView>) {
    |a| > 0 && |b| > 0 && !Joined(weekday, Last(a), b[0])
  }

  /** A well-cut list of weeks: no week is empty, no week holds a cut,
      and every boundary between two weeks is a cut. */
  predicate WeeksCut(weekday: string -> int, weeks: seq<seq<DayView>>) {
    && (forall k :: 0 <= k < |weeks| ==> |weeks[k]| > 0 && Unbroken(weekday, weeks[k]))
    && (forall k :: 1 <= k < |weeks| ==> CutBetween(weekday, weeks[k - 1], weeks[k]))
  }

  /** Closing an unbroken, non-empty week that starts at a cut keeps the
      list well cut. */
  lemma CloseWeek(weekday: string -> int, weeks: seq<seq<DayView>>, current: seq<DayView>)
    requires WeeksCut(weekday, weeks) && |current| > 0 && Unbroken(weekday, current)
    requires |weeks| > 0 ==> CutBetween(weekday, Last(weeks), current)
    ensures WeeksCut(weekday, weeks + [current])
    ensures Flatten(weeks + [current]) == Flatten(weeks) + current
  {
    var w := weeks + [current];
    assert w[..|weeks|] == weeks;
    forall k | 1 <= k < |w| ensures CutBetween(weekday, w[k - 1], w[k]) {
      if k < |weeks| {
        assert w[k - 1] == weeks[k - 1] && w[k] == weeks[k];
      }
    }
  }

  /** What holds between days: the closed weeks are well cut, the open
      week is unbroken and does not end on a Friday, and it starts at a
      cut; with no open week, the last closed one ended on a Friday. */
  predicate Grouping(weekday: string -> int, weeks: seq<seq<DayView>>, current: seq<DayView>) {
    && WeeksCut(weekday, weeks) && Unbroken(weekday, current)
    && (|current| > 0 ==> weekday(Last(current).date) != 5)
    && (|weeks| > 0 && |current| > 0 ==> CutBetween(weekday, Last(weeks), current))
    && (|weeks| > 0 && current == [] ==> weekday(Last(Last(weeks)).date) == 5)
  }

  /** The body of the grouping loop for one day: a Monday closes the open
      week, the day joins the open week, and a Friday closes it. */
  method PlaceDay(weekday: string -> int, weeks: seq<seq<DayView>>, current: seq<DayView>, day: DayView)
    returns (weeks': seq<seq<DayView>>, current': seq<DayView>)
    requires Grouping(weekday, weeks, current)
    ensures Grouping(weekday, weeks', current')
    ensures Flatten(weeks') + current' == Flatten(weeks) + current + [day]
  {
    if weekday(day.date) == 1 && |current| > 0 {
      MondayStep(weekday, weeks, current, day);
      weeks', current' := weeks + [current], [day];
    } else if weekday(day.date) == 5 {
      FridayStep(weekday, weeks, current, day);
      weeks', current' := weeks + [current + [day]], [];
    } else {
      JoinStep(weekday, weeks, current, day);
      weeks', current' := weeks, current + [day];
    }
  }

  /** A day joined to the end of an unbroken group leaves it unbroken. */
  lemma UnbrokenSnoc(weekday: string -> int, g: seq<DayView>, day: DayView)
    requires Unbroken(weekday, g) && (g == [] || Joined(weekday, Last(g), day))
    ensures Unbroken(weekday, g + [day])
  {
    var c := g + [day];
    forall j | 1 <= j < |c| ensures Joined(weekday, c[j - 1], c[j]) {
      if j < |g| { assert c[j - 1] == g[j - 1] && c[j] == g[j]; }
    }
  }

  /** A Monday closes the open week and opens a new one. */
  lemma MondayStep(weekday: string -> int, weeks: seq<seq<DayView>>, current: seq<DayView>, day: DayView)
    requires Grouping(weekday, weeks, current) && |current| > 0 && weekday(day.date) == 1
    ensures Grouping(weekday, weeks + [current], [day])
    ensures Flatten(weeks + [current]) + [day] == Flatten(weeks) + current + [day]
  {
    CloseWeek(weekday, weeks, current);
    assert Last(weeks + [current]) == current;
  }

  /** A Friday joins the open week (or starts one) and closes it. */
  lemma FridayStep(weekday: string -> int, weeks: seq<seq<DayView>>, current: seq<DayView>, day: DayView)
    requires Grouping(weekday, weeks, current) && !(weekday(day.date) == 1 && |current| > 0) && weekday(day.date) == 5
    ensures Grouping(weekday, weeks + [current + [day]], [])
    ensures Flatten(weeks + [current + [day]]) == Flatten(weeks) + current + [day]
  {
    UnbrokenSnoc(weekday, current, day);
    var c := current + [day];
    assert Last(c) == day;
    if |weeks| > 0 {
      if current == [] {
        assert CutBetween(weekday, Last(weeks), c);
      } else {
        assert c[0] == current[0];
      }
    }
    CloseWeek(weekday, weeks, c);
    assert Last(Last(weeks + [c])) == day;
  }

  /** Any other day joins the open week, or opens one after a Friday. */
  lemma JoinStep(weekday: string -> int, weeks: seq<seq<DayView>>, current: seq<DayView>, day: DayView)
    requires Grouping(weekday, weeks, current) && !(weekday(day.date) == 1 && |current| > 0) && weekday(day.date) != 5
    ensures Grouping(weekday, weeks, current + [day])
  {
    UnbrokenSnoc(weekday, current, day);
    var c := current + [day];
    assert Last(c) == day;
    if |weeks| > 0 {
      if current == [] {
        assert CutBetween(weekday, Last(weeks), c);
      } else {
        assert c[0] == current[0];
      }
    }
  }

  /** The week grouping: the days are cut into non-empty groups, in order,
      and a cut falls between two consecutive days exactly when the first
      is a Friday or the second a Monday. So a Monday only ever opens a
      week and a Friday only ever closes one. */
  method GroupWeeks(days: seq<DayView>, weekday: string -> int) returns (weeks: seq<seq<DayView>>)
    ensures Flatten(weeks) == days
    ensures WeeksCut(weekday, weeks)
  {
    weeks := [];
    var current: seq<DayView> := [];
    var i := 0;
    while i < |days|
      invariant 0 <= i <= |days|
      invariant Flatten(weeks) + current == days[..i]
      invariant Grouping(weekday, weeks, current)
    {
      weeks, current := PlaceDay(weekday, weeks, current, days[i]);
      assert days[..i + 1] == days[..i] + [days[i]];
      i := i + 1;
    }
    assert days[..i] == days;
    FinishWeeks(weekday, weeks, current);
    if |current| > 0 {
      weeks := weeks + [current];
    }
  }

  /** After the last day, the open week (if any) is closed. */
  lemma FinishWeeks(weekday: string -> int, weeks: seq<seq<DayView>>, current: seq<DayView>)
    requires Grouping(weekday, weeks, current)
    ensures var w := if |current| > 0 then weeks + [current] else weeks;
            WeeksCut(weekday, w) && Flatten(w) == Flatten(weeks) + current
  {
    if |current| > 0 {
      CloseWeek(weekday, weeks, current);
    }
  }

  /** In a well-cut list of weeks a Monday is always the first day of its
      week and a Friday always the last. */
  lemma MondayOpensFridayCloses(weekday: string -> int, weeks: seq<seq<DayView>>, k: nat, j: nat)
    requires WeeksCut(weekday, weeks) && k < |weeks| && j < |weeks[k]|
    ensures weekday(weeks[k][j].date) == 1 ==> j == 0
    ensures weekday(weeks[k][j].date) == 5 ==> j == |weeks[k]| - 1
  {
    var w := weeks[k];
    assert Unbroken(weekday, w);
    if j > 0 {
      assert Joined(weekday, w[j - 1], w[j]);
    }
    if j < |w| - 1 {
      assert Joined(weekday, w[j], w[j + 1]);
    }
  }

  /** The week on show: an index past the last week shows an empty week. */
  function WeekAt(weeks: seq<seq<DayView>>, index: int): (w: seq<DayView>)
    ensures 0 <= index < |weeks| ==> w == weeks[index]
    ensures !(0 <= index < |weeks|) ==> w == []
  {
    if 0 <= index < |weeks| then weeks[index] else []
  }

  // ---- Day tallies and border ----

  function Tally(day: DayView, s: AttendanceStatus): nat
  {
    Count(day.attendance, (a: StudentAttendance) => a.status == s)
  }

  /** The four tallies of a day add up to its number of rows. */
  lemma {:induction false} TalliesSum(rows: seq<StudentAttendance>)
    ensures var d := DayView("", "", "", rows);
            Tally(d, Presente) + Tally(d, Ausente) + Tally(d, FaltaJustificada) + Tally(d, Tardanza) == |rows|
  {
    if rows != [] {
      TalliesSum(rows[1..]);
    }
  }

  /** The card border: green (Presente) when everyone is present, which
      includes a day with no rows; red (Ausente) when nobody is; yellow
      (Tardanza) otherwise. */
  function Border(day: DayView): AttendanceStatus
  {
    var present := Tally(day, Presente);
    if present == |day.attendance| then Presente
    else if present == 0 then Ausente
    else Tardanza
  }

  lemma BorderSpec(day: DayView)
    ensures Border(day) == Presente <==> forall j :: 0 <= j < |day.attendance| ==> day.attendance[j].status == Presente
    ensures Border(day) == Ausente <==> |day.attendance| > 0 && forall j :: 0 <= j < |day.attendance| ==> day.attendance[j].status != Presente
    ensures Border(day) == Tardanza <==>
              (&& (exists j :: 0 <= j < |day.attendance| && day.attendance[j].status == Presente)
               && (exists j :: 0 <= j < |day.attendance| && day.attendance[j].status != Presente))
  {
    var p := (a: StudentAttendance) => a.status == Presente;
    CountFull(day.attendance, p);
    CountZero(day.attendance, p);
  }

  // ---- The recording sheet ----

  /** A fresh sheet: every student of the course, in roster order, marked
      present. */
  function Roster(c: Course): (rows: seq<StudentAttendance>)
    ensures |rows| == |c.students|
    ensures forall j :: 0 <= j < |rows| ==> rows[j] == StudentAttendance(c.students[j].id, c.students[j].name, Presente)
  {
    seq(|c.students|, j requires 0 <= j < |c.students| => StudentAttendance(c.students[j].id, c.students[j].name, Presente))
  }

  /** The sheet a recording starts from: a copy of the shown day for that
      course and date, if one exists, or else a fresh roster. */
  function StartingSheet(views: seq<DayView>, selected: string, date: string, c: Course): seq<StudentAttendance>
  {
    match Find(views, (v: DayView) => v.courseId == selected && v.date == date)
    case Some(v) => v.attendance
    case None => Roster(c)
  }

  /** Starting on a day already stored for the course, then saving without
      edits, writes back the records of the first stored day for that
      course and date. */
  lemma StartOnStoredDay(attendance: seq<DayAttendance>, selected: string, date: string, c: Course)
    requires exists d :: d in attendance && d.courseId == selected && d.date == date
    ensures var k := FindIndex(attendance, (d: DayAttendance) => d.courseId == selected && d.date == date);
            && 0 <= k
            && ToRecords(StartingSheet(CourseAttendance(attendance, selected, Some(c)), selected, date, c)) == attendance[k].attendance
  {
    var views := CourseAttendance(attendance, selected, Some(c));
    var q := (d: DayAttendance) => d.courseId == selected;
    var both := (d: DayAttendance) => d.courseId == selected && d.date == date;
    var onDate := (d: DayAttendance) => d.date == date;
    var days := Filter(attendance, q);
    var pv := (v: DayView) => v.courseId == selected && v.date == date;
    var d0 :| d0 in attendance && both(d0);
    FindFilter(attendance, q, onDate, both);
    var found := Find(attendance, both).value;
    var j := FindIndex(days, onDate);
    assert Find(days, onDate) == Some(found);
    forall i | 0 <= i < |views| ensures pv(views[i]) == onDate(days[i]) {
      assert views[i] == ViewOf(days[i], c);
    }
    FindIndexIs(views, pv, j);
    assert StartingSheet(views, selected, date, c) == views[j].attendance;
    assert views[j] == ViewOf(found, c);
  }

  /** Starting on a day not yet stored gives one present row per student. */
  lemma StartOnNewDay(attendance: seq<DayAttendance>, selected: string, date: string, c: Course)
    requires forall d :: d in attendance && d.courseId == selected ==> d.date != date
    ensures StartingSheet(CourseAttendance(attendance, selected, Some(c)), selected, date, c) == Roster(c)
  {
    var views := CourseAttendance(attendance, selected, Some(c));
    CourseAttendanceSpec(attendance, selected, c);
    var p := (v: DayView) => v.courseId == selected && v.date == date;
    forall j | 0 <= j < |views| ensures !p(views[j]) {
      assert views[j] in views;
    }
  }

  /** The rows of that student get the new status; every other row and
      every name and id stay as they were. */
  function WithStatus(rows: seq<StudentAttendance>, studentId: string, status: AttendanceStatus): seq<StudentAttendance>
  {
    seq(|rows|, j requires 0 <= j < |rows| => if rows[j].studentId == studentId then rows[j].(status := status) else rows[j])
  }

  lemma WithStatusSpec(rows: seq<StudentAttendance>, studentId: string, status: AttendanceStatus)
    ensures var r := WithStatus(rows, studentId, status);
            && |r| == |rows|
            && (forall j :: 0 <= j < |rows| ==> r[j].studentId == rows[j].studentId && r[j].studentName == rows[j].studentName)
            && (forall j :: 0 <= j < |rows| && rows[j].studentId == studentId ==> r[j].status == status)
            && (forall j :: 0 <= j < |rows| && rows[j].studentId != studentId ==> r[j] == rows[j])
            && WithStatus(r, studentId, status) == r
  {
  }

  /** Setting a status and then setting another for the same student
      leaves only the second. */
  lemma WithStatusLastWins(rows: seq<StudentAttendance>, studentId: string, first: AttendanceStatus, second: AttendanceStatus)
    ensures WithStatus(WithStatus(rows, studentId, first), studentId, second) == WithStatus(rows, studentId, second)
  {
  }

  class TeacherAttendancePage {
    var selectedCourse: string
    var selectedMonth: int
    var selectedDate: string
    var currentWeekIndex: int
    var isRecording: bool
    var currentAttendance: seq<StudentAttendance>
    const userId: Option<string>
    const store: CourseStore

    /** `today` stands for the ISO date of the current day. */
    constructor (store: CourseStore, userId: Option<string>, today: string)
      ensures this.store == store && this.userId == userId
      ensures selectedCourse == "" && selectedMonth == DefaultMonth && selectedDate == today
      ensures currentWeekIndex == 0 && !isRecording && currentAttendance == []
    {
      this.store := store;
      this.userId := userId;
      selectedCourse := "";
      selectedMonth := DefaultMonth;
      selectedDate := today;
      currentWeekIndex := 0;
      isRecording := false;
      currentAttendance := [];
    }

    function MyCourses(): seq<Course>
      reads this, store
    {
      TeacherCourses(store.courses, userId)
    }

    function Current(): Option<Course>
      reads this, store
    {
      CurrentCourse(MyCourses(), selectedCourse)
    }

    function Days(): seq<DayView>
      reads this, store
    {
      CourseAttendance(store.attendance, selectedCourse, Current())
    }

    method SelectInitialCourse(navCourseId: Option<string>)
      modifies this
      ensures selectedCourse == InitialSelection(navCourseId, MyCourses(), old(selectedCourse))
      ensures selectedMonth == old(selectedMonth) && selectedDate == old(selectedDate)
      ensures currentWeekIndex == old(currentWeekIndex)
      ensures isRecording == old(isRecording) && currentAttendance == old(currentAttendance)
    {
      selectedCourse := InitialSelection(navCourseId, MyCourses(), selectedCourse);
    }

    /** Does nothing without a selected course; otherwise loads the
        starting sheet for the selected date and enters recording mode. */
    method StartRecording()
      modifies this
      ensures old(Current()).None? ==> isRecording == old(isRecording) && currentAttendance == old(currentAttendance)
      ensures old(Current()).Some? ==>
                (&& isRecording
                 && currentAttendance == StartingSheet(old(Days()), old(selectedCourse), old(selectedDate), old(Current()).value))
      ensures selectedCourse == old(selectedCourse) && selectedDate == old(selectedDate)
      ensures selectedMonth == old(selectedMonth) && currentWeekIndex == old(currentWeekIndex)
    {
      var current := Current();
      if current.Some? {
        currentAttendance := StartingSheet(Days(), selectedCourse, selectedDate, current.value);
        isRecording := true;
      }
    }

    method UpdateStatus(studentId: string, status: AttendanceStatus)
      modifies this
      ensures currentAttendance == WithStatus(old(currentAttendance), studentId, status)
      ensures isRecording == old(isRecording) && selectedCourse == old(selectedCourse)
      ensures selectedDate == old(selectedDate) && selectedMonth == old(selectedMonth)
      ensures currentWeekIndex == old(currentWeekIndex)
    {
      currentAttendance := WithStatus(currentAttendance, studentId, status);
    }

    /** Does nothing without a selected course; otherwise stores the
        sheet's records for the selected date and course (replacing the
        record for that day, if any) and leaves recording mode. */
    method SaveAttendanceData()
      modifies this, store, store.storage
      ensures old(Current()).None? ==>
                (&& isRecording == old(isRecording) && currentAttendance == old(currentAttendance)
                 && store.attendance == old(store.attendance) && store.storage.slots == old(store.storage.slots))
      ensures old(Current()).Some? ==>
                var saved := DayAttendance(old(selectedDate), old(selectedCourse), ToRecords(old(currentAttendance)));
                && store.attendance == Upsert(old(store.attendance), saved, SameDay(saved))
                && store.storage.slots == old(store.storage.slots)[Storage.AttendanceKey := Storage.AttendanceDoc(store.attendance)]
                && !isRecording && currentAttendance == []
      ensures store.courses == old(store.courses) && store.courseGrades == old(store.courseGrades)
      ensures selectedCourse == old(selectedCourse) && selectedDate == old(selectedDate)
      ensures selectedMonth == old(selectedMonth) && currentWeekIndex == old(currentWeekIndex)
    {
      if Current().Some? {
        store.SaveAttendance(DayAttendance(selectedDate, selectedCourse, ToRecords(currentAttendance)));
        isRecording := false;
        currentAttendance := [];
      }
    }

    method CancelRecording()
      modifies this
      ensures !isRecording && currentAttendance == []
      ensures selectedCourse == old(selectedCourse) && selectedDate == old(selectedDate)
      ensures selectedMonth == old(selectedMonth) && currentWeekIndex == old(currentWeekIndex)
    {
      isRecording := false;
      currentAttendance := [];
    }
  }
}
