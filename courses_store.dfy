/** The course store of src/context/CoursesContext.tsx: the course list
    (with each course's students), the day-attendance records and the
    course-grade records. Every mutator rebuilds its list and writes the
    whole list to storage. */
module CoursesStore {
  import opened Wrappers
  import opened Domain
  import opened Lists
  import opened Storage

  /** The bundled default courses, used when nothing is stored. */
  const InitialCourses: seq<Course> := [
    Course("c1", "Matem\U{00E1}ticas", "5to Primaria", "A", [
      Student("s1", "Ana Garc\U{00ED}a", "12345678", "ana@ejemplo.com"),
      Student("s2", "Carlos P\U{00E9}rez", "23456789", "carlos@ejemplo.com"),
      Student("s3", "Mar\U{00ED}a L\U{00F3}pez", "34567890", "maria@ejemplo.com"),
      Student("s4", "Jos\U{00E9} Bayona", "45678901", "jose@ejemplo.com"),
      Student("s5", "Laura D\U{00ED}az", "56789012", "laura@ejemplo.com")
    ], Some("2"), Some("Mar\U{00ED}a Garc\U{00ED}a")),
    Course("c2", "Comunicaci\U{00F3}n", "5to Primaria", "B", [
      Student("s6", "Pedro Silva", "67890123", "pedro@ejemplo.com"),
      Student("s7", "Sofia Rojas", "78901234", "sofia@ejemplo.com"),
      Student("s8", "Diego Castro", "89012345", "diego@ejemplo.com")
    ], Some("2"), Some("Mar\U{00ED}a Garc\U{00ED}a"))
  ]

  // ---- Courses ----

  /** The course `addCourse` builds: the form's fields, a stamped id and
      no students. */
  function NewCourse(data: CourseData, now: Timestamp): (c: Course)
    ensures c.id == Stamp("c", now) && c.students == []
    ensures c.name == data.name && c.level == data.level && c.section == data.section
    ensures c.teacherId == data.teacherId && c.teacherName == data.teacherName
  {
    Course(Stamp("c", now), data.name, data.level, data.section, [], data.teacherId, data.teacherName)
  }

  /** `Partial<Course>`: each field is either absent or given. The
      optional fields can be given as `undefined`, which the spread in
      `updateCourse` copies over the old value. */
  datatype CoursePatch = CoursePatch(
    id: Option<string>,
    name: Option<string>,
    level: Option<string>,
    section: Option<string>,
    students: Option<seq<Student>>,
    teacherId: Option<Option<string>>,
    teacherName: Option<Option<string>>)

  /** The patch the course form's data makes: every field present. */
  function PatchOf(data: CourseData): CoursePatch
  {
    CoursePatch(None, Some(data.name), Some(data.level), Some(data.section), None,
                Some(data.teacherId), Some(data.teacherName))
  }

  /** The patch spread over the course: each field the patch gives wins,
      the rest of `c` is kept. */
  function Merge(c: Course, patch: CoursePatch): (m: Course)
    ensures patch.id.None? ==> m.id == c.id
    ensures patch.students.None? ==> m.students == c.students
  {
    Course(
      patch.id.GetOr(c.id),
      patch.name.GetOr(c.name),
      patch.level.GetOr(c.level),
      patch.section.GetOr(c.section),
      patch.students.GetOr(c.students),
      patch.teacherId.GetOr(c.teacherId),
      patch.teacherName.GetOr(c.teacherName))
  }

  /** Merging a course form's data into a course keeps its id and
      students and takes every other field from the form. */
  lemma MergeFormData(c: Course, data: CourseData)
    ensures Merge(c, PatchOf(data)) == Course(c.id, data.name, data.level, data.section, c.students,
                                              data.teacherId, data.teacherName)
  {
  }

  /** Every course with the id merged with the patch; the others as they were. */
  function UpdatedCourses(courses: seq<Course>, id: string, patch: CoursePatch): seq<Course>
  {
    seq(|courses|, i requires 0 <= i < |courses| =>
      if courses[i].id == id then Merge(courses[i], patch) else courses[i])
  }

  /** Updating keeps length and order, merges the patch into exactly the
      courses with that id and leaves every other course as it was. */
  lemma UpdateOnlyMatching(courses: seq<Course>, id: string, patch: CoursePatch)
    ensures var r := UpdatedCourses(courses, id, patch);
            && |r| == |courses|
            && (forall i :: 0 <= i < |courses| && courses[i].id != id ==> r[i] == courses[i])
            && (forall i :: 0 <= i < |courses| && courses[i].id == id ==> r[i] == Merge(courses[i], patch))
  {
  }

  /** Updating an id no course has changes nothing. */
  lemma UpdateMissingIsNoop(courses: seq<Course>, id: string, patch: CoursePatch)
    requires forall i :: 0 <= i < |courses| ==> courses[i].id != id
    ensures UpdatedCourses(courses, id, patch) == courses
  {
  }

  /** The courses whose id differs, in their order. */
  function WithoutCourse(courses: seq<Course>, id: string): seq<Course>
  {
    Filter(courses, (c: Course) => c.id != id)
  }

  /** Deleting removes every course with that id, keeps the others in
      their order, each as often as it occurred, and deleting again
      changes nothing. */
  lemma DeleteCourseSpec(courses: seq<Course>, id: string)
    ensures var r := WithoutCourse(courses, id);
            && (forall c :: c in r ==> c.id != id && c in courses)
            && (forall c :: c in courses && c.id != id ==> c in r)
            && IsSubseq(r, courses)
            && |r| == |courses| - Count(courses, (c: Course) => c.id == id)
            && WithoutCourse(r, id) == r
  {
    var r := WithoutCourse(courses, id);
    FilterIsSubseq(courses, (c: Course) => c.id != id);
    FilterComplement(courses, (c: Course) => c.id == id, (c: Course) => c.id != id);
    FilterAll(r, (c: Course) => c.id != id);
  }

  /** The student `addStudentToCourse` builds. */
  function NewStudent(data: StudentData, now: Timestamp): (s: Student)
    ensures s.id == Stamp("s", now)
    ensures s.name == data.name && s.dni == data.dni && s.email == data.email
  {
    Student(Stamp("s", now), data.name, data.dni, data.email)
  }

  /** The student appended to the roster of every course with that id. */
  function WithStudentAdded(courses: seq<Course>, courseId: string, s: Student): seq<Course>
  {
    seq(|courses|, i requires 0 <= i < |courses| =>
      if courses[i].id == courseId then courses[i].(students := courses[i].students + [s]) else courses[i])
  }

  /** Adding a student keeps the number of courses, appends the student
      to the matching course only, and leaves every other field and every
      other course unchanged. */
  lemma AddStudentSpec(courses: seq<Course>, courseId: string, s: Student)
    ensures var r := WithStudentAdded(courses, courseId, s);
            && |r| == |courses|
            && (forall i :: 0 <= i < |courses| && courses[i].id != courseId ==> r[i] == courses[i])
            && (forall i :: 0 <= i < |courses| && courses[i].id == courseId ==>
                  && r[i].students == courses[i].students + [s]
                  && r[i].(students := courses[i].students) == courses[i]
                  && Enrolls(r[i], s.id))
  {
    var r := WithStudentAdded(courses, courseId, s);
    forall i | 0 <= i < |courses| && courses[i].id == courseId ensures Enrolls(r[i], s.id) {
      assert r[i].students[|courses[i].students|] == s;
    }
  }

  /** Every course with that id loses its students with that student id. */
  function WithStudentRemoved(courses: seq<Course>, courseId: string, studentId: string): seq<Course>
  {
    seq(|courses|, i requires 0 <= i < |courses| =>
      if courses[i].id == courseId
      then courses[i].(students := Filter(courses[i].students, (s: Student) => s.id != studentId))
      else courses[i])
  }

  /** Removing a student only touches the matching course. There it
      drops every roster entry with that student id and keeps every other
      entry, in order and as often as it occurred, and the course's other
      fields; removing again changes nothing. */
  lemma RemoveStudentSpec(courses: seq<Course>, courseId: string, studentId: string)
    ensures var r := WithStudentRemoved(courses, courseId, studentId);
            && |r| == |courses|
            && (forall i :: 0 <= i < |courses| && courses[i].id != courseId ==> r[i] == courses[i])
            && (forall i :: 0 <= i < |courses| && courses[i].id == courseId ==>
                  && !Enrolls(r[i], studentId)
                  && (forall s :: s in courses[i].students && s.id != studentId ==> s in r[i].students)
                  && IsSubseq(r[i].students, courses[i].students)
                  && |r[i].students| == |courses[i].students| - Count(courses[i].students, (s: Student) => s.id == studentId)
                  && r[i].(students := courses[i].students) == courses[i])
            && WithStudentRemoved(r, courseId, studentId) == r
  {
    var r := WithStudentRemoved(courses, courseId, studentId);
    var keep := (s: Student) => s.id != studentId;
    forall i | 0 <= i < |courses| && courses[i].id == courseId
      ensures && !Enrolls(r[i], studentId)
              && (forall s :: s in courses[i].students && s.id != studentId ==> s in r[i].students)
              && IsSubseq(r[i].students, courses[i].students)
              && |r[i].students| == |courses[i].students| - Count(courses[i].students, (s: Student) => s.id == studentId)
    {
      FilterIsSubseq(courses[i].students, keep);
      FilterComplement(courses[i].students, (s: Student) => s.id == studentId, keep);
      assert r[i].students == Filter(courses[i].students, keep);
    }
    var rr := WithStudentRemoved(r, courseId, studentId);
    forall i | 0 <= i < |r| ensures rr[i] == r[i] {
      if r[i].id == courseId {
        FilterAll(r[i].students, keep);
      }
    }
  }

  // ---- Attendance and grades: upsert by key ----

  /** The key `saveAttendance` looks a record up by: same date and course. */
  function SameDay(data: DayAttendance): DayAttendance -> bool
  {
    (a: DayAttendance) => a.date == data.date && a.courseId == data.courseId
  }

  /** The key `saveCourseGrades` looks a record up by: the course alone. */
  function SameCourse(data: CourseGrades): CourseGrades -> bool
  {
    (g: CourseGrades) => g.courseId == data.courseId
  }

  /** Saving a day's attendance replaces the first record for that date
      and course in place (length unchanged) or appends one (length + 1);
      afterwards the first record for that key is the saved one; and
      saving the same data again changes nothing. */
  lemma SaveAttendanceSpec(days: seq<DayAttendance>, data: DayAttendance)
    ensures var r := Upsert(days, data, SameDay(data));
            && (FindIndex(days, SameDay(data)) >= 0 ==> |r| == |days|)
            && (FindIndex(days, SameDay(data)) < 0 ==> |r| == |days| + 1)
            && FindIndex(r, SameDay(data)) >= 0 && r[FindIndex(r, SameDay(data))] == data
            && Upsert(r, data, SameDay(data)) == r
  {
    UpsertShape(days, data, SameDay(data));
    UpsertFound(days, data, SameDay(data));
    UpsertIdempotent(days, data, SameDay(data));
  }

  /** Saving a course's grades behaves the same way, keyed on the course
      id alone. */
  lemma SaveGradesSpec(all: seq<CourseGrades>, data: CourseGrades)
    ensures var r := Upsert(all, data, SameCourse(data));
            && (FindIndex(all, SameCourse(data)) >= 0 ==> |r| == |all|)
            && (FindIndex(all, SameCourse(data)) < 0 ==> |r| == |all| + 1)
            && FindIndex(r, SameCourse(data)) >= 0 && r[FindIndex(r, SameCourse(data))] == data
            && Upsert(r, data, SameCourse(data)) == r
  {
    UpsertShape(all, data, SameCourse(data));
    UpsertFound(all, data, SameCourse(data));
    UpsertIdempotent(all, data, SameCourse(data));
  }

  /** Saving a day twice for one (date, course) leaves exactly one record
      for it, holding the second payload. */
  lemma SaveAttendanceTwice(days: seq<DayAttendance>, first: DayAttendance, second: DayAttendance)
    requires first.date == second.date && first.courseId == second.courseId
    requires Count(days, SameDay(first)) <= 1
    ensures var r := Upsert(Upsert(days, first, SameDay(first)), second, SameDay(second));
            Filter(r, SameDay(second)) == [second]
  {
    var p := SameDay(first);
    var q := SameDay(second);
    var r1 := Upsert(days, first, p);
    UpsertUnique(days, first, p);
    FilterExt(r1, p, q);
    FindIndexExt(days, p, q);
    FindIndexExt(r1, p, q);
    UpsertUnique(r1, second, q);
  }

  lemma {:induction false} FindIndexExt<T>(xs: seq<T>, p: T -> bool, q: T -> bool)
    requires forall x :: x in xs ==> p(x) == q(x)
    ensures FindIndex(xs, p) == FindIndex(xs, q)
  {
    if xs != [] { FindIndexExt(xs[1..], p, q); }
  }

  // ---- The store ----

  class CourseStore {
    var courses: seq<Course>
    var attendance: seq<DayAttendance>
    var courseGrades: seq<CourseGrades>
    const storage: LocalStorage

    /** Loads each list from its storage slot, or the defaults (the
        bundled courses, no attendance, no grades) when the slot is empty. */
    constructor (storage: LocalStorage)
      ensures this.storage == storage
      ensures courses == (match StoredCourses(storage.slots) case Some(cs) => cs case None => InitialCourses)
      ensures attendance == (if AttendanceKey in storage.slots && storage.slots[AttendanceKey].AttendanceDoc?
                             then storage.slots[AttendanceKey].days else [])
      ensures courseGrades == (if GradesKey in storage.slots && storage.slots[GradesKey].GradesDoc?
                               then storage.slots[GradesKey].courseGrades else [])
    {
      this.storage := storage;
      var stored := StoredCourses(storage.slots);
      courses := if stored.Some? then stored.value else InitialCourses;
      attendance := if AttendanceKey in storage.slots && storage.slots[AttendanceKey].AttendanceDoc?
                    then storage.slots[AttendanceKey].days else [];
      courseGrades := if GradesKey in storage.slots && storage.slots[GradesKey].GradesDoc?
                      then storage.slots[GradesKey].courseGrades else [];
    }

    method AddCourse(data: CourseData, now: Timestamp)
      modifies this, storage
      ensures courses == old(courses) + [NewCourse(data, now)]
      ensures attendance == old(attendance) && courseGrades == old(courseGrades)
      ensures storage.slots == old(storage.slots)[CoursesKey := CoursesDoc(courses)]
    {
      var updated := courses + [NewCourse(data, now)];
      courses := updated;
      storage.SetItem(CoursesKey, CoursesDoc(updated));
    }

    method UpdateCourse(id: string, patch: CoursePatch)
      modifies this, storage
      ensures courses == UpdatedCourses(old(courses), id, patch)
      ensures attendance == old(attendance) && courseGrades == old(courseGrades)
      ensures storage.slots == old(storage.slots)[CoursesKey := CoursesDoc(courses)]
    {
      var updated := UpdatedCourses(courses, id, patch);
      courses := updated;
      storage.SetItem(CoursesKey, CoursesDoc(updated));
    }

    method DeleteCourse(id: string)
      modifies this, storage
      ensures courses == WithoutCourse(old(courses), id)
      ensures attendance == old(attendance) && courseGrades == old(courseGrades)
      ensures storage.slots == old(storage.slots)[CoursesKey := CoursesDoc(courses)]
    {
      var updated := WithoutCourse(courses, id);
      courses := updated;
      storage.SetItem(CoursesKey, CoursesDoc(updated));
    }

    method AddStudentToCourse(courseId: string, data: StudentData, now: Timestamp)
      modifies this, storage
      ensures courses == WithStudentAdded(old(courses), courseId, NewStudent(data, now))
      ensures attendance == old(attendance) && courseGrades == old(courseGrades)
      ensures storage.slots == old(storage.slots)[CoursesKey := CoursesDoc(courses)]
    {
      var updated := WithStudentAdded(courses, courseId, NewStudent(data, now));
      courses := updated;
      storage.SetItem(CoursesKey, CoursesDoc(updated));
    }

    method RemoveStudentFromCourse(courseId: string, studentId: string)
      modifies this, storage
      ensures courses == WithStudentRemoved(old(courses), courseId, studentId)
      ensures attendance == old(attendance) && courseGrades == old(courseGrades)
      ensures storage.slots == old(storage.slots)[CoursesKey := CoursesDoc(courses)]
    {
      var updated := WithStudentRemoved(courses, courseId, studentId);
      courses := updated;
      storage.SetItem(CoursesKey, CoursesDoc(updated));
    }

    /** Copies the list and overwrites the first record for the same date
        and course, or appends when there is none. */
    method SaveAttendance(data: DayAttendance)
      modifies this, storage
      ensures attendance == Upsert(old(attendance), data, SameDay(data))
      ensures courses == old(courses) && courseGrades == old(courseGrades)
      ensures storage.slots == old(storage.slots)[AttendanceKey := AttendanceDoc(attendance)]
    {
      var existing := FindIndex(attendance, SameDay(data));
      var updated;
      if existing >= 0 {
        updated := attendance[existing := data];
      } else {
        updated := attendance + [data];
      }
      attendance := updated;
      storage.SetItem(AttendanceKey, AttendanceDoc(updated));
    }

    /** Copies the list and overwrites the first record for the same
        course, or appends when there is none. */
    method SaveCourseGrades(data: CourseGrades)
      modifies this, storage
      ensures courseGrades == Upsert(old(courseGrades), data, SameCourse(data))
      ensures courses == old(courses) && attendance == old(attendance)
      ensures storage.slots == old(storage.slots)[GradesKey := GradesDoc(courseGrades)]
    {
      var existing := FindIndex(courseGrades, SameCourse(data));
      var updated;
      if existing >= 0 {
        updated := courseGrades[existing := data];
      } else {
        updated := courseGrades + [data];
      }
      courseGrades := updated;
      storage.SetItem(GradesKey, GradesDoc(updated));
    }
  }

  /** Scenario of a new course: when no course has the stamped id yet,
      the added course appears exactly once, with no students. */
  lemma AddCourseOnce(courses: seq<Course>, data: CourseData, now: Timestamp)
    requires forall c :: c in courses ==> c.id != Stamp("c", now)
    ensures var r := courses + [NewCourse(data, now)];
            && Filter(r, (c: Course) => c.id == Stamp("c", now)) == [NewCourse(data, now)]
            && r[|courses|].students == []
  {
    var p := (c: Course) => c.id == Stamp("c", now);
    FilterNone(courses, p);
    FilterAppend(courses, [NewCourse(data, now)], p);
  }
}
