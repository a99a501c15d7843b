/** The course list of src/pages/MisCursos.tsx: a teacher sees the
    courses they teach, a student the courses whose roster holds their
    derived student id, and anyone else nothing. */
module MyCoursesPage {
  import opened Wrappers
  import opened Domain
  import opened Lists
  import AttendancePage

  predicate Teaches(c: Course, userId: string) {
    c.teacherId == Some(userId)
  }

  predicate Attends(c: Course, userId: string) {
    Enrolls(c, StudentIdOf(userId))
  }

  /** `myCourses`, chosen by the session user's role. */
  function MyCourses(courses: seq<Course>, user: Option<User>): (r: seq<Course>)
    ensures user.None? ==> r == []
    ensures user.Some? && user.value.userType == Administrativo ==> r == []
  {
    match user
    case None => []
    case Some(u) =>
      match u.userType
      case Profesor => Filter(courses, (c: Course) => Teaches(c, u.id))
      case Alumno => Filter(courses, (c: Course) => Attends(c, u.id))
      case Administrativo => []
  }

  /** Whatever the role, the list keeps the courses' order. */
  lemma MyCoursesSubseq(courses: seq<Course>, user: Option<User>)
    ensures IsSubseq(MyCourses(courses, user), courses)
  {
    match user
    case None =>
    case Some(u) =>
      match u.userType
      case Profesor => FilterIsSubseq(courses, (c: Course) => Teaches(c, u.id));
      case Alumno => FilterIsSubseq(courses, (c: Course) => Attends(c, u.id));
      case Administrativo =>
  }

  /** A teacher sees exactly the courses assigned to their id; a course
      with no teacher is never listed. */
  lemma TeacherSeesTaught(courses: seq<Course>, u: User)
    requires u.userType == Profesor
    ensures forall c :: c in MyCourses(courses, Some(u)) <==> c in courses && c.teacherId == Some(u.id)
  {
  }

  /** A student sees exactly the courses whose roster holds an entry with
      id `"s" + user.id`. */
  lemma StudentSeesEnrolled(courses: seq<Course>, u: User)
    requires u.userType == Alumno
    ensures forall c :: c in MyCourses(courses, Some(u)) <==>
              c in courses && exists i :: 0 <= i < |c.students| && c.students[i].id == "s" + u.id
  {
  }

  /** A teacher's list here is the same list the attendance page offers
      that teacher. */
  lemma SameAsAttendancePage(courses: seq<Course>, u: User)
    requires u.userType == Profesor
    ensures MyCourses(courses, Some(u)) == AttendancePage.TeacherCourses(courses, Some(u.id))
  {
    FilterExt(courses, (c: Course) => Teaches(c, u.id), (c: Course) => c.teacherId == Some(u.id));
  }
}
