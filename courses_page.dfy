/** The course administration page of src/pages/Cursos.tsx: which course
    the two forms act on, how a saved course form becomes an add or an
    update in the course store, the confirmed deletions, and the set of
    expanded course cards. */
module CoursesPage {
  import opened Wrappers
  import opened Domain
  import opened CoursesStore
  import CourseModal
  import Auth

  /** The teacher drop-down's fixed list. */
  const Teachers: seq<CourseModal.TeacherOption> := [
    CourseModal.TeacherOption("2", "Mar\U{00ED}a Garc\U{00ED}a"),
    CourseModal.TeacherOption("p2", "Carlos L\U{00F3}pez"),
    CourseModal.TeacherOption("p3", "Ana Mart\U{00ED}nez"),
    CourseModal.TeacherOption("p4", "Jos\U{00E9} Torres")
  ]

  /** The listed teachers have distinct ids, and the first one is the demo
      teacher account: same id and same name, so courses assigned to her
      show up in that account's pages. */
  lemma TeachersTable()
    ensures forall i, j :: 0 <= i < j < |Teachers| ==> Teachers[i].id != Teachers[j].id
    ensures Teachers[0].id == Auth.MockUsers[1].id && Teachers[0].name == Auth.MockUsers[1].name
    ensures Auth.MockUsers[1].userType == Profesor
  {
  }

  /** Choosing the demo teacher in the form records her name as well. */
  lemma DemoTeacherNamed()
    ensures CourseModal.TeacherNameFor(Teachers, "2") == Some("Mar\U{00ED}a Garc\U{00ED}a")
  {
    CourseModal.TeacherNameOfFirst(Teachers, "2", 0);
  }

  /** `toggleCourseExpanded` on the set of expanded cards. */
  function Toggled(expanded: set<string>, courseId: string): set<string>
  {
    if courseId in expanded then expanded - {courseId} else expanded + {courseId}
  }

  /** Toggling flips the card's own membership and no other. */
  lemma ToggledSpec(expanded: set<string>, courseId: string)
    ensures courseId in Toggled(expanded, courseId) <==> courseId !in expanded
    ensures forall other :: other != courseId ==> (other in Toggled(expanded, courseId) <==> other in expanded)
  {
  }

  /** Toggling the same card twice gives back the original set. */
  lemma ToggleTwice(expanded: set<string>, courseId: string)
    ensures Toggled(Toggled(expanded, courseId), courseId) == expanded
  {
  }

  class CoursesPageState {
    var isModalOpen: bool
    var isStudentModalOpen: bool
    var selectedCourse: Option<Course>
    var expandedCourses: set<string>
    const store: CourseStore

    constructor (store: CourseStore)
      ensures this.store == store
      ensures !isModalOpen && !isStudentModalOpen && selectedCourse == None && expandedCourses == {}
    {
      this.store := store;
      isModalOpen := false;
      isStudentModalOpen := false;
      selectedCourse := None;
      expandedCourses := {};
    }

    /** Opens the course form with no course selected, so its save adds. */
    method HandleAddCourse()
      modifies this
      ensures selectedCourse == None && isModalOpen
      ensures isStudentModalOpen == old(isStudentModalOpen) && expandedCourses == old(expandedCourses)
    {
      selectedCourse := None;
      isModalOpen := true;
    }

    /** Opens the course form on a course, so its save updates that one. */
    method HandleEditCourse(course: Course)
      modifies this
      ensures selectedCourse == Some(course) && isModalOpen
      ensures isStudentModalOpen == old(isStudentModalOpen) && expandedCourses == old(expandedCourses)
    {
      selectedCourse := Some(course);
      isModalOpen := true;
    }

    /** The course form's record updates the selected course, or is added
        as a new course when none is selected. */
    method HandleSaveCourse(data: CourseData, now: Timestamp)
      modifies store, store.storage
      ensures selectedCourse.Some? ==> store.courses == UpdatedCourses(old(store.courses), selectedCourse.value.id, PatchOf(data))
      ensures selectedCourse.None? ==> store.courses == old(store.courses) + [NewCourse(data, now)]
      ensures store.attendance == old(store.attendance) && store.courseGrades == old(store.courseGrades)
      ensures store.storage.slots == old(store.storage.slots)[Storage.CoursesKey := Storage.CoursesDoc(store.courses)]
    {
      if selectedCourse.Some? {
        store.UpdateCourse(selectedCourse.value.id, PatchOf(data));
      } else {
        store.AddCourse(data, now);
      }
    }

    /** Deletes the course when the user confirms the prompt. */
    method HandleDeleteCourse(id: string, confirmed: bool)
      modifies store, store.storage
      ensures confirmed ==> store.courses == WithoutCourse(old(store.courses), id)
                            && store.storage.slots == old(store.storage.slots)[Storage.CoursesKey := Storage.CoursesDoc(store.courses)]
      ensures !confirmed ==> store.courses == old(store.courses) && store.storage.slots == old(store.storage.slots)
      ensures store.attendance == old(store.attendance) && store.courseGrades == old(store.courseGrades)
    {
      if confirmed {
        store.DeleteCourse(id);
      }
    }

    /** Opens the student form on a course. */
    method HandleAddStudent(course: Course)
      modifies this
      ensures selectedCourse == Some(course) && isStudentModalOpen
      ensures isModalOpen == old(isModalOpen) && expandedCourses == old(expandedCourses)
    {
      selectedCourse := Some(course);
      isStudentModalOpen := true;
    }

    /** The student form's record joins the selected course; with no course
        selected nothing happens. */
    method HandleSaveStudent(data: StudentData, now: Timestamp)
      modifies store, store.storage
      ensures selectedCourse.Some? ==> store.courses == WithStudentAdded(old(store.courses), selectedCourse.value.id, NewStudent(data, now))
                                       && store.storage.slots == old(store.storage.slots)[Storage.CoursesKey := Storage.CoursesDoc(store.courses)]
      ensures selectedCourse.None? ==> store.courses == old(store.courses) && store.storage.slots == old(store.storage.slots)
      ensures store.attendance == old(store.attendance) && store.courseGrades == old(store.courseGrades)
    {
      if selectedCourse.Some? {
        store.AddStudentToCourse(selectedCourse.value.id, data, now);
      }
    }

    /** Removes the student from the course when the user confirms. */
    method HandleRemoveStudent(courseId: string, studentId: string, confirmed: bool)
      modifies store, store.storage
      ensures confirmed ==> store.courses == WithStudentRemoved(old(store.courses), courseId, studentId)
                            && store.storage.slots == old(store.storage.slots)[Storage.CoursesKey := Storage.CoursesDoc(store.courses)]
      ensures !confirmed ==> store.courses == old(store.courses) && store.storage.slots == old(store.storage.slots)
      ensures store.attendance == old(store.attendance) && store.courseGrades == old(store.courseGrades)
    {
      if confirmed {
        store.RemoveStudentFromCourse(courseId, studentId);
      }
    }

    method ToggleCourseExpanded(courseId: string)
      modifies this
      ensures expandedCourses == Toggled(old(expandedCourses), courseId)
      ensures selectedCourse == old(selectedCourse) && isModalOpen == old(isModalOpen) && isStudentModalOpen == old(isStudentModalOpen)
    {
      expandedCourses := Toggled(expandedCourses, courseId);
    }
  }
}
