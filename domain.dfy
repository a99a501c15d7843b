/** The records the data layer holds (src/types/Course.ts,
    src/types/Publication.ts, src/context/MessagingContext.ts and the
    session user of src/context/AuthContext.tsx), with the id conventions
    that join them. Optional TypeScript fields are `Option`s. */
module Domain {
  import opened Wrappers
  import Text

  /** A `Date.now()` reading, passed in by the caller. */
  type Timestamp = nat

  /** A new record's id: a one-letter prefix followed by the timestamp,
      as in `c${Date.now()}`. */
  function Stamp(prefix: string, now: Timestamp): (id: string)
    ensures |id| > |prefix| && id[..|prefix|] == prefix
  {
    prefix + Text.Decimal(now)
  }

  /** Ids made from different timestamps with one prefix never collide. */
  lemma StampFresh(prefix: string, a: Timestamp, b: Timestamp)
    ensures a != b ==> Stamp(prefix, a) != Stamp(prefix, b)
  {
    Text.StampInjective(prefix, a, b);
  }

  // ---- Courses, students, attendance and grades (src/types/Course.ts) ----

  datatype Student = Student(id: string, name: string, dni: string, email: string)

  /** `Omit<Student, 'id'>`: what the student form hands to the store. */
  datatype StudentData = StudentData(name: string, dni: string, email: string)

  datatype Course = Course(
    id: string,
    name: string,
    level: string,
    section: string,
    students: seq<Student>,
    teacherId: Option<string>,
    teacherName: Option<string>)

  /** `Omit<Course, 'id' | 'students'>`: what the course form hands over. */
  datatype CourseData = CourseData(
    name: string,
    level: string,
    section: string,
    teacherId: Option<string>,
    teacherName: Option<string>)

  datatype AttendanceStatus = Presente | Ausente | FaltaJustificada | Tardanza

  datatype AttendanceRecord = AttendanceRecord(studentId: string, status: AttendanceStatus)

  datatype DayAttendance = DayAttendance(date: string, courseId: string, attendance: seq<AttendanceRecord>)

  /** One period's mark: a number, or `null` while ungraded. */
  type Grade = Option<real>

  datatype GradeRecord = GradeRecord(studentId: string, grades: seq<Grade>)

  datatype CourseGrades = CourseGrades(courseId: string, grades: seq<GradeRecord>)

  /** The course's student list holds an entry with this id. */
  predicate Enrolls(c: Course, studentId: string) {
    exists i :: 0 <= i < |c.students| && c.students[i].id == studentId
  }

  // ---- Session users (src/context/AuthContext.tsx) ----

  datatype UserType = Alumno | Profesor | Administrativo

  datatype User = User(id: string, name: string, email: string, userType: UserType)

  /** The student id a user account stands for: `s${user.id}`. */
  function StudentIdOf(userId: string): (sid: string)
    ensures |sid| == |userId| + 1 && sid[0] == 's' && sid[1..] == userId
  {
    "s" + userId
  }

  // ---- Publications (src/types/Publication.ts) ----

  /** The two roles that can author a publication. */
  type AuthorType = t: UserType | t != Alumno witness Administrativo

  datatype Audience = All | Students

  datatype Publication = Publication(
    id: string,
    title: string,
    content: string,
    date: string,
    authorId: string,
    authorName: string,
    authorType: AuthorType,
    targetAudience: Audience,
    targetCourses: Option<seq<string>>)

  /** `Omit<Publication, 'id'>`. */
  datatype PublicationDraft = PublicationDraft(
    title: string,
    content: string,
    date: string,
    authorId: string,
    authorName: string,
    authorType: AuthorType,
    targetAudience: Audience,
    targetCourses: Option<seq<string>>)

  // ---- Messages (src/context/MessagingContext.ts) ----

  datatype Folder = Recibidos | Enviados | Borradores | Papelera

  datatype Message = Message(
    id: string,
    from: string,
    to: string,
    subject: string,
    body: string,
    date: string,
    folder: Folder,
    read: Option<bool>)

  /** `Omit<Message, 'id'>`. */
  datatype MessageDraft = MessageDraft(
    from: string,
    to: string,
    subject: string,
    body: string,
    date: string,
    folder: Folder,
    read: Option<bool>)
}
