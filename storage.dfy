/** The browser's key-value storage as the stores use it: one slot per
    collection, each holding the whole collection. Serialization is taken
    to be lossless, so a slot holds the list itself. */
module Storage {
  import opened Wrappers
  import opened Domain

  datatype Document =
    | CoursesDoc(courses: seq<Course>)
    | AttendanceDoc(days: seq<DayAttendance>)
    | GradesDoc(courseGrades: seq<CourseGrades>)
    | PublicationsDoc(publications: seq<Publication>)
    | MessagesDoc(messages: seq<Message>)
    | UserDoc(user: User)

  const CoursesKey := "courses"
  const AttendanceKey := "attendance"
  const GradesKey := "courseGrades"
  const PublicationsKey := "publications"
  const MessagesKey := "messages"
  const UserKey := "user"

  /** The course list stored under 'courses', if any: the snapshot the
      student view of publications reads instead of the in-memory list. */
  function StoredCourses(slots: map<string, Document>): (r: Option<seq<Course>>)
    ensures r.Some? <==> CoursesKey in slots && slots[CoursesKey].CoursesDoc?
    ensures r.Some? ==> r.value == slots[CoursesKey].courses
  {
    if CoursesKey in slots && slots[CoursesKey].CoursesDoc? then Some(slots[CoursesKey].courses) else None
  }

  class LocalStorage {
    var slots: map<string, Document>

    constructor (initial: map<string, Document>)
      ensures slots == initial
    {
      slots := initial;
    }

    /** `localStorage.setItem(key, JSON.stringify(doc))`. */
    method SetItem(key: string, doc: Document)
      modifies this
      ensures slots == old(slots)[key := doc]
    {
      slots := slots[key := doc];
    }

    /** `localStorage.removeItem(key)`. */
    method RemoveItem(key: string)
      modifies this
      ensures slots == old(slots) - {key}
    {
      slots := slots - {key};
    }
  }
}
