# Nuevo Horizonte school portal — a Dafny model of its client core

Nuevo Horizonte is a school-management web client. Students ("alumno"),
teachers ("profesor") and administrative staff ("administrativo") sign in
with demo accounts. They read publications and messages, and they record or
consult attendance and grades. Staff manage courses, their rosters, and the
teachers' assignments. All state lives in the browser: four React contexts
keep lists of courses, attendance days, grade sheets, publications and
messages. They mirror each list into `localStorage` under a fixed key.
Every page works on these lists with filters, look-ups and replacements.

This project models that core in Dafny:

- The records are datatypes (`Domain`).
- `localStorage` is a class holding a map from keys to stored documents
  (`Storage`).
- Each context is a class whose fields are its lists, and each of its
  operations is a method. A method is specified by a pure function on the
  old list, and lemmas state what those functions guarantee.
- The pages are classes holding the page's own state. Their derived lists
  (the teacher's courses, the filtered tables, the weekly attendance
  grouping, the averages) are functions with lemmas.
- The route guard and the side menu are functions over an explicit route
  table. Lemmas say which roles reach which pages.

Two idioms of the source are modelled explicitly:

- JavaScript truthiness. An empty string is false. An empty array is true.
  `undefined === undefined` holds.
- `Date.now()`. It is a `Timestamp` parameter, written in decimal after a
  one-letter prefix to form new ids.

Modules and the source files they follow:

| module | file |
|---|---|
| `Wrappers`, `Lists`, `Text` | helpers: optional values, list filtering and counting, `trim`/`toLowerCase`/`includes` and decimal rendering |
| `Domain` | `src/types/Course.ts`, `src/types/Publication.ts`, `src/context/MessagingContext.ts`, the session user of `src/context/AuthContext.tsx` |
| `Storage` | `localStorage` as the contexts use it |
| `CoursesStore` | `src/context/CoursesContext.tsx` |
| `Publications` | `src/context/PublicationsContext.tsx` |
| `Messaging` | `src/context/MessagingProvider.tsx` |
| `Auth` | `src/context/AuthContext.tsx` |
| `Access` | `src/components/ProtectedRoute.tsx`, the route table of `src/App.tsx`, the menus of `src/components/Sidebar.tsx` |
| `AttendancePage` | `src/pages/AsistenciaProfesor.tsx` |
| `GradesPage` | `src/pages/CalificacionesProfesor.tsx` |
| `StudentsPage` | `src/pages/AlumnosMatriculados.tsx` |
| `TeachersPage` | `src/pages/ProfesoresContratados.tsx` |
| `MyCoursesPage` | `src/pages/MisCursos.tsx` |
| `CoursesPage` | `src/pages/Cursos.tsx` |
| `CourseModal` | `src/components/CourseModal.tsx` |
| `StudentModal` | `src/components/StudentModal.tsx` |
| `PublicationModal` | `src/components/PublicationModal.tsx` |
| `CourseColors` | `src/data/cursos.ts` |

On these points the model follows the code:

- A message counts as unread when it is in the "recibidos" folder and its
  `read` flag is not true. A message without the flag counts as unread.
- No trash or folder transitions exist beyond `markAsRead` and `addMessage`.
- The message store writes its list to storage after every change, but never
  reads it back on start-up.

## Model

| member | source | states |
|---|---|---|
| Domain.Stamp | src/context/CoursesContext.tsx:72 | a new id starts with its one-letter prefix and is longer than it |
| Domain.StampFresh | src/context/CoursesContext.tsx:72 | ids made from different timestamps with one prefix differ |
| Domain.StudentIdOf | src/context/PublicationsContext.tsx:107 | the student id of account `u` is `"s"` followed by exactly `u`'s id |
| Text.TrimStart | src/components/StudentModal.tsx:21 | the result is no longer than the input and does not start with white space |
| Text.TrimStartSuffix | src/components/StudentModal.tsx:21 | the result is a suffix of the input, and what is dropped is all white space |
| Text.TrimEnd | src/components/StudentModal.tsx:21 | the result is no longer than the input and does not end with white space |
| Text.TrimEndPrefix | src/components/StudentModal.tsx:21 | the result is a prefix of the input, and what is dropped is all white space |
| Text.Trim | src/components/StudentModal.tsx:21 | `trim()` never lengthens a string, and what it returns neither starts nor ends with white space |
| Text.TrimSlice | src/components/StudentModal.tsx:21 | `trim()` returns the slice of the input left after dropping white space at both ends |
| Text.BlankIffAllSpace | src/components/StudentModal.tsx:21 | `!s.trim()` holds exactly when every character of `s` is white space |
| Text.TrimIdempotent | src/components/StudentModal.tsx:25-29 | trimming twice is trimming once |
| Text.TrimStartPadded | src/components/StudentModal.tsx:25-29 | leading white space added before a string does not change its trimmed start |
| Text.TrimEndPadded | src/components/StudentModal.tsx:25-29 | trailing white space does not change the trimmed end |
| Text.TrimStartAppend | src/components/StudentModal.tsx:25-29 | for a string that is not all white space, appending text commutes with trimming the start |
| Text.TrimPadded | src/components/StudentModal.tsx:25-29 | surrounding a string with white space does not change its trimmed form |
| Text.LowerChar | src/pages/AlumnosMatriculados.tsx:63 | `toLowerCase` changes only ASCII and Latin-1 capitals |
| Text.ToLower | src/pages/AlumnosMatriculados.tsx:63 | lower-casing keeps the length and maps each character on its own |
| Text.ToLowerIdempotent | src/pages/AlumnosMatriculados.tsx:63 | lower-casing twice is lower-casing once |
| Text.ContainsEmpty | src/pages/ProfesoresContratados.tsx:73-75 | every string `includes('')` |
| Text.DigitChar | src/context/CoursesContext.tsx:72 | a digit below ten renders as a character '0' to '9' |
| Text.Decimal | src/context/CoursesContext.tsx:72 | a timestamp renders as a non-empty string of decimal digits |
| Text.DecimalRoundTrip | src/context/CoursesContext.tsx:72 | reading the rendered digits back gives the number |
| Text.DecimalInjective | src/context/CoursesContext.tsx:72 | different numbers render differently |
| Text.StampInjective | src/context/CoursesContext.tsx:72 | one prefix followed by two renderings is equal only for equal numbers |
| Lists.Filter | src/context/CoursesContext.tsx:87 | `filter` keeps exactly the elements that satisfy the test, and nothing new |
| Lists.FilterIsSubseq | src/context/CoursesContext.tsx:87 | `filter` keeps the elements' order |
| Lists.FindIndex | src/context/CoursesContext.tsx:113-115 | `findIndex` returns the first match, or -1 exactly when nothing matches |
| Lists.Find | src/pages/CalificacionesProfesor.tsx:48-51 | `find` returns a value exactly when some element matches, and then the first match |
| Lists.UpsertIdempotent | src/context/CoursesContext.tsx:112-125 | saving the same record twice is saving it once |
| Lists.UpsertUnique | src/context/CoursesContext.tsx:112-125 | after saving a record, at most one matched before and exactly that record matches now |
| Lists.FindFilter | src/pages/AsistenciaProfesor.tsx:76 | `find` on a filtered list finds the first element passing both tests |
| Lists.FilterComplement | src/context/CoursesContext.tsx:87 | keeping the elements that fail a test keeps all but the ones it counts |
| Lists.FilterDistinct | src/components/PublicationModal.tsx:70-76 | removing ids from a list without repeats leaves a list without repeats |
| Storage.StoredCourses | src/context/CoursesContext.tsx:54-57 | the stored course list is found exactly when the key holds a course document, and then it is that list |
| Storage.LocalStorage.SetItem | src/context/CoursesContext.tsx:77 | writing a key replaces that key's document and keeps every other key |
| Storage.LocalStorage.RemoveItem | src/context/AuthContext.tsx:69 | removing a key drops it and keeps every other key |
| CoursesStore.NewCourse | src/context/CoursesContext.tsx:69-78 | a new course gets the id `c<now>`, an empty roster, and the form's fields |
| CoursesStore.Merge | src/context/CoursesContext.tsx:80-84 | a patch keeps the id and roster it does not mention |
| CoursesStore.MergeFormData | src/pages/Cursos.tsx:38-44 | patching with the course form's data changes the five form fields and keeps the id and roster |
| CoursesStore.UpdatedCourses | src/context/CoursesContext.tsx:80-84 | the list with the patch applied to the courses of that id; stated by `UpdateOnlyMatching` and `UpdateMissingIsNoop` |
| CoursesStore.UpdateOnlyMatching | src/context/CoursesContext.tsx:80-84 | an update patches every course with the id and leaves the others as they were |
| CoursesStore.UpdateMissingIsNoop | src/context/CoursesContext.tsx:80-84 | updating an id no course has changes nothing |
| CoursesStore.WithoutCourse | src/context/CoursesContext.tsx:86-90 | the list without the courses of that id; stated by `DeleteCourseSpec` |
| CoursesStore.DeleteCourseSpec | src/context/CoursesContext.tsx:86-90 | deleting keeps exactly the courses with other ids, in order and each as often as before (the list shrinks by the number of matches), and is idempotent |
| CoursesStore.NewStudent | src/context/CoursesContext.tsx:92-102 | a new student gets the id `s<now>` and the form's fields |
| CoursesStore.WithStudentAdded | src/context/CoursesContext.tsx:92-102 | the list with the student appended to the matching roster; stated by `AddStudentSpec` |
| CoursesStore.AddStudentSpec | src/context/CoursesContext.tsx:92-102 | the student is appended to the matching course's roster only; nothing else in any course changes |
| CoursesStore.WithStudentRemoved | src/context/CoursesContext.tsx:104-110 | the list with the student taken out of the matching roster; stated by `RemoveStudentSpec` |
| CoursesStore.RemoveStudentSpec | src/context/CoursesContext.tsx:104-110 | the matching course loses every entry with the student id and keeps every other student, in order and each as often as before (the roster shrinks by the number of matches); its other fields are unchanged; other courses are untouched; removing again is a no-op |
| CoursesStore.SaveAttendanceSpec | src/context/CoursesContext.tsx:112-125 | saving a day replaces the record for that (date, course) or appends one; afterwards the first match is the saved record; saving again changes nothing |
| CoursesStore.SaveGradesSpec | src/context/CoursesContext.tsx:127-138 | saving a grade sheet replaces the course's sheet or appends one; the first match is then the saved sheet; saving again changes nothing |
| CoursesStore.SaveAttendanceTwice | src/context/CoursesContext.tsx:112-125 | two saves for one (date, course) leave exactly one record for it, holding the second payload |
| CoursesStore.FindIndexExt | src/context/CoursesContext.tsx:113-115 | `findIndex` depends only on the test's answers on the list |
| CoursesStore.AddCourseOnce | src/context/CoursesContext.tsx:69-78 | with a fresh timestamp, the new course is the only one with its id and has no students |
| CoursesStore.CourseStore.constructor | src/context/CoursesContext.tsx:54-67 | each list starts from its stored document when present, else the seed courses or an empty list |
| CoursesStore.CourseStore.AddCourse | src/context/CoursesContext.tsx:69-78 | appends the new course, writes the list under `courses`, and leaves attendance and grades alone |
| CoursesStore.CourseStore.UpdateCourse | src/context/CoursesContext.tsx:80-84 | the list becomes the patched list and is written back |
| CoursesStore.CourseStore.DeleteCourse | src/context/CoursesContext.tsx:86-90 | the list loses the course and is written back |
| CoursesStore.CourseStore.AddStudentToCourse | src/context/CoursesContext.tsx:92-102 | the student is appended to the course's roster and the list is written back |
| CoursesStore.CourseStore.RemoveStudentFromCourse | src/context/CoursesContext.tsx:104-110 | the new list is the one `RemoveStudentSpec` describes: the student leaves the course's roster, every other student and field stays, and the list is written back |
| CoursesStore.CourseStore.SaveAttendance | src/context/CoursesContext.tsx:112-125 | the attendance list is upserted on (date, course) and written under `attendance` |
| CoursesStore.CourseStore.SaveCourseGrades | src/context/CoursesContext.tsx:127-138 | the grade sheets are upserted on the course id and written under `courseGrades` |
| Publications.NewPublication | src/context/PublicationsContext.tsx:66-74 | a new publication gets the id `p<now>` and the draft's fields |
| Publications.WithoutPublication | src/context/PublicationsContext.tsx:76-80 | the list without the publications of that id; stated by `DeletePublicationSpec` |
| Publications.DeletePublicationSpec | src/context/PublicationsContext.tsx:76-80 | deleting keeps exactly the publications with other ids, in order and each as often as before (the list shrinks by the number of matches), and is idempotent |
| Publications.StudentCourseIds | src/context/PublicationsContext.tsx:104-109 | the ids listed are exactly those of stored courses whose roster holds `s<userId>` |
| Publications.PublicationsForUser | src/context/PublicationsContext.tsx:82-114 | the publications a user sees by role; stated by `AdminSeesAll`, `TeacherSees` and `StudentSees` |
| Publications.AdminSeesAll | src/context/PublicationsContext.tsx:87-89 | staff see every publication |
| Publications.TeacherSees | src/context/PublicationsContext.tsx:92-96 | a teacher sees a publication exactly when it is for everyone or is their own |
| Publications.StudentSees | src/context/PublicationsContext.tsx:99-114 | a student sees a publication exactly when it is for everyone, or is for students and targets a stored course that enrols them |
| Publications.UntargetedHiddenFromStudents | src/context/PublicationsContext.tsx:110-114 | a students-only publication with no target courses is shown to no student |
| Publications.VisibleIsSubseqAndGeneralShown | src/context/PublicationsContext.tsx:82-117 | for every role the visible list keeps the order, and publications for everyone are always shown |
| Publications.NoSnapshotOnlyGeneral | src/context/PublicationsContext.tsx:101-102 | with no stored courses a student sees only the publications for everyone |
| Publications.EnrolledCourseScenario | src/context/PublicationsContext.tsx:104-114 | user `7`, enrolled as `s7` in course `c2`, sees the notice for `c2` but not the one for `c5` |
| Publications.InitialPublications | src/context/PublicationsContext.tsx:16-58 | the seed publications the store starts from when nothing is stored |
| Publications.PublicationStore.GetPublicationsForUser | src/context/PublicationsContext.tsx:82-114 | `PublicationsForUser` on the store's list and the courses held in storage |
| Publications.PublicationStore.constructor | src/context/PublicationsContext.tsx:61-64 | the list starts from the stored document, else the seed publications |
| Publications.PublicationStore.AddPublication | src/context/PublicationsContext.tsx:66-74 | the new publication goes first, the old list follows, and the list is written back |
| Publications.PublicationStore.DeletePublication | src/context/PublicationsContext.tsx:76-80 | the list loses the publication and is written back |
| Messaging.UnreadCount | src/context/MessagingProvider.tsx:90-92 | the number of unread inbox messages; `AddMessageCount` and `UnreadForAtMostUnread` state its behaviour |
| Messaging.UnreadCountFor | src/context/MessagingProvider.tsx:94-98 | the unread inbox messages addressed to one user; `UnreadForAtMostUnread` and `MarkReadLowersCount` state its behaviour |
| Messaging.UnreadForAtMostUnread | src/context/MessagingProvider.tsx:90-98 | one user's unread count never exceeds the global unread count |
| Messaging.MarkedRead | src/context/MessagingProvider.tsx:100-104 | the list with every message of that id read; stated by `MarkReadSpec` |
| Messaging.MarkReadSpec | src/context/MessagingProvider.tsx:100-104 | marking sets `read` on every message with the id, and on no other; marking again changes nothing |
| Messaging.MarkReadLowersCount | src/context/MessagingProvider.tsx:94-104 | marking a user's unread message lowers their unread count by one; marking a read one changes nothing |
| Messaging.NewMessage | src/context/MessagingProvider.tsx:106-113 | a new message gets the id `m<now>`, the draft's fields, and is read exactly when it is in "enviados" |
| Messaging.AddMessageCount | src/context/MessagingProvider.tsx:90-92 | adding a message raises the unread count by one exactly when it lands in "recibidos" |
| Messaging.InitialMessages | src/context/MessagingProvider.tsx:5-81 | the seven seed messages, bodies left empty (see Left out); the constructor starts from them |
| Messaging.MessageStore.Unread | src/context/MessagingProvider.tsx:90-92 | `unreadCount` of the store's current list |
| Messaging.MessageStore.GetUnreadCountForUser | src/context/MessagingProvider.tsx:94-98 | a user's unread count, never more than the store's global count |
| Messaging.MessageStore.constructor | src/context/MessagingProvider.tsx:84-88 | the list starts as the seed messages, which are written to storage |
| Messaging.MessageStore.MarkAsRead | src/context/MessagingProvider.tsx:100-104 | the list becomes the marked list and is written back |
| Messaging.MessageStore.AddMessage | src/context/MessagingProvider.tsx:106-113 | the new message goes first and the list is written back |
| Auth.ToUser | src/context/AuthContext.tsx:54-59 | the session user keeps the account's id, name, e-mail and role, and drops the password |
| Auth.FindUser | src/context/AuthContext.tsx:49-51 | an account is found exactly when one has the e-mail and password, and the one found has them |
| Auth.FindUserUnique | src/context/AuthContext.tsx:49-51 | with distinct e-mails, the account found is the only one with that e-mail |
| Auth.MockUsersTable | src/context/AuthContext.tsx:23-33 | the three demo accounts have distinct e-mails and ids, one per role, all with password `123456` |
| Auth.TeacherLogin | src/context/AuthContext.tsx:23-65 | the teacher's demo credentials sign in as user `2`, a Profesor; a wrong password does not |
| Auth.StoredUser | src/context/AuthContext.tsx:36-39 | the stored user is found exactly when the `user` key holds a user document |
| Auth.Session.constructor | src/context/AuthContext.tsx:36-39 | the session starts with the stored user, if any |
| Auth.Session.IsAuthenticated | src/context/AuthContext.tsx:77 | someone is signed in; `Login` ensures it on success and `Logout` ensures its negation |
| Auth.Session.Login | src/context/AuthContext.tsx:41-65 | succeeds exactly when some account matches; then the session user and the `user` key are set and the session is authenticated; otherwise nothing changes |
| Auth.Session.Logout | src/context/AuthContext.tsx:67-70 | clears the session user, so nobody is authenticated, and removes the `user` key only |
| Access.Guard | src/components/ProtectedRoute.tsx:10-22 | signed out goes to `/login`; a signed-in user outside the allowed roles goes to `/unauthorized`; anyone else sees the page |
| Access.Routes | src/App.tsx:36-195 | the route table in declaration order; `RoutePathsDistinct` and the route lemmas state what it admits |
| Access.RoutePath | src/App.tsx:36-195 | the form the router compares: trailing slashes dropped, the empty path read as `/`; `RoutePathIdempotent` and `TablePathsFixed` state its properties |
| Access.RuleFor | src/App.tsx:36-195 | the rule of the first route matching the path, else the catch-all redirect; stated by `RuleForSpec` and `RuleIs` |
| Access.RuleForSpec | src/App.tsx:36-195 | a path that, without its trailing slashes, matches no table path falls back to the login redirect; any other rule comes from the table entry it matches |
| Access.StripSlashes | src/App.tsx:36-195 | the path loses exactly its trailing slashes: the result is a prefix, everything cut is a slash, and it does not end in one |
| Access.TablePathsFixed | src/App.tsx:36-195 | the router reads every path of the table as itself |
| Access.RouterIgnoresTrailingSlash | src/App.tsx:36-195 | a path with one more trailing slash leads where the path does |
| Access.RoutePathIdempotent | src/App.tsx:36-195 | reading a path in the router's form twice gives what reading it once gives |
| Access.GuardLogin | src/components/ProtectedRoute.tsx:13-15 | the login redirect happens exactly when nobody is signed in |
| Access.GuardWithoutList | src/components/ProtectedRoute.tsx:17-19 | without a role list every user is admitted; an empty role list admits nobody |
| Access.RoutePathsDistinct | src/App.tsx:36-195 | no path appears twice in the route table |
| Access.StudentRoutes | src/App.tsx:77-79 | `/calificaciones` and `/asistencia` render exactly for students |
| Access.TeacherRoutes | src/App.tsx:86-88 | `/calificaciones-profesor` and `/asistencia-profesor` render exactly for teachers |
| Access.MyCoursesRoute | src/App.tsx:141-143 | `/mis-cursos` renders exactly for students and teachers |
| Access.Visit | src/App.tsx:36-195 | where a visit ends: open pages render, redirects go to login, guarded pages apply `Guard`; stated by `VisitGuarded`, `VisitOpen` and `VisitRedirect` |
| Access.VisitGuarded | src/App.tsx:36-195 | visiting a guarded path applies the guard with that route's role list |
| Access.RuleIs | src/App.tsx:36-195 | the rule found for a path is the table's entry for it |
| Access.OpenPages | src/App.tsx:36-37 | `/login` and `/unauthorized` render for anyone, signed in or not |
| Access.VisitOpen | src/App.tsx:36-37 | visiting an open route renders its page |
| Access.RootToLogin | src/App.tsx:194 | `/`, and the empty path read as `/`, lead to the login page |
| Access.UnlistedToLogin | src/App.tsx:195 | a path the table does not list, even once its trailing slashes are dropped, leads to the login page |
| Access.VisitRedirect | src/App.tsx:194-195 | a redirecting rule always ends at the login page |
| Access.AnyRoleRoutes | src/App.tsx:36-195 | a route guarded without roles renders for every signed-in user and sends the signed-out to the login page |
| Access.MenuFor | src/components/Sidebar.tsx:56-58 | teachers get the teacher menu, staff the staff menu, students and the signed-out the student menu |
| Access.MenusWellFormed | src/components/Sidebar.tsx:26-54 | no menu repeats a path, and every menu links to publications and messaging |
| Access.MenuLinksAdmitted | src/components/Sidebar.tsx:26-58 | every menu link of a signed-in user leads to a page the guard lets them see |
| Access.MenuRoute | src/components/Sidebar.tsx:26-54 | each menu link has a route, guarded either without a role list or with one holding the role whose menu it is |
| Access.StudentMenu | src/components/Sidebar.tsx:26-35 | the student menu; `StudentMenuRoute` and `MenusWellFormed` state its links |
| Access.StudentMenuRoute | src/components/Sidebar.tsx:26-35 | each student link has a route that admits students |
| Access.TeacherMenu | src/components/Sidebar.tsx:37-44 | the teacher menu; `TeacherMenuRoute` and `MenusWellFormed` state its links |
| Access.TeacherMenuRoute | src/components/Sidebar.tsx:37-44 | each teacher link has a route that admits teachers |
| Access.AdminMenu | src/components/Sidebar.tsx:46-54 | the staff menu; `AdminMenuRoute` and `MenusWellFormed` state its links |
| Access.AdminMenuRoute | src/components/Sidebar.tsx:46-54 | each staff link has a route guarded without a role list |
| Access.SignedOutLinksToLogin | src/components/Sidebar.tsx:56 | every link of the menu shown when signed out leads to the login page |
| Access.IsActive | src/components/Sidebar.tsx:24 | a link is highlighted when the location is its path; `AtMostOneActive` states that at most one is |
| Access.AtMostOneActive | src/components/Sidebar.tsx:24 | at most one menu entry is highlighted for any location |
| MyCoursesPage.MyCourses | src/pages/MisCursos.tsx:16-32 | signed out, or as staff, the list is empty |
| MyCoursesPage.MyCoursesSubseq | src/pages/MisCursos.tsx:16-32 | whatever the role, the list keeps the courses' order |
| MyCoursesPage.TeacherSeesTaught | src/pages/MisCursos.tsx:20-22 | a teacher sees exactly the courses assigned to their id |
| MyCoursesPage.StudentSeesEnrolled | src/pages/MisCursos.tsx:25-29 | a student sees exactly the courses whose roster holds `s<user id>` |
| MyCoursesPage.SameAsAttendancePage | src/pages/AsistenciaProfesor.tsx:53-55 | a teacher's list here is the list the attendance page offers |
| AttendancePage.TeacherCourses | src/pages/AsistenciaProfesor.tsx:53-55 | the courses the page lists for the user; stated by `TeacherCoursesSpec` |
| AttendancePage.TeacherCoursesSpec | src/pages/AsistenciaProfesor.tsx:53-55 | the page lists exactly the courses whose teacher id equals the user's id, in order |
| AttendancePage.NoUserSeesUntaught | src/pages/AsistenciaProfesor.tsx:53-55 | with no user, `undefined === undefined` makes the page list exactly the courses without a teacher |
| AttendancePage.CurrentCourse | src/pages/AsistenciaProfesor.tsx:67-70 | a course is current exactly when one of the user's courses has the selected id |
| AttendancePage.InitialSelection | src/pages/AsistenciaProfesor.tsx:57-65 | a valid navigation id wins; otherwise the selection stays or becomes a course of the user; with none selected and courses available, a course is selected |
| AttendancePage.StudentName | src/pages/AsistenciaProfesor.tsx:85-88 | the name shown is the first roster name for the id, or the unknown-student label |
| AttendancePage.ToRecords | src/pages/AsistenciaProfesor.tsx:171-174 | the stored records keep each row's student id and status, in order |
| AttendancePage.CourseAttendance | src/pages/AsistenciaProfesor.tsx:73-93 | the stored days of the selected course as shown; stated by `CourseAttendanceSpec` |
| AttendancePage.CourseAttendanceSpec | src/pages/AsistenciaProfesor.tsx:73-93 | one view per stored day of the course, each carrying the course name and that day's records |
| AttendancePage.MonthFiltered | src/pages/AsistenciaProfesor.tsx:96-104 | the shown days of the chosen month; stated by `MonthFilteredSpec` |
| AttendancePage.MonthFilteredSpec | src/pages/AsistenciaProfesor.tsx:96-104 | the month view keeps exactly the weekdays of the chosen month, in order |
| AttendancePage.FlattenSnoc | src/pages/AsistenciaProfesor.tsx:107-137 | flattening a list of weeks with one more week appends that week's days |
| AttendancePage.CloseWeek | src/pages/AsistenciaProfesor.tsx:116-134 | closing an unbroken week after a cut keeps the weeks well cut and loses no day |
| AttendancePage.PlaceDay | src/pages/AsistenciaProfesor.tsx:111-129 | placing one day keeps the grouping invariant and appends the day to the days seen |
| AttendancePage.GroupWeeks | src/pages/AsistenciaProfesor.tsx:107-137 | the weeks hold exactly the days, in order, cut exactly before each Monday and after each Friday |
| AttendancePage.MondayOpensFridayCloses | src/pages/AsistenciaProfesor.tsx:115-128 | a Monday only ever opens a week, and a Friday only ever closes one |
| AttendancePage.WeekAt | src/pages/AsistenciaProfesor.tsx:139 | the current week is the week at the index, or empty when the index is out of range |
| AttendancePage.Tally | src/pages/AsistenciaProfesor.tsx:495-498 | the rows of a day with one status; `TalliesSum` states the four add up |
| AttendancePage.TalliesSum | src/pages/AsistenciaProfesor.tsx:495-500 | the four status tallies of a day add up to its number of rows |
| AttendancePage.Border | src/pages/AsistenciaProfesor.tsx:501-512 | the day's border colour; stated by `BorderSpec` |
| AttendancePage.BorderSpec | src/pages/AsistenciaProfesor.tsx:501-512 | the day is green when everyone is present, red when nobody is and the day has rows, amber when some are and some are not |
| AttendancePage.Roster | src/pages/AsistenciaProfesor.tsx:151-157 | a new sheet lists the roster in order, everyone marked present |
| AttendancePage.StartingSheet | src/pages/AsistenciaProfesor.tsx:141-160 | the sheet a recording starts from; stated by `StartOnStoredDay` and `StartOnNewDay` |
| AttendancePage.StartOnStoredDay | src/pages/AsistenciaProfesor.tsx:141-160 | on a day already stored, the sheet reproduces the records of the first stored day for that course and date |
| AttendancePage.StartOnNewDay | src/pages/AsistenciaProfesor.tsx:141-160 | on a day not yet stored, the sheet is the full roster marked present |
| AttendancePage.WithStatus | src/pages/AsistenciaProfesor.tsx:162-166 | the sheet with one student's status changed; stated by `WithStatusSpec` and `WithStatusLastWins` |
| AttendancePage.WithStatusSpec | src/pages/AsistenciaProfesor.tsx:162-166 | only the rows of the student change, to the new status; applying it again changes nothing |
| AttendancePage.WithStatusLastWins | src/pages/AsistenciaProfesor.tsx:162-166 | two status changes for one student leave the second |
| AttendancePage.TeacherAttendancePage.constructor | src/pages/AsistenciaProfesor.tsx:31-36 | nothing selected, the default month, today's date, the first week and not recording |
| AttendancePage.TeacherAttendancePage.SelectInitialCourse | src/pages/AsistenciaProfesor.tsx:57-65 | the selection becomes the initial selection and nothing else changes |
| AttendancePage.TeacherAttendancePage.StartRecording | src/pages/AsistenciaProfesor.tsx:141-160 | without a current course nothing changes; otherwise recording starts with the starting sheet for the selected date |
| AttendancePage.TeacherAttendancePage.UpdateStatus | src/pages/AsistenciaProfesor.tsx:162-166 | the sheet gets the new status for that student; nothing else changes |
| AttendancePage.TeacherAttendancePage.SaveAttendanceData | src/pages/AsistenciaProfesor.tsx:168-185 | without a current course nothing changes; otherwise the sheet is upserted for (date, course) in the store and recording stops |
| AttendancePage.TeacherAttendancePage.CancelRecording | src/pages/AsistenciaProfesor.tsx:187-190 | recording stops and the sheet is discarded |
| GradesPage.Numbers | src/pages/CalificacionesProfesor.tsx:19 | the numeric grades are no more than the periods, and none exactly when every period is ungraded |
| GradesPage.NumbersInRange | src/pages/CalificacionesProfesor.tsx:19 | the numeric grades stay within any bounds the grades respect |
| GradesPage.SumBounds | src/pages/CalificacionesProfesor.tsx:21 | a sum of bounded values lies between count times low and count times high |
| GradesPage.MeanBounds | src/pages/CalificacionesProfesor.tsx:21 | a mean of bounded values is bounded |
| GradesPage.RoundTenth | src/pages/CalificacionesProfesor.tsx:22 | `Math.round(x * 10) / 10`; `RoundTenthClose` bounds its error |
| GradesPage.RoundTenthClose | src/pages/CalificacionesProfesor.tsx:22 | rounding to a tenth moves a value by at most five hundredths |
| GradesPage.ComputeAverage | src/pages/CalificacionesProfesor.tsx:18-23 | there is no average exactly when no period is graded |
| GradesPage.AverageInRange | src/pages/CalificacionesProfesor.tsx:18-23 | when every grade lies in 0..20, so does the average |
| GradesPage.MeanOfBounded | src/pages/CalificacionesProfesor.tsx:21 | the mean of values within bounds is within the same bounds |
| GradesPage.AverageNearMean | src/pages/CalificacionesProfesor.tsx:18-23 | the average is the mean of the graded periods, rounded to the nearest tenth |
| GradesPage.StoredGrades | src/pages/CalificacionesProfesor.tsx:60-64 | with a saved sheet, the student's grades are those of the first record on it with the student's id, and four empty periods when no record has it; without a sheet, four empty periods |
| GradesPage.CurrentGrades | src/pages/CalificacionesProfesor.tsx:54-67 | the rows the grades page shows; stated by `CurrentGradesSpec` |
| GradesPage.CurrentGradesSpec | src/pages/CalificacionesProfesor.tsx:54-67 | one row per roster entry, in order, with its id and name; when some saved sheet is for the course, each row's grades come from the first such sheet; all empty when the course has no saved sheet |
| GradesPage.SetPeriod | src/pages/CalificacionesProfesor.tsx:112-115 | setting a period changes only that period, padding any gap with empty periods |
| GradesPage.SetPeriodKeepsValid | src/pages/CalificacionesProfesor.tsx:104-118 | an accepted value keeps every period within 0..20 |
| GradesPage.SavePayload | src/pages/CalificacionesProfesor.tsx:89-92 | one record per row, in order, with the edited grades when the student was edited and the shown grades otherwise |
| GradesPage.CopyGrades | src/pages/CalificacionesProfesor.tsx:73-78 | the edit copy maps every row's id to the grades of the last row with that id |
| GradesPage.EditCopySnoc | src/pages/CalificacionesProfesor.tsx:73-78 | copying one more row, overwriting its id, keeps the copy faithful to the rows copied so far |
| GradesPage.SaveUntouchedCopy | src/pages/CalificacionesProfesor.tsx:71-102 | saving straight after starting an edit saves the grades shown |
| GradesPage.UpdateKeepsValid | src/pages/CalificacionesProfesor.tsx:104-118 | an accepted update keeps the edited student's periods within 0..20 |
| GradesPage.GradesPage.constructor | src/pages/CalificacionesProfesor.tsx:29-31 | nothing selected, not editing, no edits |
| GradesPage.GradesPage.SelectInitialCourse | src/pages/CalificacionesProfesor.tsx:38-46 | the selection follows the same rule as on the attendance page; nothing else changes |
| GradesPage.GradesPage.StartEdit | src/pages/CalificacionesProfesor.tsx:71-79 | without a current course nothing changes; otherwise editing starts with a copy of every row's grades |
| GradesPage.GradesPage.CancelEdit | src/pages/CalificacionesProfesor.tsx:81-84 | editing stops and the edits are discarded |
| GradesPage.GradesPage.UpdateGrade | src/pages/CalificacionesProfesor.tsx:104-118 | a value is accepted exactly when it is empty or in 0..20; an accepted value sets that period of that student, a refused one changes nothing |
| GradesPage.GradesPage.SaveGrades | src/pages/CalificacionesProfesor.tsx:86-102 | without a current course nothing changes; otherwise the sheet is upserted in the store and editing stops |
| StudentsPage.PhoneFor | src/pages/AlumnosMatriculados.tsx:37-39 | students `s1`, `s2` and `s3` get their own numbers and everyone else the shared one |
| StudentsPage.PlacementsOf | src/pages/AlumnosMatriculados.tsx:26-36 | a course contributes each roster entry, in order, with its level and section |
| StudentsPage.Enrolled | src/pages/AlumnosMatriculados.tsx:23-52 | the enrolled-students table as a function of the roster entries; `EnrolledSpec` states it and `EnrolledStudents` computes it with the loop |
| StudentsPage.EnrolledSpec | src/pages/AlumnosMatriculados.tsx:23-52 | the table lists each student id once, in order of first appearance, with the first course's details and the number of rosters holding the id |
| StudentsPage.DescribesStep | src/pages/AlumnosMatriculados.tsx:28-46 | handling one more roster entry keeps the table distinct, covering, correctly counted, first-course and first-appearance ordered |
| StudentsPage.VisitEntry | src/pages/AlumnosMatriculados.tsx:28-46 | one roster entry updates the table as the table's definition says |
| StudentsPage.VisitRoster | src/pages/AlumnosMatriculados.tsx:27-48 | visiting one roster extends the table as if those entries had been seen in order |
| StudentsPage.EnrolledStudents | src/pages/AlumnosMatriculados.tsx:23-52 | the loop builds exactly the table that describes all rosters |
| StudentsPage.Levels | src/pages/AlumnosMatriculados.tsx:55-58 | the levels are listed once each, and are exactly the students' levels |
| StudentsPage.SumCountsDistinct | src/pages/AlumnosMatriculados.tsx:72-80 | summing per-level counts over distinct levels counts the students in those levels |
| StudentsPage.StatsAddUp | src/pages/AlumnosMatriculados.tsx:72-80 | the per-level counts add up to the total |
| StudentsPage.FilteredStudents | src/pages/AlumnosMatriculados.tsx:61-69 | the students the search and level filter keep; stated by `FilteredStudentsSpec` |
| StudentsPage.FilteredStudentsSpec | src/pages/AlumnosMatriculados.tsx:61-69 | the filtered list keeps the order and holds exactly the students matching both search and level |
| StudentsPage.NoFilterShowsAll | src/pages/AlumnosMatriculados.tsx:61-69 | an empty search with level `all` shows every student |
| StudentsPage.SearchIgnoresCaseOfName | src/pages/AlumnosMatriculados.tsx:63 | a name matches a search for itself in any letter case |
| TeachersPage.FilteredTeachers | src/pages/ProfesoresContratados.tsx:71-84 | the teachers the search and assignment filter keep; stated by `FilteredTeachersSpec` |
| TeachersPage.FilteredTeachersSpec | src/pages/ProfesoresContratados.tsx:71-84 | for each of the three filters, exactly the matching teachers are listed, in order |
| TeachersPage.EmptySearchMatchesAll | src/pages/ProfesoresContratados.tsx:73-75 | an empty search matches every teacher |
| TeachersPage.NoFilterShowsAll | src/pages/ProfesoresContratados.tsx:71-84 | an empty search with filter `all` shows every teacher |
| TeachersPage.TeacherStats | src/pages/ProfesoresContratados.tsx:87-94 | the total is the number of teachers and at most that many are assigned |
| TeachersPage.StatsAddUp | src/pages/ProfesoresContratados.tsx:87-94 | the unassigned count is the number of teachers without both a grade and a section, and the two counts add up to the total |
| TeachersPage.StatsMatchFilters | src/pages/ProfesoresContratados.tsx:71-94 | the two counts are the lengths of the assigned and unassigned lists |
| TeachersPage.CountThreeOfFive | src/pages/ProfesoresContratados.tsx:87-93 | five teachers of whom exactly the first, second and fifth are assigned count three assigned |
| TeachersPage.InitialStats | src/pages/ProfesoresContratados.tsx:16-58 | the seed data gives five teachers, three assigned and two not |
| TeachersPage.Replaced | src/pages/ProfesoresContratados.tsx:101-106 | the list with the edited teacher put in place; stated by `ReplacedSpec` |
| TeachersPage.ReplacedSpec | src/pages/ProfesoresContratados.tsx:101-106 | the teacher with the edited id is replaced and every other is kept |
| TeachersPage.Unassigned | src/pages/ProfesoresContratados.tsx:108-112 | the list with one teacher's grade and section cleared; stated by `UnassignedSpec` |
| TeachersPage.UnassignedSpec | src/pages/ProfesoresContratados.tsx:108-112 | only the teacher with the id loses grade and section; unassigning again changes nothing |
| TeachersPage.UnassignLowersAssigned | src/pages/ProfesoresContratados.tsx:87-112 | unassigning an assigned teacher lowers the assigned count by one, and an unassigned one leaves it |
| TeachersPage.ChoicesEnableAssign | src/pages/ProfesoresContratados.tsx:270-303 | once a grade and a section are chosen from the lists, the assign button is enabled |
| TeachersPage.TeachersPageState.constructor | src/pages/ProfesoresContratados.tsx:64-68 | the seed teachers, no search, filter `all`, no modal |
| TeachersPage.TeachersPageState.OpenAssignModal | src/pages/ProfesoresContratados.tsx:96-99 | the teacher becomes the one being edited and the modal opens |
| TeachersPage.TeachersPageState.ChooseGrade | src/pages/ProfesoresContratados.tsx:270 | the edited teacher gets the grade; the list is untouched |
| TeachersPage.TeachersPageState.ChooseSection | src/pages/ProfesoresContratados.tsx:284 | the edited teacher gets the section; the list is untouched |
| TeachersPage.TeachersPageState.HandleAssign | src/pages/ProfesoresContratados.tsx:101-106 | with no teacher being edited nothing changes; otherwise the edited teacher replaces the one with its id and the modal closes |
| TeachersPage.TeachersPageState.HandleUnassign | src/pages/ProfesoresContratados.tsx:108-112 | the teacher with the id loses grade and section; nothing else changes |
| CoursesPage.TeachersTable | src/pages/Cursos.tsx:21-26 | the teacher options have distinct ids, and the first is the demo teacher account |
| CoursesPage.DemoTeacherNamed | src/pages/Cursos.tsx:21-26 | choosing teacher `2` records the name María García |
| CoursesPage.Toggled | src/pages/Cursos.tsx:69-77 | the expanded set with one course flipped; stated by `ToggledSpec` and `ToggleTwice` |
| CoursesPage.ToggledSpec | src/pages/Cursos.tsx:69-77 | toggling flips whether that course is expanded and no other |
| CoursesPage.ToggleTwice | src/pages/Cursos.tsx:69-77 | toggling twice restores the expanded set |
| CoursesPage.CoursesPageState.constructor | src/pages/Cursos.tsx:15-18 | no modal open, no course selected, nothing expanded |
| CoursesPage.CoursesPageState.HandleAddCourse | src/pages/Cursos.tsx:28-31 | no course selected and the course modal open |
| CoursesPage.CoursesPageState.HandleEditCourse | src/pages/Cursos.tsx:33-36 | the course selected and the course modal open |
| CoursesPage.CoursesPageState.HandleSaveCourse | src/pages/Cursos.tsx:38-44 | with a course selected, it is patched with the form data; otherwise a new course is added |
| CoursesPage.CoursesPageState.HandleDeleteCourse | src/pages/Cursos.tsx:46-50 | the course is deleted exactly when the user confirms |
| CoursesPage.CoursesPageState.HandleAddStudent | src/pages/Cursos.tsx:52-55 | the course selected and the student modal open |
| CoursesPage.CoursesPageState.HandleSaveStudent | src/pages/Cursos.tsx:57-61 | with a course selected, the student joins its roster; otherwise nothing changes |
| CoursesPage.CoursesPageState.HandleRemoveStudent | src/pages/Cursos.tsx:63-67 | the student leaves the roster exactly when the user confirms |
| CoursesPage.CoursesPageState.ToggleCourseExpanded | src/pages/Cursos.tsx:69-77 | the expanded set is toggled for the course; nothing else changes |
| CourseModal.Prefill | src/components/CourseModal.tsx:37-49 | editing fills the form from the course, and a new course starts blank |
| CourseModal.TeacherNameFor | src/components/CourseModal.tsx:57-65 | no teacher with the id gives no name; a name given is non-empty and belongs to the first teacher with the id |
| CourseModal.TeacherNameOfFirst | src/components/CourseModal.tsx:57-65 | the first teacher with the id, when named, gives that name |
| CourseModal.Submit | src/components/CourseModal.tsx:51-67 | refused exactly when the name is blank or level or section is missing; otherwise the trimmed name, the choices, an empty teacher id as none, and the chosen teacher's name |
| CourseModal.EditWithoutChangesKeepsCourse | src/components/CourseModal.tsx:37-67 | submitting a prefilled, unchanged form of a well-formed course returns that course's data |
| CourseModal.ChoicesAccepted | src/components/CourseModal.tsx:15-29 | a non-blank name with a level and a section from the lists is accepted |
| CourseModal.CourseForm.constructor | src/components/CourseModal.tsx:32-35 | the form starts blank |
| CourseModal.CourseForm.Open | src/components/CourseModal.tsx:37-49 | opening prefills the form |
| CourseModal.CourseForm.EditName | src/components/CourseModal.tsx:32 | only the name changes |
| CourseModal.CourseForm.ChooseLevel | src/components/CourseModal.tsx:33 | only the level changes |
| CourseModal.CourseForm.ChooseSection | src/components/CourseModal.tsx:34 | only the section changes |
| CourseModal.CourseForm.ChooseTeacher | src/components/CourseModal.tsx:35 | only the teacher id changes |
| CourseModal.CourseForm.HandleSubmit | src/components/CourseModal.tsx:51-67 | refused exactly when a required field is missing; otherwise the submitted data with the trimmed name |
| StudentModal.Submit | src/components/StudentModal.tsx:19-34 | refused exactly when name, DNI or e-mail is blank; otherwise the three trimmed, non-empty fields |
| StudentModal.SubmitIdempotent | src/components/StudentModal.tsx:19-34 | submitting the submitted data again gives the same data |
| StudentModal.SubmitIgnoresPadding | src/components/StudentModal.tsx:19-34 | white space around the name changes nothing |
| StudentModal.StudentForm.constructor | src/components/StudentModal.tsx:15-17 | the form starts empty |
| StudentModal.StudentForm.EditName | src/components/StudentModal.tsx:15 | only the name changes |
| StudentModal.StudentForm.EditDni | src/components/StudentModal.tsx:16 | only the DNI changes |
| StudentModal.StudentForm.EditEmail | src/components/StudentModal.tsx:17 | only the e-mail changes |
| StudentModal.StudentForm.HandleSubmit | src/components/StudentModal.tsx:19-34 | returns the submission; the form is emptied on success and kept on refusal |
| StudentModal.StudentForm.HandleClose | src/components/StudentModal.tsx:36-41 | the form is emptied |
| PublicationModal.AvailableCourses | src/components/PublicationModal.tsx:32-34 | staff may target every course |
| PublicationModal.AvailableCoursesSpec | src/components/PublicationModal.tsx:32-34 | a teacher may target exactly their own courses, in order |
| PublicationModal.Toggled | src/components/PublicationModal.tsx:70-76 | the selection with one course flipped; stated by `ToggledSpec` and `ToggledDistinct` |
| PublicationModal.ToggledSpec | src/components/PublicationModal.tsx:70-76 | toggling flips whether that course is selected and no other |
| PublicationModal.ToggledDistinct | src/components/PublicationModal.tsx:70-76 | a selection without repeats stays without repeats |
| PublicationModal.ToggleTwiceUnselected | src/components/PublicationModal.tsx:70-76 | toggling an unselected course twice restores the selection exactly |
| PublicationModal.ToggleTwiceSelected | src/components/PublicationModal.tsx:70-76 | toggling a selected course twice keeps the same courses but moves that one to the end |
| PublicationModal.ToggleTwiceReorders | src/components/PublicationModal.tsx:70-76 | with `c1, c2` selected, toggling `c1` twice gives `c2, c1` |
| PublicationModal.CheckAndBuild | src/components/PublicationModal.tsx:36-60 | a blank title or content is refused; a students-only notice with no course is refused; otherwise the draft carries the trimmed texts, the author, and courses only when for students |
| PublicationModal.SavedStudentsHaveCourses | src/components/PublicationModal.tsx:42-55 | a saved students-only notice always names at least one course |
| PublicationModal.PublicationForm.constructor | src/components/PublicationModal.tsx:26-29 | the form starts reset |
| PublicationModal.PublicationForm.EditTitle | src/components/PublicationModal.tsx:26 | only the title changes |
| PublicationModal.PublicationForm.EditContent | src/components/PublicationModal.tsx:27 | only the content changes |
| PublicationModal.PublicationForm.ChangeAudience | src/components/PublicationModal.tsx:135-138 | the audience changes and the course selection is cleared |
| PublicationModal.PublicationForm.ToggleCourse | src/components/PublicationModal.tsx:70-76 | the selection is toggled for the course |
| PublicationModal.PublicationForm.HandleClose | src/components/PublicationModal.tsx:62-68 | the form is reset |
| PublicationModal.PublicationForm.HandleSave | src/components/PublicationModal.tsx:36-60 | on success returns the draft and resets the form; on refusal returns nothing and changes nothing |
| CourseColors.GetCursoColor | src/data/cursos.ts:33-35 | an unknown name gets `gray`; any other colour is the table's entry for the name |
| CourseColors.CursosColores | src/data/cursos.ts:2-11 | the course-name colour table; `TableColors` and `ColorValues` state its values |
| CourseColors.TableColors | src/data/cursos.ts:2-11 | every listed name gets its own table colour, never the fallback |
| CourseColors.ColorValues | src/data/cursos.ts:2-11 | every table colour is one of the eight palette names |
| CourseColors.CursosAlumno | src/data/cursos.ts:22-30 | the student's seven courses; stated by `CursosAlumnoTable` |
| CourseColors.CursosAlumnoTable | src/data/cursos.ts:22-30 | seven courses numbered 1 to 7, each named in the colour table and coloured by it |

## Left out

- JSON parsing and printing: storage holds typed documents, so a malformed or wrongly shaped stored value is not modelled.
- `Date.now()` and `new Date()`: the time and today's date are parameters.
- The calendar: day of week and month of a date string are function parameters of the attendance page.
- Floating point: grades are reals, and `Math.round` is floor of x·10 + 0.5.
- GradesPage.GradesPage.UpdateGrade: takes the parsed grade. `parseFloat` of text that is not a number (NaN passes both range tests) is not modelled.
- Routing and navigation: `Navigate`, `useLocation` state (a parameter) and the timing of `useEffect` runs are not modelled.
- `alert` is not modelled. `window.confirm` is a `confirmed` parameter.
- Rendering: JSX, CSS classes and icons, and the DOM check in the course card's click handler.
- Text.LowerChar: lower-cases ASCII and Latin-1 capitals only, not the rest of Unicode.
- CourseColors.GetCursoColor: does not model prototype keys such as `toString` on the colour record.
- The placeholder pages (dashboard, profile, payments, schedules, users, reports) hold no logic and are not modelled.
- Messaging.MessageStore.constructor: does not read stored messages back, matching the code.
- Messaging.InitialMessages: the seed messages keep their ids, senders, recipients, subjects, dates, folders and read flags, but their bodies are empty strings; no operation reads a body, and the full texts are left out to keep the proof about the seeded constructor small.
- Access.RuleFor, Access.RuleForSpec, Access.UnlistedToLogin: match paths with letter case exactly, while the router compares them without regard to case (`/Login` renders the login page); every path the application links or redirects to is written in lower case. Percent-encoded characters in the location are not decoded before matching either.
- Concurrency between browser tabs writing the same storage is not modelled.
