/** The hired-teachers page of src/pages/ProfesoresContratados.tsx: a
    local list of teachers, a search with an assignment filter, the
    assigned/unassigned tallies, and the assign and unassign handlers. */
module TeachersPage {
  import opened Wrappers
  import opened Lists
  import Text

  /** A teacher; the grade and section are absent until assigned, and the
      assignment form can also leave them as the empty string. */
  datatype Teacher = Teacher(
    id: string,
    name: string,
    email: string,
    phone: string,
    specialty: string,
    assignedGrade: Option<string>,
    assignedSection: Option<string>)

  /** `t.assignedGrade && t.assignedSection`: both present and non-empty
      (the empty string is falsy). */
  predicate HasAssignment(t: Teacher) {
    && t.assignedGrade.Some? && t.assignedGrade.value != ""
    && t.assignedSection.Some? && t.assignedSection.value != ""
  }

  const InitialTeachers: seq<Teacher> := [
    Teacher("t1", "Mar\U{00ED}a Garc\U{00ED}a", "maria.garcia@colegio.com", "+51 987654321", "Matem\U{00E1}ticas", Some("5to Primaria"), Some("A")),
    Teacher("t2", "Carlos Rodr\U{00ED}guez", "carlos.rodriguez@colegio.com", "+51 987654322", "Comunicaci\U{00F3}n", Some("4to Primaria"), Some("B")),
    Teacher("t3", "Ana Torres", "ana.torres@colegio.com", "+51 987654323", "Ciencias Naturales", None, None),
    Teacher("t4", "Roberto S\U{00E1}nchez", "roberto.sanchez@colegio.com", "+51 987654324", "Educaci\U{00F3}n F\U{00ED}sica", None, None),
    Teacher("t5", "Patricia Mendoza", "patricia.mendoza@colegio.com", "+51 987654325", "Ingl\U{00E9}s", Some("3ro Primaria"), Some("A"))
  ]

  /** The choices the assignment form offers. */
  const GradeChoices: seq<string> := ["1ro Primaria", "2do Primaria", "3ro Primaria", "4to Primaria", "5to Primaria", "6to Primaria"]
  const SectionChoices: seq<string> := ["A", "B", "C"]

  /** The assignment filter of the toolbar. */
  datatype AssignmentFilter = AllTeachers | AssignedOnly | UnassignedOnly

  /** Case-insensitive substring match on name, email or specialty. */
  predicate MatchesSearch(t: Teacher, term: string) {
    || Text.Contains(Text.ToLower(t.name), Text.ToLower(term))
    || Text.Contains(Text.ToLower(t.email), Text.ToLower(term))
    || Text.Contains(Text.ToLower(t.specialty), Text.ToLower(term))
  }

  predicate MatchesFilter(t: Teacher, f: AssignmentFilter) {
    match f
    case AllTeachers => true
    case AssignedOnly => HasAssignment(t)
    case UnassignedOnly => !HasAssignment(t)
  }

  predicate Shown(t: Teacher, term: string, f: AssignmentFilter) {
    MatchesSearch(t, term) && MatchesFilter(t, f)
  }

  function FilteredTeachers(ts: seq<Teacher>, term: string, f: AssignmentFilter): seq<Teacher>
  {
    Filter(ts, (t: Teacher) => Shown(t, term, f))
  }

  /** The list shown keeps the teachers' order; under "all" it holds every
      search match, under "assigned" the matches with both fields set, and
      under "unassigned" the other matches. */
  lemma FilteredTeachersSpec(ts: seq<Teacher>, term: string)
    ensures forall f :: IsSubseq(FilteredTeachers(ts, term, f), ts)
    ensures forall t :: t in FilteredTeachers(ts, term, AllTeachers) <==> t in ts && MatchesSearch(t, term)
    ensures forall t :: t in FilteredTeachers(ts, term, AssignedOnly) <==> t in ts && MatchesSearch(t, term) && HasAssignment(t)
    ensures forall t :: t in FilteredTeachers(ts, term, UnassignedOnly) <==> t in ts && MatchesSearch(t, term) && !HasAssignment(t)
  {
    forall f ensures IsSubseq(FilteredTeachers(ts, term, f), ts) {
      FilterIsSubseq(ts, (t: Teacher) => Shown(t, term, f));
    }
  }

  /** An empty search term matches every teacher. */
  lemma EmptySearchMatchesAll(t: Teacher)
    ensures MatchesSearch(t, "")
  {
    Text.ContainsEmpty(Text.ToLower(t.name));
  }

  /** With an empty search the "all" filter shows the whole list. */
  lemma NoFilterShowsAll(ts: seq<Teacher>)
    ensures FilteredTeachers(ts, "", AllTeachers) == ts
  {
    forall t | t in ts ensures Shown(t, "", AllTeachers) {
      EmptySearchMatchesAll(t);
    }
    FilterAll(ts, (t: Teacher) => Shown(t, "", AllTeachers));
  }

  /** The header figures. */
  datatype Stats = Stats(total: nat, assignedCount: nat, unassignedCount: int)

  function TeacherStats(ts: seq<Teacher>): (s: Stats)
    ensures s.total == |ts| && s.assignedCount <= s.total
  {
    var n := Count(ts, HasAssignment);
    Stats(|ts|, n, |ts| - n)
  }

  /** The unassigned figure is the number of teachers lacking an
      assignment, so the two figures add up to the total. */
  lemma StatsAddUp(ts: seq<Teacher>)
    ensures TeacherStats(ts).unassignedCount == Count(ts, (t: Teacher) => !HasAssignment(t))
    ensures TeacherStats(ts).assignedCount + TeacherStats(ts).unassignedCount == TeacherStats(ts).total
  {
    var always := (t: Teacher) => true;
    CountDisjoint(ts, HasAssignment, (t: Teacher) => !HasAssignment(t), always);
    CountFull(ts, always);
  }

  /** With no search term, the "assigned" and "unassigned" filters list as
      many teachers as the corresponding figures. */
  lemma StatsMatchFilters(ts: seq<Teacher>)
    ensures |FilteredTeachers(ts, "", AssignedOnly)| == TeacherStats(ts).assignedCount
    ensures |FilteredTeachers(ts, "", UnassignedOnly)| == TeacherStats(ts).unassignedCount
  {
    forall t | t in ts ensures MatchesSearch(t, "") {
      EmptySearchMatchesAll(t);
    }
    FilterExt(ts, (t: Teacher) => Shown(t, "", AssignedOnly), HasAssignment);
    FilterExt(ts, (t: Teacher) => Shown(t, "", UnassignedOnly), (t: Teacher) => !HasAssignment(t));
    StatsAddUp(ts);
  }

  /** Five teachers of whom the first two and the last are assigned give
      three assigned. */
  lemma {:induction false} CountThreeOfFive(ts: seq<Teacher>)
    requires |ts| == 5
    requires HasAssignment(ts[0]) && HasAssignment(ts[1]) && HasAssignment(ts[4])
    requires !HasAssignment(ts[2]) && !HasAssignment(ts[3])
    ensures Count(ts, HasAssignment) == 3
  {
    assert ts[4..][1..] == [];
    assert Filter(ts[4..], HasAssignment) == [ts[4]];
    assert ts[3..][1..] == ts[4..];
    assert Filter(ts[3..], HasAssignment) == [ts[4]];
    assert ts[2..][1..] == ts[3..];
    assert Filter(ts[2..], HasAssignment) == [ts[4]];
    assert ts[1..][1..] == ts[2..];
    assert Filter(ts[1..], HasAssignment) == [ts[1], ts[4]];
    assert Filter(ts, HasAssignment) == [ts[0], ts[1], ts[4]];
  }

  /** The seeded list: five teachers, t1, t2 and t5 assigned. */
  lemma InitialStats()
    ensures TeacherStats(InitialTeachers) == Stats(5, 3, 2)
  {
    CountThreeOfFive(InitialTeachers);
  }

  /** `handleAssign`'s list update: the teacher with the edited copy's id
      is replaced by that copy. */
  function Replaced(ts: seq<Teacher>, edited: Teacher): seq<Teacher>
  {
    seq(|ts|, i requires 0 <= i < |ts| => if ts[i].id == edited.id then edited else ts[i])
  }

  /** Only the teacher carrying the edited copy's id changes, and the list
      keeps its length and order. */
  lemma ReplacedSpec(ts: seq<Teacher>, edited: Teacher)
    ensures var r := Replaced(ts, edited);
            && |r| == |ts|
            && (forall i :: 0 <= i < |ts| && ts[i].id != edited.id ==> r[i] == ts[i])
            && (forall i :: 0 <= i < |ts| && ts[i].id == edited.id ==> r[i] == edited)
  {
  }

  /** `handleUnassign`'s list update: the teacher with that id loses its
      grade and section. */
  function Unassigned(ts: seq<Teacher>, id: string): seq<Teacher>
  {
    seq(|ts|, i requires 0 <= i < |ts| => if ts[i].id == id then ts[i].(assignedGrade := None, assignedSection := None) else ts[i])
  }

  /** Unassigning keeps every other teacher, keeps the matching teacher's
      own data, leaves it counted as unassigned, and is idempotent. */
  lemma UnassignedSpec(ts: seq<Teacher>, id: string)
    ensures var r := Unassigned(ts, id);
            && |r| == |ts|
            && (forall i :: 0 <= i < |ts| && ts[i].id != id ==> r[i] == ts[i])
            && (forall i :: 0 <= i < |ts| && ts[i].id == id ==>
                  && r[i].id == ts[i].id && r[i].name == ts[i].name && r[i].email == ts[i].email
                  && r[i].phone == ts[i].phone && r[i].specialty == ts[i].specialty
                  && !HasAssignment(r[i]))
            && Unassigned(r, id) == r
  {
  }

  /** Where teacher `i` is the only one with its id, unassigning it lowers
      the assigned figure by one if it was assigned and leaves it alone
      otherwise. */
  lemma {:induction false} UnassignLowersAssigned(ts: seq<Teacher>, i: nat)
    requires i < |ts|
    requires forall j :: 0 <= j < |ts| && j != i ==> ts[j].id != ts[i].id
    ensures TeacherStats(Unassigned(ts, ts[i].id)).assignedCount
            == TeacherStats(ts).assignedCount - (if HasAssignment(ts[i]) then 1 else 0)
  {
    var r := Unassigned(ts, ts[i].id);
    assert ts == ts[..i] + [ts[i]] + ts[i + 1..];
    assert r == ts[..i] + [r[i]] + ts[i + 1..];
    FilterAppend(ts[..i] + [ts[i]], ts[i + 1..], HasAssignment);
    FilterAppend(ts[..i], [ts[i]], HasAssignment);
    FilterAppend(ts[..i] + [r[i]], ts[i + 1..], HasAssignment);
    FilterAppend(ts[..i], [r[i]], HasAssignment);
  }

  /** The assign button is enabled only when both choices are made. */
  predicate CanAssign(edited: Teacher) {
    HasAssignment(edited)
  }

  /** Any grade and section picked from the form's lists enable the
      button. */
  lemma ChoicesEnableAssign(edited: Teacher, g: nat, s: nat)
    requires g < |GradeChoices| && s < |SectionChoices|
    ensures CanAssign(edited.(assignedGrade := Some(GradeChoices[g]), assignedSection := Some(SectionChoices[s])))
  {
  }

  class TeachersPageState {
    var teachers: seq<Teacher>
    var searchTerm: string
    var filterAssignment: AssignmentFilter
    var editingTeacher: Option<Teacher>
    var modalOpen: bool

    constructor ()
      ensures teachers == InitialTeachers && searchTerm == "" && filterAssignment == AllTeachers
      ensures editingTeacher == None && !modalOpen
    {
      teachers := InitialTeachers;
      searchTerm := "";
      filterAssignment := AllTeachers;
      editingTeacher := None;
      modalOpen := false;
    }

    function Visible(): seq<Teacher>
      reads this
    {
      FilteredTeachers(teachers, searchTerm, filterAssignment)
    }

    /** Opens the form on a copy of the teacher. */
    method OpenAssignModal(t: Teacher)
      modifies this
      ensures editingTeacher == Some(t) && modalOpen
      ensures teachers == old(teachers) && searchTerm == old(searchTerm) && filterAssignment == old(filterAssignment)
    {
      editingTeacher := Some(t);
      modalOpen := true;
    }

    /** The grade selector of the form; the form is shown only while a
        teacher is being edited. */
    method ChooseGrade(grade: string)
      modifies this
      ensures editingTeacher == if old(editingTeacher).Some? then Some(old(editingTeacher).value.(assignedGrade := Some(grade))) else None
      ensures teachers == old(teachers) && modalOpen == old(modalOpen)
    {
      if editingTeacher.Some? {
        editingTeacher := Some(editingTeacher.value.(assignedGrade := Some(grade)));
      }
    }

    /** The section selector of the form. */
    method ChooseSection(section: string)
      modifies this
      ensures editingTeacher == if old(editingTeacher).Some? then Some(old(editingTeacher).value.(assignedSection := Some(section))) else None
      ensures teachers == old(teachers) && modalOpen == old(modalOpen)
    {
      if editingTeacher.Some? {
        editingTeacher := Some(editingTeacher.value.(assignedSection := Some(section)));
      }
    }

    /** Writes the edited copy over the teacher with its id and closes the
        form; with nothing being edited, nothing changes. */
    method HandleAssign()
      modifies this
      ensures old(editingTeacher).None? ==> teachers == old(teachers) && modalOpen == old(modalOpen) && editingTeacher == None
      ensures old(editingTeacher).Some? ==> teachers == Replaced(old(teachers), old(editingTeacher).value) && !modalOpen && editingTeacher == None
      ensures searchTerm == old(searchTerm) && filterAssignment == old(filterAssignment)
    {
      if editingTeacher.None? {
        return;
      }
      teachers := Replaced(teachers, editingTeacher.value);
      modalOpen := false;
      editingTeacher := None;
    }

    method HandleUnassign(teacherId: string)
      modifies this
      ensures teachers == Unassigned(old(teachers), teacherId)
      ensures editingTeacher == old(editingTeacher) && modalOpen == old(modalOpen)
      ensures searchTerm == old(searchTerm) && filterAssignment == old(filterAssignment)
    {
      teachers := Unassigned(teachers, teacherId);
    }
  }
}
