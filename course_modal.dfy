/** The course form of src/components/CourseModal.tsx: the fields it
    starts from when opened for a new or an existing course, and the
    check and record its submit hands to `onSave`. */
module CourseModal {
  import opened Wrappers
  import opened Domain
  import opened Lists
  import Text

  /** An entry of the teacher drop-down. */
  datatype TeacherOption = TeacherOption(id: string, name: string)

  /** The four form fields; "" stands for "nothing chosen". */
  datatype CourseFields = CourseFields(name: string, level: string, section: string, teacherId: string)

  const Levels: seq<string> := [
    "1ro de Primaria", "2do de Primaria", "3ro de Primaria", "4to de Primaria", "5to de Primaria", "6to de Primaria",
    "1ro de Secundaria", "2do de Secundaria", "3ro de Secundaria", "4to de Secundaria", "5to de Secundaria"
  ]

  const Sections: seq<string> := ["A", "B", "C", "D"]

  /** The fields the form is filled with each time it opens: the course's
      own values when editing (no teacher becomes ""), all "" otherwise. */
  function Prefill(course: Option<Course>): (f: CourseFields)
    ensures course.None? ==> f == CourseFields("", "", "", "")
    ensures course.Some? ==> && f.name == course.value.name && f.level == course.value.level
                             && f.section == course.value.section
                             && f.teacherId == course.value.teacherId.GetOr("")
  {
    match course
    case None => CourseFields("", "", "", "")
    case Some(c) => CourseFields(c.name, c.level, c.section, c.teacherId.GetOr(""))
  }

  /** `selectedTeacher?.name || undefined`: the name of the first teacher
      with that id, absent when none has it or the name is empty. */
  function TeacherNameFor(teachers: seq<TeacherOption>, teacherId: string): (r: Option<string>)
    ensures (forall j :: 0 <= j < |teachers| ==> teachers[j].id != teacherId) ==> r.None?
    ensures r.Some? ==> r.value != "" && exists j :: 0 <= j < |teachers| && FirstWithId(teachers, teacherId, j) && teachers[j].name == r.value
  {
    var found := Find(teachers, (t: TeacherOption) => t.id == teacherId);
    if found.Some? && found.value.name != "" then Some(found.value.name) else None
  }

  /** Position `j` holds the first teacher with that id. */
  predicate FirstWithId(teachers: seq<TeacherOption>, teacherId: string, j: int) {
    0 <= j < |teachers| && teachers[j].id == teacherId && forall k :: 0 <= k < j ==> teachers[k].id != teacherId
  }

  /** The first teacher with the id, when it has a name, gives the name. */
  lemma TeacherNameOfFirst(teachers: seq<TeacherOption>, teacherId: string, j: nat)
    requires FirstWithId(teachers, teacherId, j) && teachers[j].name != ""
    ensures TeacherNameFor(teachers, teacherId) == Some(teachers[j].name)
  {
    FindIndexIs(teachers, (t: TeacherOption) => t.id == teacherId, j);
  }

  /** `handleSubmit`: rejected when the trimmed name, the level or the
      section is empty; otherwise the record with the name trimmed, an
      empty teacher choice turned into "no teacher", and the teacher's
      name looked up in the drop-down's list. */
  function Submit(f: CourseFields, teachers: seq<TeacherOption>): (r: Option<CourseData>)
    ensures r.None? <==> Text.Blank(f.name) || f.level == "" || f.section == ""
    ensures r.Some? ==> && r.value.name == Text.Trim(f.name) && r.value.name != []
                        && r.value.level == f.level && r.value.section == f.section
                        && r.value.teacherId == (if f.teacherId == "" then None else Some(f.teacherId))
                        && r.value.teacherName == TeacherNameFor(teachers, f.teacherId)
  {
    if Text.Blank(f.name) || f.level == "" || f.section == "" then None
    else Some(CourseData(Text.Trim(f.name), f.level, f.section,
                         if f.teacherId == "" then None else Some(f.teacherId),
                         TeacherNameFor(teachers, f.teacherId)))
  }

  /** A course whose fields are already clean (trimmed non-empty name,
      level and section set, teacher name as the list gives it) comes back
      unchanged when opened for editing and saved without changes. */
  lemma EditWithoutChangesKeepsCourse(c: Course, teachers: seq<TeacherOption>)
    requires Text.Trim(c.name) == c.name && c.name != [] && c.level != "" && c.section != ""
    requires c.teacherId != Some("")
    requires c.teacherName == TeacherNameFor(teachers, c.teacherId.GetOr(""))
    ensures Submit(Prefill(Some(c)), teachers) == Some(CourseData(c.name, c.level, c.section, c.teacherId, c.teacherName))
  {
    var f := Prefill(Some(c));
    assert f == CourseFields(c.name, c.level, c.section, c.teacherId.GetOr(""));
    assert !Text.Blank(f.name);
    assert (if f.teacherId == "" then None else Some(f.teacherId)) == c.teacherId;
  }

  /** Any non-blank name with a level and a section picked from the
      drop-downs is accepted. */
  lemma ChoicesAccepted(name: string, l: nat, s: nat, teacherId: string, teachers: seq<TeacherOption>)
    requires !Text.Blank(name) && l < |Levels| && s < |Sections|
    ensures Submit(CourseFields(name, Levels[l], Sections[s], teacherId), teachers).Some?
  {
    ChoicesNonEmpty();
  }

  /** Every entry of both drop-downs is a real choice. */
  lemma ChoicesNonEmpty()
    ensures forall i :: 0 <= i < |Levels| ==> |Levels[i]| > 0
    ensures forall i :: 0 <= i < |Sections| ==> |Sections[i]| > 0
  {
  }

  class CourseForm {
    var name: string
    var level: string
    var section: string
    var teacherId: string

    function Fields(): CourseFields
      reads this
    {
      CourseFields(name, level, section, teacherId)
    }

    constructor ()
      ensures Fields() == CourseFields("", "", "", "")
    {
      name, level, section, teacherId := "", "", "", "";
    }

    /** The effect that runs when the form opens or its course changes. */
    method Open(course: Option<Course>)
      modifies this
      ensures Fields() == Prefill(course)
    {
      var f := Prefill(course);
      name, level, section, teacherId := f.name, f.level, f.section, f.teacherId;
    }

    method EditName(text: string)
      modifies this
      ensures Fields() == old(Fields()).(name := text)
    {
      name := text;
    }

    method ChooseLevel(choice: string)
      modifies this
      ensures Fields() == old(Fields()).(level := choice)
    {
      level := choice;
    }

    method ChooseSection(choice: string)
      modifies this
      ensures Fields() == old(Fields()).(section := choice)
    {
      section := choice;
    }

    method ChooseTeacher(choice: string)
      modifies this
      ensures Fields() == old(Fields()).(teacherId := choice)
    {
      teacherId := choice;
    }

    /** The record passed to `onSave`, or none when a check fails; the
        fields are left as they are either way. */
    method HandleSubmit(teachers: seq<TeacherOption>) returns (saved: Option<CourseData>)
      ensures saved.None? <==> Text.Blank(name) || level == "" || section == ""
      ensures saved.Some? ==> saved == Submit(Fields(), teachers) && saved.value.name == Text.Trim(name)
    {
      saved := Submit(Fields(), teachers);
    }
  }
}
