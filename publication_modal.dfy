/** The publication form of src/components/PublicationModal.tsx: which
    courses an author may address, the course checklist toggle, the save
    checks with the record they build, and the reset on close. */
module PublicationModal {
  import opened Wrappers
  import opened Domain
  import opened Lists
  import Text

  /** `availableCourses`: a teacher may address their own courses, an
      administrator every course. */
  function AvailableCourses(courses: seq<Course>, authorId: string, authorType: AuthorType): (r: seq<Course>)
    ensures authorType == Administrativo ==> r == courses
  {
    if authorType == Profesor then Filter(courses, (c: Course) => c.teacherId == Some(authorId))
    else courses
  }

  /** A teacher is offered exactly their courses, in order. */
  lemma AvailableCoursesSpec(courses: seq<Course>, authorId: string)
    ensures forall c :: c in AvailableCourses(courses, authorId, Profesor) <==> c in courses && c.teacherId == Some(authorId)
    ensures IsSubseq(AvailableCourses(courses, authorId, Profesor), courses)
  {
    FilterIsSubseq(courses, (c: Course) => c.teacherId == Some(authorId));
  }

  /** `toggleCourse`: a selected id is dropped (every copy of it), an
      unselected one is appended. */
  function Toggled(selected: seq<string>, id: string): seq<string>
  {
    if id in selected then Filter(selected, (x: string) => x != id) else selected + [id]
  }

  /** Toggling flips the membership of that id and of no other. */
  lemma ToggledSpec(selected: seq<string>, id: string)
    ensures id in Toggled(selected, id) <==> id !in selected
    ensures forall x :: x != id ==> (x in Toggled(selected, id) <==> x in selected)
  {
  }

  /** Toggling never introduces a repeated id. */
  lemma ToggledDistinct(selected: seq<string>, id: string)
    requires Distinct(selected)
    ensures Distinct(Toggled(selected, id))
  {
    if id in selected {
      FilterDistinct(selected, (x: string) => x != id);
    }
  }

  /** Toggling an unselected id twice gives back the very same list. */
  lemma ToggleTwiceUnselected(selected: seq<string>, id: string)
    requires id !in selected
    ensures Toggled(Toggled(selected, id), id) == selected
  {
    var once := selected + [id];
    assert id in once;
    FilterAppend(selected, [id], (x: string) => x != id);
    FilterAll(selected, (x: string) => x != id);
    assert Filter([id], (x: string) => x != id) == [];
  }

  /** Toggling a selected id twice gives back the same selection as a
      set; the id moves to the end. */
  lemma ToggleTwiceSelected(selected: seq<string>, id: string)
    requires id in selected
    ensures forall x :: x in Toggled(Toggled(selected, id), id) <==> x in selected
    ensures Toggled(Toggled(selected, id), id) == Filter(selected, (x: string) => x != id) + [id]
  {
    ToggledSpec(selected, id);
  }

  /** A concrete case of the move: deselecting and reselecting the first
      of two courses puts it last. */
  lemma ToggleTwiceReorders()
    ensures Toggled(Toggled(["c1", "c2"], "c1"), "c1") == ["c2", "c1"]
  {
    var sel: seq<string> := ["c1", "c2"];
    assert "c1" in sel;
    assert sel[1..][1..] == [];
    assert Filter(sel, (x: string) => x != "c1") == ["c2"];
  }

  /** What pressing save leads to. */
  datatype SaveOutcome = MissingFields | NoCourseSelected | Saved(draft: PublicationDraft)

  /** `handleSave`'s two checks, then the record it hands to `onSave`;
      `today` is the date part of the current time. */
  function CheckAndBuild(title: string, content: string, audience: Audience, selected: seq<string>,
                         today: string, authorId: string, authorName: string, authorType: AuthorType): (r: SaveOutcome)
    ensures r == MissingFields <==> Text.Blank(title) || Text.Blank(content)
    ensures r == NoCourseSelected <==> !Text.Blank(title) && !Text.Blank(content) && audience == Students && selected == []
    ensures r.Saved? ==> && r.draft.title == Text.Trim(title) && r.draft.content == Text.Trim(content)
                         && r.draft.title != [] && r.draft.content != []
                         && r.draft.date == today && r.draft.authorId == authorId
                         && r.draft.authorName == authorName && r.draft.authorType == authorType
                         && r.draft.targetAudience == audience
                         && r.draft.targetCourses == (if audience == Students then Some(selected) else None)
    ensures r.Saved? && audience == Students ==> |r.draft.targetCourses.value| > 0
  {
    if Text.Blank(title) || Text.Blank(content) then MissingFields
    else if audience == Students && |selected| == 0 then NoCourseSelected
    else Saved(PublicationDraft(Text.Trim(title), Text.Trim(content), today, authorId, authorName, authorType,
                                audience, if audience == Students then Some(selected) else None))
  }

  /** Whatever the author filled in, a saved record never addresses
      students without naming a course, so it is never a publication that
      no student can see. */
  lemma SavedStudentsHaveCourses(title: string, content: string, audience: Audience, selected: seq<string>,
                                 today: string, authorId: string, authorName: string, authorType: AuthorType)
    ensures var r := CheckAndBuild(title, content, audience, selected, today, authorId, authorName, authorType);
            r.Saved? && r.draft.targetAudience == Students ==> r.draft.targetCourses.Some? && r.draft.targetCourses.value != []
  {
  }

  class PublicationForm {
    var title: string
    var content: string
    var targetAudience: Audience
    var selectedCourses: seq<string>
    const authorId: string
    const authorName: string
    const authorType: AuthorType

    predicate IsReset()
      reads this
    {
      title == "" && content == "" && targetAudience == All && selectedCourses == []
    }

    constructor (authorId: string, authorName: string, authorType: AuthorType)
      ensures IsReset()
      ensures this.authorId == authorId && this.authorName == authorName && this.authorType == authorType
    {
      title := "";
      content := "";
      targetAudience := All;
      selectedCourses := [];
      this.authorId := authorId;
      this.authorName := authorName;
      this.authorType := authorType;
    }

    method EditTitle(text: string)
      modifies this
      ensures title == text
      ensures content == old(content) && targetAudience == old(targetAudience) && selectedCourses == old(selectedCourses)
    {
      title := text;
    }

    method EditContent(text: string)
      modifies this
      ensures content == text
      ensures title == old(title) && targetAudience == old(targetAudience) && selectedCourses == old(selectedCourses)
    {
      content := text;
    }

    /** Choosing an audience empties the course selection. */
    method ChangeAudience(audience: Audience)
      modifies this
      ensures targetAudience == audience && selectedCourses == []
      ensures title == old(title) && content == old(content)
    {
      targetAudience := audience;
      selectedCourses := [];
    }

    method ToggleCourse(courseId: string)
      modifies this
      ensures selectedCourses == Toggled(old(selectedCourses), courseId)
      ensures title == old(title) && content == old(content) && targetAudience == old(targetAudience)
    {
      selectedCourses := Toggled(selectedCourses, courseId);
    }

    method HandleClose()
      modifies this
      ensures IsReset()
    {
      title := "";
      content := "";
      targetAudience := All;
      selectedCourses := [];
    }

    /** A rejected save keeps the form as it is; an accepted one returns
        the record for `onSave` and resets the form. */
    method HandleSave(today: string) returns (saved: Option<PublicationDraft>)
      modifies this
      ensures var r := CheckAndBuild(old(title), old(content), old(targetAudience), old(selectedCourses),
                                     today, authorId, authorName, authorType);
              && (r.Saved? ==> saved == Some(r.draft) && IsReset())
              && (!r.Saved? ==> saved == None && title == old(title) && content == old(content)
                                && targetAudience == old(targetAudience) && selectedCourses == old(selectedCourses))
    {
      var r := CheckAndBuild(title, content, targetAudience, selectedCourses, today, authorId, authorName, authorType);
      if !r.Saved? {
        return None;
      }
      saved := Some(r.draft);
      HandleClose();
    }
  }
}
