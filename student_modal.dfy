/** The student form of src/components/StudentModal.tsx: every field must
    hold something besides white space, the record is trimmed, and the
    form is emptied after a save or on close. */
module StudentModal {
  import opened Wrappers
  import opened Domain
  import Text

  datatype StudentFields = StudentFields(name: string, dni: string, email: string)

  const EmptyFields := StudentFields("", "", "")

  /** `handleSubmit`'s check and record. */
  function Submit(f: StudentFields): (r: Option<StudentData>)
    ensures r.None? <==> Text.Blank(f.name) || Text.Blank(f.dni) || Text.Blank(f.email)
    ensures r.Some? ==> r.value == StudentData(Text.Trim(f.name), Text.Trim(f.dni), Text.Trim(f.email))
    ensures r.Some? ==> r.value.name != [] && r.value.dni != [] && r.value.email != []
  {
    if Text.Blank(f.name) || Text.Blank(f.dni) || Text.Blank(f.email) then None
    else Some(StudentData(Text.Trim(f.name), Text.Trim(f.dni), Text.Trim(f.email)))
  }

  /** Typing a saved record back into the form saves the same record. */
  lemma SubmitIdempotent(f: StudentFields)
    requires Submit(f).Some?
    ensures var d := Submit(f).value;
            Submit(StudentFields(d.name, d.dni, d.email)) == Some(d)
  {
    Text.TrimIdempotent(f.name);
    Text.TrimIdempotent(f.dni);
    Text.TrimIdempotent(f.email);
  }

  /** Fields that differ only in surrounding white space save the same
      record. */
  lemma SubmitIgnoresPadding(f: StudentFields, pre: string, post: string)
    requires Text.AllSpace(pre) && Text.AllSpace(post)
    ensures Submit(f.(name := pre + f.name + post)) == Submit(f)
  {
    Text.TrimPadded(f.name, pre, post);
    Text.BlankIffAllSpace(f.name);
    Text.BlankIffAllSpace(pre + f.name + post);
  }

  class StudentForm {
    var name: string
    var dni: string
    var email: string

    function Fields(): StudentFields
      reads this
    {
      StudentFields(name, dni, email)
    }

    constructor ()
      ensures Fields() == EmptyFields
    {
      name, dni, email := "", "", "";
    }

    method EditName(text: string)
      modifies this
      ensures Fields() == old(Fields()).(name := text)
    {
      name := text;
    }

    method EditDni(text: string)
      modifies this
      ensures Fields() == old(Fields()).(dni := text)
    {
      dni := text;
    }

    method EditEmail(text: string)
      modifies this
      ensures Fields() == old(Fields()).(email := text)
    {
      email := text;
    }

    /** On success the trimmed record is returned for `onSave` and the
        form is emptied; on failure nothing is saved or changed. */
    method HandleSubmit() returns (saved: Option<StudentData>)
      modifies this
      ensures saved == Submit(old(Fields()))
      ensures saved.Some? ==> Fields() == EmptyFields
      ensures saved.None? ==> Fields() == old(Fields())
    {
      saved := Submit(Fields());
      if saved.Some? {
        // the same clearing and closing that `handleClose` does
        HandleClose();
      }
    }

    method HandleClose()
      modifies this
      ensures Fields() == EmptyFields
    {
      name, dni, email := "", "", "";
    }
  }
}
