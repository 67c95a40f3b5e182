/** The form for creating or editing an education entry: fields prefilled
    from optional initial data, and a submit that refuses empty required
    fields. */
module EducationForm {
  import opened Common
  import Educations

  /** The initial data the form may be given; any field may be missing. */
  datatype PartialEducation = PartialEducation(
    school: Option<string>,
    degree: Option<string>,
    field: Option<string>,
    startDate: Option<string>,
    endDate: Option<string>,
    description: Option<string>)

  /** The form's fields, which are also exactly what `onSave` receives. */
  datatype EducationInput = EducationInput(
    school: string,
    degree: string,
    field: string,
    startDate: string,
    endDate: string,
    description: string)

  datatype FormState = FormState(fields: EducationInput, error: string)

  const RequiredMessage: string := "Please fill in all required fields."

  /** `initialData || {}`, then each field `|| ''`. */
  function InitialState(initialData: Option<PartialEducation>): (r: FormState)
    ensures r.error == ""
    ensures initialData.None? ==> r.fields == EducationInput("", "", "", "", "", "")
    ensures initialData.Some? ==> r.fields == EducationInput(
      OrEmpty(initialData.value.school), OrEmpty(initialData.value.degree),
      OrEmpty(initialData.value.field), OrEmpty(initialData.value.startDate),
      OrEmpty(initialData.value.endDate), OrEmpty(initialData.value.description))
  {
    var d := if initialData.Some? then initialData.value else PartialEducation(None, None, None, None, None, None);
    FormState(EducationInput(OrEmpty(d.school), OrEmpty(d.degree), OrEmpty(d.field),
      OrEmpty(d.startDate), OrEmpty(d.endDate), OrEmpty(d.description)), "")
  }

  /** School, degree, field and start date must be non-empty. */
  predicate RequiredFilled(f: EducationInput)
  {
    f.school != "" && f.degree != "" && f.field != "" && f.startDate != ""
  }

  datatype SubmitResult = SubmitResult(state: FormState, saved: Option<EducationInput>)

  /** `handleSubmit`: reject with the error message, or hand the fields to
      `onSave` (leaving any earlier error message in place). */
  function HandleSubmit(st: FormState): (r: SubmitResult)
    ensures r.saved.None? <==>
      st.fields.school == "" || st.fields.degree == "" || st.fields.field == "" || st.fields.startDate == ""
    ensures r.saved.None? ==> r.state == st.(error := RequiredMessage)
    ensures r.saved.Some? ==> r.saved.value == st.fields && r.state == st
  {
    if !RequiredFilled(st.fields) then SubmitResult(st.(error := RequiredMessage), None)
    else SubmitResult(st, Some(st.fields))
  }

  /** The initial data for editing a stored entry. */
  function PartialOf(e: Educations.Education): PartialEducation
  {
    PartialEducation(Some(e.school), Some(e.degree), Some(e.field), Some(e.startDate), Some(e.endDate), e.description)
  }

  // ---------------------------------------------------------------------
  // Lemmas

  /** A `null` initial value behaves like `{}`. */
  lemma NullLikeEmpty()
    ensures InitialState(None) == InitialState(Some(PartialEducation(None, None, None, None, None, None)))
  {
  }

  /** End date and description never decide acceptance. */
  lemma OptionalFieldsIgnored(st: FormState, endDate: string, description: string)
    ensures HandleSubmit(st).saved.Some? ==
      HandleSubmit(st.(fields := st.fields.(endDate := endDate, description := description))).saved.Some?
  {
  }

  /** Only emptiness is tested: white space alone is accepted. */
  lemma WhitespaceAccepted(st: FormState)
    requires st.fields.school == " " && st.fields.degree == " " && st.fields.field == " " && st.fields.startDate == " "
    ensures HandleSubmit(st).saved == Some(st.fields)
  {
  }

  /** Opening the form on a stored entry and saving it unchanged hands back
      that entry's values (a missing description as ''). */
  lemma EditUnchangedResubmits(e: Educations.Education)
    requires e.school != "" && e.degree != "" && e.field != "" && e.startDate != ""
    ensures HandleSubmit(InitialState(Some(PartialOf(e)))).saved ==
      Some(EducationInput(e.school, e.degree, e.field, e.startDate, e.endDate, OrEmpty(e.description)))
  {
  }
}
