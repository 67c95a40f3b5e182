/** The form for creating or editing a work-experience entry: fields
    prefilled from optional initial data, and a submit that refuses empty
    required fields. */
module ExperienceForm {
  import opened Common
  import Experiences

  /** The initial data the form may be given; any field may be missing. */
  datatype PartialExperience = PartialExperience(
    company: Option<string>,
    title: Option<string>,
    startDate: Option<string>,
    endDate: Option<string>,
    description: Option<string>)

  /** The form's fields, which are also exactly what `onSave` receives. */
  datatype ExperienceInput = ExperienceInput(
    company: string,
    title: string,
    startDate: string,
    endDate: string,
    description: string)

  datatype FormState = FormState(fields: ExperienceInput, error: string)

  const RequiredMessage: string := "Please fill in all required fields."

  /** `initialData || {}`, then each field `|| ''`. */
  function InitialState(initialData: Option<PartialExperience>): (r: FormState)
    ensures r.error == ""
    ensures initialData.None? ==> r.fields == ExperienceInput("", "", "", "", "")
    ensures initialData.Some? ==> r.fields == ExperienceInput(
      OrEmpty(initialData.value.company), OrEmpty(initialData.value.title),
      OrEmpty(initialData.value.startDate), OrEmpty(initialData.value.endDate),
      OrEmpty(initialData.value.description))
  {
    var d := if initialData.Some? then initialData.value else PartialExperience(None, None, None, None, None);
    FormState(ExperienceInput(OrEmpty(d.company), OrEmpty(d.title), OrEmpty(d.startDate),
      OrEmpty(d.endDate), OrEmpty(d.description)), "")
  }

  /** Company, title and start date must be non-empty. */
  predicate RequiredFilled(f: ExperienceInput)
  {
    f.company != "" && f.title != "" && f.startDate != ""
  }

  datatype SubmitResult = SubmitResult(state: FormState, saved: Option<ExperienceInput>)

  /** `handleSubmit`: reject with the error message, or hand the fields to
      `onSave` (leaving any earlier error message in place). */
  function HandleSubmit(st: FormState): (r: SubmitResult)
    ensures r.saved.None? <==> st.fields.company == "" || st.fields.title == "" || st.fields.startDate == ""
    ensures r.saved.None? ==> r.state == st.(error := RequiredMessage)
    ensures r.saved.Some? ==> r.saved.value == st.fields && r.state == st
  {
    if !RequiredFilled(st.fields) then SubmitResult(st.(error := RequiredMessage), None)
    else SubmitResult(st, Some(st.fields))
  }

  /** The initial data for editing a stored entry. */
  function PartialOf(e: Experiences.Experience): PartialExperience
  {
    PartialExperience(Some(e.company), Some(e.title), Some(e.startDate), Some(e.endDate), e.description)
  }

  // ---------------------------------------------------------------------
  // Lemmas

  /** A `null` initial value behaves like `{}`. */
  lemma NullLikeEmpty()
    ensures InitialState(None) == InitialState(Some(PartialExperience(None, None, None, None, None)))
  {
  }

  /** End date and description never decide acceptance. */
  lemma OptionalFieldsIgnored(st: FormState, endDate: string, description: string)
    ensures HandleSubmit(st).saved.Some? ==
      HandleSubmit(st.(fields := st.fields.(endDate := endDate, description := description))).saved.Some?
  {
  }

  /** Only emptiness is tested: white space alone is accepted. */
  lemma WhitespaceAccepted(st: FormState)
    requires st.fields.company == " " && st.fields.title == " " && st.fields.startDate == " "
    ensures HandleSubmit(st).saved == Some(st.fields)
  {
  }

  /** Opening the form on a stored entry and saving it unchanged hands back
      that entry's values (a missing description as ''). */
  lemma EditUnchangedResubmits(e: Experiences.Experience)
    requires e.company != "" && e.title != "" && e.startDate != ""
    ensures HandleSubmit(InitialState(Some(PartialOf(e)))).saved ==
      Some(ExperienceInput(e.company, e.title, e.startDate, e.endDate, OrEmpty(e.description)))
  {
  }
}
