/** The dashboard's "Upload New Project" form: five text fields and an
    editable tech-stack list that never becomes empty, cleaned of blank
    entries when the form is submitted. */
module ProjectForm {
  import opened Text
  import opened Lists

  datatype FormData = FormData(
    title: string,
    description: string,
    imageUrl: string,
    downloadLink: string,
    liveLink: string,
    techStack: seq<string>)

  /** The state the form opens with: empty fields, one empty tech entry. */
  const InitialForm: FormData := FormData("", "", "", "", "", [""])

  /** The invariant every reachable form keeps. */
  predicate HasTechRow(f: FormData) { |f.techStack| >= 1 }

  /** `addTechStackItem`: one more empty entry at the end. */
  function AddTechStackItem(f: FormData): (r: FormData)
    ensures HasTechRow(r)
    ensures r.(techStack := f.techStack) == f
    ensures |r.techStack| == |f.techStack| + 1
    ensures r.techStack[..|f.techStack|] == f.techStack && r.techStack[|f.techStack|] == ""
  {
    f.(techStack := f.techStack + [""])
  }

  /** `removeTechStackItem(index)`: drops the entry at `index` (nothing when
      out of range); an emptied list becomes `['']`. */
  function RemoveTechStackItem(f: FormData, index: int): (r: FormData)
    ensures HasTechRow(r)
    ensures r.(techStack := f.techStack) == f
    ensures 0 <= index < |f.techStack| && |f.techStack| > 1 ==>
      && |r.techStack| == |f.techStack| - 1
      && r.techStack[..index] == f.techStack[..index]
      && r.techStack[index..] == f.techStack[index + 1..]
    ensures |f.techStack| == 1 && index == 0 ==> r.techStack == [""]
    ensures !(0 <= index < |f.techStack|) && HasTechRow(f) ==> r == f
  {
    var rest := RemoveAt(f.techStack, index);
    f.(techStack := if |rest| == 0 then [""] else rest)
  }

  /** `updateTechStackItem(index, value)`; the form only calls it with the
      index of a rendered row. */
  function UpdateTechStackItem(f: FormData, index: int, value: string): (r: FormData)
    requires 0 <= index < |f.techStack|
    ensures r.(techStack := f.techStack) == f
    ensures |r.techStack| == |f.techStack| && r.techStack[index] == value
    ensures forall j :: 0 <= j < |f.techStack| && j != index ==> r.techStack[j] == f.techStack[j]
  {
    f.(techStack := f.techStack[index := value])
  }

  /** The tech entries `handleSubmit` keeps: those whose trim is non-empty. */
  function CleanTechStack(ts: seq<string>): (r: seq<string>)
    ensures forall i :: 0 <= i < |r| ==> !Blank(r[i]) && r[i] in ts
    ensures forall i :: 0 <= i < |ts| && !Blank(ts[i]) ==> ts[i] in r
    ensures IsSubsequence(r, ts)
  {
    var keep := (t: string) => Trim(t) != "";
    forall t: string ensures keep(t) <==> !Blank(t) { TrimEmptyIffBlank(t); }
    FilterIsSubsequence(ts, keep);
    Filter(ts, keep)
  }

  /** The data `handleSubmit` passes to `onSubmit`. */
  function Submit(f: FormData): (r: FormData)
    ensures r.(techStack := f.techStack) == f
    ensures r.techStack == CleanTechStack(f.techStack)
  {
    f.(techStack := CleanTechStack(f.techStack))
  }

  /** A row offers its delete button only while there is more than one row. */
  predicate ShowsDeleteControl(f: FormData) { |f.techStack| > 1 }

  // ---------------------------------------------------------------------
  // Lemmas

  /** The form opens with exactly one empty entry and nothing to delete. */
  lemma InitialFormShape()
    ensures InitialForm.techStack == [""] && HasTechRow(InitialForm)
    ensures !ShowsDeleteControl(InitialForm)
    ensures Submit(InitialForm).techStack == []
  {
    assert Blank("");
  }

  /** Removing the entry just added gives back the form. */
  lemma AddThenRemove(f: FormData)
    requires HasTechRow(f)
    ensures RemoveTechStackItem(AddTechStackItem(f), |f.techStack|) == f
  {
    assert (f.techStack + [""])[..|f.techStack|] == f.techStack;
  }

  /** Writing back an entry's old value undoes an update. */
  lemma UpdateThenRestore(f: FormData, index: int, value: string)
    requires 0 <= index < |f.techStack|
    ensures UpdateTechStackItem(UpdateTechStackItem(f, index, value), index, f.techStack[index]) == f
  {
  }

  /** Adding an (empty) entry does not change what is submitted. */
  lemma SubmitIgnoresAddedRow(f: FormData)
    ensures Submit(AddTechStackItem(f)) == Submit(f)
  {
    FilterAppendRejected(f.techStack, "", (t: string) => Trim(t) != "");
  }

  /** Cleaning is idempotent: a submitted stack has nothing left to drop. */
  lemma CleanIdempotent(ts: seq<string>)
    ensures CleanTechStack(CleanTechStack(ts)) == CleanTechStack(ts)
  {
    FilterIdempotent(ts, (t: string) => Trim(t) != "");
  }

  /** Exactly the non-blank entries are submitted: their number is the number
      of non-blank entries. */
  lemma CleanCount(ts: seq<string>)
    ensures |CleanTechStack(ts)| == Count(ts, (t: string) => Trim(t) != "")
  {
    FilterLength(ts, (t: string) => Trim(t) != "");
  }

  /** Through the delete control a row can be removed only while another row
      remains, and then exactly one row goes. */
  lemma DeleteControlRemovesOne(f: FormData, index: int)
    requires ShowsDeleteControl(f) && 0 <= index < |f.techStack|
    ensures |RemoveTechStackItem(f, index).techStack| == |f.techStack| - 1 >= 1
  {
  }
}
