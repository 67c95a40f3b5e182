/** The screenshot panel of a project: the one-at-a-time caption editor,
    confirmed deletion, and uploading a picked image into the project's
    screenshot folder. */
module ScreenshotManager {
  import opened Common
  import opened Text
  import Storage
  import opened Screenshots
  import opened Lists

  /** Which screenshot's caption is being edited, and the text typed so far. */
  datatype CaptionEditor = CaptionEditor(editing: Option<string>, text: string)

  const Idle: CaptionEditor := CaptionEditor(None, "")

  /** `handleCaptionEdit`: open the editor on `s`, prefilled with its caption. */
  function HandleCaptionEdit(s: Screenshot): (r: CaptionEditor)
    ensures r.editing == Some(s.id)
    ensures s.caption.Some? ==> r.text == s.caption.value
    ensures s.caption.None? ==> r.text == ""
  {
    CaptionEditor(Some(s.id), if s.caption.Some? then s.caption.value else "")
  }

  /** Typing into the open editor. */
  function TypeCaption(ed: CaptionEditor, text: string): CaptionEditor
  {
    ed.(text := text)
  }

  /** `handleCaptionCancel`. */
  function HandleCaptionCancel(ed: CaptionEditor): (r: CaptionEditor)
    ensures r.editing.None? && r.text == ""
  {
    Idle
  }

  /** An editor that holds a (non-empty, hence truthy) screenshot id. */
  predicate IsEditing(ed: CaptionEditor) { ed.editing.Some? && ed.editing.value != "" }

  datatype SaveResult = SaveResult(
    editor: CaptionEditor,
    list: ScreenshotsState,
    request: Option<(string, string)>)

  /** `handleCaptionSave`: with an id in edit, ask to update that id with the
      typed text; on success close the editor. A failed update throws before
      the reset, so the editor stays open. */
  function HandleCaptionSave(ed: CaptionEditor, st: ScreenshotsState, reply: Result<Screenshot>): (r: SaveResult)
    ensures !IsEditing(ed) ==> r == SaveResult(ed, st, None)
    ensures IsEditing(ed) ==> r.request == Some((ed.editing.value, ed.text))
    ensures IsEditing(ed) ==> r.list == UpdateScreenshotCaption(st, ed.editing.value, reply).state
    ensures IsEditing(ed) && reply.Ok? ==> r.editor == Idle
    ensures reply.Err? ==> r.editor == ed && r.list == st
  {
    if IsEditing(ed) then
      var id := ed.editing.value;
      var out := UpdateScreenshotCaption(st, id, reply);
      SaveResult(if out.result.Ok? then Idle else ed, out.state, Some((id, ed.text)))
    else SaveResult(ed, st, None)
  }

  /** The rows rendered in edit mode. */
  predicate InEditMode(ed: CaptionEditor, s: Screenshot) { ed.editing == Some(s.id) }

  datatype DeleteRequest = DeleteRequest(list: ScreenshotsState, requested: bool)

  /** `handleDeleteScreenshot`: nothing unless the user confirms. */
  function HandleDeleteScreenshot(st: ScreenshotsState, id: string, confirmed: bool, reply: Result<()>): (r: DeleteRequest)
    ensures r.requested <==> confirmed
    ensures !confirmed ==> r.list == st
    ensures confirmed ==> r.list == DeleteScreenshot(st, id, reply).state
  {
    if confirmed then DeleteRequest(DeleteScreenshot(st, id, reply).state, true)
    else DeleteRequest(st, false)
  }

  /** The folder screenshots of a project are uploaded into. */
  function UploadFolder(projectId: string): string
  {
    "screenshots/" + projectId
  }

  datatype UploadResult = UploadResult(list: ScreenshotsState, uploading: bool, inserted: Option<NewScreenshot>)

  /** `handleScreenshotUpload`: with a picked file, upload it into the
      project's folder, then add a screenshot for the returned URL; every
      failure is caught and leaves the list as it was. */
  function HandleScreenshotUpload(st: ScreenshotsState, user: Option<User>, uploading: bool,
                                  file: Option<Storage.FileInfo>, projectId: string, now: nat,
                                  stored: Result<()>, publicUrl: string -> string,
                                  reply: Result<Screenshot>): (r: UploadResult)
    ensures file.None? ==> r == UploadResult(st, uploading, None)
    ensures r.inserted.Some? ==> file.Some? && user.Some? && stored.Ok?
    ensures r.inserted.Some? ==> r.inserted.value == InsertRow(st.screenshots, projectId,
      publicUrl(Storage.UploadKey(user.value.id, Some(UploadFolder(projectId)), now, file.value.name)), None)
    ensures r.list != st ==> r.inserted.Some? && reply.Ok? && r.list.screenshots == st.screenshots + [reply.value]
    ensures file.Some? && user.Some? && stored.Ok? ==> r.inserted.Some?
    ensures file.Some? && user.Some? && stored.Ok? && reply.Ok? ==>
      r.list == st.(screenshots := st.screenshots + [reply.value])
    ensures file.Some? && user.Some? ==> !r.uploading
    ensures file.Some? && user.None? ==> r == UploadResult(st, uploading, None)
    ensures stored.Err? ==> r.list == st && r.inserted.None?
  {
    if file.None? then UploadResult(st, uploading, None)
    else
      var up := Storage.UploadFile(user, uploading, file.value.name, Some(UploadFolder(projectId)), now, stored, publicUrl);
      match up.result
      case Err(_) => UploadResult(st, up.uploading, None)
      case Ok(url) =>
        var added := AddScreenshot(st, user, reply);
        UploadResult(added.state, up.uploading, Some(InsertRow(st.screenshots, projectId, url, None)))
  }

  // ---------------------------------------------------------------------
  // Lemmas

  /** Editing then cancelling returns to the idle editor, from any state. */
  lemma EditThenCancel(s: Screenshot, text: string)
    ensures HandleCaptionCancel(TypeCaption(HandleCaptionEdit(s), text)) == Idle
  {
  }

  /** Editing, typing and saving asks to update exactly that screenshot with
      the typed text, and a successful save replaces it by the returned
      record and closes the editor. */
  lemma EditTypeSave(s: Screenshot, text: string, st: ScreenshotsState, saved: Screenshot)
    requires s.id != ""
    ensures var r := HandleCaptionSave(TypeCaption(HandleCaptionEdit(s), text), st, Ok(saved));
      && r.request == Some((s.id, text))
      && r.editor == Idle
      && (forall i :: 0 <= i < |st.screenshots| && st.screenshots[i].id == s.id ==> r.list.screenshots[i] == saved)
  {
  }

  /** With unique ids, at most one screenshot is rendered in edit mode. */
  lemma AtMostOneInEditMode(ed: CaptionEditor, ss: seq<Screenshot>)
    requires forall i, j :: 0 <= i < |ss| && 0 <= j < |ss| && ss[i].id == ss[j].id ==> i == j
    ensures forall i, j :: 0 <= i < |ss| && 0 <= j < |ss| && InEditMode(ed, ss[i]) && InEditMode(ed, ss[j]) ==> i == j
  {
  }

  /** Confirming the delete of the same screenshot twice removes no more
      than confirming it once, and a declined request keeps the list. */
  lemma DeleteTwiceIsOnce(st: ScreenshotsState, id: string, reply: Result<()>)
    ensures var once := HandleDeleteScreenshot(st, id, true, Ok(())).list;
      && HandleDeleteScreenshot(once, id, true, Ok(())).list == once
      && HandleDeleteScreenshot(once, id, false, reply).list == once
  {
    FilterIdempotent(st.screenshots, (s: Screenshot) => s.id != id);
  }

  /** The project folder spelled out: `<user>/screenshots/<project>/`. */
  lemma {:induction false} ProjectFolderPrefix(userId: string, projectId: string)
    ensures userId + "/" + UploadFolder(projectId) + "/" == userId + "/screenshots/" + projectId + "/"
  {
    var a := userId + "/" + UploadFolder(projectId) + "/";
    var b := userId + "/screenshots/" + projectId + "/";
    assert |a| == |b|;
    forall k | 0 <= k < |a|
      ensures a[k] == b[k]
    {
    }
  }

  /** Screenshots are stored under `<user>/screenshots/<project>/`. */
  lemma {:induction false} UploadGoesToProjectFolder(userId: string, projectId: string, now: nat, fileName: string)
    ensures StartsWith(Storage.UploadKey(userId, Some(UploadFolder(projectId)), now, fileName),
                       userId + "/screenshots/" + projectId + "/")
  {
    Storage.UploadKeyLayout(userId, UploadFolder(projectId), now, fileName);
    ProjectFolderPrefix(userId, projectId);
    StartsWithConcat(userId + "/screenshots/" + projectId + "/", Storage.FileStem(now, fileName));
  }
}
