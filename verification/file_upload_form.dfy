/** The drag-and-drop upload box: whether a drag is hovering, which file of
    a drop or a selection is taken, and how an uploaded file is classified
    for the caller. */
module FileUploadForm {
  import opened Common
  import opened Text
  import Storage

  /** The kind reported to `onFileUploaded`. */
  datatype FileKind = ImageKind | FileKindOther

  /** `handleDrag`: enter and over light the box, leave dims it, any other
      event type leaves it. */
  function HandleDrag(dragActive: bool, eventType: string): (r: bool)
    ensures eventType == "dragenter" || eventType == "dragover" ==> r
    ensures eventType == "dragleave" ==> !r
    ensures eventType !in {"dragenter", "dragover", "dragleave"} ==> r == dragActive
  {
    if eventType == "dragenter" || eventType == "dragover" then true
    else if eventType == "dragleave" then false
    else dragActive
  }

  /** `files && files[0]`: the first file, if any. */
  function FirstFile(files: seq<Storage.FileInfo>): (r: Option<Storage.FileInfo>)
    ensures r.None? <==> |files| == 0
    ensures r.Some? ==> r.value == files[0]
  {
    if |files| == 0 then None else Some(files[0])
  }

  /** `file.type.startsWith('image/') ? 'image' : 'file'`. */
  function Classify(mimeType: string): (r: FileKind)
    ensures r == ImageKind <==> StartsWith(mimeType, "image/")
  {
    if StartsWith(mimeType, "image/") then ImageKind else FileKindOther
  }

  /** What `onFileUploaded` receives. */
  datatype Uploaded = Uploaded(url: string, kind: FileKind)

  /** The storage side of one upload: who is signed in, the upload flag, the
      folder, the clock reading and the storage service's replies. */
  datatype UploadEnv = UploadEnv(
    user: Option<User>,
    uploading: bool,
    folder: Option<string>,
    now: nat,
    stored: Result<()>,
    publicUrl: string -> string)

  datatype FileResult = FileResult(uploading: bool, callback: Option<Uploaded>)

  /** `handleFile`: upload, then report the URL and kind; a thrown upload is
      caught and nothing is reported. */
  function HandleFile(file: Storage.FileInfo, env: UploadEnv): (r: FileResult)
    ensures var up := Storage.UploadFile(env.user, env.uploading, file.name, env.folder, env.now, env.stored, env.publicUrl);
      && (r.callback.Some? <==> up.result.Ok?)
      && (r.callback.Some? ==> r.callback.value == Uploaded(up.result.value, Classify(file.mimeType)))
  {
    var up := Storage.UploadFile(env.user, env.uploading, file.name, env.folder, env.now, env.stored, env.publicUrl);
    match up.result
    case Ok(url) => FileResult(up.uploading, Some(Uploaded(url, Classify(file.mimeType))))
    case Err(_) => FileResult(up.uploading, None)
  }

  /** `handleInputChange`: only the first selected file is handled. */
  function HandleInputChange(files: seq<Storage.FileInfo>, env: UploadEnv): (r: FileResult)
    ensures |files| == 0 ==> r == FileResult(env.uploading, None)
    ensures |files| > 0 ==> r == HandleFile(files[0], env)
  {
    match FirstFile(files)
    case None => FileResult(env.uploading, None)
    case Some(f) => HandleFile(f, env)
  }

  datatype DropResult = DropResult(dragActive: bool, handled: FileResult)

  /** `handleDrop`: always dims the box, then handles the first dropped file. */
  function HandleDrop(files: seq<Storage.FileInfo>, env: UploadEnv): (r: DropResult)
    ensures !r.dragActive
    ensures |files| == 0 ==> r.handled == FileResult(env.uploading, None)
    ensures |files| > 0 ==> r.handled == HandleFile(files[0], env)
  {
    DropResult(false, HandleInputChange(files, env))
  }

  // ---------------------------------------------------------------------
  // Lemmas

  /** Only the first file matters: dropping a list is dropping its head. */
  lemma OnlyFirstFileCounts(files: seq<Storage.FileInfo>, env: UploadEnv)
    requires |files| > 0
    ensures HandleDrop(files, env) == HandleDrop([files[0]], env)
    ensures HandleInputChange(files, env) == HandleDrop(files, env).handled
  {
  }

  /** A failed upload never reaches the callback; a signed-out user never
      reaches it either. */
  lemma NoCallbackOnFailure(file: Storage.FileInfo, env: UploadEnv)
    requires env.user.None? || env.stored.Err?
    ensures HandleFile(file, env).callback.None?
  {
  }

  /** Image MIME types are reported as images, everything else as files. */
  lemma ClassifyExamples()
    ensures Classify("image/png") == ImageKind
    ensures Classify("application/pdf") == FileKindOther
    ensures Classify("image") == FileKindOther
  {
    assert "image/png"[..6] == "image/";
    assert "application/pdf"[0] != "image/"[0];
  }

  /** A whole drag gesture: entering and hovering light the box, leaving
      dims it again. `handleDrag` leaves the box alone on a drop event; it is
      `handleDrop` that dims it, whatever came before. */
  lemma DragGesture(dragActive: bool, files: seq<Storage.FileInfo>, env: UploadEnv)
    ensures HandleDrag(HandleDrag(dragActive, "dragenter"), "dragover")
    ensures !HandleDrag(HandleDrag(dragActive, "dragenter"), "dragleave")
    ensures HandleDrag(dragActive, "drop") == dragActive
    ensures !HandleDrop(files, env).dragActive
  {
  }

  /** Classification by the MIME type's top-level type: every `image/...`
      subtype is an image, and whatever is classified as an image is
      `"image/"` followed by some subtype. */
  lemma ClassifyImageSubtypes(subtype: string, mimeType: string)
    ensures Classify("image/" + subtype) == ImageKind
    ensures Classify(mimeType) == ImageKind ==> |mimeType| >= 6 && mimeType == "image/" + mimeType[6..]
  {
    assert ("image/" + subtype)[..6] == "image/";
    if Classify(mimeType) == ImageKind {
      assert mimeType == mimeType[..6] + mimeType[6..];
    }
  }
}
