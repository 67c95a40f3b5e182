/** File storage as the site drives it (the `useFileUpload` hook): the object
    key an upload is stored under, and the key a deletion asks to remove.
    The storage service itself, `Date.now()` and the public-URL rule are
    inputs. */
module Storage {
  import opened Common
  import opened Text

  /** A browser file: its name and MIME type are all the site reads. */
  datatype FileInfo = FileInfo(name: string, mimeType: string)

  /** `file.name.split('.').pop()`. */
  function Extension(fileName: string): (r: string)
    ensures '.' !in r
  {
    AfterLast(fileName, '.')
  }

  /** The optional folder part: `folder + '/'` for a non-empty folder. */
  function FolderPart(folder: Option<string>): string
  {
    if folder.Some? && folder.value != "" then folder.value + "/" else ""
  }

  /** The object key of an upload: user id, optional folder, timestamp and
      extension. */
  function UploadKey(userId: string, folder: Option<string>, now: nat, fileName: string): (r: string)
    ensures StartsWith(r, userId + "/")
  {
    var owner := userId + "/";
    var rest := FolderPart(folder) + FileStem(now, fileName);
    assert (owner + rest)[..|owner|] == owner;
    owner + rest
  }

  /** The file part of a key: `Date.now()` and the extension. */
  function FileStem(now: nat, fileName: string): string
  {
    Decimal(now) + "." + Extension(fileName)
  }

  datatype UploadOutcome = UploadOutcome(result: Result<string>, uploading: bool)

  /** `uploadFile`: throws for a signed-out user before anything starts;
      otherwise stores the file under `UploadKey` and returns its public URL,
      or rethrows the storage error. `uploading` ends false either way. */
  function UploadFile(user: Option<User>, uploading: bool, fileName: string, folder: Option<string>,
                      now: nat, stored: Result<()>, publicUrl: string -> string): (r: UploadOutcome)
    ensures user.None? ==> r == UploadOutcome(Err(NotAuthenticated), uploading)
    ensures user.Some? ==> !r.uploading
    ensures r.result.Ok? <==> user.Some? && stored.Ok?
    ensures r.result.Ok? ==> r.result.value == publicUrl(UploadKey(user.value.id, folder, now, fileName))
    ensures user.Some? && stored.Err? ==> r.result == Err(stored.error)
  {
    if user.None? then UploadOutcome(Err(NotAuthenticated), uploading)
    else
      var key := UploadKey(user.value.id, folder, now, fileName);
      match stored
      case Ok(_) => UploadOutcome(Ok(publicUrl(key)), false)
      case Err(e) => UploadOutcome(Err(e), false)
  }

  /** The key `deleteFile` derives from a URL, as written: the text after
      the last `/`, an error when that text is empty. */
  function DeletionKey(url: string): (r: Result<string>)
    ensures r.Ok? ==> r.value != "" && '/' !in r.value && |r.value| <= |url| && url == url[..|url| - |r.value|] + r.value
    ensures r.Ok? && |r.value| < |url| ==> url[|url| - |r.value| - 1] == '/'
    ensures r.Err? ==> r.error == InvalidFileUrl && (url == "" || url[|url| - 1] == '/')
  {
    var name := AfterLast(url, '/');
    if name == "" then Err(InvalidFileUrl) else Ok(name)
  }

  /** `deleteFile`: no request for an invalid URL; otherwise the removal of
      `DeletionKey(url)` is requested and its error, if any, rethrown. */
  datatype DeleteOutcome = DeleteOutcome(requested: Option<string>, result: Result<()>)

  function DeleteFile(url: string, removed: Result<()>): (r: DeleteOutcome)
    ensures r.requested.None? <==> DeletionKey(url).Err?
    ensures r.requested.Some? ==> r.requested.value == DeletionKey(url).value && r.result == removed
    ensures r.requested.None? ==> r.result == Err(InvalidFileUrl)
  {
    match DeletionKey(url)
    case Err(e) => DeleteOutcome(None, Err(e))
    case Ok(key) => DeleteOutcome(Some(key), removed)
  }

  /** The key of the object behind a public URL, given the URL prefix the
      storage service puts before every key of the bucket. */
  function ObjectKey(url: string, publicPrefix: string): (r: Result<string>)
    ensures r.Ok? ==> url == publicPrefix + r.value && r.value != ""
    ensures r.Err? ==> r.error == InvalidFileUrl
  {
    if StartsWith(url, publicPrefix) && |url| > |publicPrefix| then Ok(url[|publicPrefix|..])
    else Err(InvalidFileUrl)
  }

  /** Corrected `deleteFile`: the removal asks for the object key behind the
      URL, and an URL outside the bucket's public prefix is invalid. */
  function DeleteObject(url: string, publicPrefix: string, removed: Result<()>): (r: DeleteOutcome)
    ensures r.requested.None? <==> !(StartsWith(url, publicPrefix) && |url| > |publicPrefix|)
    ensures r.requested.Some? ==> url == publicPrefix + r.requested.value && r.result == removed
    ensures r.requested.None? ==> r.result == Err(InvalidFileUrl)
  {
    match ObjectKey(url, publicPrefix)
    case Err(e) => DeleteOutcome(None, Err(e))
    case Ok(key) => DeleteOutcome(Some(key), removed)
  }

  // ---------------------------------------------------------------------
  // Lemmas

  /** The extension is the text after the last `.`, or the whole name when
      it has none. */
  lemma ExtensionIsLastPart(fileName: string)
    ensures '.' !in fileName ==> Extension(fileName) == fileName
    ensures '.' in fileName ==>
      (|Extension(fileName)| < |fileName| && fileName[|fileName| - |Extension(fileName)| - 1] == '.')
  {
  }

  /** A key without a folder is `userId/timestamp.ext`. */
  lemma {:induction false} KeyWithoutFolder(userId: string, now: nat, fileName: string)
    ensures UploadKey(userId, None, now, fileName) == userId + "/" + FileStem(now, fileName)
  {
    var stem := FileStem(now, fileName);
    assert FolderPart(None) + stem == stem;
  }

  /** A key with a non-empty folder is `userId/folder/timestamp.ext`. */
  lemma {:induction false} KeyWithFolder(userId: string, folder: string, now: nat, fileName: string)
    requires folder != ""
    ensures UploadKey(userId, Some(folder), now, fileName) == userId + "/" + folder + "/" + FileStem(now, fileName)
  {
    Regroup(userId + "/", folder, "/", FileStem(now, fileName));
  }

  /** A key without a folder is `userId/timestamp.ext`; an empty folder
      counts as none; with a folder the key is `userId/folder/timestamp.ext`. */
  lemma {:induction false} UploadKeyLayout(userId: string, folder: string, now: nat, fileName: string)
    ensures UploadKey(userId, None, now, fileName) == userId + "/" + FileStem(now, fileName)
    ensures UploadKey(userId, Some(""), now, fileName) == UploadKey(userId, None, now, fileName)
    ensures folder != "" ==>
      UploadKey(userId, Some(folder), now, fileName) == userId + "/" + folder + "/" + FileStem(now, fileName)
  {
    KeyWithoutFolder(userId, now, fileName);
    assert FolderPart(Some("")) == FolderPart(None);
    if folder != "" {
      KeyWithFolder(userId, folder, now, fileName);
    }
  }

  /** As written, deletion never targets an uploaded object: whatever URL
      the object is served under, the derived key has no `/` while every
      upload key does. */
  lemma {:induction false} DeletionKeyMissesUploads(url: string, userId: string, folder: Option<string>, now: nat, fileName: string)
    ensures DeletionKey(url).Ok? ==> DeletionKey(url).value != UploadKey(userId, folder, now, fileName)
  {
    var key := UploadKey(userId, folder, now, fileName);
    assert key[|userId|] == '/';
  }

  /** A concrete case: user "u1" uploads "a.png" into folder "shots" at
      time 7, so the object key is "u1/shots/7.png". */
  lemma UploadKeyExample()
    ensures UploadKey("u1", Some("shots"), 7, "a.png") == "u1/shots/7.png"
  {
    AfterLastSuffix("a", "png", '.');
    assert "a.png" == "a" + ['.'] + "png";
  }

  /** Deleting the URL that ends in that key asks for "7.png" only. */
  lemma DeletionKeyExample(base: string)
    ensures DeletionKey(base + "/u1/shots/7.png") == Ok("7.png")
  {
    AfterLastSuffix(base + "/u1/shots", "7.png", '/');
    assert base + "/u1/shots/7.png" == base + "/u1/shots" + ['/'] + "7.png";
  }

  /** The part after a separator that does not occur in it is what
      `AfterLast` returns. */
  lemma {:induction false} AfterLastSuffix(head: string, tail: string, sep: char)
    requires sep !in tail
    ensures AfterLast(head + [sep] + tail, sep) == tail
    decreases |tail|
  {
    var s := head + [sep] + tail;
    if |tail| > 0 {
      var t := tail[..|tail| - 1];
      assert s[..|s| - 1] == head + [sep] + t;
      AfterLastSuffix(head, t, sep);
      assert tail == t + [tail[|tail| - 1]];
    } else {
      assert s[|s| - 1] == sep;
    }
  }

  /** Corrected: stripping the bucket's public prefix recovers exactly the
      key the upload stored, so upload and delete round-trip. */
  lemma {:induction false} ObjectKeyRoundTrip(publicPrefix: string, userId: string, folder: Option<string>, now: nat, fileName: string)
    ensures ObjectKey(publicPrefix + UploadKey(userId, folder, now, fileName), publicPrefix)
      == Ok(UploadKey(userId, folder, now, fileName))
  {
    var key := UploadKey(userId, folder, now, fileName);
    assert |key| > 0 by { assert key[|userId|] == '/'; }
    assert (publicPrefix + key)[..|publicPrefix|] == publicPrefix;
    assert (publicPrefix + key)[|publicPrefix|..] == key;
  }

  /** As written, uploading a file and then deleting the URL the upload
      returned never asks storage to remove the uploaded object. */
  lemma {:induction false} UploadThenDeleteMisses(user: User, uploading: bool, fileName: string, folder: Option<string>,
                               now: nat, publicUrl: string -> string, removed: Result<()>)
    ensures var up := UploadFile(Some(user), uploading, fileName, folder, now, Ok(()), publicUrl);
      up.result.Ok? &&
      DeleteFile(up.result.value, removed).requested != Some(UploadKey(user.id, folder, now, fileName))
  {
    var url := UploadFile(Some(user), uploading, fileName, folder, now, Ok(()), publicUrl).result.value;
    DeletionKeyMissesUploads(url, user.id, folder, now, fileName);
  }

  /** Corrected: when public URLs are the bucket's prefix followed by the
      key, deleting the URL an upload returned removes exactly the uploaded
      object, and passes the storage reply through. */
  lemma {:induction false} UploadThenDeleteObject(user: User, uploading: bool, fileName: string, folder: Option<string>,
                               now: nat, publicPrefix: string, publicUrl: string -> string, removed: Result<()>)
    requires forall k :: publicUrl(k) == publicPrefix + k
    ensures var up := UploadFile(Some(user), uploading, fileName, folder, now, Ok(()), publicUrl);
      up.result.Ok? &&
      DeleteObject(up.result.value, publicPrefix, removed) == DeleteOutcome(Some(UploadKey(user.id, folder, now, fileName)), removed)
  {
    ObjectKeyRoundTrip(publicPrefix, user.id, folder, now, fileName);
  }
}
