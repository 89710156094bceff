/** The attachment panel of src/components/FileUpload.tsx: the storage path
    of an upload, the upload loop that stops at the first failure, and the
    two list removals. The random part of a stored file name and the
    outcome of every platform call are parameters. */
module FileUpload {
  import opened Types
  import opened Text
  import opened Sequences
  import opened Store

  /** A selected file; only its name matters to the panel. */
  datatype File = File(name: string)

  /** `name.split('.').pop()`: the text after the last dot, or the whole
      name when it has no dot. */
  function Extension(name: string): string
  {
    if name == [] || name[|name| - 1] == '.' then []
    else Extension(name[..|name| - 1]) + [name[|name| - 1]]
  }

  /** The extension is the longest dot-free suffix of the name: it holds
      no dot, ends the name, and is either the whole name or preceded by a dot. */
  lemma {:induction false} ExtensionIsLastSegment(name: string)
    ensures var ext := Extension(name);
            (forall i :: 0 <= i < |ext| ==> ext[i] != '.')
            && |ext| <= |name| && name[|name| - |ext|..] == ext
            && (|ext| < |name| ==> name[|name| - |ext| - 1] == '.')
  {
    if name != [] && name[|name| - 1] != '.' {
      var init, last := name[..|name| - 1], name[|name| - 1];
      ExtensionIsLastSegment(init);
      var e := Extension(init);
      assert name == init + [last];
      var ext := Extension(name);
      assert ext == e + [last];
      var start := |init| - |e|;
      assert name[start..] == init[start..] + [last];
      assert forall i :: 0 <= i < |ext| ==> ext[i] != '.' by {
        forall i | 0 <= i < |ext| ensures ext[i] != '.' {
          if i < |e| { assert ext[i] == e[i]; }
        }
      }
      assert |ext| < |name| ==> name[|name| - |ext| - 1] == init[start - 1];
    }
  }

  /** A name without a dot is its own extension. */
  lemma ExtensionWithoutDot(name: string)
    requires forall i :: 0 <= i < |name| ==> name[i] != '.'
    ensures Extension(name) == name
  {
    ExtensionIsLastSegment(name);
  }

  /** Whatever comes before the last dot, the extension is what follows it. */
  lemma {:induction false} ExtensionAfterDot(prefix: string, ext: string)
    requires forall i :: 0 <= i < |ext| ==> ext[i] != '.'
    ensures Extension(prefix + "." + ext) == ext
  {
    var name := prefix + "." + ext;
    if ext != [] {
      var init := ext[..|ext| - 1];
      assert name[..|name| - 1] == prefix + "." + init;
      ExtensionAfterDot(prefix, init);
      assert ext == init + [ext[|ext| - 1]];
    }
  }

  /** `${requestId}/${fileName}` with `fileName = ${random}.${fileExt}`. */
  function StoragePath(requestId: string, freshName: string, fileName: string): string
  {
    requestId + "/" + freshName + "." + Extension(fileName)
  }

  /** The first path segment: the text before the first '/'. */
  function FirstSegment(path: string): (s: string)
    ensures '/' !in s && StartsWith(path, s)
    ensures s == path || path[|s|] == '/'
  {
    if path == [] || path[0] == '/' then []
    else
      var rest := FirstSegment(path[1..]);
      assert path[..1 + |rest|] == [path[0]] + path[1..][..|rest|];
      [path[0]] + rest
  }

  /** Uploads are scoped by request: an id without '/' is the first segment
      of every path made for it, so two such requests never share a path. */
  lemma {:induction false} PathScopedToRequest(requestId: string, freshName: string, fileName: string)
    requires '/' !in requestId
    ensures FirstSegment(StoragePath(requestId, freshName, fileName)) == requestId
  {
    var path := StoragePath(requestId, freshName, fileName);
    var rest := freshName + "." + Extension(fileName);
    assert path == requestId + "/" + rest;
    SegmentBeforeSlash(requestId, rest);
  }

  lemma {:induction false} SegmentBeforeSlash(head: string, rest: string)
    requires '/' !in head
    ensures FirstSegment(head + "/" + rest) == head
  {
    if head != [] {
      assert (head + "/" + rest)[1..] == head[1..] + "/" + rest;
      SegmentBeforeSlash(head[1..], rest);
    }
  }

  /** The stored object keeps the extension of the original file. */
  lemma PathKeepsExtension(requestId: string, freshName: string, fileName: string)
    ensures Extension(StoragePath(requestId, freshName, fileName)) == Extension(fileName)
  {
    ExtensionIsLastSegment(fileName);
    ExtensionAfterDot(requestId + "/" + freshName, Extension(fileName));
  }

  /** `files.filter((_, i) => i !== index)` */
  function RemoveIndex<T>(s: seq<T>, index: int): (r: seq<T>)
    ensures 0 <= index < |s| ==> r == s[..index] + s[index + 1..]
    ensures !(0 <= index < |s|) ==> r == s
  {
    if s == [] then []
    else
      var rest := RemoveIndex(s[1..], index - 1);
      if index == 0 then rest
      else
        assert 0 < index < |s| ==> rest == s[1..index] + s[index + 1..];
        [s[0]] + rest
  }

  /** What the platform does with one file of the loop. */
  datatype UploadStep = UploadStep(
    freshName: string,          // the random part of the stored name
    storage: Option<Failure>,   // outcome of the storage upload
    recordId: string,           // id the table assigns to the record
    record: Option<Failure>)    // outcome of the record insert

  predicate Succeeds(step: UploadStep)
  {
    step.storage.None? && step.record.None?
  }

  /** The number of files the loop gets through: the index of the first
      failing step, or all of them. */
  function UploadedCount(steps: seq<UploadStep>): (k: nat)
    ensures k <= |steps|
    ensures forall j :: 0 <= j < k ==> Succeeds(steps[j])
    ensures k < |steps| ==> !Succeeds(steps[k])
  {
    if steps == [] || !Succeeds(steps[0]) then 0
    else 1 + UploadedCount(steps[1..])
  }

  /** The count is the first failing index: every step before it succeeds. */
  lemma UploadedCountAt(steps: seq<UploadStep>, i: nat)
    requires i <= |steps|
    requires forall j :: 0 <= j < i ==> Succeeds(steps[j])
    requires i < |steps| ==> !Succeeds(steps[i])
    ensures UploadedCount(steps) == i
  {
  }

  /** `auth.getUser()...user?.id` */
  function UserIdOf(session: Option<Session>): Option<string>
  {
    if session.Some? then Some(session.value.userId) else None
  }

  /** The path of one file of the loop. */
  function PathFor(requestId: string, file: File, step: UploadStep): string
  {
    StoragePath(requestId, step.freshName, file.name)
  }

  /** The record the loop inserts for one uploaded file. */
  function RecordFor(requestId: string, base: string, file: File, step: UploadStep, userId: Option<string>): AttachmentRow
  {
    AttachmentRow(step.recordId, requestId, file.name, Some(PublicUrl(base, PathFor(requestId, file, step))), userId)
  }

  /** The records of the first `k` files, in selection order. */
  function Records(requestId: string, base: string, files: seq<File>, steps: seq<UploadStep>, userId: Option<string>, k: nat)
    : (rows: seq<AttachmentRow>)
    requires k <= |files| == |steps|
    ensures |rows| == k
    ensures forall j :: 0 <= j < k ==>
              rows[j].id == steps[j].recordId && rows[j].changeRequestId == requestId && rows[j].name == files[j].name
              && rows[j].url == Some(PublicUrl(base, StoragePath(requestId, steps[j].freshName, files[j].name)))
              && rows[j].userId == userId
  {
    seq(k, j requires 0 <= j < k => RecordFor(requestId, base, files[j], steps[j], userId))
  }

  /** The storage paths of the first `k` files, in selection order. */
  function PathList(requestId: string, files: seq<File>, steps: seq<UploadStep>, k: nat): (paths: seq<string>)
    requires k <= |files| == |steps|
    ensures |paths| == k
    ensures forall j :: 0 <= j < k ==> paths[j] == PathFor(requestId, files[j], steps[j])
  {
    seq(k, j requires 0 <= j < k => PathFor(requestId, files[j], steps[j]))
  }

  /** One more file through the loop adds its record at the end. */
  lemma RecordsSnoc(requestId: string, base: string, files: seq<File>, steps: seq<UploadStep>, userId: Option<string>, k: nat)
    requires k < |files| == |steps|
    ensures Records(requestId, base, files, steps, userId, k + 1)
            == Records(requestId, base, files, steps, userId, k) + [RecordFor(requestId, base, files[k], steps[k], userId)]
  {
  }

  /** One more file through the loop adds its path at the end. */
  lemma PathsSnoc(requestId: string, files: seq<File>, steps: seq<UploadStep>, k: nat)
    requires k < |files| == |steps|
    ensures PathList(requestId, files, steps, k + 1) == PathList(requestId, files, steps, k) + [PathFor(requestId, files[k], steps[k])]
  {
    var longer := PathList(requestId, files, steps, k + 1);
    var extended := PathList(requestId, files, steps, k) + [PathFor(requestId, files[k], steps[k])];
    forall j | 0 <= j < k + 1 ensures longer[j] == extended[j] {
    }
    assert longer == extended;
  }

  /** Every record the loop inserts links to the object stored for the same
      file, in the same position of the upload order. */
  lemma RecordsLinkStoredObjects(requestId: string, base: string, files: seq<File>, steps: seq<UploadStep>, userId: Option<string>, k: nat)
    requires k <= |files| == |steps|
    ensures forall j :: 0 <= j < k ==>
              Records(requestId, base, files, steps, userId, k)[j].url == Some(PublicUrl(base, PathList(requestId, files, steps, k)[j]))
              && Records(requestId, base, files, steps, userId, k)[j].changeRequestId == requestId
  {
  }

  /** The loop of `handleUpload` on its own: for each file in order, store
      the object, then insert its record; the first failure ends the loop,
      and what was stored before it stays. */
  method UploadAll(db: Backend, requestId: string, files: seq<File>, steps: seq<UploadStep>) returns (ok: bool)
    requires |steps| == |files|
    modifies db`blobs, db`attachmentRows
    ensures ok <==> UploadedCount(steps) == |steps|
    ensures var k := UploadedCount(steps);
            db.attachmentRows == old(db.attachmentRows)
              + Records(requestId, db.publicBase, files, steps, UserIdOf(db.session), k)
    ensures var k := UploadedCount(steps);
            db.blobs == old(db.blobs) + PathList(requestId, files, steps, k)
              + (if k < |steps| && steps[k].storage.None? then [PathFor(requestId, files[k], steps[k])] else [])
  {
    var userId := UserIdOf(db.session);
    var i := 0;
    while i < |files|
      invariant 0 <= i <= |files|
      invariant forall j :: 0 <= j < i ==> Succeeds(steps[j])
      invariant db.attachmentRows == old(db.attachmentRows) + Records(requestId, db.publicBase, files, steps, userId, i)
      invariant db.blobs == old(db.blobs) + PathList(requestId, files, steps, i)
    {
      var stored := UploadOne(db, requestId, files[i], steps[i], userId);
      if !stored {
        UploadedCountAt(steps, i);
        return false;
      }
      RecordsSnoc(requestId, db.publicBase, files, steps, userId, i);
      PathsSnoc(requestId, files, steps, i);
      i := i + 1;
    }
    UploadedCountAt(steps, i);
    return true;
  }

  /** One pass of the loop: store the object, then insert its record with
      the object's public address; the record is not attempted when the
      object could not be stored. */
  method UploadOne(db: Backend, requestId: string, file: File, step: UploadStep, userId: Option<string>)
    returns (ok: bool)
    modifies db`blobs, db`attachmentRows
    ensures ok <==> Succeeds(step)
    ensures db.blobs == old(db.blobs) + (if step.storage.None? then [PathFor(requestId, file, step)] else [])
    ensures db.attachmentRows == old(db.attachmentRows) + (if ok then [RecordFor(requestId, db.publicBase, file, step, userId)] else [])
  {
    var path := PathFor(requestId, file, step);
    var uploadError := db.Upload(path, step.storage);
    if uploadError.Some? {
      return false;
    }
    var row := AttachmentRow(step.recordId, requestId, file.name, Some(PublicUrl(db.publicBase, path)), userId);
    var dbError := db.InsertAttachments([row], step.record);
    return dbError.None?;
  }

  /** The panel for one request. */
  class Panel {
    const requestId: string
    var files: seq<File>
    var uploading: bool
    var attachments: seq<AttachmentRow>

    constructor (requestId: string)
      ensures this.requestId == requestId && files == [] && !uploading && attachments == []
    {
      this.requestId := requestId;
      files, uploading, attachments := [], false, [];
    }

    /** `handleFileChange` and `handleDrop`: a new selection replaces the old one. */
    method SelectFiles(selection: Option<seq<File>>)
      modifies this`files
      ensures files == if selection.Some? then selection.value else old(files)
    {
      if selection.Some? {
        files := selection.value;
      }
    }

    /** `fetchAttachments`: the local list becomes the request's records,
        unless the query fails. */
    method FetchAttachments(db: Backend, fails: bool)
      modifies this`attachments
      ensures attachments == if fails then old(attachments) else Filter(db.attachmentRows, BelongsTo(requestId))
    {
      var data := db.SelectAttachments(requestId, fails);
      if data.Some? {
        attachments := data.value;
      }
    }

    /** `handleUpload`: runs the loop with the flag raised and lowers it
        however the loop ends. Only a complete run clears the selection and
        reloads the list; an empty selection does nothing. */
    method HandleUpload(db: Backend, steps: seq<UploadStep>, refreshFails: bool) returns (ok: bool)
      requires |steps| == |files|
      modifies this`files, this`uploading, this`attachments, db`blobs, db`attachmentRows
      ensures old(files) == [] ==>
                ok && uploading == old(uploading) && unchanged(this) && unchanged(db)
      ensures old(files) != [] ==> !uploading
      ensures ok <==> UploadedCount(steps) == |steps|
      ensures var k := UploadedCount(steps);
              db.attachmentRows == old(db.attachmentRows)
                + Records(requestId, db.publicBase, old(files), steps, UserIdOf(db.session), k)
      ensures var k := UploadedCount(steps);
              db.blobs == old(db.blobs) + PathList(requestId, old(files), steps, k)
                + (if k < |steps| && steps[k].storage.None? then [PathFor(requestId, old(files)[k], steps[k])] else [])
      ensures files == if ok then [] else old(files)
      ensures attachments == if ok && old(files) != [] && !refreshFails
                             then Filter(db.attachmentRows, BelongsTo(requestId)) else old(attachments)
    {
      if |files| == 0 {
        return true;
      }
      uploading := true;
      ok := UploadAll(db, requestId, files, steps);
      if ok {
        files := [];
        FetchAttachments(db, refreshFails);
      }
      uploading := false;
    }

    /** `handleRemoveFile`: drops the selected file at `index` and keeps the others in order. */
    method HandleRemoveFile(index: int)
      modifies this`files
      ensures files == RemoveIndex(old(files), index)
    {
      files := RemoveIndex(files, index);
    }

    /** `handleDeleteAttachment`: the local list drops the record only after
        the table delete succeeded. */
    method HandleDeleteAttachment(db: Backend, id: string, outcome: Option<Failure>)
      modifies this`attachments, db`attachmentRows
      ensures db.attachmentRows == if outcome.None? then Filter(old(db.attachmentRows), OtherThan(id)) else old(db.attachmentRows)
      ensures attachments == if outcome.None? then Filter(old(attachments), OtherThan(id)) else old(attachments)
      ensures forall a :: a in attachments <==> a in old(attachments) && (outcome.None? ==> a.id != id)
      ensures IsSubsequence(attachments, old(attachments))
    {
      var err := db.DeleteAttachment(id, outcome);
      forall a {
        FilterMembership(attachments, OtherThan(id), a);
      }
      FilterIsSubsequence(attachments, OtherThan(id));
      if err.None? {
        attachments := Filter(attachments, OtherThan(id));
      } else {
        FilterAll(attachments, (a: AttachmentRow) => true);
        FilterIsSubsequence(attachments, (a: AttachmentRow) => true);
      }
    }
  }
}
