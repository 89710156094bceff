/** The hosted data platform the components talk to, reduced to what they
    use: the current session, the `change_requests` and `attachments`
    tables, and the `attachments` storage bucket. Whether a call fails is
    not decided here: every call takes its outcome as a parameter, and the
    identifiers the platform would assign are parameters too. */
module Store {
  import opened Types
  import opened Sequences

  /** What a failed call throws. Handlers show the message of a thrown
      `Error` object and a fixed text for anything else. */
  datatype Failure = ErrorObject(message: string) | OtherValue

  /** `err instanceof Error ? err.message : fallback` */
  function MessageOf(f: Failure, fallback: string): (m: string)
    ensures f.ErrorObject? ==> m == f.message
    ensures f.OtherValue? ==> m == fallback
  {
    match f
    case ErrorObject(message) => message
    case OtherValue => fallback
  }

  /** The signed-in user. The e-mail address may be missing. */
  datatype Session = Session(userId: string, email: Option<string>)

  /** A row of the `attachments` table. `url` and `user_id` are absent when
      the insert did not set them. */
  datatype AttachmentRow = AttachmentRow(
    id: string,
    changeRequestId: string,
    name: string,
    url: Option<string>,
    userId: Option<string>)

  /** Filter criterion of `.eq('change_request_id', requestId)`. */
  function BelongsTo(requestId: string): AttachmentRow -> bool
  {
    (row: AttachmentRow) => row.changeRequestId == requestId
  }

  /** Filter criterion that keeps every row except those of `.eq('id', id)`. */
  function OtherThan(id: string): AttachmentRow -> bool
  {
    (row: AttachmentRow) => row.id != id
  }

  /** `.update({ status }).eq('id', id)` on the request rows: the matching
      rows get the new status column, every other row and column stays. */
  function SetStatus(rows: seq<Row>, id: string, status: string): (r: seq<Row>)
    ensures |r| == |rows|
    ensures forall i :: 0 <= i < |rows| && "id" in rows[i] && rows[i]["id"] == id ==> r[i] == rows[i]["status" := status]
    ensures forall i :: 0 <= i < |rows| && !("id" in rows[i] && rows[i]["id"] == id) ==> r[i] == rows[i]
  {
    if rows == [] then []
    else
      var head := if "id" in rows[0] && rows[0]["id"] == id then rows[0]["status" := status] else rows[0];
      [head] + SetStatus(rows[1..], id, status)
  }

  /** `getPublicUrl(path)`: the bucket's public address followed by the path. */
  function PublicUrl(base: string, path: string): string
  {
    base + path
  }

  class Backend {
    /** Public address prefix of the `attachments` bucket. */
    const publicBase: string
    var session: Option<Session>
    var requestRows: seq<Row>
    var attachmentRows: seq<AttachmentRow>
    /** Paths of the objects in the `attachments` bucket, in upload order. */
    var blobs: seq<string>

    constructor (publicBase: string, session: Option<Session>)
      ensures this.publicBase == publicBase && this.session == session
      ensures requestRows == [] && attachmentRows == [] && blobs == []
    {
      this.publicBase := publicBase;
      this.session := session;
      requestRows, attachmentRows, blobs := [], [], [];
    }

    /** `insert([row]).select().single()`: on success the stored row, which
        carries the identifier the platform assigned. */
    method InsertRequest(row: Row, newId: string, outcome: Option<Failure>)
      returns (stored: Row, err: Option<Failure>)
      modifies this`requestRows
      ensures err == outcome
      ensures stored == row["id" := newId]
      ensures requestRows == if outcome.None? then old(requestRows) + [stored] else old(requestRows)
    {
      stored := row["id" := newId];
      err := outcome;
      if outcome.None? {
        requestRows := requestRows + [stored];
      }
    }

    /** `update({ status }).eq('id', id)`. */
    method UpdateStatus(id: string, status: string, outcome: Option<Failure>) returns (err: Option<Failure>)
      modifies this`requestRows
      ensures err == outcome
      ensures requestRows == if outcome.None? then SetStatus(old(requestRows), id, status) else old(requestRows)
    {
      err := outcome;
      if outcome.None? {
        requestRows := SetStatus(requestRows, id, status);
      }
    }

    /** A single `insert(rows)` into `attachments`: all rows or none. */
    method InsertAttachments(rows: seq<AttachmentRow>, outcome: Option<Failure>) returns (err: Option<Failure>)
      modifies this`attachmentRows
      ensures err == outcome
      ensures attachmentRows == if outcome.None? then old(attachmentRows) + rows else old(attachmentRows)
    {
      err := outcome;
      if outcome.None? {
        attachmentRows := attachmentRows + rows;
      }
    }

    /** `delete().eq('id', id)` on `attachments`; the stored object is not touched. */
    method DeleteAttachment(id: string, outcome: Option<Failure>) returns (err: Option<Failure>)
      modifies this`attachmentRows
      ensures err == outcome
      ensures attachmentRows == if outcome.None? then Filter(old(attachmentRows), OtherThan(id)) else old(attachmentRows)
    {
      err := outcome;
      if outcome.None? {
        attachmentRows := Filter(attachmentRows, OtherThan(id));
      }
    }

    /** `storage.from('attachments').upload(path, file)`. */
    method Upload(path: string, outcome: Option<Failure>) returns (err: Option<Failure>)
      modifies this`blobs
      ensures err == outcome
      ensures blobs == if outcome.None? then old(blobs) + [path] else old(blobs)
    {
      err := outcome;
      if outcome.None? {
        blobs := blobs + [path];
      }
    }

    /** `select('*').eq('change_request_id', requestId)`, in insertion order;
        `None` when the query fails. */
    method SelectAttachments(requestId: string, failed: bool) returns (data: Option<seq<AttachmentRow>>)
      ensures failed ==> data.None?
      ensures !failed ==> data == Some(Filter(attachmentRows, BelongsTo(requestId)))
      ensures !failed ==> data.Some? && forall row :: row in data.value <==> row in attachmentRows && row.changeRequestId == requestId
      ensures !failed ==> IsSubsequence(data.value, attachmentRows)
    {
      if failed {
        data := None;
      } else {
        FilterIsSubsequence(attachmentRows, BelongsTo(requestId));
        forall row {
          FilterMembership(attachmentRows, BelongsTo(requestId), row);
        }
        data := Some(Filter(attachmentRows, BelongsTo(requestId)));
      }
    }
  }
}
