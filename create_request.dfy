/** The creation form of src/components/CreateRequest.tsx: the mapping of
    the form's inputs to a `change_requests` row, the attachment rows tied
    to the new request, and the submit protocol that stops at the first
    failure. The identifiers the table assigns and the outcome of every
    call are parameters. */
module CreateRequest {
  import opened Types
  import opened Sequences
  import opened Store
  import FileUpload

  const NotLoggedIn: string := "User is not logged in"
  const SubmitFallback: string := "Failed to create request"
  /** Column that ties a row to the user who created it. */
  const UserIdColumn: string := "user_id"
  /** Route the form navigates to after a successful submission. */
  const HomeRoute: string := "/"

  /** The seven text inputs of the form, as typed or selected. */
  datatype Entries = Entries(
    title: string,
    description: string,
    changeType: string,
    impactLevel: string,
    downtime: string,
    rollbackPlan: string,
    approver: string)

  /** The input that fills a column of the request, if the form has one. */
  function EntryFor(e: Entries, f: Field): Option<string>
  {
    match f
    case TitleField => Some(e.title)
    case DescriptionField => Some(e.description)
    case ChangeTypeField => Some(e.changeType)
    case ImpactLevelField => Some(e.impactLevel)
    case ExpectedDowntimeField => Some(e.downtime)
    case RollbackPlanField => Some(e.rollbackPlan)
    case ApproverField => Some(e.approver)
    case _ => None
  }

  /** The object handed to `insert`. */
  function RequestRow(e: Entries, userId: string): Row
  {
    map[
      ColumnName(TitleField) := e.title,
      ColumnName(DescriptionField) := e.description,
      ColumnName(ChangeTypeField) := e.changeType,
      ColumnName(ImpactLevelField) := e.impactLevel,
      ColumnName(ExpectedDowntimeField) := e.downtime,
      ColumnName(RollbackPlanField) := e.rollbackPlan,
      ColumnName(ApproverField) := e.approver,
      UserIdColumn := userId]
  }

  /** Each input of the form sits under its own column, the session user
      under `user_id`, and nothing else is written; id, status and the
      timestamps are left to the table. */
  lemma RequestRowColumns(e: Entries, userId: string)
    ensures forall f :: EntryFor(e, f).Some? ==>
              ColumnName(f) in RequestRow(e, userId) && RequestRow(e, userId)[ColumnName(f)] == EntryFor(e, f).value
    ensures forall f :: EntryFor(e, f).None? ==> ColumnName(f) !in RequestRow(e, userId)
    ensures UserIdColumn in RequestRow(e, userId) && RequestRow(e, userId)[UserIdColumn] == userId
    ensures forall k :: k in RequestRow(e, userId) ==> k == UserIdColumn || exists f :: EntryFor(e, f).Some? && k == ColumnName(f)
  {
    var row := RequestRow(e, userId);
    forall k | k in row
      ensures k == UserIdColumn || exists f :: EntryFor(e, f).Some? && k == ColumnName(f)
    {
      if k == ColumnName(TitleField) { assert EntryFor(e, TitleField).Some?; }
      else if k == ColumnName(DescriptionField) { assert EntryFor(e, DescriptionField).Some?; }
      else if k == ColumnName(ChangeTypeField) { assert EntryFor(e, ChangeTypeField).Some?; }
      else if k == ColumnName(ImpactLevelField) { assert EntryFor(e, ImpactLevelField).Some?; }
      else if k == ColumnName(ExpectedDowntimeField) { assert EntryFor(e, ExpectedDowntimeField).Some?; }
      else if k == ColumnName(RollbackPlanField) { assert EntryFor(e, RollbackPlanField).Some?; }
      else if k == ColumnName(ApproverField) { assert EntryFor(e, ApproverField).Some?; }
    }
  }

  /** The inserted row once the table has filled in the id, the status and the timestamps. */
  function FilledRow(e: Entries, userId: string, id: string, status: string, createdAt: string, updatedAt: string): Row
  {
    RequestRow(e, userId)[ColumnName(IdField) := id][ColumnName(StatusField) := status]
      [ColumnName(CreatedAtField) := createdAt][ColumnName(UpdatedAtField) := updatedAt]
  }

  /** The columns the table fills in leave every input's column as the form wrote it. */
  lemma FilledRowKeepsInput(e: Entries, userId: string, id: string, status: string, createdAt: string, updatedAt: string,
                            f: Field)
    requires EntryFor(e, f).Some?
    ensures ColumnName(f) in FilledRow(e, userId, id, status, createdAt, updatedAt)
    ensures FilledRow(e, userId, id, status, createdAt, updatedAt)[ColumnName(f)] == EntryFor(e, f).value
  {
    RequestRowColumns(e, userId);
    NamingsInjective(f, IdField);
    NamingsInjective(f, StatusField);
    NamingsInjective(f, CreatedAtField);
    NamingsInjective(f, UpdatedAtField);
  }

  /** The filled row under the column names the table reads back. */
  lemma FilledRowLookups(e: Entries, userId: string, id: string, status: string, createdAt: string, updatedAt: string)
    ensures var full := FilledRow(e, userId, id, status, createdAt, updatedAt);
            "id" in full && full["id"] == id && "status" in full && full["status"] == status
            && "created_at" in full && full["created_at"] == createdAt && "updated_at" in full && full["updated_at"] == updatedAt
            && "title" in full && full["title"] == e.title && "description" in full && full["description"] == e.description
            && "change_type" in full && full["change_type"] == e.changeType
            && "impact_level" in full && full["impact_level"] == e.impactLevel
            && "expected_downtime" in full && full["expected_downtime"] == e.downtime
            && "rollback_plan" in full && full["rollback_plan"] == e.rollbackPlan
            && "approver_email" in full && full["approver_email"] == e.approver
  {
    FilledRowKeepsInput(e, userId, id, status, createdAt, updatedAt, TitleField);
    FilledRowKeepsInput(e, userId, id, status, createdAt, updatedAt, DescriptionField);
    FilledRowKeepsInput(e, userId, id, status, createdAt, updatedAt, ChangeTypeField);
    FilledRowKeepsInput(e, userId, id, status, createdAt, updatedAt, ImpactLevelField);
    FilledRowKeepsInput(e, userId, id, status, createdAt, updatedAt, ExpectedDowntimeField);
    FilledRowKeepsInput(e, userId, id, status, createdAt, updatedAt, RollbackPlanField);
    FilledRowKeepsInput(e, userId, id, status, createdAt, updatedAt, ApproverField);
  }

  /** Once the table has filled in the id, the status and the timestamps,
      the inserted row reads back as the request the form describes: every
      input lands in its own property, and the rollback plan is defined
      (possibly empty). */
  lemma InsertedRowReadsBack(e: Entries, userId: string, id: string, status: string, createdAt: string, updatedAt: string)
    requires ParseChangeType(e.changeType).Some? && ParseImpactLevel(e.impactLevel).Some?
    ensures FromRow(FilledRow(e, userId, id, status, createdAt, updatedAt), [])
            == Some(ChangeRequest(id, e.title, e.description, ParseChangeType(e.changeType).value,
                                  ParseImpactLevel(e.impactLevel).value, e.downtime, Some(e.rollbackPlan), [],
                                  e.approver, status, createdAt, updatedAt))
  {
    FilledRowLookups(e, userId, id, status, createdAt, updatedAt);
  }

  /** The `value`s of the change-type options after the "Select type" placeholder. */
  const ChangeTypeOptions: seq<string> := ["Software", "Hardware", "Network", "Security", "Other"]
  /** The `value`s of the impact options after the "Select impact" placeholder. */
  const ImpactLevelOptions: seq<string> := ["Low", "Medium", "High"]
  /** The value of both placeholder options, which names no selection. */
  const UnselectedOption: string := ""

  /** The options are exactly the enumeration values, in declaration order,
      and the placeholder names none of them. */
  lemma OptionsAreEnumerations()
    ensures |ChangeTypeOptions| == |AllChangeTypes|
    ensures forall i :: 0 <= i < |ChangeTypeOptions| ==> ChangeTypeOptions[i] == ChangeTypeName(AllChangeTypes[i])
    ensures |ImpactLevelOptions| == |AllImpactLevels|
    ensures forall i :: 0 <= i < |ImpactLevelOptions| ==> ImpactLevelOptions[i] == ImpactLevelName(AllImpactLevels[i])
    ensures ParseChangeType(UnselectedOption).None? && ParseImpactLevel(UnselectedOption).None?
  {
  }

  /** Inputs marked `required`: the browser refuses to submit the form while
      one of them is empty. Expected downtime and the rollback plan are optional. */
  predicate Required(f: Field)
  {
    f == TitleField || f == DescriptionField || f == ChangeTypeField || f == ImpactLevelField || f == ApproverField
  }

  /** The browser's check before `onSubmit` fires. */
  predicate PassesValidation(e: Entries)
  {
    forall f :: Required(f) && EntryFor(e, f).Some? ==> EntryFor(e, f).value != []
  }

  /** What the two selects can hold: the placeholder or one of their options. */
  predicate SelectsHoldOptions(e: Entries)
  {
    (e.changeType == UnselectedOption || e.changeType in ChangeTypeOptions)
    && (e.impactLevel == UnselectedOption || e.impactLevel in ImpactLevelOptions)
  }

  /** A form the browser lets through names a valid change type and impact
      level, so its row reads back as a complete request. */
  lemma ValidatedSelectionsParse(e: Entries)
    requires PassesValidation(e) && SelectsHoldOptions(e)
    ensures ParseChangeType(e.changeType).Some? && ParseImpactLevel(e.impactLevel).Some?
  {
    assert Required(ChangeTypeField) && EntryFor(e, ChangeTypeField).Some?;
    assert Required(ImpactLevelField) && EntryFor(e, ImpactLevelField).Some?;
    assert e.changeType != UnselectedOption && e.impactLevel != UnselectedOption;
  }

  /** `attachments.map(file => ({ name, change_request_id }))`, with the ids
      the table assigns; url and user are left unset. */
  function AttachmentRowsFor(files: seq<FileUpload.File>, requestId: string, ids: seq<string>): (rows: seq<AttachmentRow>)
    requires |ids| == |files|
    ensures |rows| == |files|
    ensures forall j :: 0 <= j < |files| ==>
              rows[j].name == files[j].name && rows[j].changeRequestId == requestId
              && rows[j].url.None? && rows[j].userId.None?
  {
    seq(|files|, j requires 0 <= j < |files| => AttachmentRow(ids[j], requestId, files[j].name, None, None))
  }

  /** When no earlier attachment row belongs to the new request, listing the
      request's attachments afterwards yields exactly one row per selected
      file, in selection order. */
  lemma {:induction false} AttachmentsListedUnderNewRequest(existing: seq<AttachmentRow>, files: seq<FileUpload.File>,
                                                            requestId: string, ids: seq<string>)
    requires |ids| == |files|
    requires forall row :: row in existing ==> row.changeRequestId != requestId
    ensures Filter(existing + AttachmentRowsFor(files, requestId, ids), BelongsTo(requestId))
            == AttachmentRowsFor(files, requestId, ids)
  {
    var added := AttachmentRowsFor(files, requestId, ids);
    FilterConcat(existing, added, BelongsTo(requestId));
    FilterNone(existing, BelongsTo(requestId));
    FilterAll(added, BelongsTo(requestId));
  }

  /** The form's state. */
  class Form {
    var entries: Entries
    var attachments: seq<FileUpload.File>
    var loading: bool
    var error: Option<string>
    /** The route passed to `navigate`, once it has been called. */
    var navigatedTo: Option<string>

    constructor ()
      ensures entries == Entries("", "", "", "", "", "", "") && attachments == []
      ensures !loading && error.None? && navigatedTo.None?
    {
      entries := Entries("", "", "", "", "", "", "");
      attachments := [];
      loading, error, navigatedTo := false, None, None;
    }

    /** `handleFileUpload`: a new selection replaces the old one. */
    method HandleFileUpload(selection: Option<seq<FileUpload.File>>)
      modifies this`attachments
      ensures attachments == if selection.Some? then selection.value else old(attachments)
    {
      if selection.Some? {
        attachments := selection.value;
      }
    }

    /** `handleSubmit`. Without a session nothing is written. Otherwise the
        request row is inserted; only if that succeeds are the attachment
        rows inserted, in one call that is skipped for an empty selection.
        Navigation happens only when every insert succeeded; any failure
        sets the error message instead. The error is cleared first and
        `loading` is lowered at the end in every case. */
    method HandleSubmit(db: Backend, newId: string, requestOutcome: Option<Failure>,
                        attachmentIds: seq<string>, attachmentOutcome: Option<Failure>)
      requires |attachmentIds| == |attachments|
      modifies this`loading, this`error, this`navigatedTo, db`requestRows, db`attachmentRows
      ensures !loading
      ensures db.session.None? ==>
                error == Some(NotLoggedIn) && navigatedTo == old(navigatedTo)
                && db.requestRows == old(db.requestRows) && db.attachmentRows == old(db.attachmentRows)
      ensures db.session.Some? ==>
                db.requestRows == old(db.requestRows)
                  + (if requestOutcome.None? then [RequestRow(entries, db.session.value.userId)[ColumnName(IdField) := newId]] else [])
      ensures db.session.Some? ==>
                db.attachmentRows == old(db.attachmentRows)
                  + (if requestOutcome.None? && attachments != [] && attachmentOutcome.None?
                     then AttachmentRowsFor(attachments, newId, attachmentIds) else [])
      ensures db.session.Some? && requestOutcome.Some? ==> error == Some(MessageOf(requestOutcome.value, SubmitFallback))
      ensures db.session.Some? && requestOutcome.None? && attachments != [] && attachmentOutcome.Some? ==>
                error == Some(MessageOf(attachmentOutcome.value, SubmitFallback))
      ensures navigatedTo == (if error.None? then Some(HomeRoute) else old(navigatedTo))
      ensures error.None? <==> db.session.Some? && requestOutcome.None? && (attachments == [] || attachmentOutcome.None?)
    {
      loading := true;
      error := None;
      if db.session.None? {
        error := Some(NotLoggedIn);
      } else {
        var row := RequestRow(entries, db.session.value.userId);
        var stored, requestError := db.InsertRequest(row, newId, requestOutcome);
        if requestError.Some? {
          error := Some(MessageOf(requestError.value, SubmitFallback));
        } else {
          var attachmentError: Option<Failure> := None;
          if |attachments| > 0 {
            var rows := AttachmentRowsFor(attachments, stored[ColumnName(IdField)], attachmentIds);
            attachmentError := db.InsertAttachments(rows, attachmentOutcome);
          }
          if attachmentError.Some? {
            error := Some(MessageOf(attachmentError.value, SubmitFallback));
          } else {
            navigatedTo := Some(HomeRoute);
          }
        }
      }
      loading := false;
    }
  }
}
