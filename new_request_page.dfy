/** The minimal form of src/routes/new/page.tsx: it inserts only a title,
    a description, the status, the user and the creation time. The status
    is written in lower case, which the approval panel and the progress bar
    read differently. The clock is a parameter. */
module NewRequestPage {
  import opened Types
  import opened Store
  import Approval
  import RequestDetails

  const NoActiveSession: string := "No active session"
  const SubmitFallback: string := "Failed to submit request"
  /** The status text this form writes. */
  const InitialStatus: string := "pending"
  const HomeRoute: string := "/"

  /** The object handed to `insert`. */
  function MinimalRow(title: string, description: string, userId: string, createdAt: string): (row: Row)
    ensures row.Keys == {ColumnName(TitleField), ColumnName(DescriptionField), ColumnName(StatusField),
                         "user_id", ColumnName(CreatedAtField)}
    ensures row[ColumnName(TitleField)] == title && row[ColumnName(DescriptionField)] == description
    ensures row[ColumnName(StatusField)] == StatusKey(Pending)
    ensures row["user_id"] == userId && row[ColumnName(CreatedAtField)] == createdAt
  {
    map[ColumnName(TitleField) := title, ColumnName(DescriptionField) := description,
        ColumnName(StatusField) := InitialStatus, "user_id" := userId, ColumnName(CreatedAtField) := createdAt]
  }

  /** The lower-case status names Pending for the colour and the action
      table, which offer Approve and Deny, but lights no stage of the
      progress bar. */
  lemma InitialStatusReadings(title: string, description: string, userId: string, createdAt: string, s: Status)
    ensures var status := MinimalRow(title, description, userId, createdAt)[ColumnName(StatusField)];
            ParseStatus(status) == Some(Pending)
            && RequestDetails.StatusColor(status) == RequestDetails.StatusColor(StatusName(Pending))
            && Approval.Actions(status, true) == {Approved, Denied}
            && !Approval.Highlighted(status, s)
  {
    ParseStatusSpellings(Pending);
    StatusKeyIsLowerName(Pending);
    RequestDetails.StatusColorProperties(Pending, Pending, InitialStatus);
    Approval.LowercasePendingMismatch(s);
  }

  /** The row names no change type, impact level, downtime or approver, so
      it reads back as a complete request only if the table supplies those
      columns itself. */
  lemma MinimalRowLacksColumns(title: string, description: string, userId: string, createdAt: string, id: string,
                               attachments: seq<Attachment>)
    ensures ColumnName(ChangeTypeField) !in MinimalRow(title, description, userId, createdAt)
    ensures ColumnName(ApproverField) !in MinimalRow(title, description, userId, createdAt)
    ensures FromRow(MinimalRow(title, description, userId, createdAt)[ColumnName(IdField) := id], attachments).None?
  {
    var row := MinimalRow(title, description, userId, createdAt);
    assert ColumnName(ChangeTypeField) !in row[ColumnName(IdField) := id];
  }

  /** `NewRequestForm`'s state. */
  class Form {
    var title: string
    var description: string
    var isSubmitting: bool
    var error: Option<string>
    /** The route passed to `router.push`, once it has been called. */
    var navigatedTo: Option<string>

    constructor ()
      ensures title == "" && description == "" && !isSubmitting && error.None? && navigatedTo.None?
    {
      title, description := "", "";
      isSubmitting, error, navigatedTo := false, None, None;
    }

    /** `handleSubmit`. Unlike the full form it does not clear an earlier
        error first, so a success leaves the old message in place. */
    method HandleSubmit(db: Backend, now: string, newId: string, outcome: Option<Failure>)
      modifies this`isSubmitting, this`error, this`navigatedTo, db`requestRows
      ensures !isSubmitting
      ensures db.session.None? ==>
                error == Some(NoActiveSession) && navigatedTo == old(navigatedTo) && db.requestRows == old(db.requestRows)
      ensures db.session.Some? ==>
                db.requestRows == old(db.requestRows)
                  + (if outcome.None? then [MinimalRow(title, description, db.session.value.userId, now)[ColumnName(IdField) := newId]]
                     else [])
      ensures db.session.Some? && outcome.Some? ==>
                error == Some(MessageOf(outcome.value, SubmitFallback)) && navigatedTo == old(navigatedTo)
      ensures db.session.Some? && outcome.None? ==> error == old(error) && navigatedTo == Some(HomeRoute)
    {
      isSubmitting := true;
      if db.session.None? {
        error := Some(NoActiveSession);
      } else {
        var row := MinimalRow(title, description, db.session.value.userId, now);
        var _, insertError := db.InsertRequest(row, newId, outcome);
        if insertError.Some? {
          error := Some(MessageOf(insertError.value, SubmitFallback));
        } else {
          navigatedTo := Some(HomeRoute);
        }
      }
      isSubmitting := false;
    }
  }
}
