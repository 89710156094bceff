/** The request page of src/components/RequestDetails.tsx: who counts as
    the approver, the status badge colour, the rollback section, and the
    handlers that update the status, send the notification and export the
    document. Loading the request is not modelled; the page starts from
    whatever record (or none) the load produced. */
module RequestDetails {
  import opened Types
  import opened Text
  import opened Store
  import Email
  import Docx

  /** `supabase.auth.user()?.email ?? ''`: no user, or a user without an
      address, reads as the empty address. */
  function CurrentEmail(session: Option<Session>): (e: string)
    ensures session.None? || session.value.email.None? ==> e == ""
    ensures session.Some? && session.value.email.Some? ==> e == session.value.email.value
  {
    match session
    case None => ""
    case Some(s) => match s.email
      case None => ""
      case Some(address) => address
  }

  /** The flag passed to the approval panel. */
  predicate IsApprover(request: ChangeRequest, session: Option<Session>)
  {
    request.approver == CurrentEmail(session)
  }

  /** Without a signed-in user the flag is raised exactly for a request whose
      approver address is empty; with one, exactly for that user's address. */
  lemma IsApproverCases(request: ChangeRequest, session: Option<Session>)
    ensures session.None? ==> (IsApprover(request, session) <==> request.approver == "")
    ensures session.Some? && session.value.email.Some? ==>
              (IsApprover(request, session) <==> request.approver == session.value.email.value)
  {
  }

  const GrayClass: string := "bg-gray-100 text-gray-800"

  /** `getStatusColor`: the badge classes, chosen on the lower-cased status. */
  function StatusColor(status: string): (c: string)
    ensures c == GrayClass <==> ParseStatus(status).None?
  {
    var key := Lower(status);
    if key == "pending" then "bg-yellow-100 text-yellow-800"
    else if key == "approved" then "bg-green-100 text-green-800"
    else if key == "denied" then "bg-red-100 text-red-800"
    else if key == "implemented" then "bg-blue-100 text-blue-800"
    else if key == "completed" then "bg-purple-100 text-purple-800"
    else GrayClass
  }

  /** The colour ignores letter case and tells the five statuses apart. */
  lemma StatusColorProperties(a: Status, b: Status, text: string)
    ensures Lower(text) == StatusKey(a) ==> StatusColor(text) == StatusColor(StatusName(a))
    ensures a != b ==> StatusColor(StatusName(a)) != StatusColor(StatusName(b))
  {
    ParseStatusSpellings(a);
    ParseStatusSpellings(b);
    StatusKeyIsLowerName(a);
    StatusKeyIsLowerName(b);
    var ca, cb := StatusColor(StatusName(a)), StatusColor(StatusName(b));
    if a != b {
      assert |ca| != |cb| || ca[3] != cb[3];
    }
  }

  /** `{request.rollback_plan && ...}`: the section shows only for a defined, non-empty plan. */
  predicate ShowsRollbackPlan(request: ChangeRequest)
  {
    request.rollbackPlan.Some? && request.rollbackPlan.value != ""
  }

  /** The page, the e-mail and the export agree on when a plan is worth showing. */
  lemma RollbackShownConsistently(request: ChangeRequest)
    ensures ShowsRollbackPlan(request) <==> Email.HasRollbackLine(request)
    ensures ShowsRollbackPlan(request) ==> Docx.RollbackText(request.rollbackPlan) == request.rollbackPlan.value
    ensures !ShowsRollbackPlan(request) ==> Docx.RollbackText(request.rollbackPlan) == Docx.Placeholder
  {
  }

  /** `{ ...prev, status: newStatus }` */
  function WithStatus(request: ChangeRequest, status: string): (r: ChangeRequest)
    ensures r.status == status
    ensures r.(status := request.status) == request
  {
    request.(status := status)
  }

  /** The request page for the route parameter `id`. */
  class View {
    const id: string
    var request: Option<ChangeRequest>
    /** For each status update, whether the component that asked for it
        showed itself busy while the update ran. */
    ghost var callerBusy: seq<bool>

    constructor (id: string, loaded: Option<ChangeRequest>)
      ensures this.id == id && request == loaded && callerBusy == []
    {
      this.id := id;
      request := loaded;
      callerBusy := [];
    }

    /** `handleStatusUpdate`: writes whatever status it is given, without
        checking it; the local record follows only when the store accepted it.
        `busy` is the caller's busy flag at the time of the call, which the
        update logs. */
    method HandleStatusUpdate(db: Backend, newStatus: string, outcome: Option<Failure>, ghost busy: bool)
      modifies this`request, this`callerBusy, db`requestRows
      ensures callerBusy == old(callerBusy) + [busy]
      ensures db.requestRows == if outcome.None? then SetStatus(old(db.requestRows), id, newStatus) else old(db.requestRows)
      ensures request == if outcome.None? && old(request).Some?
                         then Some(WithStatus(old(request).value, newStatus))
                         else old(request)
    {
      callerBusy := callerBusy + [busy];
      var err := db.UpdateStatus(id, newStatus, outcome);
      if err.None? {
        request := if request.Some? then Some(WithStatus(request.value, newStatus)) else None;
      }
    }

    /** `handleSendEmail`: notifies the request's approver, and nobody else;
        `None` when no request is loaded. */
    method HandleSendEmail(outbox: Email.Outbox, transportThrows: bool) returns (result: Option<bool>)
      modifies outbox
      ensures result.None? <==> request.None?
      ensures request.None? ==> outbox.sent == old(outbox.sent)
      ensures request.Some? ==> result == Some(!transportThrows)
      ensures request.Some? ==>
                outbox.sent == old(outbox.sent) + (if transportThrows then [] else [Email.Compose(request.value, [request.value.approver])])
    {
      if request.Some? {
        var success := outbox.SendChangeRequestEmail(request.value, [request.value.approver], transportThrows);
        result := Some(success);
      } else {
        result := None;
      }
    }

    /** `handleDownload`: the document of the loaded request, if any. */
    method HandleDownload() returns (doc: Option<Docx.Document>)
      ensures request.None? ==> doc.None?
      ensures request.Some? ==> doc == Some(Docx.Generate(request.value))
    {
      doc := if request.Some? then Some(Docx.Generate(request.value)) else None;
    }
  }
}
