/** The notification of src/utils/email.ts: the template's text content
    (preview, heading and the labelled lines) and the message handed to the
    mail transport. HTML rendering and the transport itself are outside
    the model; whether the transport throws is a parameter. */
module Email {
  import opened Types
  import Docx

  const Sender: string := "change-requests@yourdomain.com"
  const SubjectPrefix: string := "Change Request: "

  /** The subject, which the preview and the heading repeat. */
  function Subject(r: ChangeRequest): (s: string)
    ensures |s| == |SubjectPrefix| + |r.title|
    ensures s[..|SubjectPrefix|] == SubjectPrefix && s[|SubjectPrefix|..] == r.title
  {
    SubjectPrefix + r.title
  }

  /** The template renders the rollback line only for a defined, non-empty plan. */
  predicate HasRollbackLine(r: ChangeRequest)
  {
    r.rollbackPlan.Some? && r.rollbackPlan.value != ""
  }

  /** The labels of the lines the template always renders, in order. */
  const BodyLabels: seq<Docx.Label> :=
    [Docx.DescriptionRow, Docx.ChangeTypeRow, Docx.ImpactLevelRow, Docx.ExpectedDowntimeRow, Docx.StatusRow]

  /** The labelled lines of the body, in template order. */
  function Lines(r: ChangeRequest): (lines: seq<(Docx.Label, string)>)
    ensures |lines| == if HasRollbackLine(r) then 6 else 5
    ensures forall i :: 0 <= i < |BodyLabels| ==> lines[i] == (BodyLabels[i], Docx.Value(r, BodyLabels[i]))
    ensures forall i :: 0 <= i < |lines| ==> lines[i].0 != Docx.TitleRow
    ensures HasRollbackLine(r) <==> exists i :: 0 <= i < |lines| && lines[i].0 == Docx.RollbackPlanRow
    ensures HasRollbackLine(r) ==> lines[|lines| - 1] == (Docx.RollbackPlanRow, r.rollbackPlan.value)
  {
    var fixed := [ (Docx.DescriptionRow, r.description),
                   (Docx.ChangeTypeRow, ChangeTypeName(r.changeType)),
                   (Docx.ImpactLevelRow, ImpactLevelName(r.impactLevel)),
                   (Docx.ExpectedDowntimeRow, r.expectedDowntime),
                   (Docx.StatusRow, r.status) ];
    if HasRollbackLine(r) then
      var lines := fixed + [(Docx.RollbackPlanRow, r.rollbackPlan.value)];
      assert lines[5].0 == Docx.RollbackPlanRow;
      lines
    else fixed
  }

  datatype Body = Body(preview: string, heading: string, lines: seq<(Docx.Label, string)>)

  datatype Message = Message(from: string, to: seq<string>, subject: string, body: Body)

  /** The argument of `resend.emails.send`. */
  function Compose(r: ChangeRequest, recipients: seq<string>): (m: Message)
    ensures m.from == Sender && m.to == recipients
    ensures m.subject == m.body.preview == m.body.heading == Subject(r)
    ensures m.body.lines == Lines(r)
  {
    var subject := Subject(r);
    Message(Sender, recipients, subject, Body(subject, subject, Lines(r)))
  }

  /** Each body line holds the document's value for its label. */
  lemma LinesCarryValues(r: ChangeRequest, i: nat)
    requires i < |Lines(r)|
    ensures Lines(r)[i].1 == Docx.Value(r, Lines(r)[i].0)
  {
    var lines := Lines(r);
    if i == 5 {
      assert lines[5] == (Docx.RollbackPlanRow, r.rollbackPlan.value);
    }
  }

  /** Every body line says what the export's row of the same label says. */
  lemma LinesAgreeWithExport(r: ChangeRequest)
    ensures forall i :: 0 <= i < |Lines(r)| ==> Docx.Lookup(Docx.Rows(r), Lines(r)[i].0) == Some(Lines(r)[i].1)
  {
    var lines := Lines(r);
    forall i | 0 <= i < |lines| ensures Docx.Lookup(Docx.Rows(r), lines[i].0) == Some(lines[i].1) {
      LinesCarryValues(r, i);
      Docx.RowsLookup(r, lines[i].0);
    }
  }

  /** The e-mail omits the rollback line exactly where the export shows the
      placeholder, unless the plan is literally the placeholder text. */
  lemma RollbackLineVersusPlaceholder(r: ChangeRequest)
    ensures !HasRollbackLine(r) <==>
            Docx.RollbackText(r.rollbackPlan) == Docx.Placeholder && r.rollbackPlan != Some(Docx.Placeholder)
  {
  }

  /** The transport's record of accepted messages. */
  class Outbox {
    var sent: seq<Message>

    constructor ()
      ensures sent == []
    {
      sent := [];
    }

    /** `sendChangeRequestEmail`: `success` is true exactly when the
        transport call returns instead of throwing. */
    method SendChangeRequestEmail(r: ChangeRequest, recipients: seq<string>, transportThrows: bool)
      returns (success: bool)
      modifies this
      ensures success == !transportThrows
      ensures sent == if success then old(sent) + [Compose(r, recipients)] else old(sent)
    {
      var message := Compose(r, recipients);
      if transportThrows {
        success := false;
      } else {
        sent := sent + [message];
        success := true;
      }
    }
  }
}
