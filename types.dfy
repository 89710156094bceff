/** The records of src/types.ts, the text each enumeration value is stored
    as, and the explicit mapping between the record's camelCase properties
    and the snake_case columns of the `change_requests` table. */
module Types {
  import opened Text

  datatype Option<T> = None | Some(value: T)

  datatype ChangeType = Software | Hardware | Network | Security | Other

  datatype ImpactLevel = Low | Medium | High

  /** The five statuses of the approval lifecycle. */
  datatype Status = Pending | Approved | Denied | Implemented | Completed

  const AllChangeTypes: seq<ChangeType> := [Software, Hardware, Network, Security, Other]
  const AllImpactLevels: seq<ImpactLevel> := [Low, Medium, High]
  const AllStatuses: seq<Status> := [Pending, Approved, Denied, Implemented, Completed]

  /** The enumerations list every value exactly once. */
  lemma EnumerationsComplete(t: ChangeType, l: ImpactLevel, s: Status)
    ensures t in AllChangeTypes && |AllChangeTypes| == 5
    ensures l in AllImpactLevels && |AllImpactLevels| == 3
    ensures s in AllStatuses && |AllStatuses| == 5
    ensures forall i, j :: 0 <= i < j < 5 ==> AllChangeTypes[i] != AllChangeTypes[j] && AllStatuses[i] != AllStatuses[j]
    ensures forall i, j :: 0 <= i < j < 3 ==> AllImpactLevels[i] != AllImpactLevels[j]
  {
  }

  function ChangeTypeName(t: ChangeType): string
  {
    match t
    case Software => "Software"
    case Hardware => "Hardware"
    case Network => "Network"
    case Security => "Security"
    case Other => "Other"
  }

  function ParseChangeType(text: string): (r: Option<ChangeType>)
    ensures r.Some? ==> ChangeTypeName(r.value) == text
  {
    if text == "Software" then Some(Software)
    else if text == "Hardware" then Some(Hardware)
    else if text == "Network" then Some(Network)
    else if text == "Security" then Some(Security)
    else if text == "Other" then Some(Other)
    else None
  }

  function ImpactLevelName(l: ImpactLevel): string
  {
    match l
    case Low => "Low"
    case Medium => "Medium"
    case High => "High"
  }

  function ParseImpactLevel(text: string): (r: Option<ImpactLevel>)
    ensures r.Some? ==> ImpactLevelName(r.value) == text
  {
    if text == "Low" then Some(Low)
    else if text == "Medium" then Some(Medium)
    else if text == "High" then Some(High)
    else None
  }

  /** The capitalised spelling of src/types.ts, used by the buttons and the progress bar. */
  function StatusName(s: Status): string
  {
    match s
    case Pending => "Pending"
    case Approved => "Approved"
    case Denied => "Denied"
    case Implemented => "Implemented"
    case Completed => "Completed"
  }

  /** The lower-case spelling the `switch` statements compare against. */
  function StatusKey(s: Status): string
  {
    match s
    case Pending => "pending"
    case Approved => "approved"
    case Denied => "denied"
    case Implemented => "implemented"
    case Completed => "completed"
  }

  /** Reading stored status text the way the components do: case-insensitively. */
  function ParseStatus(text: string): (r: Option<Status>)
    ensures r.Some? ==> Lower(text) == StatusKey(r.value)
    ensures r.None? ==> forall s :: Lower(text) != StatusKey(s)
  {
    var key := Lower(text);
    if key == "pending" then Some(Pending)
    else if key == "approved" then Some(Approved)
    else if key == "denied" then Some(Denied)
    else if key == "implemented" then Some(Implemented)
    else if key == "completed" then Some(Completed)
    else None
  }

  /** The key is the lower-cased name. */
  lemma StatusKeyIsLowerName(s: Status)
    ensures Lower(StatusName(s)) == StatusKey(s)
  {
    var n, k := StatusName(s), StatusKey(s);
    assert |n| == |k| && forall i :: 0 <= i < |n| ==> LowerChar(n[i]) == k[i];
  }

  /** Both spellings of a status read back as that status. (Any other letter
      case of a status name reads back too: see `Approval.ActionsFollowLifecycle`.) */
  lemma ParseStatusSpellings(s: Status)
    ensures ParseStatus(StatusName(s)) == Some(s)
    ensures ParseStatus(StatusKey(s)) == Some(s)
  {
    StatusKeyIsLowerName(s);
    LowerIdempotent(StatusName(s));
  }

  /** Names and parsing of the form enumerations are inverse. */
  lemma NamesRoundTrip(t: ChangeType, l: ImpactLevel)
    ensures ParseChangeType(ChangeTypeName(t)) == Some(t)
    ensures ParseImpactLevel(ImpactLevelName(l)) == Some(l)
  {
  }

  datatype Attachment = Attachment(name: string, url: string)

  /** A change request as src/types.ts declares it. `status` is the stored
      text, which the code does not restrict to the five names; `rollbackPlan`
      is the one optional property. */
  datatype ChangeRequest = ChangeRequest(
    id: string,
    title: string,
    description: string,
    changeType: ChangeType,
    impactLevel: ImpactLevel,
    expectedDowntime: string,
    rollbackPlan: Option<string>,
    attachments: seq<Attachment>,
    approver: string,
    status: string,
    createdAt: string,
    updatedAt: string)

  /** A row of a table as the data store holds it: column name to text. An
      absent column is a value the insert left undefined. */
  type Row = map<string, string>

  /** The scalar properties of a change request. */
  datatype Field =
    | IdField | TitleField | DescriptionField | ChangeTypeField | ImpactLevelField
    | ExpectedDowntimeField | RollbackPlanField | ApproverField | StatusField
    | CreatedAtField | UpdatedAtField

  /** The property name in src/types.ts. */
  function PropertyName(f: Field): string
  {
    match f
    case IdField => "id"
    case TitleField => "title"
    case DescriptionField => "description"
    case ChangeTypeField => "changeType"
    case ImpactLevelField => "impactLevel"
    case ExpectedDowntimeField => "expectedDowntime"
    case RollbackPlanField => "rollbackPlan"
    case ApproverField => "approver"
    case StatusField => "status"
    case CreatedAtField => "createdAt"
    case UpdatedAtField => "updatedAt"
  }

  /** The column name in the `change_requests` table. */
  function ColumnName(f: Field): string
  {
    match f
    case IdField => "id"
    case TitleField => "title"
    case DescriptionField => "description"
    case ChangeTypeField => "change_type"
    case ImpactLevelField => "impact_level"
    case ExpectedDowntimeField => "expected_downtime"
    case RollbackPlanField => "rollback_plan"
    case ApproverField => "approver_email"
    case StatusField => "status"
    case CreatedAtField => "created_at"
    case UpdatedAtField => "updated_at"
  }

  /** Distinct properties live in distinct columns, under either naming. */
  lemma NamingsInjective(f: Field, g: Field)
    ensures f != g ==> ColumnName(f) != ColumnName(g) && PropertyName(f) != PropertyName(g)
  {
  }

  /** The value of one scalar property, as text; `None` when it is undefined. */
  function FieldValue(r: ChangeRequest, f: Field): Option<string>
  {
    match f
    case IdField => Some(r.id)
    case TitleField => Some(r.title)
    case DescriptionField => Some(r.description)
    case ChangeTypeField => Some(ChangeTypeName(r.changeType))
    case ImpactLevelField => Some(ImpactLevelName(r.impactLevel))
    case ExpectedDowntimeField => Some(r.expectedDowntime)
    case RollbackPlanField => r.rollbackPlan
    case ApproverField => Some(r.approver)
    case StatusField => Some(r.status)
    case CreatedAtField => Some(r.createdAt)
    case UpdatedAtField => Some(r.updatedAt)
  }

  /** The record as a table row. */
  function ToRow(r: ChangeRequest): Row
  {
    var base := map[
      "id" := r.id, "title" := r.title, "description" := r.description,
      "change_type" := ChangeTypeName(r.changeType), "impact_level" := ImpactLevelName(r.impactLevel),
      "expected_downtime" := r.expectedDowntime, "approver_email" := r.approver,
      "status" := r.status, "created_at" := r.createdAt, "updated_at" := r.updatedAt];
    match r.rollbackPlan
    case Some(plan) => base["rollback_plan" := plan]
    case None => base
  }

  /** Every defined property sits under its own column name; an undefined
      rollback plan leaves its column absent. */
  lemma ToRowColumns(r: ChangeRequest)
    ensures forall f :: FieldValue(r, f).Some? ==> ColumnName(f) in ToRow(r) && ToRow(r)[ColumnName(f)] == FieldValue(r, f).value
    ensures forall f :: FieldValue(r, f).None? ==> ColumnName(f) !in ToRow(r)
  {
  }

  /** A row read back as a record, with the joined attachment list; `None`
      when a required column is missing or an enumeration column holds an
      unknown name. */
  function FromRow(row: Row, attachments: seq<Attachment>): Option<ChangeRequest>
  {
    if !("id" in row && "title" in row && "description" in row && "change_type" in row
         && "impact_level" in row && "expected_downtime" in row && "approver_email" in row
         && "status" in row && "created_at" in row && "updated_at" in row)
    then None
    else
      match (ParseChangeType(row["change_type"]), ParseImpactLevel(row["impact_level"]))
      case (Some(t), Some(l)) =>
        Some(ChangeRequest(row["id"], row["title"], row["description"], t, l,
          row["expected_downtime"],
          if "rollback_plan" in row then Some(row["rollback_plan"]) else None,
          attachments, row["approver_email"], row["status"], row["created_at"], row["updated_at"]))
      case _ => None
  }

  /** The row under the column names `FromRow` reads. */
  lemma ToRowLookups(r: ChangeRequest)
    ensures var row := ToRow(r);
            "id" in row && row["id"] == r.id && "title" in row && row["title"] == r.title
            && "description" in row && row["description"] == r.description
            && "change_type" in row && row["change_type"] == ChangeTypeName(r.changeType)
            && "impact_level" in row && row["impact_level"] == ImpactLevelName(r.impactLevel)
            && "expected_downtime" in row && row["expected_downtime"] == r.expectedDowntime
            && "approver_email" in row && row["approver_email"] == r.approver
            && "status" in row && row["status"] == r.status
            && "created_at" in row && row["created_at"] == r.createdAt && "updated_at" in row && row["updated_at"] == r.updatedAt
            && ("rollback_plan" in row <==> r.rollbackPlan.Some?)
            && (r.rollbackPlan.Some? ==> row["rollback_plan"] == r.rollbackPlan.value)
  {
    match r.rollbackPlan
    case Some(plan) =>
    case None =>
  }

  /** The column mapping loses nothing: a record written as a row reads back unchanged. */
  lemma RowRoundTrip(r: ChangeRequest)
    ensures FromRow(ToRow(r), r.attachments) == Some(r)
  {
    NamesRoundTrip(r.changeType, r.impactLevel);
    ToRowLookups(r);
  }
}
