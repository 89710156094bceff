/** The export of src/utils/docx.ts: a heading and a fixed table of
    label/value rows, saved under a name derived from the request id. The
    document library itself is not modelled, only what it is given. */
module Docx {
  import opened Types

  const Heading: string := "Change Request Document"

  /** The row labels of the table; the e-mail body uses the same captions. */
  datatype Label =
    | TitleRow | DescriptionRow | ChangeTypeRow | ImpactLevelRow
    | ExpectedDowntimeRow | RollbackPlanRow | StatusRow

  /** The caption a label is printed as. */
  function LabelText(l: Label): string
  {
    match l
    case TitleRow => "Title"
    case DescriptionRow => "Description"
    case ChangeTypeRow => "Change Type"
    case ImpactLevelRow => "Impact Level"
    case ExpectedDowntimeRow => "Expected Downtime"
    case RollbackPlanRow => "Rollback Plan"
    case StatusRow => "Status"
  }

  /** Different labels are printed differently, so a caption identifies its row. */
  lemma LabelTextInjective(a: Label, b: Label)
    ensures a != b ==> LabelText(a) != LabelText(b)
  {
    if a != b {
      assert |LabelText(a)| != |LabelText(b)| || LabelText(a)[0] != LabelText(b)[0];
    }
  }

  /** The seven rows, in document order. */
  const Labels: seq<Label> :=
    [TitleRow, DescriptionRow, ChangeTypeRow, ImpactLevelRow, ExpectedDowntimeRow, RollbackPlanRow, StatusRow]

  const Placeholder: string := "N/A"

  /** `request.rollbackPlan || 'N/A'`: an undefined or empty plan becomes the placeholder. */
  function RollbackText(plan: Option<string>): (t: string)
    ensures plan.None? || plan.value == "" ==> t == Placeholder
    ensures plan.Some? && plan.value != "" ==> t == plan.value
  {
    if plan.Some? && plan.value != "" then plan.value else Placeholder
  }

  /** Where each label stands in `Labels`. */
  function Position(l: Label): (i: nat)
    ensures i < |Labels| && Labels[i] == l
  {
    match l
    case TitleRow => 0
    case DescriptionRow => 1
    case ChangeTypeRow => 2
    case ImpactLevelRow => 3
    case ExpectedDowntimeRow => 4
    case RollbackPlanRow => 5
    case StatusRow => 6
  }

  /** Each position holds the label that belongs there, so no label occurs twice. */
  lemma PositionOfLabels()
    ensures forall i :: 0 <= i < |Labels| ==> Position(Labels[i]) == i
  {
    forall i | 0 <= i < |Labels| ensures Position(Labels[i]) == i {
      if i == 0 {} else if i == 1 {} else if i == 2 {} else if i == 3 {}
      else if i == 4 {} else if i == 5 {} else {}
    }
  }

  /** The request field a label stands for, as the document shows it. */
  function Value(r: ChangeRequest, l: Label): string
  {
    match l
    case TitleRow => r.title
    case DescriptionRow => r.description
    case ChangeTypeRow => ChangeTypeName(r.changeType)
    case ImpactLevelRow => ImpactLevelName(r.impactLevel)
    case ExpectedDowntimeRow => r.expectedDowntime
    case RollbackPlanRow => RollbackText(r.rollbackPlan)
    case StatusRow => r.status
  }

  /** The table rows, as (label, value) pairs: every label once, in order,
      each with the value of the field it names; the plan row is never blank. */
  function Rows(r: ChangeRequest): (rows: seq<(Label, string)>)
    ensures |rows| == |Labels| == 7
    ensures forall i :: 0 <= i < |rows| ==> rows[i].0 == Labels[i] && rows[i].1 == Value(r, Labels[i])
    ensures rows[Position(RollbackPlanRow)].1 != ""
  {
    [ (TitleRow, r.title),
      (DescriptionRow, r.description),
      (ChangeTypeRow, ChangeTypeName(r.changeType)),
      (ImpactLevelRow, ImpactLevelName(r.impactLevel)),
      (ExpectedDowntimeRow, r.expectedDowntime),
      (RollbackPlanRow, RollbackText(r.rollbackPlan)),
      (StatusRow, r.status) ]
  }

  /** The value of the first row labelled `key`. */
  function Lookup(rows: seq<(Label, string)>, key: Label): (v: Option<string>)
    ensures v.Some? ==> (key, v.value) in rows
    ensures v.None? ==> forall i :: 0 <= i < |rows| ==> rows[i].0 != key
  {
    if rows == [] then None
    else if rows[0].0 == key then Some(rows[0].1)
    else Lookup(rows[1..], key)
  }

  /** What a reader of the document learns about the request. */
  datatype Snapshot = Snapshot(
    title: string,
    description: string,
    changeType: ChangeType,
    impactLevel: ImpactLevel,
    expectedDowntime: string,
    rollbackPlan: Option<string>,
    status: string)

  /** Reads a table back; the placeholder reads as "no plan". */
  function Import(rows: seq<(Label, string)>): Option<Snapshot>
  {
    var title, description, typeText, impactText, downtime, plan, status :=
      Lookup(rows, TitleRow), Lookup(rows, DescriptionRow), Lookup(rows, ChangeTypeRow),
      Lookup(rows, ImpactLevelRow), Lookup(rows, ExpectedDowntimeRow),
      Lookup(rows, RollbackPlanRow), Lookup(rows, StatusRow);
    if title.Some? && description.Some? && typeText.Some? && impactText.Some?
       && downtime.Some? && plan.Some? && status.Some?
       && ParseChangeType(typeText.value).Some? && ParseImpactLevel(impactText.value).Some?
    then
      Some(Snapshot(title.value, description.value, ParseChangeType(typeText.value).value,
                    ParseImpactLevel(impactText.value).value, downtime.value,
                    if plan.value == Placeholder then None else Some(plan.value), status.value))
    else None
  }

  /** The request as the export can convey it: an empty plan and the literal
      text "N/A" are both indistinguishable from no plan. */
  function Conveyed(r: ChangeRequest): Snapshot
  {
    Snapshot(r.title, r.description, r.changeType, r.impactLevel, r.expectedDowntime,
             if r.rollbackPlan == Some("") || r.rollbackPlan == Some(Placeholder) then None else r.rollbackPlan,
             r.status)
  }

  /** Lookup finds the first row with the key. */
  lemma {:induction false} LookupFirst(rows: seq<(Label, string)>, key: Label, i: nat)
    requires i < |rows| && rows[i].0 == key
    requires forall j :: 0 <= j < i ==> rows[j].0 != key
    ensures Lookup(rows, key) == Some(rows[i].1)
  {
    if i > 0 {
      LookupFirst(rows[1..], key, i - 1);
    }
  }

  /** Looking a label up in the table finds the field it names. */
  lemma RowsLookup(r: ChangeRequest, l: Label)
    ensures Lookup(Rows(r), l) == Some(Value(r, l))
  {
    PositionOfLabels();
    LookupFirst(Rows(r), l, Position(l));
  }

  /** Reading the exported table back gives everything the export conveys. */
  lemma ExportRoundTrip(r: ChangeRequest)
    ensures Import(Rows(r)) == Some(Conveyed(r))
  {
    RowsLookup(r, TitleRow);
    RowsLookup(r, DescriptionRow);
    RowsLookup(r, ChangeTypeRow);
    RowsLookup(r, ImpactLevelRow);
    RowsLookup(r, ExpectedDowntimeRow);
    RowsLookup(r, RollbackPlanRow);
    RowsLookup(r, StatusRow);
    NamesRoundTrip(r.changeType, r.impactLevel);
  }

  /** The only plans the export loses are the empty one and the placeholder text itself. */
  lemma ExportKeepsRealPlans(r: ChangeRequest)
    requires r.rollbackPlan.Some? && r.rollbackPlan.value != "" && r.rollbackPlan.value != Placeholder
    ensures Import(Rows(r)).Some? && Import(Rows(r)).value.rollbackPlan == r.rollbackPlan
  {
    ExportRoundTrip(r);
  }

  const FilePrefix: string := "change-request-"
  const FileSuffix: string := ".docx"

  /** The name the document is saved under. */
  function FileName(id: string): (name: string)
    ensures |name| == |FilePrefix| + |id| + |FileSuffix|
    ensures name[..|FilePrefix|] == FilePrefix
    ensures name[|name| - |FileSuffix|..] == FileSuffix
  {
    FilePrefix + id + FileSuffix
  }

  /** The request id a saved file name carries, if it has the export's shape. */
  function IdOfFileName(name: string): Option<string>
  {
    if |name| >= |FilePrefix| + |FileSuffix|
       && name[..|FilePrefix|] == FilePrefix
       && name[|name| - |FileSuffix|..] == FileSuffix
    then Some(name[|FilePrefix|..|name| - |FileSuffix|])
    else None
  }

  /** The file name determines the request: the id reads back from it. */
  lemma FileNameRoundTrip(id: string)
    ensures IdOfFileName(FileName(id)) == Some(id)
  {
    var name := FileName(id);
    assert name[|FilePrefix|..|name| - |FileSuffix|] == id;
  }

  /** What `generateChangeRequestDoc` hands to the document library and to `saveAs`. */
  datatype Document = Document(heading: string, rows: seq<(Label, string)>, fileName: string)

  function Generate(r: ChangeRequest): (d: Document)
    ensures d.heading == Heading
    ensures Import(d.rows) == Some(Conveyed(r))
    ensures IdOfFileName(d.fileName) == Some(r.id)
    ensures d.rows == Rows(r) && d.fileName == FileName(r.id)
  {
    ExportRoundTrip(r);
    FileNameRoundTrip(r.id);
    Document(Heading, Rows(r), FileName(r.id))
  }
}
