/** The approval panel of src/components/ApprovalWorkflow.tsx. Its action
    table is the only place where status transitions are defined: the page
    writes whatever status a button hands it. The progress bar beside it
    compares the stored text exactly, while the action table lower-cases it
    first. */
module Approval {
  import opened Types
  import opened Text
  import opened Store
  import opened RequestDetails

  /** `renderApproverActions`: the target statuses offered as buttons. */
  function Actions(currentStatus: string, isApprover: bool): (targets: set<Status>)
    ensures !isApprover ==> targets == {}
    ensures Denied in targets ==> Approved in targets
  {
    if !isApprover then {}
    else
      var key := Lower(currentStatus);
      if key == "pending" then {Approved, Denied}
      else if key == "approved" then {Implemented}
      else if key == "implemented" then {Completed}
      else {}
  }

  /** Stage along the main line Pending, Approved, Implemented, Completed;
      Denied is the side exit at the same stage as Approved. */
  function Rank(s: Status): nat
  {
    match s
    case Pending => 0
    case Approved => 1
    case Denied => 1
    case Implemented => 2
    case Completed => 3
  }

  /** The intended lifecycle, stated without the table: one stage forward
      along the main line, or from Pending to Denied. */
  predicate Next(from: Status, to: Status)
  {
    (from == Pending && to == Denied)
    || (from != Denied && to != Denied && Rank(to) == Rank(from) + 1)
  }

  /** A move the table offers to an approver who sees the canonical status name. */
  predicate Step(from: Status, to: Status)
  {
    to in Actions(StatusName(from), true)
  }

  /** The table offers exactly the intended lifecycle moves. */
  lemma StepIsNext(from: Status, to: Status)
    ensures Step(from, to) <==> Next(from, to)
  {
    StatusKeyIsLowerName(from);
  }

  /** For any stored text, in any letter case, the approver is offered exactly
      the intended moves out of the status it names, and nothing for text
      that names no status. */
  lemma ActionsFollowLifecycle(text: string, to: Status)
    ensures to in Actions(text, true) <==> ParseStatus(text).Some? && Next(ParseStatus(text).value, to)
  {
  }

  /** The table, row by row. */
  lemma ActionsTable(text: string)
    ensures Lower(text) == "pending" ==> Actions(text, true) == {Approved, Denied}
    ensures Lower(text) == "approved" ==> Actions(text, true) == {Implemented}
    ensures Lower(text) == "implemented" ==> Actions(text, true) == {Completed}
    ensures ParseStatus(text) in {None, Some(Denied), Some(Completed)} ==> Actions(text, true) == {}
  {
  }

  /** Denied and Completed are terminal, and they are the only terminal statuses. */
  lemma TerminalStatuses(s: Status)
    ensures Actions(StatusName(s), true) == {} <==> s == Denied || s == Completed
  {
    StatusKeyIsLowerName(s);
    if s == Pending {
      assert Approved in Actions(StatusName(s), true);
    } else if s == Approved {
      assert Implemented in Actions(StatusName(s), true);
    } else if s == Implemented {
      assert Completed in Actions(StatusName(s), true);
    }
  }

  /** Every offered move goes exactly one stage forward: never backward,
      never skipping a stage, never staying put. */
  lemma StepAdvancesOneStage(from: Status, to: Status)
    requires Step(from, to)
    ensures Rank(to) == Rank(from) + 1 && to != from
  {
    StepIsNext(from, to);
  }

  /** A sequence of statuses in which each one is offered from the one before. */
  predicate Trajectory(path: seq<Status>)
  {
    forall i :: 0 <= i < |path| - 1 ==> Step(path[i], path[i + 1])
  }

  /** A trajectory from Pending reaches stage i after i moves, so it has at
      most four statuses and never revisits one. (Which statuses end a
      trajectory is `TerminalStatuses`.) */
  lemma {:induction false} TrajectoryFromPending(path: seq<Status>)
    requires |path| > 0 && path[0] == Pending && Trajectory(path)
    ensures forall i :: 0 <= i < |path| ==> Rank(path[i]) == i
    ensures |path| <= 4
    ensures forall i, j :: 0 <= i < j < |path| ==> path[i] != path[j]
  {
    if |path| > 1 {
      var prefix := path[..|path| - 1];
      assert Trajectory(prefix) by {
        forall i | 0 <= i < |prefix| - 1 ensures Step(prefix[i], prefix[i + 1]) {
          assert prefix[i] == path[i] && prefix[i + 1] == path[i + 1];
        }
      }
      TrajectoryFromPending(prefix);
      StepAdvancesOneStage(path[|path| - 2], path[|path| - 1]);
      assert forall i :: 0 <= i < |path| - 1 ==> path[i] == prefix[i];
    }
  }

  /** The four stages of the progress bar. */
  const ProgressStages: seq<Status> := [Pending, Approved, Implemented, Completed]

  /** A stage of the bar is highlighted when the stored text equals its name exactly. */
  predicate Highlighted(currentStatus: string, stage: Status)
  {
    stage in ProgressStages && currentStatus == StatusName(stage)
  }

  /** Different statuses have different names. */
  lemma StatusNameInjective(a: Status, b: Status)
    ensures a != b ==> StatusName(a) != StatusName(b)
  {
    if a != b {
      assert |StatusName(a)| != |StatusName(b)|;
    }
  }

  /** At most one stage is highlighted, and only when the text is a stage's exact name. */
  lemma AtMostOneHighlighted(text: string, a: Status, b: Status)
    requires Highlighted(text, a) && Highlighted(text, b)
    ensures a == b
  {
    StatusNameInjective(a, b);
  }

  /** The mismatch between the two readings: lower-case "pending", as the
      minimal form inserts it, lights no stage yet still offers Approve and
      Deny; "Denied" lights none either, and offers nothing. */
  lemma LowercasePendingMismatch(s: Status)
    ensures !Highlighted("pending", s) && !Highlighted("Denied", s)
    ensures Actions("pending", true) == {Approved, Denied}
    ensures Actions("Denied", true) == {}
  {
    StatusNameInjective(s, Denied);
    StatusKeyIsLowerName(Denied);
    assert "pending" != StatusName(s) by {
      if s == Pending {
        assert "pending"[0] != "Pending"[0];
      } else {
        assert |"pending"| != |StatusName(s)|;
      }
    }
    assert Lower("pending") == "pending" by {
      LowerIdempotent("pending");
      StatusKeyIsLowerName(Pending);
    }
  }

  /** The buttons are rendered with `disabled={isUpdating}`: while an update
      runs, none of them can be pressed. */
  function EnabledActions(currentStatus: string, isApprover: bool, isUpdating: bool): (targets: set<Status>)
    ensures isUpdating ==> targets == {}
    ensures !isUpdating ==> targets == Actions(currentStatus, isApprover)
  {
    if isUpdating then {} else Actions(currentStatus, isApprover)
  }

  /** The panel as mounted on a request page; `onUpdateStatus` is that
      page's `HandleStatusUpdate`. */
  class Panel {
    var isUpdating: bool
    const page: View

    constructor (page: View)
      ensures this.page == page && !isUpdating
    {
      this.page := page;
      isUpdating := false;
    }

    /** `handleStatusChange`: raises the flag, runs the update, and lowers
        the flag again whether or not the update succeeded. The page logs
        the flag as the update saw it. */
    method HandleStatusChange(db: Backend, newStatus: string, outcome: Option<Failure>)
      modifies this`isUpdating, page`request, page`callerBusy, db`requestRows
      ensures page.callerBusy == old(page.callerBusy) + [true]
      ensures !isUpdating
      ensures db.requestRows == if outcome.None? then SetStatus(old(db.requestRows), page.id, newStatus) else old(db.requestRows)
      ensures page.request == if outcome.None? && old(page.request).Some?
                              then Some(WithStatus(old(page.request).value, newStatus))
                              else old(page.request)
    {
      isUpdating := true;
      page.HandleStatusUpdate(db, newStatus, outcome, isUpdating);
      isUpdating := false;
    }

    /** Pressing one of the rendered, enabled buttons. The status it writes
        is the immediate lifecycle successor of the stored one, and the
        stored text always named a status. */
    method PressAction(db: Backend, session: Option<Session>, target: Status, outcome: Option<Failure>)
      requires page.request.Some?
      requires target in EnabledActions(page.request.value.status, IsApprover(page.request.value, session), isUpdating)
      modifies this`isUpdating, page`request, page`callerBusy, db`requestRows
      ensures IsApprover(old(page.request.value), session)
      ensures ParseStatus(old(page.request.value.status)).Some?
      ensures Next(ParseStatus(old(page.request.value.status)).value, target)
      ensures !isUpdating
      ensures db.requestRows == if outcome.None? then SetStatus(old(db.requestRows), page.id, StatusName(target))
                                else old(db.requestRows)
      ensures page.request == if outcome.None?
                              then Some(WithStatus(old(page.request.value), StatusName(target)))
                              else old(page.request)
    {
      ActionsFollowLifecycle(page.request.value.status, target);
      HandleStatusChange(db, StatusName(target), outcome);
    }
  }
}
