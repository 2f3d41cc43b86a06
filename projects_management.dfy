/**
 * The admin's project list: the status badge, the search and status
 * filter, the counters, the actions offered per project, and the checks
 * of the approve / assign / reject dialog.
 */
module ProjectsManagement {
  import opened Wrappers
  import opened Text
  import opened Lists
  import opened Forms
  import opened Domain
  import AdminServices

  /** A project as the list shows it; a missing text is empty. */
  datatype ProjectRow = ProjectRow(
    id: int, status: string, assignedEmployeeId: Option<int>,
    projectName: string, description: string, customerName: string, customerEmail: string,
    vehicleMake: string, vehicleModel: string, vehicleRegistrationNumber: string)

  const BadgeKeys: set<string> := {"PENDING", "APPROVED", "IN_PROGRESS", "ON_HOLD", "COMPLETED", "CANCELLED", "REJECTED"}

  /** `badgeFor`: a known status has its own badge; any other is shown as
      PENDING. */
  function BadgeFor(status: string): (key: string)
    ensures key in BadgeKeys
    ensures key == status <==> status in BadgeKeys
    ensures status !in BadgeKeys ==> key == "PENDING"
  {
    if status in BadgeKeys then status else "PENDING"
  }

  /** Every project status the server sends has its own badge. */
  lemma ServerStatusesHaveBadges(s: ProjectStatus)
    ensures BadgeFor(s.Name()) == s.Name()
  {
    match s
    case Pending =>
    case Approved =>
    case InProgress =>
    case OnHold =>
    case Completed =>
    case Cancelled =>
    case Rejected =>
  }

  // ----------------------------------------------------------- filtering

  /** The searched text: the present fields joined by spaces, lower-cased. */
  function Summary(p: ProjectRow): string {
    Lower(Join(NonEmpty([p.projectName, p.description, p.customerName, p.customerEmail,
                         p.vehicleMake, p.vehicleModel, p.vehicleRegistrationNumber]), " "))
  }

  /** One row passes the status filter and the (already trimmed and
      lower-cased) search. */
  predicate Matches(p: ProjectRow, search: string, statusFilter: string) {
    (statusFilter == "ALL" || p.status == statusFilter) && (search == "" || Includes(Summary(p), search))
  }

  /** `filtered`: the rows matching the status filter and the search,
      in list order. */
  function Filtered(rows: seq<ProjectRow>, searchTerm: string, statusFilter: string): (r: seq<ProjectRow>)
    ensures |r| <= |rows|
    ensures forall i | 0 <= i < |r| :: r[i] in rows && Matches(r[i], Lower(Trim(searchTerm)), statusFilter)
    ensures forall i | 0 <= i < |rows| && Matches(rows[i], Lower(Trim(searchTerm)), statusFilter) :: rows[i] in r
  {
    var search := Lower(Trim(searchTerm));
    Filter(rows, p => Matches(p, search, statusFilter))
  }

  /** A single row is shown iff it matches. */
  lemma FilteredOne(p: ProjectRow, searchTerm: string, statusFilter: string)
    ensures Filtered([p], searchTerm, statusFilter) == if Matches(p, Lower(Trim(searchTerm)), statusFilter) then [p] else []
  {
    FilterOne(p, (p: ProjectRow) => Matches(p, Lower(Trim(searchTerm)), statusFilter));
  }

  /** The shown rows keep the list's order: filtering two consecutive
      parts of the list and joining the results is filtering the list. */
  lemma FilteredInOrder(a: seq<ProjectRow>, b: seq<ProjectRow>, searchTerm: string, statusFilter: string)
    ensures Filtered(a + b, searchTerm, statusFilter) == Filtered(a, searchTerm, statusFilter) + Filtered(b, searchTerm, statusFilter)
  {
    FilterAppend(a, b, (p: ProjectRow) => Matches(p, Lower(Trim(searchTerm)), statusFilter));
  }

  /** The shown rows keep the list's duplicates: each matching row occurs
      as often as in the list, any other not at all. */
  lemma FilteredDuplicates(rows: seq<ProjectRow>, searchTerm: string, statusFilter: string)
    ensures forall x :: multiset(Filtered(rows, searchTerm, statusFilter))[x] == if Matches(x, Lower(Trim(searchTerm)), statusFilter) then multiset(rows)[x] else 0
  {
    FilterMultiset(rows, (p: ProjectRow) => Matches(p, Lower(Trim(searchTerm)), statusFilter));
  }

  /** With a blank search and the ALL filter the whole list is shown. */
  lemma FilteredEverything(rows: seq<ProjectRow>, searchTerm: string)
    requires Trim(searchTerm) == ""
    ensures Filtered(rows, searchTerm, "ALL") == rows
  {
    var search := Lower(Trim(searchTerm));
    FilterAll(rows, p => Matches(p, search, "ALL"));
  }

  /** A project whose name contains the search text, in any ASCII case,
      passes the search. */
  lemma SearchFindsProjectName(p: ProjectRow, searchTerm: string)
    requires Contains(p.projectName, Trim(searchTerm))
    ensures Matches(p, Lower(Trim(searchTerm)), "ALL")
  {
    var parts := [p.projectName, p.description, p.customerName, p.customerEmail,
                  p.vehicleMake, p.vehicleModel, p.vehicleRegistrationNumber];
    var needle := Trim(searchTerm);
    if needle != "" {
      assert p.projectName != "" by {
        var i: nat :| OccursAt(p.projectName, needle, i);
      }
      var present := NonEmpty(parts);
      assert present[0] == p.projectName;
      JoinContains(present, " ", 0);
      ContainsTrans(Join(present, " "), p.projectName, needle);
      LowerContains(Join(present, " "), needle);
    }
  }

  // ------------------------------------------------------------- counters

  datatype ProjectStats = ProjectStats(total: nat, pending: nat, active: nat, completed: nat)

  function HasStatus(status: string): ProjectRow -> bool {
    (p: ProjectRow) => p.status == status
  }

  function CountStatus(rows: seq<ProjectRow>, status: string): nat {
    Count(rows, HasStatus(status))
  }

  predicate ApprovedOrInProgress(p: ProjectRow) {
    p.status == "APPROVED" || p.status == "IN_PROGRESS"
  }

  /** The statuses counted as active. */
  predicate Active(p: ProjectRow) {
    p.status == "APPROVED" || p.status == "IN_PROGRESS" || p.status == "ON_HOLD"
  }

  /** `stats`: all, PENDING, APPROVED + IN_PROGRESS + ON_HOLD, and
      COMPLETED. */
  function Stats(rows: seq<ProjectRow>): ProjectStats {
    ProjectStats(|rows|, CountStatus(rows, "PENDING"),
      CountStatus(rows, "APPROVED") + CountStatus(rows, "IN_PROGRESS") + CountStatus(rows, "ON_HOLD"),
      CountStatus(rows, "COMPLETED"))
  }

  /** No project is counted twice: the three counters add up to at most
      the total. */
  lemma StatsWithinTotal(rows: seq<ProjectRow>)
    ensures var s := Stats(rows); s.pending + s.active + s.completed <= s.total
  {
    CountUnion(rows, HasStatus("APPROVED"), HasStatus("IN_PROGRESS"), ApprovedOrInProgress);
    CountUnion(rows, ApprovedOrInProgress, HasStatus("ON_HOLD"), Active);
    DisjointCounts(rows, HasStatus("PENDING"), Active, HasStatus("COMPLETED"));
  }

  // -------------------------------------------------------------- actions

  datatype ProjectAction = ApproveAndAssign | Reject | Assign | Reassign | Unassign

  /** The buttons of one project: approve or reject while PENDING, none
      once COMPLETED, CANCELLED or REJECTED, otherwise assign when nobody
      is assigned and reassign or unassign when somebody is. */
  function Actions(p: ProjectRow): (r: seq<ProjectAction>)
    ensures (ApproveAndAssign in r <==> p.status == "PENDING") && (Reject in r <==> p.status == "PENDING")
    ensures r == [] <==> p.status in {"COMPLETED", "CANCELLED", "REJECTED"}
    ensures Assign in r || Reassign in r || Unassign in r ==>
      p.status != "PENDING" && p.status !in {"COMPLETED", "CANCELLED", "REJECTED"}
    ensures Assign in r <==>
      (p.status != "PENDING" && p.status !in {"COMPLETED", "CANCELLED", "REJECTED"}
       && !(p.assignedEmployeeId.Some? && p.assignedEmployeeId.value != 0))
    ensures (p.status != "PENDING" && p.status !in {"COMPLETED", "CANCELLED", "REJECTED"}
             && p.assignedEmployeeId.Some? && p.assignedEmployeeId.value != 0) ==> r == [Reassign, Unassign]
  {
    if p.status == "PENDING" then [ApproveAndAssign, Reject]
    else if p.status == "COMPLETED" || p.status == "CANCELLED" || p.status == "REJECTED" then []
    else if p.assignedEmployeeId.None? || p.assignedEmployeeId.value == 0 then [Assign]
    else [Reassign, Unassign]
  }

  /** For the statuses the server sends, assign and reassign are offered
      exactly where the server accepts an assignment, and approve and
      reject exactly where it accepts them (PENDING). */
  lemma ActionsMatchServer(p: ProjectRow, s: ProjectStatus)
    requires p.status == s.Name()
    ensures Assign in Actions(p) || Reassign in Actions(p) <==> AdminServices.AssignableProjectStatus(s)
    ensures ApproveAndAssign in Actions(p) <==> s == Pending
    ensures Unassign in Actions(p) ==> AdminServices.AssignableProjectStatus(s)
  {
    match s
    case Pending =>
    case Approved =>
    case InProgress =>
    case OnHold =>
    case Completed =>
    case Cancelled =>
    case Rejected =>
  }

  /** Unassign is offered for an assigned project in progress, and the
      server always refuses it there. */
  lemma UnassignOfferedButRefused(p: ProjectRow, db: Db, adminEmail: string)
    requires p.status == "IN_PROGRESS" && p.assignedEmployeeId.Some? && p.assignedEmployeeId.value > 0
    requires p.id in db.projects && db.projects[p.id].status == ProjectStatus.InProgress
    ensures Unassign in Actions(p)
    ensures AdminServices.UnassignProjectSpec(db, adminEmail, p.id).result.Err?
  {
    assert Actions(p) == [Reassign, Unassign];
  }

  // ------------------------------------------------------------- dialog

  datatype AssignMode = AssignMode | ReassignMode | ApproveAssignMode | RejectMode

  /** The dialog's inputs; the employee select holds a number or nothing. */
  datatype DialogInput = DialogInput(
    selectedEmployeeId: Option<int>, estimatedCost: string, estimatedHours: string,
    expectedCompletionDate: string, notes: string, rejectReason: string)

  /** The request sent; the estimates are the typed text. */
  datatype ProjectCall =
    | ApproveAndAssignCall(projectId: int, employeeId: int, estimatedCost: string, estimatedHours: string,
        expectedCompletionDate: Option<string>, approvalNotes: Option<string>)
    | AssignCall(projectId: int, employeeId: int, estimatedCost: string, estimatedHours: string,
        adminNotes: Option<string>)
    | RejectCall(projectId: int, rejectionReason: string)

  datatype SubmitOutcome = NoTarget | Invalid(message: string) | Call(call: ProjectCall)

  predicate EmployeeChosen(d: DialogInput) {
    d.selectedEmployeeId.Some? && d.selectedEmployeeId.value != 0
  }

  /** `doSubmit`: approve and assign (and plain assign or reassign) need an
      employee and then both estimates; reject needs a reason; the notes
      are trimmed and dropped when blank; the date is dropped when empty. */
  function DoSubmit(target: Option<int>, mode: AssignMode, d: DialogInput): (r: SubmitOutcome)
    ensures r.NoTarget? <==> target.None?
    ensures target.Some? && mode != RejectMode && !EmployeeChosen(d) ==> r == Invalid("Please select an employee.")
    ensures target.Some? && mode != RejectMode && EmployeeChosen(d) && (d.estimatedCost == "" || d.estimatedHours == "")
      ==> r == Invalid("Estimated cost and duration are required.")
    ensures target.Some? && mode == RejectMode && Trim(d.rejectReason) == "" ==> r == Invalid("Rejection reason is required.")
    ensures r.Call? <==>
      (target.Some? &&
       if mode == RejectMode then Trim(d.rejectReason) != ""
       else EmployeeChosen(d) && d.estimatedCost != "" && d.estimatedHours != "")
    ensures r.Call? ==> r.call.projectId == target.value
    ensures r.Call? && mode == ApproveAssignMode ==>
      r.call == ApproveAndAssignCall(target.value, d.selectedEmployeeId.value, d.estimatedCost, d.estimatedHours,
        if d.expectedCompletionDate == "" then None else Some(d.expectedCompletionDate), Optional(d.notes))
    ensures r.Call? && (mode == AssignMode || mode == ReassignMode) ==>
      r.call == AssignCall(target.value, d.selectedEmployeeId.value, d.estimatedCost, d.estimatedHours, Optional(d.notes))
    ensures r.Call? && mode == RejectMode ==> r.call == RejectCall(target.value, Trim(d.rejectReason))
  {
    if target.None? then NoTarget
    else if mode == RejectMode then
      if Trim(d.rejectReason) == "" then Invalid("Rejection reason is required.")
      else Call(RejectCall(target.value, Trim(d.rejectReason)))
    else if !EmployeeChosen(d) then Invalid("Please select an employee.")
    else if d.estimatedCost == "" || d.estimatedHours == "" then Invalid("Estimated cost and duration are required.")
    else if mode == ApproveAssignMode then
      Call(ApproveAndAssignCall(target.value, d.selectedEmployeeId.value, d.estimatedCost, d.estimatedHours,
        if d.expectedCompletionDate == "" then None else Some(d.expectedCompletionDate), Optional(d.notes)))
    else
      Call(AssignCall(target.value, d.selectedEmployeeId.value, d.estimatedCost, d.estimatedHours, Optional(d.notes)))
  }
}
