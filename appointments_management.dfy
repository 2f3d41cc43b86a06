/**
 * The admin's appointment list: the status badge, the search and status
 * filter, the counters, the actions offered per appointment, and the
 * checks of the assign / reassign dialog.
 */
module AppointmentsManagement {
  import opened Wrappers
  import opened Text
  import opened Lists
  import opened Forms
  import opened Domain
  import AdminServices

  /** An appointment as the list shows it; a missing text is empty. */
  datatype AppointmentRow = AppointmentRow(
    id: int, status: string, assignedEmployeeId: Option<int>,
    customerName: string, customerEmail: string,
    vehicleMake: string, vehicleModel: string, vehicleRegistrationNumber: string)

  const BadgeKeys: set<string> := {
    "PENDING", "SCHEDULED", "CONFIRMED", "IN_PROGRESS", "COMPLETED", "CANCELLED", "NO_SHOW", "ON_HOLD", "RESCHEDULED"}

  /** `badgeFor`: a known status has its own badge; any other is shown as
      PENDING. */
  function BadgeFor(status: string): (key: string)
    ensures key in BadgeKeys
    ensures key == status <==> status in BadgeKeys
    ensures status !in BadgeKeys ==> key == "PENDING"
  {
    if status in BadgeKeys then status else "PENDING"
  }

  /** Every status the server sends has its own badge. */
  lemma ServerStatusesHaveBadges(s: AppointmentStatus)
    ensures BadgeFor(s.Name()) == s.Name()
  {
    match s
    case Scheduled =>
    case Confirmed =>
    case Rescheduled =>
    case InProgress =>
    case Completed =>
    case Cancelled =>
    case NoShow =>
  }

  // ----------------------------------------------------------- filtering

  /** The searched text: the present fields joined by spaces, lower-cased. */
  function Summary(a: AppointmentRow): string {
    Lower(Join(NonEmpty([a.customerName, a.customerEmail, a.vehicleMake, a.vehicleModel,
                         a.vehicleRegistrationNumber]), " "))
  }

  predicate Matches(a: AppointmentRow, search: string, statusFilter: string) {
    (statusFilter == "ALL" || a.status == statusFilter) && (search == "" || Includes(Summary(a), search))
  }

  /** `filtered`: the rows matching the status filter and the trimmed,
      lower-cased search, in list order. */
  function Filtered(rows: seq<AppointmentRow>, searchTerm: string, statusFilter: string): (r: seq<AppointmentRow>)
    ensures |r| <= |rows|
    ensures forall i | 0 <= i < |r| :: r[i] in rows && Matches(r[i], Lower(Trim(searchTerm)), statusFilter)
    ensures forall i | 0 <= i < |rows| && Matches(rows[i], Lower(Trim(searchTerm)), statusFilter) :: rows[i] in r
  {
    var search := Lower(Trim(searchTerm));
    Filter(rows, a => Matches(a, search, statusFilter))
  }

  /** A single row is shown iff it matches. */
  lemma FilteredOne(a: AppointmentRow, searchTerm: string, statusFilter: string)
    ensures Filtered([a], searchTerm, statusFilter) == if Matches(a, Lower(Trim(searchTerm)), statusFilter) then [a] else []
  {
    FilterOne(a, (a: AppointmentRow) => Matches(a, Lower(Trim(searchTerm)), statusFilter));
  }

  /** The shown rows keep the list's order: filtering two consecutive
      parts of the list and joining the results is filtering the list. */
  lemma FilteredInOrder(a: seq<AppointmentRow>, b: seq<AppointmentRow>, searchTerm: string, statusFilter: string)
    ensures Filtered(a + b, searchTerm, statusFilter) == Filtered(a, searchTerm, statusFilter) + Filtered(b, searchTerm, statusFilter)
  {
    FilterAppend(a, b, (a: AppointmentRow) => Matches(a, Lower(Trim(searchTerm)), statusFilter));
  }

  /** The shown rows keep the list's duplicates: each matching row occurs
      as often as in the list, any other not at all. */
  lemma FilteredDuplicates(rows: seq<AppointmentRow>, searchTerm: string, statusFilter: string)
    ensures forall x :: multiset(Filtered(rows, searchTerm, statusFilter))[x] == if Matches(x, Lower(Trim(searchTerm)), statusFilter) then multiset(rows)[x] else 0
  {
    FilterMultiset(rows, (a: AppointmentRow) => Matches(a, Lower(Trim(searchTerm)), statusFilter));
  }

  /** With a blank search and the ALL filter the whole list is shown. */
  lemma FilteredEverything(rows: seq<AppointmentRow>, searchTerm: string)
    requires Trim(searchTerm) == ""
    ensures Filtered(rows, searchTerm, "ALL") == rows
  {
    var search := Lower(Trim(searchTerm));
    FilterAll(rows, a => Matches(a, search, "ALL"));
  }

  /** An appointment whose plate contains the search text, in any ASCII
      case, passes the search. */
  lemma SearchFindsPlate(a: AppointmentRow, searchTerm: string)
    requires Contains(a.vehicleRegistrationNumber, Trim(searchTerm))
    ensures Matches(a, Lower(Trim(searchTerm)), "ALL")
  {
    var parts := [a.customerName, a.customerEmail, a.vehicleMake, a.vehicleModel, a.vehicleRegistrationNumber];
    var needle := Trim(searchTerm);
    if needle != "" {
      var plate := a.vehicleRegistrationNumber;
      assert plate != "" by {
        var i: nat :| OccursAt(plate, needle, i);
      }
      var present := NonEmpty(parts);
      var k := NonEmptyIndex(parts, 4);
      JoinContains(present, " ", k);
      ContainsTrans(Join(present, " "), plate, needle);
      LowerContains(Join(present, " "), needle);
    }
  }

  /** A non-empty part keeps a position among the non-empty parts. */
  lemma {:induction false} NonEmptyIndex(parts: seq<string>, i: nat) returns (k: nat)
    requires i < |parts| && parts[i] != ""
    ensures k < |NonEmpty(parts)| && NonEmpty(parts)[k] == parts[i]
  {
    if i == 0 {
      k := 0;
    } else {
      var k' := NonEmptyIndex(parts[1..], i - 1);
      k := if parts[0] == [] then k' else k' + 1;
    }
  }

  // ------------------------------------------------------------- counters

  datatype AppointmentStats = AppointmentStats(total: nat, pending: nat, inProgress: nat, completed: nat)

  function HasStatus(status: string): AppointmentRow -> bool {
    (a: AppointmentRow) => a.status == status
  }

  function CountStatus(rows: seq<AppointmentRow>, status: string): nat {
    Count(rows, HasStatus(status))
  }

  /** `stats`: all, PENDING + SCHEDULED, IN_PROGRESS and COMPLETED. */
  function Stats(rows: seq<AppointmentRow>): AppointmentStats {
    AppointmentStats(|rows|, CountStatus(rows, "PENDING") + CountStatus(rows, "SCHEDULED"),
      CountStatus(rows, "IN_PROGRESS"), CountStatus(rows, "COMPLETED"))
  }

  predicate Waiting(a: AppointmentRow) {
    a.status == "PENDING" || a.status == "SCHEDULED"
  }

  /** No appointment is counted twice. */
  lemma StatsWithinTotal(rows: seq<AppointmentRow>)
    ensures var s := Stats(rows); s.pending + s.inProgress + s.completed <= s.total
  {
    CountUnion(rows, HasStatus("PENDING"), HasStatus("SCHEDULED"), Waiting);
    DisjointCounts(rows, Waiting, HasStatus("IN_PROGRESS"), HasStatus("COMPLETED"));
  }

  /** A status text the server can send: the name of an appointment status. */
  predicate ServerStatus(status: string) {
    exists s: AppointmentStatus :: status == s.Name()
  }

  lemma ServerStatusNotPending(status: string)
    requires ServerStatus(status)
    ensures status != "PENDING"
  {
    var s: AppointmentStatus :| status == s.Name();
    match s
    case Scheduled =>
    case Confirmed =>
    case Rescheduled =>
    case InProgress =>
    case Completed =>
    case Cancelled =>
    case NoShow =>
  }

  /** The server has no PENDING appointment status, so for rows it sent
      the "pending" counter counts exactly the SCHEDULED ones. */
  lemma {:induction false} PendingIsScheduled(rows: seq<AppointmentRow>)
    requires forall i | 0 <= i < |rows| :: ServerStatus(rows[i].status)
    ensures Stats(rows).pending == CountStatus(rows, "SCHEDULED")
  {
    if rows != [] {
      ServerStatusNotPending(rows[0].status);
      assert forall i | 0 <= i < |rows[1..]| :: ServerStatus(rows[1..][i].status) by {
        forall i | 0 <= i < |rows[1..]| ensures ServerStatus(rows[1..][i].status) {
          assert rows[1..][i] == rows[i + 1];
        }
      }
      PendingIsScheduled(rows[1..]);
    }
  }

  // -------------------------------------------------------------- actions

  datatype AppointmentAction = Assign | Reassign | Unassign

  /** The buttons of one appointment depend only on whether somebody is
      assigned. */
  function Actions(a: AppointmentRow): (r: seq<AppointmentAction>)
    ensures Assign in r <==> a.assignedEmployeeId.None? || a.assignedEmployeeId.value == 0
    ensures Assign in r <==> !(Reassign in r) && !(Unassign in r)
    ensures r != []
    ensures a.assignedEmployeeId.Some? && a.assignedEmployeeId.value != 0 ==> r == [Reassign, Unassign]
  {
    if a.assignedEmployeeId.None? || a.assignedEmployeeId.value == 0 then [Assign] else [Reassign, Unassign]
  }

  /** Assign is offered for an unassigned COMPLETED or CANCELLED
      appointment, and the server always refuses it there. */
  lemma AssignOfferedButRefused(a: AppointmentRow, db: Db, adminEmail: string,
                                req: AdminServices.AssignAppointmentRequest, stamp: string)
    requires a.assignedEmployeeId.None?
    requires a.id in db.appointments
    requires db.appointments[a.id].status in {AppointmentStatus.Completed, AppointmentStatus.Cancelled}
    ensures Assign in Actions(a)
    ensures !AdminServices.AssignEmployeeToAppointmentSpec(db, adminEmail, a.id, req, stamp).result.Ok?
  {
  }

  /** Unassign is offered for an assigned appointment in progress, and the
      server always refuses it there. */
  lemma UnassignOfferedButRefused(a: AppointmentRow, db: Db, adminEmail: string)
    requires a.assignedEmployeeId.Some? && a.assignedEmployeeId.value != 0
    requires a.id in db.appointments && db.appointments[a.id].status == AppointmentStatus.InProgress
    ensures Unassign in Actions(a)
    ensures AdminServices.UnassignAppointmentSpec(db, adminEmail, a.id).result.Err?
  {
    assert Actions(a) == [Reassign, Unassign];
  }

  // -------------------------------------------------------------- dialog

  datatype AssignMode = AssignMode | ReassignMode

  /** The request body: the final cost is the typed text without commas
      (its conversion to a number is not modelled). */
  datatype AssignPayload = AssignPayload(employeeId: int, adminNotes: Option<string>, finalCost: Option<string>)

  datatype AppointmentCall = AssignCall(id: int, payload: AssignPayload) | ReassignCall(id: int, payload: AssignPayload)

  datatype AssignOutcome = NoTarget | Invalid(message: string) | Call(call: AppointmentCall)

  /** `finalCost.replace(/,/g, "")`. */
  function WithoutCommas(s: string): (r: string)
    ensures ',' !in r
    ensures |r| <= |s|
    ensures forall c :: c in r <==> c in s && c != ','
  {
    if s == [] then ""
    else if s[0] == ',' then WithoutCommas(s[1..])
    else [s[0]] + WithoutCommas(s[1..])
  }

  /** `doAssign`: an employee must be chosen; the notes are trimmed and
      dropped when blank, and a blank final cost is left out. */
  function DoAssign(target: Option<int>, mode: AssignMode, selectedEmployeeId: Option<int>,
                    adminNotes: string, finalCost: string): (r: AssignOutcome)
    ensures r.NoTarget? <==> target.None?
    ensures target.Some? && (selectedEmployeeId.None? || selectedEmployeeId.value == 0) ==>
      r == Invalid("Please select an employee.")
    ensures r.Call? <==> target.Some? && selectedEmployeeId.Some? && selectedEmployeeId.value != 0
    ensures r.Call? ==> (r.call.AssignCall? <==> mode == AssignMode) && r.call.id == target.value
    ensures r.Call? ==>
      r.call.payload.employeeId == selectedEmployeeId.value && r.call.payload.adminNotes == Optional(adminNotes)
      && (r.call.payload.finalCost.None? <==> Trim(finalCost) == "")
      && (r.call.payload.finalCost.Some? ==> r.call.payload.finalCost.value == WithoutCommas(finalCost))
  {
    if target.None? then NoTarget
    else if selectedEmployeeId.None? || selectedEmployeeId.value == 0 then Invalid("Please select an employee.")
    else
      var payload := AssignPayload(selectedEmployeeId.value, Optional(adminNotes),
        if Trim(finalCost) == "" then None else Some(WithoutCommas(finalCost)));
      if mode == AssignMode then Call(AssignCall(target.value, payload))
      else Call(ReassignCall(target.value, payload))
  }
}
