/**
 * The administrator's workflow operations: assigning, reassigning and
 * unassigning employees on appointments; approving, rejecting, assigning and
 * unassigning projects; listing pending appointments; reading and updating
 * an employee's details.
 *
 * Each operation is a ghost function from the database before the call to
 * its `Outcome` (the function states the rules), and a method that carries
 * the operation out on the `Store` step by step and is proved to agree with
 * that function.
 */
module AdminServices {
  import opened Wrappers
  import opened Text
  import opened Domain
  import opened Storage

  datatype AssignAppointmentRequest = AssignAppointmentRequest(
    employeeId: Id, finalCost: Option<int>, adminNotes: Option<string>)

  datatype ApproveProjectRequest = ApproveProjectRequest(
    employeeId: Id, estimatedCost: Option<int>, estimatedHours: Option<int>,
    expectedCompletion: Option<Time>, approvalNotes: Option<string>)

  datatype RejectProjectRequest = RejectProjectRequest(reason: Option<string>)

  datatype AssignProjectRequest = AssignProjectRequest(
    employeeId: Id, estimatedCost: Option<int>, estimatedHours: Option<int>,
    adminNotes: Option<string>)

  datatype UpdateEmployeeRequest = UpdateEmployeeRequest(
    firstName: string, lastName: string, phone: string, isActive: bool)

  /** The employee detail view with its workload counts. */
  datatype EmployeeDetails = EmployeeDetails(
    id: Id, email: string, firstName: string, lastName: string, phone: string,
    role: Role, isActive: bool,
    assignedAppointments: nat, assignedProjects: nat,
    completedAppointments: nat, completedProjects: nat)

  // ------------------------------------------------------------ the checks

  /** The user behind `email` exists and is an ADMIN. */
  ghost predicate IsAdminActor(db: Db, email: string) {
    var u := UserIdByEmail(db.users, email);
    u.Some? && db.users[u.value].role == Admin
  }

  /** The actor check every admin operation starts with (`validateAdmin`
      and its inline copies): an unknown e-mail is not-found, a non-admin is
      unauthorized. */
  ghost function ActorCheck(db: Db, email: string, missing: string, denied: string): (r: Option<Failure>)
    ensures r.None? <==> IsAdminActor(db, email)
    ensures UserIdByEmail(db.users, email).None? ==> r == Some(Failure(NotFound, missing))
    ensures UserIdByEmail(db.users, email).Some? && !IsAdminActor(db, email)
      ==> r == Some(Failure(Unauthorized, denied))
  {
    match UserIdByEmail(db.users, email)
    case None => Some(Failure(NotFound, missing))
    case Some(id) => if db.users[id].role != Admin then Some(Failure(Unauthorized, denied)) else None
  }

  /** A user who may be given work: exists, is staff, and is active. */
  predicate EligibleAssignee(users: map<Id, User>, id: Id) {
    id in users && IsStaff(users[id]) && users[id].isActive
  }

  /** The assignee checks, in their order: exists (not-found), has role
      EMPLOYEE or ADMIN (illegal-argument), is active (illegal-argument). */
  function AssigneeCheck(users: map<Id, User>, id: Id, missing: string): (r: Option<Failure>)
    ensures r.None? <==> EligibleAssignee(users, id)
    ensures id !in users ==> r == Some(Failure(NotFound, missing))
    ensures id in users && !IsStaff(users[id])
      ==> r == Some(Failure(IllegalArgument, "Selected user is not an employee"))
    ensures id in users && IsStaff(users[id]) && !users[id].isActive
      ==> r == Some(Failure(IllegalArgument, "Cannot assign inactive employee"))
  {
    if id !in users then Some(Failure(NotFound, missing))
    else if !IsStaff(users[id]) then Some(Failure(IllegalArgument, "Selected user is not an employee"))
    else if !users[id].isActive then Some(Failure(IllegalArgument, "Cannot assign inactive employee"))
    else None
  }

  /** The actor check carried out on the store. */
  method CheckActor(store: Store, email: string, missing: string, denied: string)
    returns (r: Option<Failure>)
    requires Valid(store.Snapshot())
    ensures r == ActorCheck(store.Snapshot(), email, missing, denied)
  {
    var id := store.FindUserByEmail(email);
    if id.None? {
      return Some(Failure(NotFound, missing));
    }
    if store.users[id.value].role != Admin {
      return Some(Failure(Unauthorized, denied));
    }
    r := None;
  }

  // ------------------------------------------------- note text building

  /** `existing` with `note` appended on a new line, or `note` alone when
      there is nothing yet: the existing notes always stay in front. */
  function AppendLine(existing: Option<string>, note: string): (r: string)
    ensures existing.GetOr("") <= r
    ensures existing.GetOr("") == "" ==> r == note
    ensures existing.GetOr("") != "" ==> r[|existing.value|..] == "\n" + note
  {
    var prev := existing.GetOr("");
    if prev == "" then note else prev + "\n" + note
  }

  /** The employee notes after an assignment carrying `adminNotes`. */
  function AdminNoted(existing: Option<string>, adminNotes: Option<string>, stamp: string): (r: Option<string>)
    ensures adminNotes.None? || adminNotes == Some("") ==> r == existing
    ensures adminNotes.Some? && adminNotes.value != "" ==>
      r.Some? && existing.GetOr("") <= r.value
  {
    if adminNotes.Some? && adminNotes.value != "" then
      Some(AppendLine(existing, "[" + stamp + "] Admin: " + adminNotes.value))
    else
      existing
  }

  function ApprovalNote(stamp: string, employee: User, req: ApproveProjectRequest): string
    requires req.approvalNotes.Some?
  {
    "\n\n[" + stamp + "] APPROVED by Admin - Assigned to: " + employee.firstName + " " + employee.lastName
      + "\nEstimated Cost: $" + MoneyOrNull(req.estimatedCost)
      + " | Duration: " + IntOrNull(req.estimatedHours) + " hours\nNotes: " + req.approvalNotes.value
  }

  function RejectionNote(stamp: string, reason: Option<string>): string {
    "\n\n[" + stamp + "] REJECTED by Admin\nReason: " + TextOrNull(reason)
  }

  function AssignmentNote(stamp: string, employee: User, notes: string): string {
    "\n\n[" + stamp + "] Assignment Update - Assigned to: " + employee.firstName + " "
      + employee.lastName + "\nNotes: " + notes
  }

  // --------------------------------------------- appointment assignment

  /** The appointment after a successful assignment. */
  function AssignedAppointment(a: Appointment, req: AssignAppointmentRequest, stamp: string): (b: Appointment)
    ensures b.assigneeId == Some(req.employeeId)
    ensures b.status == (if a.status == Scheduled then Confirmed else a.status)
    ensures b.finalCost == (if req.finalCost.Some? then req.finalCost else a.finalCost)
    ensures b.employeeNotes == AdminNoted(a.employeeNotes, req.adminNotes, stamp)
    ensures b.(assigneeId := a.assigneeId, status := a.status, finalCost := a.finalCost,
               employeeNotes := a.employeeNotes) == a
  {
    a.(assigneeId := Some(req.employeeId),
       status := if a.status == Scheduled then Confirmed else a.status,
       finalCost := if req.finalCost.Some? then req.finalCost else a.finalCost,
       employeeNotes := AdminNoted(a.employeeNotes, req.adminNotes, stamp))
  }

  /** `assignEmployeeToAppointment`: refused only for COMPLETED and
      CANCELLED appointments; a successful call also sends the customer one
      confirmation e-mail. */
  ghost function AssignEmployeeToAppointmentSpec(
    db: Db, adminEmail: string, appointmentId: Id, req: AssignAppointmentRequest, stamp: string)
    : (o: Outcome<Appointment>)
    ensures o.result.Err? ==> o.db == db
    ensures !IsAdminActor(db, adminEmail) ==>
      o.result == Err(ActorCheck(db, adminEmail, "Admin not found",
        "Only admins can assign employees to appointments").value)
    ensures o.result.Ok? <==>
      IsAdminActor(db, adminEmail) && appointmentId in db.appointments
      && db.appointments[appointmentId].status !in {AppointmentStatus.Completed, AppointmentStatus.Cancelled}
      && EligibleAssignee(db.users, req.employeeId)
    ensures IsAdminActor(db, adminEmail) && appointmentId in db.appointments
      && db.appointments[appointmentId].status in {AppointmentStatus.Completed, AppointmentStatus.Cancelled}
      ==> o.result.Err? && o.result.failure.kind == IllegalState
    ensures o.result.Ok? ==>
      o.result.value == AssignedAppointment(db.appointments[appointmentId], req, stamp)
      && o.db == db.(appointments := db.appointments[appointmentId := o.result.value],
                     emailsSent := db.emailsSent + 1)
  {
    var actor := ActorCheck(db, adminEmail, "Admin not found",
      "Only admins can assign employees to appointments");
    if actor.Some? then Outcome(Err(actor.value), db)
    else if appointmentId !in db.appointments then
      Outcome(Err(Failure(NotFound, "Appointment not found with ID: " + IntToDecimal(appointmentId))), db)
    else
      var a := db.appointments[appointmentId];
      if a.status == AppointmentStatus.Completed then
        Outcome(Err(Failure(IllegalState, "Cannot assign employee to a completed appointment")), db)
      else if a.status == AppointmentStatus.Cancelled then
        Outcome(Err(Failure(IllegalState, "Cannot assign employee to a cancelled appointment")), db)
      else
        var check := AssigneeCheck(db.users, req.employeeId,
          "Employee not found with ID: " + IntToDecimal(req.employeeId));
        if check.Some? then Outcome(Err(check.value), db)
        else
          var b := AssignedAppointment(a, req, stamp);
          Outcome(Ok(b), db.(appointments := db.appointments[appointmentId := b],
                             emailsSent := db.emailsSent + 1))
  }

  method AssignEmployeeToAppointment(
    store: Store, adminEmail: string, appointmentId: Id, req: AssignAppointmentRequest, stamp: string)
    returns (r: Result<Appointment>)
    requires Valid(store.Snapshot())
    modifies store
    ensures Outcome(r, store.Snapshot())
      == AssignEmployeeToAppointmentSpec(old(store.Snapshot()), adminEmail, appointmentId, req, stamp)
  {
    var actor := CheckActor(store, adminEmail, "Admin not found",
      "Only admins can assign employees to appointments");
    if actor.Some? {
      return Err(actor.value);
    }
    if appointmentId !in store.appointments {
      return Err(Failure(NotFound, "Appointment not found with ID: " + IntToDecimal(appointmentId)));
    }
    var appointment := store.appointments[appointmentId];
    if appointment.status == AppointmentStatus.Completed {
      return Err(Failure(IllegalState, "Cannot assign employee to a completed appointment"));
    }
    if appointment.status == AppointmentStatus.Cancelled {
      return Err(Failure(IllegalState, "Cannot assign employee to a cancelled appointment"));
    }
    var check := AssigneeCheck(store.users, req.employeeId,
      "Employee not found with ID: " + IntToDecimal(req.employeeId));
    if check.Some? {
      return Err(check.value);
    }
    appointment := appointment.(assigneeId := Some(req.employeeId));
    if appointment.status == Scheduled {
      appointment := appointment.(status := Confirmed);
    }
    if req.finalCost.Some? {
      appointment := appointment.(finalCost := req.finalCost);
    }
    if req.adminNotes.Some? && req.adminNotes.value != "" {
      var note := "[" + stamp + "] Admin: " + req.adminNotes.value;
      var existing := if appointment.employeeNotes.Some? then appointment.employeeNotes.value else "";
      appointment := appointment.(employeeNotes := Some(if existing == "" then note else existing + "\n" + note));
    }
    store.appointments := store.appointments[appointmentId := appointment];
    store.emailsSent := store.emailsSent + 1;
    r := Ok(appointment);
  }

  /** `reassignAppointmentEmployee` delegates to the assignment. */
  method ReassignAppointmentEmployee(
    store: Store, adminEmail: string, appointmentId: Id, req: AssignAppointmentRequest, stamp: string)
    returns (r: Result<Appointment>)
    requires Valid(store.Snapshot())
    modifies store
    ensures Outcome(r, store.Snapshot())
      == AssignEmployeeToAppointmentSpec(old(store.Snapshot()), adminEmail, appointmentId, req, stamp)
  {
    r := AssignEmployeeToAppointment(store, adminEmail, appointmentId, req, stamp);
  }

  /** `unassignAppointmentEmployee`: refused only while IN_PROGRESS; clears
      the assignee and turns CONFIRMED back into SCHEDULED. */
  ghost function UnassignAppointmentSpec(db: Db, adminEmail: string, appointmentId: Id)
    : (o: Outcome<Appointment>)
    ensures o.result.Err? ==> o.db == db
    ensures !IsAdminActor(db, adminEmail) ==>
      o.result == Err(ActorCheck(db, adminEmail, "Admin not found",
        "Only admins can unassign employees").value)
    ensures o.result.Ok? <==>
      IsAdminActor(db, adminEmail) && appointmentId in db.appointments
      && db.appointments[appointmentId].status != AppointmentStatus.InProgress
    ensures o.result.Ok? ==>
      var a := db.appointments[appointmentId];
      o.result.value == a.(assigneeId := None, status := if a.status == Confirmed then Scheduled else a.status)
      && o.db == db.(appointments := db.appointments[appointmentId := o.result.value])
  {
    var actor := ActorCheck(db, adminEmail, "Admin not found", "Only admins can unassign employees");
    if actor.Some? then Outcome(Err(actor.value), db)
    else if appointmentId !in db.appointments then
      Outcome(Err(Failure(NotFound, "Appointment not found")), db)
    else
      var a := db.appointments[appointmentId];
      if a.status == AppointmentStatus.InProgress then
        Outcome(Err(Failure(IllegalState, "Cannot unassign employee from appointment in progress")), db)
      else
        var b := a.(assigneeId := None, status := if a.status == Confirmed then Scheduled else a.status);
        Outcome(Ok(b), db.(appointments := db.appointments[appointmentId := b]))
  }

  method UnassignAppointmentEmployee(store: Store, adminEmail: string, appointmentId: Id)
    returns (r: Result<Appointment>)
    requires Valid(store.Snapshot())
    modifies store
    ensures Outcome(r, store.Snapshot()) == UnassignAppointmentSpec(old(store.Snapshot()), adminEmail, appointmentId)
  {
    var actor := CheckActor(store, adminEmail, "Admin not found", "Only admins can unassign employees");
    if actor.Some? {
      return Err(actor.value);
    }
    if appointmentId !in store.appointments {
      return Err(Failure(NotFound, "Appointment not found"));
    }
    var appointment := store.appointments[appointmentId];
    if appointment.status == AppointmentStatus.InProgress {
      return Err(Failure(IllegalState, "Cannot unassign employee from appointment in progress"));
    }
    appointment := appointment.(assigneeId := None);
    if appointment.status == Confirmed {
      appointment := appointment.(status := Scheduled);
    }
    store.appointments := store.appointments[appointmentId := appointment];
    r := Ok(appointment);
  }

  // ------------------------------------------------------------ projects

  /** `approveAndAssignProject`: only from PENDING; sets APPROVED, the
      assignee and both estimates, the expected completion date only when
      one is given, and appends an approval note when notes are given. */
  ghost function ApproveAndAssignProjectSpec(
    db: Db, adminEmail: string, projectId: Id, req: ApproveProjectRequest, stamp: string)
    : (o: Outcome<Project>)
    ensures o.result.Err? ==> o.db == db
    ensures !IsAdminActor(db, adminEmail) ==>
      o.result == Err(ActorCheck(db, adminEmail, "Admin not found", "Only admins can approve projects").value)
    ensures o.result.Ok? <==>
      IsAdminActor(db, adminEmail) && projectId in db.projects
      && db.projects[projectId].status == Pending && EligibleAssignee(db.users, req.employeeId)
    ensures IsAdminActor(db, adminEmail) && projectId in db.projects && db.projects[projectId].status != Pending
      ==> o.result == Err(Failure(IllegalState,
        "Can only approve projects with PENDING status. Current status: " + db.projects[projectId].status.Name()))
    ensures o.result.Ok? ==>
      var p := db.projects[projectId];
      var q := o.result.value;
      q.status == Approved && q.assigneeId == Some(req.employeeId)
      && q.estimatedCost == req.estimatedCost && q.estimatedHours == req.estimatedHours
      && q.expectedCompletion == (if req.expectedCompletion.Some? then req.expectedCompletion else p.expectedCompletion)
      && (req.approvalNotes.None? || req.approvalNotes == Some("") ==> q.description == p.description)
      && (req.approvalNotes.Some? && req.approvalNotes.value != "" ==>
            q.description.Some? && TextOrNull(p.description) <= q.description.value)
      && q.(status := p.status, assigneeId := p.assigneeId, estimatedCost := p.estimatedCost,
            estimatedHours := p.estimatedHours, expectedCompletion := p.expectedCompletion,
            description := p.description) == p
      && o.db == db.(projects := db.projects[projectId := q])
  {
    var actor := ActorCheck(db, adminEmail, "Admin not found", "Only admins can approve projects");
    if actor.Some? then Outcome(Err(actor.value), db)
    else if projectId !in db.projects then
      Outcome(Err(Failure(NotFound, "Project not found with ID: " + IntToDecimal(projectId))), db)
    else
      var p := db.projects[projectId];
      if p.status != Pending then
        Outcome(Err(Failure(IllegalState,
          "Can only approve projects with PENDING status. Current status: " + p.status.Name())), db)
      else
        var check := AssigneeCheck(db.users, req.employeeId,
          "Employee not found with ID: " + IntToDecimal(req.employeeId));
        if check.Some? then Outcome(Err(check.value), db)
        else
          var employee := db.users[req.employeeId];
          var q := p.(status := Approved, assigneeId := Some(req.employeeId),
                      estimatedCost := req.estimatedCost, estimatedHours := req.estimatedHours,
                      expectedCompletion := if req.expectedCompletion.Some? then req.expectedCompletion
                                            else p.expectedCompletion,
                      description := if req.approvalNotes.Some? && req.approvalNotes.value != "" then
                                       Some(TextOrNull(p.description) + ApprovalNote(stamp, employee, req))
                                     else p.description);
          Outcome(Ok(q), db.(projects := db.projects[projectId := q]))
  }

  method ApproveAndAssignProject(
    store: Store, adminEmail: string, projectId: Id, req: ApproveProjectRequest, stamp: string)
    returns (r: Result<Project>)
    requires Valid(store.Snapshot())
    modifies store
    ensures Outcome(r, store.Snapshot())
      == ApproveAndAssignProjectSpec(old(store.Snapshot()), adminEmail, projectId, req, stamp)
  {
    var actor := CheckActor(store, adminEmail, "Admin not found", "Only admins can approve projects");
    if actor.Some? {
      return Err(actor.value);
    }
    if projectId !in store.projects {
      return Err(Failure(NotFound, "Project not found with ID: " + IntToDecimal(projectId)));
    }
    var project := store.projects[projectId];
    if project.status != Pending {
      return Err(Failure(IllegalState,
        "Can only approve projects with PENDING status. Current status: " + project.status.Name()));
    }
    var check := AssigneeCheck(store.users, req.employeeId,
      "Employee not found with ID: " + IntToDecimal(req.employeeId));
    if check.Some? {
      return Err(check.value);
    }
    var employee := store.users[req.employeeId];
    project := project.(status := Approved);
    project := project.(assigneeId := Some(req.employeeId));
    project := project.(estimatedCost := req.estimatedCost);
    project := project.(estimatedHours := req.estimatedHours);
    if req.expectedCompletion.Some? {
      project := project.(expectedCompletion := req.expectedCompletion);
    }
    if req.approvalNotes.Some? && req.approvalNotes.value != "" {
      project := project.(description := Some(TextOrNull(project.description) + ApprovalNote(stamp, employee, req)));
    }
    store.projects := store.projects[projectId := project];
    r := Ok(project);
  }

  /** `rejectProject`: only from PENDING; sets REJECTED and always appends
      the rejection note to the description. */
  ghost function RejectProjectSpec(
    db: Db, adminEmail: string, projectId: Id, req: RejectProjectRequest, stamp: string)
    : (o: Outcome<Project>)
    ensures o.result.Err? ==> o.db == db
    ensures !IsAdminActor(db, adminEmail) ==>
      o.result == Err(ActorCheck(db, adminEmail, "Admin not found", "Only admins can reject projects").value)
    ensures o.result.Ok? <==>
      IsAdminActor(db, adminEmail) && projectId in db.projects && db.projects[projectId].status == Pending
    ensures IsAdminActor(db, adminEmail) && projectId in db.projects && db.projects[projectId].status != Pending
      ==> o.result == Err(Failure(IllegalState,
        "Can only reject projects with PENDING status. Current status: " + db.projects[projectId].status.Name()))
    ensures o.result.Ok? ==>
      var p := db.projects[projectId];
      var q := o.result.value;
      q.status == Rejected && q.description.Some?
      && q.description.value == TextOrNull(p.description) + RejectionNote(stamp, req.reason)
      && q.(status := p.status, description := p.description) == p
      && o.db == db.(projects := db.projects[projectId := q])
  {
    var actor := ActorCheck(db, adminEmail, "Admin not found", "Only admins can reject projects");
    if actor.Some? then Outcome(Err(actor.value), db)
    else if projectId !in db.projects then
      Outcome(Err(Failure(NotFound, "Project not found")), db)
    else
      var p := db.projects[projectId];
      if p.status != Pending then
        Outcome(Err(Failure(IllegalState,
          "Can only reject projects with PENDING status. Current status: " + p.status.Name())), db)
      else
        var q := p.(status := Rejected,
                    description := Some(TextOrNull(p.description) + RejectionNote(stamp, req.reason)));
        Outcome(Ok(q), db.(projects := db.projects[projectId := q]))
  }

  method RejectProject(store: Store, adminEmail: string, projectId: Id, req: RejectProjectRequest, stamp: string)
    returns (r: Result<Project>)
    requires Valid(store.Snapshot())
    modifies store
    ensures Outcome(r, store.Snapshot()) == RejectProjectSpec(old(store.Snapshot()), adminEmail, projectId, req, stamp)
  {
    var actor := CheckActor(store, adminEmail, "Admin not found", "Only admins can reject projects");
    if actor.Some? {
      return Err(actor.value);
    }
    if projectId !in store.projects {
      return Err(Failure(NotFound, "Project not found"));
    }
    var project := store.projects[projectId];
    if project.status != Pending {
      return Err(Failure(IllegalState,
        "Can only reject projects with PENDING status. Current status: " + project.status.Name()));
    }
    project := project.(status := Rejected);
    project := project.(description := Some(TextOrNull(project.description) + RejectionNote(stamp, req.reason)));
    store.projects := store.projects[projectId := project];
    r := Ok(project);
  }

  /** The statuses in which a project's assignee may be (re)set. */
  predicate AssignableProjectStatus(s: ProjectStatus) {
    s == Approved || s == ProjectStatus.InProgress || s == OnHold
  }

  /** `assignEmployeeToProject`: only in APPROVED, IN_PROGRESS or ON_HOLD;
      sets the assignee and both estimates and never the status. */
  ghost function AssignEmployeeToProjectSpec(
    db: Db, adminEmail: string, projectId: Id, req: AssignProjectRequest, stamp: string)
    : (o: Outcome<Project>)
    ensures o.result.Err? ==> o.db == db
    ensures !IsAdminActor(db, adminEmail) ==>
      o.result == Err(ActorCheck(db, adminEmail, "Admin not found",
        "Only admins can assign employees to projects").value)
    ensures o.result.Ok? <==>
      IsAdminActor(db, adminEmail) && projectId in db.projects
      && AssignableProjectStatus(db.projects[projectId].status) && EligibleAssignee(db.users, req.employeeId)
    ensures IsAdminActor(db, adminEmail) && projectId in db.projects
      && !AssignableProjectStatus(db.projects[projectId].status)
      ==> o.result.Err? && o.result.failure.kind == IllegalState
    ensures o.result.Ok? ==>
      var p := db.projects[projectId];
      var q := o.result.value;
      q.status == p.status && q.assigneeId == Some(req.employeeId)
      && q.estimatedCost == req.estimatedCost && q.estimatedHours == req.estimatedHours
      && (req.adminNotes.None? || req.adminNotes == Some("") ==> q.description == p.description)
      && (req.adminNotes.Some? && req.adminNotes.value != "" ==>
            q.description.Some? && TextOrNull(p.description) <= q.description.value)
      && q.(assigneeId := p.assigneeId, estimatedCost := p.estimatedCost,
            estimatedHours := p.estimatedHours, description := p.description) == p
      && o.db == db.(projects := db.projects[projectId := q])
  {
    var actor := ActorCheck(db, adminEmail, "Admin not found", "Only admins can assign employees to projects");
    if actor.Some? then Outcome(Err(actor.value), db)
    else if projectId !in db.projects then
      Outcome(Err(Failure(NotFound, "Project not found")), db)
    else
      var p := db.projects[projectId];
      if !AssignableProjectStatus(p.status) then
        Outcome(Err(Failure(IllegalState,
          "Can only assign employee to APPROVED, IN_PROGRESS, or ON_HOLD projects. Current status: "
          + p.status.Name())), db)
      else
        var check := AssigneeCheck(db.users, req.employeeId, "Employee not found");
        if check.Some? then Outcome(Err(check.value), db)
        else
          var employee := db.users[req.employeeId];
          var q := p.(assigneeId := Some(req.employeeId),
                      estimatedCost := req.estimatedCost, estimatedHours := req.estimatedHours,
                      description := if req.adminNotes.Some? && req.adminNotes.value != "" then
                                       Some(TextOrNull(p.description) + AssignmentNote(stamp, employee, req.adminNotes.value))
                                     else p.description);
          Outcome(Ok(q), db.(projects := db.projects[projectId := q]))
  }

  method AssignEmployeeToProject(
    store: Store, adminEmail: string, projectId: Id, req: AssignProjectRequest, stamp: string)
    returns (r: Result<Project>)
    requires Valid(store.Snapshot())
    modifies store
    ensures Outcome(r, store.Snapshot())
      == AssignEmployeeToProjectSpec(old(store.Snapshot()), adminEmail, projectId, req, stamp)
  {
    var actor := CheckActor(store, adminEmail, "Admin not found", "Only admins can assign employees to projects");
    if actor.Some? {
      return Err(actor.value);
    }
    if projectId !in store.projects {
      return Err(Failure(NotFound, "Project not found"));
    }
    var project := store.projects[projectId];
    if project.status != Approved && project.status != ProjectStatus.InProgress && project.status != OnHold {
      return Err(Failure(IllegalState,
        "Can only assign employee to APPROVED, IN_PROGRESS, or ON_HOLD projects. Current status: "
        + project.status.Name()));
    }
    var check := AssigneeCheck(store.users, req.employeeId, "Employee not found");
    if check.Some? {
      return Err(check.value);
    }
    var employee := store.users[req.employeeId];
    project := project.(assigneeId := Some(req.employeeId));
    project := project.(estimatedCost := req.estimatedCost);
    project := project.(estimatedHours := req.estimatedHours);
    if req.adminNotes.Some? && req.adminNotes.value != "" {
      project := project.(description :=
        Some(TextOrNull(project.description) + AssignmentNote(stamp, employee, req.adminNotes.value)));
    }
    store.projects := store.projects[projectId := project];
    r := Ok(project);
  }

  /** `unassignProjectEmployee`: refused only while IN_PROGRESS; clears the
      assignee and never changes the status. */
  ghost function UnassignProjectSpec(db: Db, adminEmail: string, projectId: Id) : (o: Outcome<Project>)
    ensures o.result.Err? ==> o.db == db
    ensures !IsAdminActor(db, adminEmail) ==>
      o.result == Err(ActorCheck(db, adminEmail, "Admin not found", "Only admins can unassign employees").value)
    ensures o.result.Ok? <==>
      IsAdminActor(db, adminEmail) && projectId in db.projects
      && db.projects[projectId].status != ProjectStatus.InProgress
    ensures o.result.Ok? ==>
      o.result.value == db.projects[projectId].(assigneeId := None)
      && o.db == db.(projects := db.projects[projectId := o.result.value])
  {
    var actor := ActorCheck(db, adminEmail, "Admin not found", "Only admins can unassign employees");
    if actor.Some? then Outcome(Err(actor.value), db)
    else if projectId !in db.projects then
      Outcome(Err(Failure(NotFound, "Project not found")), db)
    else
      var p := db.projects[projectId];
      if p.status == ProjectStatus.InProgress then
        Outcome(Err(Failure(IllegalState, "Cannot unassign employee from project in progress")), db)
      else
        var q := p.(assigneeId := None);
        Outcome(Ok(q), db.(projects := db.projects[projectId := q]))
  }

  method UnassignProjectEmployee(store: Store, adminEmail: string, projectId: Id)
    returns (r: Result<Project>)
    requires Valid(store.Snapshot())
    modifies store
    ensures Outcome(r, store.Snapshot()) == UnassignProjectSpec(old(store.Snapshot()), adminEmail, projectId)
  {
    var actor := CheckActor(store, adminEmail, "Admin not found", "Only admins can unassign employees");
    if actor.Some? {
      return Err(actor.value);
    }
    if projectId !in store.projects {
      return Err(Failure(NotFound, "Project not found"));
    }
    var project := store.projects[projectId];
    if project.status == ProjectStatus.InProgress {
      return Err(Failure(IllegalState, "Cannot unassign employee from project in progress"));
    }
    project := project.(assigneeId := None);
    store.projects := store.projects[projectId := project];
    r := Ok(project);
  }

  // ------------------------------------------------------- read operations

  /** An appointment waiting for an employee: SCHEDULED and unassigned. */
  predicate PendingAppointment(a: Appointment) {
    a.status == Scheduled && a.assigneeId.None?
  }

  /** `getPendingAppointments`: after the actor check, the SCHEDULED
      appointments without an assignee, in key order. */
  method GetPendingAppointments(store: Store, adminEmail: string) returns (r: Result<seq<Id>>)
    requires Valid(store.Snapshot())
    ensures r.Ok? <==> IsAdminActor(store.Snapshot(), adminEmail)
    ensures r.Err? ==> r == Err(ActorCheck(store.Snapshot(), adminEmail, "User not found",
      "Only admins can access this resource").value)
    ensures r.Ok? ==> forall id :: id in r.value <==>
      id in store.appointments && PendingAppointment(store.appointments[id])
    ensures r.Ok? ==> forall i, j | 0 <= i < j < |r.value| :: r.value[i] < r.value[j]
  {
    var actor := CheckActor(store, adminEmail, "User not found", "Only admins can access this resource");
    if actor.Some? {
      return Err(actor.value);
    }
    var ids: seq<Id> := [];
    var k := 0;
    while k < store.nextId
      invariant 0 <= k <= if store.nextId < 0 then 0 else store.nextId
      invariant forall id :: id in ids <==>
        id in store.appointments && id < k && PendingAppointment(store.appointments[id])
      invariant forall i | 0 <= i < |ids| :: ids[i] < k
      invariant forall i, j | 0 <= i < j < |ids| :: ids[i] < ids[j]
    {
      if k in store.appointments && PendingAppointment(store.appointments[k]) {
        ids := ids + [k];
      }
      k := k + 1;
    }
    r := Ok(ids);
  }

  /** The appointments assigned to `e` among the keys below `below`. */
  function AssignedAppointmentsBelow(apps: map<Id, Appointment>, e: Id, below: int): set<Id> {
    set id | id in apps && id < below && apps[id].assigneeId == Some(e)
  }

  function CompletedAppointmentsBelow(apps: map<Id, Appointment>, e: Id, below: int): set<Id> {
    set id | id in apps && id < below && apps[id].assigneeId == Some(e)
      && apps[id].status == AppointmentStatus.Completed
  }

  function AssignedProjectsBelow(projects: map<Id, Project>, e: Id, below: int): set<Id> {
    set id | id in projects && id < below && projects[id].assigneeId == Some(e)
  }

  function CompletedProjectsBelow(projects: map<Id, Project>, e: Id, below: int): set<Id> {
    set id | id in projects && id < below && projects[id].assigneeId == Some(e)
      && projects[id].status == ProjectStatus.Completed
  }

  lemma SubsetSize(a: set<Id>, b: set<Id>)
    requires a <= b
    ensures |a| <= |b|
  {
    assert b == a + (b - a);
  }

  /** The detail view of user `id`, counting the appointments and projects
      assigned to them and those of each that are COMPLETED. */
  function Details(db: Db, id: Id): (d: EmployeeDetails)
    requires id in db.users
    ensures d.id == id && d.email == db.users[id].email && d.role == db.users[id].role
    ensures d.firstName == db.users[id].firstName && d.lastName == db.users[id].lastName
    ensures d.phone == db.users[id].phone && d.isActive == db.users[id].isActive
    ensures d.completedAppointments <= d.assignedAppointments
    ensures d.completedProjects <= d.assignedProjects
  {
    var u := db.users[id];
    SubsetSize(CompletedAppointmentsBelow(db.appointments, id, db.nextId),
      AssignedAppointmentsBelow(db.appointments, id, db.nextId));
    SubsetSize(CompletedProjectsBelow(db.projects, id, db.nextId),
      AssignedProjectsBelow(db.projects, id, db.nextId));
    EmployeeDetails(id, u.email, u.firstName, u.lastName, u.phone, u.role, u.isActive,
      |AssignedAppointmentsBelow(db.appointments, id, db.nextId)|,
      |AssignedProjectsBelow(db.projects, id, db.nextId)|,
      |CompletedAppointmentsBelow(db.appointments, id, db.nextId)|,
      |CompletedProjectsBelow(db.projects, id, db.nextId)|)
  }

  /** `getEmployeeDetails`: the actor check, then the user must exist
      (not-found) and be staff (illegal-argument). */
  ghost function EmployeeDetailsSpec(db: Db, adminEmail: string, employeeId: Id): (r: Result<EmployeeDetails>)
    ensures !IsAdminActor(db, adminEmail) ==>
      r == Err(ActorCheck(db, adminEmail, "User not found", "Only admins can access this resource").value)
    ensures r.Ok? <==> IsAdminActor(db, adminEmail) && employeeId in db.users && IsStaff(db.users[employeeId])
    ensures IsAdminActor(db, adminEmail) && employeeId in db.users && !IsStaff(db.users[employeeId])
      ==> r == Err(Failure(IllegalArgument, "User is not an employee"))
    ensures r.Ok? ==>
      r.value.id == employeeId && r.value.email == db.users[employeeId].email
      && r.value.completedAppointments <= r.value.assignedAppointments
      && r.value.completedProjects <= r.value.assignedProjects
  {
    var actor := ActorCheck(db, adminEmail, "User not found", "Only admins can access this resource");
    if actor.Some? then Err(actor.value)
    else if employeeId !in db.users then
      Err(Failure(NotFound, "Employee not found with ID: " + IntToDecimal(employeeId)))
    else if !IsStaff(db.users[employeeId]) then
      Err(Failure(IllegalArgument, "User is not an employee"))
    else
      Ok(Details(db, employeeId))
  }

  method GetEmployeeDetails(store: Store, adminEmail: string, employeeId: Id) returns (r: Result<EmployeeDetails>)
    requires Valid(store.Snapshot())
    ensures r == EmployeeDetailsSpec(store.Snapshot(), adminEmail, employeeId)
  {
    var actor := CheckActor(store, adminEmail, "User not found", "Only admins can access this resource");
    if actor.Some? {
      return Err(actor.value);
    }
    if employeeId !in store.users {
      return Err(Failure(NotFound, "Employee not found with ID: " + IntToDecimal(employeeId)));
    }
    var employee := store.users[employeeId];
    if employee.role != Employee && employee.role != Admin {
      return Err(Failure(IllegalArgument, "User is not an employee"));
    }
    var apps, projects := store.appointments, store.projects;
    var assignedA, completedA, assignedP, completedP := 0, 0, 0, 0;
    var k := 0;
    while k < store.nextId
      invariant 0 <= k <= if store.nextId < 0 then 0 else store.nextId
      invariant assignedA == |AssignedAppointmentsBelow(apps, employeeId, k)|
      invariant completedA == |CompletedAppointmentsBelow(apps, employeeId, k)|
      invariant assignedP == |AssignedProjectsBelow(projects, employeeId, k)|
      invariant completedP == |CompletedProjectsBelow(projects, employeeId, k)|
    {
      AssignedAppointmentsStep(apps, employeeId, k);
      CompletedAppointmentsStep(apps, employeeId, k);
      AssignedProjectsStep(projects, employeeId, k);
      CompletedProjectsStep(projects, employeeId, k);
      if k in apps && apps[k].assigneeId == Some(employeeId) {
        assignedA := assignedA + 1;
        if apps[k].status == AppointmentStatus.Completed {
          completedA := completedA + 1;
        }
      }
      if k in projects && projects[k].assigneeId == Some(employeeId) {
        assignedP := assignedP + 1;
        if projects[k].status == ProjectStatus.Completed {
          completedP := completedP + 1;
        }
      }
      k := k + 1;
    }
    r := Ok(EmployeeDetails(employeeId, employee.email, employee.firstName, employee.lastName,
      employee.phone, employee.role, employee.isActive, assignedA, assignedP, completedA, completedP));
  }

  /** Moving the bound from `k` to `k + 1` adds key `k` to each count
      exactly when it meets that count's condition. */
  lemma AssignedAppointmentsStep(apps: map<Id, Appointment>, e: Id, k: Id)
    ensures |AssignedAppointmentsBelow(apps, e, k + 1)| == |AssignedAppointmentsBelow(apps, e, k)|
      + (if k in apps && apps[k].assigneeId == Some(e) then 1 else 0)
  {
    if k in apps && apps[k].assigneeId == Some(e) {
      assert AssignedAppointmentsBelow(apps, e, k + 1) == AssignedAppointmentsBelow(apps, e, k) + {k};
    } else {
      assert AssignedAppointmentsBelow(apps, e, k + 1) == AssignedAppointmentsBelow(apps, e, k);
    }
  }

  lemma CompletedAppointmentsStep(apps: map<Id, Appointment>, e: Id, k: Id)
    ensures |CompletedAppointmentsBelow(apps, e, k + 1)| == |CompletedAppointmentsBelow(apps, e, k)|
      + (if k in apps && apps[k].assigneeId == Some(e) && apps[k].status == AppointmentStatus.Completed then 1 else 0)
  {
    if k in apps && apps[k].assigneeId == Some(e) && apps[k].status == AppointmentStatus.Completed {
      assert CompletedAppointmentsBelow(apps, e, k + 1) == CompletedAppointmentsBelow(apps, e, k) + {k};
    } else {
      assert CompletedAppointmentsBelow(apps, e, k + 1) == CompletedAppointmentsBelow(apps, e, k);
    }
  }

  lemma AssignedProjectsStep(projects: map<Id, Project>, e: Id, k: Id)
    ensures |AssignedProjectsBelow(projects, e, k + 1)| == |AssignedProjectsBelow(projects, e, k)|
      + (if k in projects && projects[k].assigneeId == Some(e) then 1 else 0)
  {
    if k in projects && projects[k].assigneeId == Some(e) {
      assert AssignedProjectsBelow(projects, e, k + 1) == AssignedProjectsBelow(projects, e, k) + {k};
    } else {
      assert AssignedProjectsBelow(projects, e, k + 1) == AssignedProjectsBelow(projects, e, k);
    }
  }

  lemma CompletedProjectsStep(projects: map<Id, Project>, e: Id, k: Id)
    ensures |CompletedProjectsBelow(projects, e, k + 1)| == |CompletedProjectsBelow(projects, e, k)|
      + (if k in projects && projects[k].assigneeId == Some(e) && projects[k].status == ProjectStatus.Completed then 1 else 0)
  {
    if k in projects && projects[k].assigneeId == Some(e) && projects[k].status == ProjectStatus.Completed {
      assert CompletedProjectsBelow(projects, e, k + 1) == CompletedProjectsBelow(projects, e, k) + {k};
    } else {
      assert CompletedProjectsBelow(projects, e, k + 1) == CompletedProjectsBelow(projects, e, k);
    }
  }

  /** The employee record after `updateEmployee`: trimmed names and phone
      and the new active flag; e-mail and role stay. */
  function UpdatedEmployee(u: User, req: UpdateEmployeeRequest): (v: User)
    ensures v.email == u.email && v.role == u.role && v.isActive == req.isActive
    ensures v.firstName == JavaTrim(req.firstName) && v.lastName == JavaTrim(req.lastName)
    ensures v.phone == JavaTrim(req.phone)
  {
    u.(firstName := JavaTrim(req.firstName), lastName := JavaTrim(req.lastName),
       phone := JavaTrim(req.phone), isActive := req.isActive)
  }

  /** `updateEmployee`: the same checks as the detail view, then the update,
      then the detail view of the stored record. */
  ghost function UpdateEmployeeSpec(db: Db, adminEmail: string, employeeId: Id, req: UpdateEmployeeRequest)
    : (o: Outcome<EmployeeDetails>)
    ensures o.result.Err? ==> o.db == db
    ensures !IsAdminActor(db, adminEmail) ==>
      o.result == Err(ActorCheck(db, adminEmail, "User not found", "Only admins can access this resource").value)
    ensures o.result.Ok? <==> IsAdminActor(db, adminEmail) && employeeId in db.users && IsStaff(db.users[employeeId])
    ensures o.result.Ok? ==>
      o.db == db.(users := db.users[employeeId := UpdatedEmployee(db.users[employeeId], req)])
      && o.result.value == Details(o.db, employeeId)
  {
    var actor := ActorCheck(db, adminEmail, "User not found", "Only admins can access this resource");
    if actor.Some? then Outcome(Err(actor.value), db)
    else if employeeId !in db.users then
      Outcome(Err(Failure(NotFound, "Employee not found with ID: " + IntToDecimal(employeeId))), db)
    else if !IsStaff(db.users[employeeId]) then
      Outcome(Err(Failure(IllegalArgument, "User is not an employee")), db)
    else
      var db' := db.(users := db.users[employeeId := UpdatedEmployee(db.users[employeeId], req)]);
      Outcome(Ok(Details(db', employeeId)), db')
  }

  /** Changing one user's names, phone or active flag keeps the database
      valid and keeps the admin an admin. */
  lemma UpdateUserKeepsActor(db: Db, adminEmail: string, id: Id, v: User)
    requires Valid(db) && id in db.users
    requires v.email == db.users[id].email && v.role == db.users[id].role
    ensures Valid(db.(users := db.users[id := v]))
    ensures IsAdminActor(db.(users := db.users[id := v]), adminEmail) <==> IsAdminActor(db, adminEmail)
  {
    var users' := db.users[id := v];
    assert users'.Keys == db.users.Keys;
    var u := UserIdByEmail(db.users, adminEmail);
    if u.Some? {
      assert users'[u.value].email == adminEmail;
      UserIdByEmailUnique(users', adminEmail, u.value);
    }
  }

  method UpdateEmployee(store: Store, adminEmail: string, employeeId: Id, req: UpdateEmployeeRequest)
    returns (r: Result<EmployeeDetails>)
    requires Valid(store.Snapshot())
    modifies store
    ensures Outcome(r, store.Snapshot()) == UpdateEmployeeSpec(old(store.Snapshot()), adminEmail, employeeId, req)
  {
    var actor := CheckActor(store, adminEmail, "User not found", "Only admins can access this resource");
    if actor.Some? {
      return Err(actor.value);
    }
    if employeeId !in store.users {
      return Err(Failure(NotFound, "Employee not found with ID: " + IntToDecimal(employeeId)));
    }
    var employee := store.users[employeeId];
    if employee.role != Employee && employee.role != Admin {
      return Err(Failure(IllegalArgument, "User is not an employee"));
    }
    employee := employee.(firstName := JavaTrim(req.firstName));
    employee := employee.(lastName := JavaTrim(req.lastName));
    employee := employee.(phone := JavaTrim(req.phone));
    employee := employee.(isActive := req.isActive);
    UpdateUserKeepsActor(store.Snapshot(), adminEmail, employeeId, employee);
    store.users := store.users[employeeId := employee];
    r := GetEmployeeDetails(store, adminEmail, employeeId);
  }

  // -------------------------------------------------------------- lemmas

  /** Each assignment operation keeps the database constraints: it only
      rewrites the one appointment or project it names. */
  lemma AssignAppointmentKeepsValid(
    db: Db, adminEmail: string, appointmentId: Id, req: AssignAppointmentRequest, stamp: string)
    requires Valid(db)
    ensures Valid(AssignEmployeeToAppointmentSpec(db, adminEmail, appointmentId, req, stamp).db)
  {
  }

  lemma UnassignAppointmentKeepsValid(db: Db, adminEmail: string, appointmentId: Id)
    requires Valid(db)
    ensures Valid(UnassignAppointmentSpec(db, adminEmail, appointmentId).db)
  {
  }

  lemma ApproveProjectKeepsValid(
    db: Db, adminEmail: string, projectId: Id, req: ApproveProjectRequest, stamp: string)
    requires Valid(db)
    ensures Valid(ApproveAndAssignProjectSpec(db, adminEmail, projectId, req, stamp).db)
  {
  }

  lemma RejectProjectKeepsValid(
    db: Db, adminEmail: string, projectId: Id, req: RejectProjectRequest, stamp: string)
    requires Valid(db)
    ensures Valid(RejectProjectSpec(db, adminEmail, projectId, req, stamp).db)
  {
  }

  lemma AssignProjectKeepsValid(
    db: Db, adminEmail: string, projectId: Id, req: AssignProjectRequest, stamp: string)
    requires Valid(db)
    ensures Valid(AssignEmployeeToProjectSpec(db, adminEmail, projectId, req, stamp).db)
  {
  }

  lemma UnassignProjectKeepsValid(db: Db, adminEmail: string, projectId: Id)
    requires Valid(db)
    ensures Valid(UnassignProjectSpec(db, adminEmail, projectId).db)
  {
  }

  /** Updating an employee keeps the e-mail, so e-mails stay unique. */
  lemma UpdateEmployeeKeepsValid(db: Db, adminEmail: string, employeeId: Id, req: UpdateEmployeeRequest)
    requires Valid(db)
    ensures Valid(UpdateEmployeeSpec(db, adminEmail, employeeId, req).db)
  {
  }

  /** A successful assignment keeps the workflow facts. */
  lemma AssignAppointmentKeepsWorkflow(
    db: Db, adminEmail: string, appointmentId: Id, req: AssignAppointmentRequest, stamp: string)
    requires Workflow(db)
    ensures Workflow(AssignEmployeeToAppointmentSpec(db, adminEmail, appointmentId, req, stamp).db)
  {
    var o := AssignEmployeeToAppointmentSpec(db, adminEmail, appointmentId, req, stamp);
    if o.result.Ok? {
      forall id | id in o.db.appointments
        ensures StaffAssignee(o.db.users, o.db.appointments[id].assigneeId)
      {
        if id != appointmentId {
          assert o.db.appointments[id] == db.appointments[id];
        }
      }
    }
  }

  /** Unassigning keeps the workflow facts: CONFIRMED goes back to SCHEDULED. */
  lemma UnassignAppointmentKeepsWorkflow(db: Db, adminEmail: string, appointmentId: Id)
    requires Workflow(db)
    ensures Workflow(UnassignAppointmentSpec(db, adminEmail, appointmentId).db)
  {
    var o := UnassignAppointmentSpec(db, adminEmail, appointmentId);
    if o.result.Ok? {
      forall id | id in o.db.appointments
        ensures StaffAssignee(o.db.users, o.db.appointments[id].assigneeId)
      {
        if id != appointmentId {
          assert o.db.appointments[id] == db.appointments[id];
        }
      }
    }
  }

  lemma ApproveProjectKeepsWorkflow(
    db: Db, adminEmail: string, projectId: Id, req: ApproveProjectRequest, stamp: string)
    requires Workflow(db)
    ensures Workflow(ApproveAndAssignProjectSpec(db, adminEmail, projectId, req, stamp).db)
  {
    var o := ApproveAndAssignProjectSpec(db, adminEmail, projectId, req, stamp);
    if o.result.Ok? {
      forall id | id in o.db.projects
        ensures StaffAssignee(o.db.users, o.db.projects[id].assigneeId)
      {
        if id != projectId {
          assert o.db.projects[id] == db.projects[id];
        }
      }
    }
  }

  /** Rejection needs no assignee rule of its own: a PENDING project has
      none, so the REJECTED one has none either. */
  lemma RejectProjectKeepsWorkflow(
    db: Db, adminEmail: string, projectId: Id, req: RejectProjectRequest, stamp: string)
    requires Workflow(db)
    ensures Workflow(RejectProjectSpec(db, adminEmail, projectId, req, stamp).db)
  {
    var o := RejectProjectSpec(db, adminEmail, projectId, req, stamp);
    if o.result.Ok? {
      assert db.projects[projectId].assigneeId.None?;
      forall id | id in o.db.projects
        ensures StaffAssignee(o.db.users, o.db.projects[id].assigneeId)
      {
        if id != projectId {
          assert o.db.projects[id] == db.projects[id];
        }
      }
    }
  }

  lemma AssignProjectKeepsWorkflow(
    db: Db, adminEmail: string, projectId: Id, req: AssignProjectRequest, stamp: string)
    requires Workflow(db)
    ensures Workflow(AssignEmployeeToProjectSpec(db, adminEmail, projectId, req, stamp).db)
  {
    var o := AssignEmployeeToProjectSpec(db, adminEmail, projectId, req, stamp);
    if o.result.Ok? {
      forall id | id in o.db.projects
        ensures StaffAssignee(o.db.users, o.db.projects[id].assigneeId)
      {
        if id != projectId {
          assert o.db.projects[id] == db.projects[id];
        }
      }
    }
  }

  lemma UnassignProjectKeepsWorkflow(db: Db, adminEmail: string, projectId: Id)
    requires Workflow(db)
    ensures Workflow(UnassignProjectSpec(db, adminEmail, projectId).db)
  {
    var o := UnassignProjectSpec(db, adminEmail, projectId);
    if o.result.Ok? {
      forall id | id in o.db.projects
        ensures StaffAssignee(o.db.users, o.db.projects[id].assigneeId)
      {
        if id != projectId {
          assert o.db.projects[id] == db.projects[id];
        }
      }
    }
  }

  /** Updating an employee keeps every role, so every assignee stays staff. */
  lemma UpdateEmployeeKeepsWorkflow(db: Db, adminEmail: string, employeeId: Id, req: UpdateEmployeeRequest)
    requires Workflow(db)
    ensures Workflow(UpdateEmployeeSpec(db, adminEmail, employeeId, req).db)
  {
    var o := UpdateEmployeeSpec(db, adminEmail, employeeId, req);
    if o.result.Ok? {
      forall id | id in o.db.appointments
        ensures StaffAssignee(o.db.users, o.db.appointments[id].assigneeId)
      {
        assert StaffAssignee(db.users, db.appointments[id].assigneeId);
      }
      forall id | id in o.db.projects
        ensures StaffAssignee(o.db.users, o.db.projects[id].assigneeId)
      {
        assert StaffAssignee(db.users, db.projects[id].assigneeId);
      }
    }
  }

  /** Assigning a waiting appointment and then unassigning it returns it to
      SCHEDULED with no assignee, keeping the cost and notes the assignment
      wrote; the listing of pending appointments gets it back. */
  lemma AssignThenUnassign(
    db: Db, adminEmail: string, appointmentId: Id, req: AssignAppointmentRequest, stamp: string)
    requires appointmentId in db.appointments && PendingAppointment(db.appointments[appointmentId])
    requires AssignEmployeeToAppointmentSpec(db, adminEmail, appointmentId, req, stamp).result.Ok?
    ensures var o1 := AssignEmployeeToAppointmentSpec(db, adminEmail, appointmentId, req, stamp);
      var o2 := UnassignAppointmentSpec(o1.db, adminEmail, appointmentId);
      o1.result.value.status == Confirmed
      && o2.result == Ok(o1.result.value.(assigneeId := None, status := Scheduled))
      && PendingAppointment(o2.result.value)
  {
    var o1 := AssignEmployeeToAppointmentSpec(db, adminEmail, appointmentId, req, stamp);
    assert o1.db.users == db.users;
    assert IsAdminActor(o1.db, adminEmail);
  }
}
