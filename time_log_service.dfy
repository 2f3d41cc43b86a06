/**
 * The employees' time logs: creating a log against exactly one assigned
 * appointment or project, listing the logs of an assigned target, and
 * updating or deleting one's own logs. The duration is always derived from
 * the two instants and never taken from the request.
 */
module TimeLogService {
  import opened Wrappers
  import opened Text
  import opened Domain
  import opened Storage

  datatype TimeLogRequest = TimeLogRequest(
    appointmentId: Option<Id>, projectId: Option<Id>, start: Time, end: Time,
    description: string, notes: Option<string>)

  datatype TimeLogUpdate = TimeLogUpdate(
    start: Option<Time>, end: Option<Time>, description: Option<string>, notes: Option<string>)

  /** What a log is recorded against. */
  datatype Target = OfAppointment(appointmentId: Id) | OfProject(projectId: Id)

  predicate LogOf(l: TimeLog, t: Target) {
    match t
    case OfAppointment(id) => l.appointmentId == Some(id)
    case OfProject(id) => l.projectId == Some(id)
  }

  /** The target's assignee is the employee `e`. */
  predicate AssignedTo(db: Db, t: Target, e: Id) {
    match t
    case OfAppointment(id) => id in db.appointments && db.appointments[id].assigneeId == Some(e)
    case OfProject(id) => id in db.projects && db.projects[id].assigneeId == Some(e)
  }

  // ------------------------------------------------------------- creating

  /** The log `createTimeLog` stores: trimmed description and notes, the
      derived duration, and a reference to the chosen target only. */
  function NewLog(employeeId: Id, req: TimeLogRequest): (l: TimeLog)
    requires req.start <= req.end
    requires req.appointmentId.Some? != req.projectId.Some?
    ensures WellFormedLog(l)
    ensures l.employeeId == employeeId && l.start == req.start && l.end == req.end
    ensures l.appointmentId == req.appointmentId && l.projectId == req.projectId
    ensures l.description == JavaTrim(req.description)
    ensures l.notes == (if req.notes.Some? then Some(JavaTrim(req.notes.value)) else None)
  {
    TimeLog(employeeId, req.appointmentId, req.projectId, req.start, req.end,
      Minutes(req.start, req.end), JavaTrim(req.description),
      if req.notes.Some? then Some(JavaTrim(req.notes.value)) else None)
  }

  /** The target checks of `createTimeLog`: the target exists, is assigned
      to this employee, and an appointment is not scheduled before the
      log's start. */
  ghost function TargetCheck(db: Db, employeeId: Id, req: TimeLogRequest): (r: Option<Failure>)
    requires req.appointmentId.Some? != req.projectId.Some?
    ensures var t := if req.appointmentId.Some? then OfAppointment(req.appointmentId.value)
                     else OfProject(req.projectId.value);
      r.None? <==>
        AssignedTo(db, t, employeeId)
        && (req.appointmentId.Some? ==> db.appointments[req.appointmentId.value].scheduledAt >= req.start)
    ensures req.appointmentId.Some? && req.appointmentId.value in db.appointments
      && db.appointments[req.appointmentId.value].assigneeId != Some(employeeId)
      ==> r == Some(Failure(Unauthorized, "This appointment is not assigned to you"))
    ensures req.projectId.Some? && req.projectId.value in db.projects
      && db.projects[req.projectId.value].assigneeId != Some(employeeId)
      ==> r == Some(Failure(Unauthorized, "This project is not assigned to you"))
  {
    if req.appointmentId.Some? then
      var id := req.appointmentId.value;
      if id !in db.appointments then
        Some(Failure(NotFound, "Appointment not found with ID: " + IntToDecimal(id)))
      else if db.appointments[id].assigneeId != Some(employeeId) then
        Some(Failure(Unauthorized, "This appointment is not assigned to you"))
      else if db.appointments[id].scheduledAt < req.start then
        Some(Failure(IllegalArgument, "Cannot log time for an appointment that has not yet occurred"))
      else None
    else
      var id := req.projectId.value;
      if id !in db.projects then
        Some(Failure(NotFound, "Project not found with ID: " + IntToDecimal(id)))
      else if db.projects[id].assigneeId != Some(employeeId) then
        Some(Failure(Unauthorized, "This project is not assigned to you"))
      else None
  }

  /** The target checks, against the current store. */
  method CheckTarget(store: Store, employeeId: Id, req: TimeLogRequest) returns (r: Option<Failure>)
    requires req.appointmentId.Some? != req.projectId.Some?
    ensures r == TargetCheck(store.Snapshot(), employeeId, req)
  {
    if req.appointmentId.Some? {
      var id := req.appointmentId.value;
      if id !in store.appointments {
        return Some(Failure(NotFound, "Appointment not found with ID: " + IntToDecimal(id)));
      }
      var appointment := store.appointments[id];
      if appointment.assigneeId.None? || appointment.assigneeId.value != employeeId {
        return Some(Failure(Unauthorized, "This appointment is not assigned to you"));
      }
      if appointment.scheduledAt < req.start {
        return Some(Failure(IllegalArgument, "Cannot log time for an appointment that has not yet occurred"));
      }
    } else {
      var id := req.projectId.value;
      if id !in store.projects {
        return Some(Failure(NotFound, "Project not found with ID: " + IntToDecimal(id)));
      }
      var project := store.projects[id];
      if project.assigneeId.None? || project.assigneeId.value != employeeId {
        return Some(Failure(Unauthorized, "This project is not assigned to you"));
      }
    }
    r := None;
  }

  /** `createTimeLog`: the role is checked before the target ids, the ids
      before the instants, the instants before the target. */
  ghost function CreateSpec(db: Db, employeeEmail: string, req: TimeLogRequest, now: Time): (o: Outcome<Id>)
    ensures o.result.Err? ==> o.db == db
    ensures UserIdByEmail(db.users, employeeEmail).None? ==> o.result == Err(Failure(NotFound, "Employee not found"))
    ensures var e := UserIdByEmail(db.users, employeeEmail);
      e.Some? && !IsStaff(db.users[e.value]) ==> o.result == Err(Failure(Unauthorized, "Only employees can log time"))
    ensures var e := UserIdByEmail(db.users, employeeEmail);
      e.Some? && IsStaff(db.users[e.value]) && req.appointmentId.None? && req.projectId.None?
      ==> o.result == Err(Failure(IllegalArgument, "Either appointmentId or projectId must be provided"))
    ensures var e := UserIdByEmail(db.users, employeeEmail);
      e.Some? && IsStaff(db.users[e.value]) && req.appointmentId.Some? && req.projectId.Some?
      ==> o.result == Err(Failure(IllegalArgument, "Cannot log time for both appointment and project simultaneously"))
    ensures o.result.Ok? <==>
      var e := UserIdByEmail(db.users, employeeEmail);
      e.Some? && IsStaff(db.users[e.value]) && req.appointmentId.Some? != req.projectId.Some?
      && req.start <= req.end <= now && TargetCheck(db, e.value, req).None?
    ensures o.result.Ok? ==>
      o.result.value == db.nextId
      && o.db == db.(timeLogs := db.timeLogs[db.nextId := NewLog(UserIdByEmail(db.users, employeeEmail).value, req)],
                     nextId := db.nextId + 1)
  {
    match UserIdByEmail(db.users, employeeEmail)
    case None => Outcome(Err(Failure(NotFound, "Employee not found")), db)
    case Some(e) =>
      if !IsStaff(db.users[e]) then Outcome(Err(Failure(Unauthorized, "Only employees can log time")), db)
      else if req.appointmentId.None? && req.projectId.None? then
        Outcome(Err(Failure(IllegalArgument, "Either appointmentId or projectId must be provided")), db)
      else if req.appointmentId.Some? && req.projectId.Some? then
        Outcome(Err(Failure(IllegalArgument, "Cannot log time for both appointment and project simultaneously")), db)
      else if req.end < req.start then
        Outcome(Err(Failure(IllegalArgument, "End time must be after start time")), db)
      else if req.end > now then
        Outcome(Err(Failure(IllegalArgument, "End time cannot be in the future")), db)
      else
        var check := TargetCheck(db, e, req);
        if check.Some? then Outcome(Err(check.value), db)
        else
          Outcome(Ok(db.nextId), db.(timeLogs := db.timeLogs[db.nextId := NewLog(e, req)], nextId := db.nextId + 1))
  }

  method CreateTimeLog(store: Store, employeeEmail: string, req: TimeLogRequest, now: Time) returns (r: Result<Id>)
    requires Valid(store.Snapshot())
    modifies store
    ensures Outcome(r, store.Snapshot()) == CreateSpec(old(store.Snapshot()), employeeEmail, req, now)
  {
    var employee := store.FindUserByEmail(employeeEmail);
    if employee.None? {
      return Err(Failure(NotFound, "Employee not found"));
    }
    var e := employee.value;
    if store.users[e].role != Employee && store.users[e].role != Admin {
      return Err(Failure(Unauthorized, "Only employees can log time"));
    }
    if req.appointmentId.None? && req.projectId.None? {
      return Err(Failure(IllegalArgument, "Either appointmentId or projectId must be provided"));
    }
    if req.appointmentId.Some? && req.projectId.Some? {
      return Err(Failure(IllegalArgument, "Cannot log time for both appointment and project simultaneously"));
    }
    if req.end < req.start {
      return Err(Failure(IllegalArgument, "End time must be after start time"));
    }
    if req.end > now {
      return Err(Failure(IllegalArgument, "End time cannot be in the future"));
    }
    var check := CheckTarget(store, e, req);
    if check.Some? {
      return Err(check.value);
    }
    var timeLog := NewLog(e, req);
    var logId := store.NewId();
    store.timeLogs := store.timeLogs[logId := timeLog];
    r := Ok(logId);
  }

  // -------------------------------------------------------------- listing

  /** `getTimeLogsForAppointment` and `getTimeLogsForProject`: the
      employee must exist, the target must exist and be assigned to them. */
  ghost function ListCheck(db: Db, employeeEmail: string, t: Target): (r: Option<Failure>)
    ensures UserIdByEmail(db.users, employeeEmail).None? ==> r == Some(Failure(NotFound, "Employee not found"))
    ensures r.None? <==>
      UserIdByEmail(db.users, employeeEmail).Some?
      && AssignedTo(db, t, UserIdByEmail(db.users, employeeEmail).value)
  {
    match UserIdByEmail(db.users, employeeEmail)
    case None => Some(Failure(NotFound, "Employee not found"))
    case Some(e) =>
      match t
      case OfAppointment(id) =>
        if id !in db.appointments then Some(Failure(NotFound, "Appointment not found"))
        else if db.appointments[id].assigneeId != Some(e) then
          Some(Failure(Unauthorized, "This appointment is not assigned to you"))
        else None
      case OfProject(id) =>
        if id !in db.projects then Some(Failure(NotFound, "Project not found"))
        else if db.projects[id].assigneeId != Some(e) then
          Some(Failure(Unauthorized, "This project is not assigned to you"))
        else None
  }

  /** The keys of the target's logs, in key order. */
  method GetTimeLogs(store: Store, employeeEmail: string, t: Target) returns (r: Result<seq<Id>>)
    requires Valid(store.Snapshot())
    ensures var check := ListCheck(store.Snapshot(), employeeEmail, t);
      if check.Some? then r == Err(check.value) else r.Ok?
    ensures r.Ok? ==> forall id :: id in r.value <==> id in store.timeLogs && LogOf(store.timeLogs[id], t)
    ensures r.Ok? ==> forall i, j | 0 <= i < j < |r.value| :: r.value[i] < r.value[j]
  {
    var employee := store.FindUserByEmail(employeeEmail);
    if employee.None? {
      return Err(Failure(NotFound, "Employee not found"));
    }
    var e := employee.value;
    match t {
      case OfAppointment(id) =>
        if id !in store.appointments {
          return Err(Failure(NotFound, "Appointment not found"));
        }
        if store.appointments[id].assigneeId.None? || store.appointments[id].assigneeId.value != e {
          return Err(Failure(Unauthorized, "This appointment is not assigned to you"));
        }
      case OfProject(id) =>
        if id !in store.projects {
          return Err(Failure(NotFound, "Project not found"));
        }
        if store.projects[id].assigneeId.None? || store.projects[id].assigneeId.value != e {
          return Err(Failure(Unauthorized, "This project is not assigned to you"));
        }
    }
    var ids: seq<Id> := [];
    var k := 0;
    while k < store.nextId
      invariant 0 <= k <= store.nextId
      invariant forall id :: id in ids <==> id in store.timeLogs && id < k && LogOf(store.timeLogs[id], t)
      invariant forall i | 0 <= i < |ids| :: ids[i] < k
      invariant forall i, j | 0 <= i < j < |ids| :: ids[i] < ids[j]
    {
      if k in store.timeLogs && LogOf(store.timeLogs[k], t) {
        ids := ids + [k];
      }
      k := k + 1;
    }
    r := Ok(ids);
  }

  // ------------------------------------------------------------- updating

  /** The log after a successful update: the merged instants, the duration
      derived from them, a non-empty description trimmed, notes trimmed. */
  function UpdatedLog(l: TimeLog, req: TimeLogUpdate): (m: TimeLog)
    requires req.end.GetOr(l.end) >= req.start.GetOr(l.start)
    ensures m.start == req.start.GetOr(l.start) && m.end == req.end.GetOr(l.end)
    ensures m.durationMinutes == Minutes(m.start, m.end)
    ensures m.description == (if req.description.Some? && req.description.value != "" then
      JavaTrim(req.description.value) else l.description)
    ensures m.notes == (if req.notes.Some? then Some(JavaTrim(req.notes.value)) else l.notes)
    ensures m.employeeId == l.employeeId && m.appointmentId == l.appointmentId && m.projectId == l.projectId
  {
    var start, end := req.start.GetOr(l.start), req.end.GetOr(l.end);
    l.(start := start, end := end, durationMinutes := Minutes(start, end),
       description := if req.description.Some? && req.description.value != "" then
         JavaTrim(req.description.value) else l.description,
       notes := if req.notes.Some? then Some(JavaTrim(req.notes.value)) else l.notes)
  }

  /** The request supplies some field: the `isUpdated` flag. */
  predicate SuppliesAnything(req: TimeLogUpdate) {
    req.start.Some? || req.end.Some? || (req.description.Some? && req.description.value != "") || req.notes.Some?
  }

  /** `updateTimeLog`: only the owner; neither instant in the future; the
      merged instants in order; at least one field supplied. */
  ghost function UpdateSpec(db: Db, employeeEmail: string, logId: Id, req: TimeLogUpdate, now: Time)
    : (o: Outcome<TimeLog>)
    ensures o.result.Err? ==> o.db == db
    ensures o.result.Ok? <==>
      var e := UserIdByEmail(db.users, employeeEmail);
      e.Some? && logId in db.timeLogs && db.timeLogs[logId].employeeId == e.value
      && (req.start.Some? ==> req.start.value <= now) && (req.end.Some? ==> req.end.value <= now)
      && req.start.GetOr(db.timeLogs[logId].start) <= req.end.GetOr(db.timeLogs[logId].end)
      && SuppliesAnything(req)
    ensures var e := UserIdByEmail(db.users, employeeEmail);
      e.Some? && logId in db.timeLogs && db.timeLogs[logId].employeeId != e.value
      ==> o.result == Err(Failure(Unauthorized, "You can only edit your own time logs"))
    ensures o.result.Ok? ==>
      o.result.value == UpdatedLog(db.timeLogs[logId], req)
      && o.db == db.(timeLogs := db.timeLogs[logId := o.result.value])
  {
    match UserIdByEmail(db.users, employeeEmail)
    case None => Outcome(Err(Failure(NotFound, "Employee not found")), db)
    case Some(e) =>
      if logId !in db.timeLogs then
        Outcome(Err(Failure(NotFound, "Time log not found with ID: " + IntToDecimal(logId))), db)
      else
        var l := db.timeLogs[logId];
        if l.employeeId != e then Outcome(Err(Failure(Unauthorized, "You can only edit your own time logs")), db)
        else if req.start.Some? && req.start.value > now then
          Outcome(Err(Failure(IllegalArgument, "Start time cannot be in the future")), db)
        else if req.end.Some? && req.end.value > now then
          Outcome(Err(Failure(IllegalArgument, "End time cannot be in the future")), db)
        else if req.end.GetOr(l.end) < req.start.GetOr(l.start) then
          Outcome(Err(Failure(IllegalArgument, "End time must be after start time")), db)
        else if !SuppliesAnything(req) then
          Outcome(Err(Failure(IllegalArgument, "No valid fields provided for update")), db)
        else
          var m := UpdatedLog(l, req);
          Outcome(Ok(m), db.(timeLogs := db.timeLogs[logId := m]))
  }

  method UpdateTimeLog(store: Store, employeeEmail: string, logId: Id, req: TimeLogUpdate, now: Time)
    returns (r: Result<TimeLog>)
    requires Valid(store.Snapshot())
    modifies store
    ensures Outcome(r, store.Snapshot()) == UpdateSpec(old(store.Snapshot()), employeeEmail, logId, req, now)
  {
    var employee := store.FindUserByEmail(employeeEmail);
    if employee.None? {
      return Err(Failure(NotFound, "Employee not found"));
    }
    if logId !in store.timeLogs {
      return Err(Failure(NotFound, "Time log not found with ID: " + IntToDecimal(logId)));
    }
    var timeLog := store.timeLogs[logId];
    if timeLog.employeeId != employee.value {
      return Err(Failure(Unauthorized, "You can only edit your own time logs"));
    }
    var isUpdated := false;
    if req.start.Some? {
      if req.start.value > now {
        return Err(Failure(IllegalArgument, "Start time cannot be in the future"));
      }
      timeLog := timeLog.(start := req.start.value);
      isUpdated := true;
    }
    if req.end.Some? {
      if req.end.value > now {
        return Err(Failure(IllegalArgument, "End time cannot be in the future"));
      }
      timeLog := timeLog.(end := req.end.value);
      isUpdated := true;
    }
    if timeLog.end < timeLog.start {
      return Err(Failure(IllegalArgument, "End time must be after start time"));
    }
    timeLog := timeLog.(durationMinutes := Minutes(timeLog.start, timeLog.end));
    if req.description.Some? && req.description.value != "" {
      timeLog := timeLog.(description := JavaTrim(req.description.value));
      isUpdated := true;
    }
    if req.notes.Some? {
      timeLog := timeLog.(notes := Some(JavaTrim(req.notes.value)));
      isUpdated := true;
    }
    if !isUpdated {
      return Err(Failure(IllegalArgument, "No valid fields provided for update"));
    }
    store.timeLogs := store.timeLogs[logId := timeLog];
    r := Ok(timeLog);
  }

  // ------------------------------------------------------------- deleting

  /** `deleteTimeLog`: only the owner may delete. */
  ghost function DeleteSpec(db: Db, employeeEmail: string, logId: Id): (o: Outcome<()>)
    ensures o.result.Err? ==> o.db == db
    ensures o.result.Ok? <==>
      var e := UserIdByEmail(db.users, employeeEmail);
      e.Some? && logId in db.timeLogs && db.timeLogs[logId].employeeId == e.value
    ensures var e := UserIdByEmail(db.users, employeeEmail);
      e.Some? && logId in db.timeLogs && db.timeLogs[logId].employeeId != e.value
      ==> o.result == Err(Failure(Unauthorized, "You can only delete your own time logs"))
    ensures o.result.Ok? ==> o.db == db.(timeLogs := db.timeLogs - {logId})
  {
    match UserIdByEmail(db.users, employeeEmail)
    case None => Outcome(Err(Failure(NotFound, "Employee not found")), db)
    case Some(e) =>
      if logId !in db.timeLogs then
        Outcome(Err(Failure(NotFound, "Time log not found with ID: " + IntToDecimal(logId))), db)
      else if db.timeLogs[logId].employeeId != e then
        Outcome(Err(Failure(Unauthorized, "You can only delete your own time logs")), db)
      else
        Outcome(Ok(()), db.(timeLogs := db.timeLogs - {logId}))
  }

  method DeleteTimeLog(store: Store, employeeEmail: string, logId: Id) returns (r: Result<()>)
    requires Valid(store.Snapshot())
    modifies store
    ensures Outcome(r, store.Snapshot()) == DeleteSpec(old(store.Snapshot()), employeeEmail, logId)
  {
    var employee := store.FindUserByEmail(employeeEmail);
    if employee.None? {
      return Err(Failure(NotFound, "Employee not found"));
    }
    if logId !in store.timeLogs {
      return Err(Failure(NotFound, "Time log not found with ID: " + IntToDecimal(logId)));
    }
    if store.timeLogs[logId].employeeId != employee.value {
      return Err(Failure(Unauthorized, "You can only delete your own time logs"));
    }
    store.timeLogs := store.timeLogs - {logId};
    r := Ok(());
  }

  // -------------------------------------------------------------- lemmas

  /** Creating, updating and deleting logs keep every stored log
      well-formed: one target, ordered instants, derived duration. */
  lemma CreateKeepsValid(db: Db, employeeEmail: string, req: TimeLogRequest, now: Time)
    requires Valid(db)
    ensures Valid(CreateSpec(db, employeeEmail, req, now).db)
  {
    var o := CreateSpec(db, employeeEmail, req, now);
    if o.result.Ok? {
      forall id | id in o.db.timeLogs ensures WellFormedLog(o.db.timeLogs[id]) {
        if id != db.nextId {
          assert o.db.timeLogs[id] == db.timeLogs[id];
        }
      }
    }
  }

  lemma UpdateKeepsValid(db: Db, employeeEmail: string, logId: Id, req: TimeLogUpdate, now: Time)
    requires Valid(db)
    ensures Valid(UpdateSpec(db, employeeEmail, logId, req, now).db)
  {
    var o := UpdateSpec(db, employeeEmail, logId, req, now);
    if o.result.Ok? {
      assert WellFormedLog(db.timeLogs[logId]);
      forall id | id in o.db.timeLogs ensures WellFormedLog(o.db.timeLogs[id]) {
        if id != logId {
          assert o.db.timeLogs[id] == db.timeLogs[id];
        }
      }
    }
  }

  lemma DeleteKeepsValid(db: Db, employeeEmail: string, logId: Id)
    requires Valid(db)
    ensures Valid(DeleteSpec(db, employeeEmail, logId).db)
  {
  }

  /** The log operations touch no user, appointment or project, so the
      workflow facts still hold. */
  lemma CreateKeepsWorkflow(db: Db, employeeEmail: string, req: TimeLogRequest, now: Time)
    requires Workflow(db)
    ensures Workflow(CreateSpec(db, employeeEmail, req, now).db)
  {
  }

  lemma UpdateKeepsWorkflow(db: Db, employeeEmail: string, logId: Id, req: TimeLogUpdate, now: Time)
    requires Workflow(db)
    ensures Workflow(UpdateSpec(db, employeeEmail, logId, req, now).db)
  {
  }

  lemma DeleteKeepsWorkflow(db: Db, employeeEmail: string, logId: Id)
    requires Workflow(db)
    ensures Workflow(DeleteSpec(db, employeeEmail, logId).db)
  {
  }

  /** A log whose end equals its start passes the end-before-start check
      (only a strictly earlier end is refused): when the other guards hold
      it is accepted, and it lasts 0 minutes. */
  lemma ZeroLengthLog(db: Db, employeeEmail: string, req: TimeLogRequest, now: Time)
    requires req.start == req.end && req.end <= now
    requires UserIdByEmail(db.users, employeeEmail).Some?
    requires IsStaff(db.users[UserIdByEmail(db.users, employeeEmail).value])
    requires req.appointmentId.Some? != req.projectId.Some?
    requires TargetCheck(db, UserIdByEmail(db.users, employeeEmail).value, req).None?
    ensures var o := CreateSpec(db, employeeEmail, req, now);
      o.result.Ok? && o.db.timeLogs[o.result.value].durationMinutes == 0
  {
  }
}
