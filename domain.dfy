/**
 * The back end's persistent entities (users, vehicles, catalog services,
 * appointments, projects, time logs), the error kinds its services raise,
 * and the database snapshot the service operations are specified over.
 *
 * Ids are the generated primary keys; instants are seconds on one time line;
 * money is an integer number of cents.
 */
module Domain {
  import opened Wrappers
  import opened Text

  type Id = int
  type Time = int

  datatype Role = Customer | Employee | Admin
  {
    /** `Role.name()`. */
    function Name(): string {
      match this
      case Customer => "CUSTOMER"
      case Employee => "EMPLOYEE"
      case Admin => "ADMIN"
    }
  }

  datatype AppointmentStatus =
    Scheduled | Confirmed | Rescheduled | InProgress | Completed | Cancelled | NoShow
  {
    /** The enum constant's name, as `String.valueOf` renders it. */
    function Name(): string {
      match this
      case Scheduled => "SCHEDULED"
      case Confirmed => "CONFIRMED"
      case Rescheduled => "RESCHEDULED"
      case InProgress => "IN_PROGRESS"
      case Completed => "COMPLETED"
      case Cancelled => "CANCELLED"
      case NoShow => "NO_SHOW"
    }
  }

  datatype ProjectStatus =
    Pending | Approved | InProgress | OnHold | Completed | Cancelled | Rejected
  {
    /** The enum constant's name, as string concatenation renders it. */
    function Name(): string {
      match this
      case Pending => "PENDING"
      case Approved => "APPROVED"
      case InProgress => "IN_PROGRESS"
      case OnHold => "ON_HOLD"
      case Completed => "COMPLETED"
      case Cancelled => "CANCELLED"
      case Rejected => "REJECTED"
    }
  }

  /** The exception classes the services throw, by the boundary's reading:
      resource-not-found, unauthorized, illegal-state, illegal-argument and
      duplicate-resource. */
  datatype ErrorKind = NotFound | Unauthorized | IllegalState | IllegalArgument | Duplicate

  datatype Failure = Failure(kind: ErrorKind, message: string)

  datatype Result<T> = Ok(value: T) | Err(failure: Failure)

  datatype User = User(
    email: string, firstName: string, lastName: string, phone: string,
    role: Role, isActive: bool)

  datatype Vehicle = Vehicle(ownerId: Id, registration: string)

  /** A catalog item (the `Services` entity). */
  datatype CatalogService = CatalogService(
    name: string, description: string, basePrice: int, durationMinutes: int,
    category: string, isActive: bool)

  datatype Appointment = Appointment(
    customerId: Id, vehicleId: Id, assigneeId: Option<Id>, scheduledAt: Time,
    status: AppointmentStatus, serviceIds: set<Id>,
    customerNotes: Option<string>, employeeNotes: Option<string>,
    finalCost: Option<int>, progress: int)

  datatype Project = Project(
    customerId: Id, vehicleId: Id, assigneeId: Option<Id>, status: ProjectStatus,
    name: string, description: Option<string>,
    estimatedCost: Option<int>, estimatedHours: Option<int>,
    expectedCompletion: Option<Time>)

  datatype TimeLog = TimeLog(
    employeeId: Id, appointmentId: Option<Id>, projectId: Option<Id>,
    start: Time, end: Time, durationMinutes: int,
    description: string, notes: Option<string>)

  /** The tables, the id generator and the number of e-mails sent. */
  datatype Db = Db(
    users: map<Id, User>, vehicles: map<Id, Vehicle>, services: map<Id, CatalogService>,
    appointments: map<Id, Appointment>, projects: map<Id, Project>,
    timeLogs: map<Id, TimeLog>, nextId: Id, emailsSent: nat)

  /** A service call's result together with the database it leaves. The
      services are transactional: a thrown error rolls every change back. */
  datatype Outcome<T> = Outcome(result: Result<T>, db: Db)

  // ------------------------------------------------------------ derived

  predicate IsStaff(u: User) {
    u.role == Employee || u.role == Admin
  }

  /** `Duration.between(start, end).toMinutes()` for `start <= end`: the
      whole minutes elapsed. */
  function Minutes(start: Time, end: Time): (m: nat)
    requires start <= end
    ensures 60 * m <= end - start < 60 * (m + 1)
  {
    (end - start) / 60
  }

  /** `"" + description` in Java: a null description renders as "null". */
  function TextOrNull(s: Option<string>): string {
    match s
    case Some(t) => t
    case None => "null"
  }

  /** A Java `Integer` in string concatenation or `%d`. */
  function IntOrNull(n: Option<int>): string {
    match n
    case Some(v) => IntToDecimal(v)
    case None => "null"
  }

  /** A `BigDecimal` amount of cents under `%.2f`. */
  function MoneyOrNull(cents: Option<int>): string {
    match cents
    case None => "null"
    case Some(c) =>
      var a := if c < 0 then -c else c;
      var frac := a % 100;
      (if c < 0 then "-" else "") + NatToDecimal(a / 100) + "."
        + (if frac < 10 then "0" else "") + NatToDecimal(frac)
  }

  // ---------------------------------------------------------- invariants

  /** `email` is a unique column. */
  ghost predicate UniqueEmails(users: map<Id, User>) {
    forall a, b | a in users && b in users && users[a].email == users[b].email :: a == b
  }

  /** A stored time log references exactly one target, ends no earlier than
      it starts, and carries the minutes between its ends. */
  predicate WellFormedLog(l: TimeLog) {
    l.appointmentId.Some? != l.projectId.Some?
    && l.start <= l.end && l.durationMinutes == Minutes(l.start, l.end)
  }

  /** Every key was handed out by the id generator, which counts up from 0. */
  predicate KeysBelow(keys: set<Id>, next: Id) {
    forall id | id in keys :: 0 <= id < next
  }

  predicate IdsIssued(db: Db) {
    0 <= db.nextId && KeysBelow(db.users.Keys, db.nextId) && KeysBelow(db.vehicles.Keys, db.nextId)
    && KeysBelow(db.services.Keys, db.nextId) && KeysBelow(db.appointments.Keys, db.nextId)
    && KeysBelow(db.projects.Keys, db.nextId) && KeysBelow(db.timeLogs.Keys, db.nextId)
  }

  /** The database constraints the services rely on. */
  ghost predicate Valid(db: Db) {
    UniqueEmails(db.users) && IdsIssued(db)
    && forall id | id in db.timeLogs :: WellFormedLog(db.timeLogs[id])
  }

  predicate StaffAssignee(users: map<Id, User>, assignee: Option<Id>) {
    assignee.Some? ==> assignee.value in users && IsStaff(users[assignee.value])
  }

  /** The workflow facts the assignment rules keep: a CONFIRMED appointment
      has an assignee and a SCHEDULED one has none; a PENDING or REJECTED
      project has no assignee; every assignee is a staff member. */
  ghost predicate Workflow(db: Db) {
    (forall id | id in db.appointments ::
      var a := db.appointments[id];
      (a.status == Confirmed ==> a.assigneeId.Some?)
      && (a.status == Scheduled ==> a.assigneeId.None?)
      && StaffAssignee(db.users, a.assigneeId))
    && (forall id | id in db.projects ::
      var p := db.projects[id];
      (p.status == Pending || p.status == Rejected ==> p.assigneeId.None?)
      && StaffAssignee(db.users, p.assigneeId))
  }

  // -------------------------------------------------------------- lookups

  /** `userRepository.findByEmail(email)`. */
  ghost function UserIdByEmail(users: map<Id, User>, email: string): (r: Option<Id>)
    ensures r.Some? ==> r.value in users && users[r.value].email == email
    ensures r.None? ==> forall id | id in users :: users[id].email != email
  {
    if exists id | id in users :: users[id].email == email then
      var id :| id in users && users[id].email == email;
      Some(id)
    else
      None
  }

  /** With unique e-mails, the user found by e-mail is the one holding it. */
  lemma UserIdByEmailUnique(users: map<Id, User>, email: string, id: Id)
    requires UniqueEmails(users) && id in users && users[id].email == email
    ensures UserIdByEmail(users, email) == Some(id)
  {
  }

  /** Changing a user's record without touching its e-mail keeps e-mails
      unique. */
  lemma ReplaceUserKeepsValid(db: Db, id: Id, u: User)
    requires Valid(db) && id in db.users && u.email == db.users[id].email
    ensures Valid(db.(users := db.users[id := u]))
  {
    var users := db.users[id := u];
    forall a, b | a in users && b in users && users[a].email == users[b].email
      ensures a == b
    {
      assert db.users[a].email == users[a].email && db.users[b].email == users[b].email;
    }
  }
}
