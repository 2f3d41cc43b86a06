/**
 * The customer's appointment operations: booking, updating (vehicle,
 * services, time, notes), cancelling and deleting an appointment.
 *
 * As for the administrator's operations, each is a ghost function from the
 * database before the call to its `Outcome`, and a method on the `Store`
 * proved to agree with it. `now` is the clock reading the source takes with
 * `LocalDateTime.now()`.
 */
module AppointmentService {
  import opened Wrappers
  import opened Text
  import opened Domain
  import opened Storage

  datatype BookRequest = BookRequest(
    vehicleId: Id, scheduledAt: Time, scheduledText: string,
    serviceIds: seq<Id>, customerNotes: Option<string>)

  /** Every field may be absent; `scheduledText` is the rendering of
      `scheduledAt` used in the conflict message. */
  datatype UpdateRequest = UpdateRequest(
    vehicleId: Option<Id>, serviceIds: Option<seq<Id>>,
    scheduledAt: Option<Time>, scheduledText: string, customerNotes: Option<string>)

  // ------------------------------------------------------------- services

  predicate Distinct(s: seq<Id>) {
    forall i, j | 0 <= i < j < |s| :: s[i] != s[j]
  }

  predicate AllIn(found: seq<Id>, catalog: map<Id, CatalogService>) {
    forall i | 0 <= i < |found| :: found[i] in catalog
  }

  /** `serviceRepository.findAllById(ids)`: the distinct requested ids that
      name a catalog entry, in the order of their first request. */
  function FindAllById(ids: seq<Id>, catalog: map<Id, CatalogService>): (r: seq<Id>)
    ensures |r| <= |ids|
    ensures AllIn(r, catalog)
  {
    if ids == [] then []
    else
      var f := FindAllById(ids[..|ids| - 1], catalog);
      var x := ids[|ids| - 1];
      if x in catalog && x !in f then f + [x] else f
  }

  /** `findAllById` finds each requested id that names a catalog entry,
      and finds it once. */
  lemma {:induction false} FindAllByIdMembers(ids: seq<Id>, catalog: map<Id, CatalogService>)
    ensures forall x :: x in FindAllById(ids, catalog) <==> x in ids && x in catalog
    ensures Distinct(FindAllById(ids, catalog))
  {
    if ids != [] {
      var p, x := ids[..|ids| - 1], ids[|ids| - 1];
      assert ids == p + [x];
      FindAllByIdMembers(p, catalog);
    }
  }

  /** The size check after `findAllById` passes exactly when every requested
      id names a catalog entry and no id is requested twice. */
  lemma {:induction false} AllFoundIff(ids: seq<Id>, catalog: map<Id, CatalogService>)
    ensures |FindAllById(ids, catalog)| == |ids|
      <==> Distinct(ids) && forall i | 0 <= i < |ids| :: ids[i] in catalog
  {
    if ids != [] {
      var p, x := ids[..|ids| - 1], ids[|ids| - 1];
      assert ids == p + [x];
      AllFoundIff(p, catalog);
      FindAllByIdMembers(p, catalog);
      if Distinct(ids) && forall i | 0 <= i < |ids| :: ids[i] in catalog {
        assert forall i | 0 <= i < |p| :: p[i] == ids[i];
        assert x !in p;
      }
      if |FindAllById(ids, catalog)| == |ids| {
        assert |FindAllById(p, catalog)| == |p|;
        assert x in catalog && x !in p;
        forall i, j | 0 <= i < j < |ids| ensures ids[i] != ids[j] {
          if j == |ids| - 1 {
            assert ids[i] == p[i];
          } else {
            assert ids[i] == p[i] && ids[j] == p[j];
          }
        }
        forall i | 0 <= i < |ids| ensures ids[i] in catalog {
          if i < |p| {
            assert ids[i] == p[i];
          }
        }
      }
    }
  }

  /** The index of the first inactive service, if any. */
  function FirstInactive(found: seq<Id>, catalog: map<Id, CatalogService>): (r: Option<nat>)
    requires AllIn(found, catalog)
    ensures r.None? <==> forall i | 0 <= i < |found| :: catalog[found[i]].isActive
    ensures r.Some? ==>
      r.value < |found| && !catalog[found[r.value]].isActive
      && forall j | 0 <= j < r.value :: catalog[found[j]].isActive
  {
    if found == [] then None
    else if !catalog[found[0]].isActive then Some(0)
    else
      var r := FirstInactive(found[1..], catalog);
      assert forall i | 1 <= i < |found| :: found[i] == found[1..][i - 1];
      if r.Some? then Some(r.value + 1) else None
  }

  /** The sum of the base prices, in cents. */
  function SumPrices(found: seq<Id>, catalog: map<Id, CatalogService>): int
    requires AllIn(found, catalog)
  {
    if found == [] then 0
    else SumPrices(found[..|found| - 1], catalog) + catalog[found[|found| - 1]].basePrice
  }

  /** Checks every selected service is active, in the order they were
      found; `lead` is the text the message starts with. */
  method CheckActive(found: seq<Id>, catalog: map<Id, CatalogService>, lead: string)
    returns (r: Option<Failure>)
    requires AllIn(found, catalog)
    ensures r.None? <==> FirstInactive(found, catalog).None?
    ensures r.Some? ==> r.value == Failure(IllegalArgument,
      lead + catalog[found[FirstInactive(found, catalog).value]].name + "' is not available")
  {
    for i := 0 to |found|
      invariant forall j | 0 <= j < i :: catalog[found[j]].isActive
    {
      if !catalog[found[i]].isActive {
        return Some(Failure(IllegalArgument, lead + catalog[found[i]].name + "' is not available"));
      }
    }
    r := None;
  }

  // ------------------------------------------------------------- queries

  /** The derived query on the `User` entity: any appointment of the
      customer at exactly `t`, whatever its status. */
  predicate BookedAt(apps: map<Id, Appointment>, customerId: Id, t: Time) {
    exists id | id in apps :: apps[id].customerId == customerId && apps[id].scheduledAt == t
  }

  /** The JPQL query on the customer id: an appointment at exactly `t`
      whose status is neither CANCELLED nor COMPLETED. */
  predicate ActiveBookedAt(apps: map<Id, Appointment>, customerId: Id, t: Time) {
    exists id | id in apps ::
      apps[id].customerId == customerId && apps[id].scheduledAt == t
      && apps[id].status != AppointmentStatus.Cancelled && apps[id].status != AppointmentStatus.Completed
  }

  /** Another SCHEDULED appointment of the customer at exactly `t`. */
  predicate OtherScheduledAt(apps: map<Id, Appointment>, customerId: Id, self: Id, t: Time) {
    exists id | id in apps ::
      apps[id].customerId == customerId && apps[id].status == Scheduled
      && apps[id].scheduledAt == t && id != self
  }

  /** The reschedule conflict as written: the status-filtered query fires
      and a different SCHEDULED appointment sits at that time. */
  predicate RescheduleConflict(apps: map<Id, Appointment>, customerId: Id, self: Id, t: Time) {
    ActiveBookedAt(apps, customerId, t) && OtherScheduledAt(apps, customerId, self, t)
  }

  /** Moving an appointment to a new time conflicts exactly when another
      SCHEDULED appointment of the same customer is at that time: the first
      query adds nothing, and the appointment itself is never at `t`. */
  lemma RescheduleConflictIff(apps: map<Id, Appointment>, customerId: Id, self: Id, t: Time)
    requires self in apps && apps[self].scheduledAt != t
    ensures RescheduleConflict(apps, customerId, self, t) <==>
      exists id | id in apps :: apps[id].customerId == customerId
        && apps[id].status == Scheduled && apps[id].scheduledAt == t
  {
    if exists id | id in apps :: apps[id].customerId == customerId
        && apps[id].status == Scheduled && apps[id].scheduledAt == t {
      var id :| id in apps && apps[id].customerId == customerId
        && apps[id].status == Scheduled && apps[id].scheduledAt == t;
      assert id != self;
    }
  }

  // -------------------------------------------------------------- booking

  /** Every check of `bookAppointment` passes. */
  ghost predicate BookAllowed(db: Db, customerEmail: string, req: BookRequest, now: Time) {
    var c := UserIdByEmail(db.users, customerEmail);
    c.Some? && req.vehicleId in db.vehicles && db.vehicles[req.vehicleId].ownerId == c.value
    && req.scheduledAt >= now && !BookedAt(db.appointments, c.value, req.scheduledAt)
    && req.serviceIds != []
    && |FindAllById(req.serviceIds, db.services)| == |req.serviceIds|
    && FirstInactive(FindAllById(req.serviceIds, db.services), db.services).None?
  }

  /** The appointment `bookAppointment` stores: SCHEDULED with progress 0
      and no assignee, holding exactly the requested services, and costing
      the sum of their base prices. */
  function BookedAppointment(customerId: Id, req: BookRequest, catalog: map<Id, CatalogService>): (a: Appointment)
    ensures a.status == Scheduled && a.progress == 0 && a.assigneeId.None? && a.employeeNotes.None?
    ensures a.customerId == customerId && a.vehicleId == req.vehicleId
    ensures a.scheduledAt == req.scheduledAt && a.customerNotes == req.customerNotes
    ensures a.finalCost == Some(SumPrices(FindAllById(req.serviceIds, catalog), catalog))
    ensures |FindAllById(req.serviceIds, catalog)| == |req.serviceIds| ==>
      FindAllById(req.serviceIds, catalog) == req.serviceIds
      && a.serviceIds == (set x | x in req.serviceIds)
  {
    var found := FindAllById(req.serviceIds, catalog);
    FoundIsRequest(req.serviceIds, catalog);
    Appointment(customerId, req.vehicleId, None, req.scheduledAt, Scheduled,
      (set x | x in found), req.customerNotes, None, Some(SumPrices(found, catalog)), 0)
  }

  /** `bookAppointment`: the new appointment takes the next key, is
      SCHEDULED with progress 0 and no assignee, holds exactly the requested
      services and costs the sum of their base prices. */
  ghost function BookSpec(db: Db, customerEmail: string, req: BookRequest, now: Time): (o: Outcome<Id>)
    ensures o.result.Err? ==> o.db == db
    ensures o.result.Ok? <==> BookAllowed(db, customerEmail, req, now)
    ensures UserIdByEmail(db.users, customerEmail).None? ==> o.result == Err(Failure(NotFound, "Customer not found"))
    ensures var c := UserIdByEmail(db.users, customerEmail);
      c.Some? && req.vehicleId in db.vehicles && db.vehicles[req.vehicleId].ownerId != c.value
      ==> o.result == Err(Failure(Unauthorized, "You can only book appointments for your own vehicles"))
    ensures var c := UserIdByEmail(db.users, customerEmail);
      c.Some? && req.vehicleId in db.vehicles && db.vehicles[req.vehicleId].ownerId == c.value
      && req.scheduledAt < now
      ==> o.result == Err(Failure(IllegalArgument, "Cannot schedule appointment in the past"))
    ensures var c := UserIdByEmail(db.users, customerEmail);
      c.Some? && req.vehicleId in db.vehicles && db.vehicles[req.vehicleId].ownerId == c.value
      && req.scheduledAt >= now && BookedAt(db.appointments, c.value, req.scheduledAt)
      ==> o.result == Err(Failure(Duplicate, "You already have an appointment scheduled at " + req.scheduledText))
    ensures o.result.Ok? ==>
      o.result.value == db.nextId
      && o.db == db.(appointments := db.appointments[db.nextId :=
           BookedAppointment(UserIdByEmail(db.users, customerEmail).value, req, db.services)],
         nextId := db.nextId + 1)
  {
    match UserIdByEmail(db.users, customerEmail)
    case None => Outcome(Err(Failure(NotFound, "Customer not found")), db)
    case Some(c) =>
      if req.vehicleId !in db.vehicles then
        Outcome(Err(Failure(NotFound, "Vehicle not found with ID: " + IntToDecimal(req.vehicleId))), db)
      else if db.vehicles[req.vehicleId].ownerId != c then
        Outcome(Err(Failure(Unauthorized, "You can only book appointments for your own vehicles")), db)
      else if req.scheduledAt < now then
        Outcome(Err(Failure(IllegalArgument, "Cannot schedule appointment in the past")), db)
      else if BookedAt(db.appointments, c, req.scheduledAt) then
        Outcome(Err(Failure(Duplicate, "You already have an appointment scheduled at " + req.scheduledText)), db)
      else BookServicesSpec(db, c, req)
  }

  /** The second half of `bookAppointment`, once the customer, the vehicle
      and the time have passed: the service checks and the save. */
  ghost function BookServicesSpec(db: Db, customerId: Id, req: BookRequest): (o: Outcome<Id>)
    ensures o.result.Err? ==> o.db == db
    ensures o.result.Ok? <==>
      req.serviceIds != [] && |FindAllById(req.serviceIds, db.services)| == |req.serviceIds|
      && FirstInactive(FindAllById(req.serviceIds, db.services), db.services).None?
    ensures o.result.Ok? ==>
      o.result.value == db.nextId
      && o.db == db.(appointments := db.appointments[db.nextId := BookedAppointment(customerId, req, db.services)],
         nextId := db.nextId + 1)
  {
    if req.serviceIds == [] then
      Outcome(Err(Failure(IllegalArgument, "At least one service must be selected")), db)
    else
      var found := FindAllById(req.serviceIds, db.services);
      if |found| != |req.serviceIds| then
        Outcome(Err(Failure(NotFound, "One or more services not found")), db)
      else
        var inactive := FirstInactive(found, db.services);
        if inactive.Some? then
          Outcome(Err(Failure(IllegalArgument,
            "Services '" + db.services[found[inactive.value]].name + "' is not available")), db)
        else
          var a := BookedAppointment(customerId, req, db.services);
          Outcome(Ok(db.nextId), db.(appointments := db.appointments[db.nextId := a], nextId := db.nextId + 1))
  }

  /** When nothing is missing or repeated, `findAllById` returns the
      request itself. */
  lemma {:induction false} FoundIsRequest(ids: seq<Id>, catalog: map<Id, CatalogService>)
    ensures |FindAllById(ids, catalog)| == |ids| ==> FindAllById(ids, catalog) == ids
  {
    AllFoundIff(ids, catalog);
    if ids != [] && |FindAllById(ids, catalog)| == |ids| {
      var p := ids[..|ids| - 1];
      AllFoundIff(p, catalog);
      assert forall i | 0 <= i < |p| :: p[i] == ids[i];
      assert |FindAllById(p, catalog)| == |p|;
      FoundIsRequest(p, catalog);
    }
  }

  method BookAppointment(store: Store, customerEmail: string, req: BookRequest, now: Time)
    returns (r: Result<Id>)
    requires Valid(store.Snapshot())
    modifies store
    ensures Outcome(r, store.Snapshot()) == BookSpec(old(store.Snapshot()), customerEmail, req, now)
  {
    var customer := store.FindUserByEmail(customerEmail);
    if customer.None? {
      return Err(Failure(NotFound, "Customer not found"));
    }
    if req.vehicleId !in store.vehicles {
      return Err(Failure(NotFound, "Vehicle not found with ID: " + IntToDecimal(req.vehicleId)));
    }
    if store.vehicles[req.vehicleId].ownerId != customer.value {
      return Err(Failure(Unauthorized, "You can only book appointments for your own vehicles"));
    }
    if req.scheduledAt < now {
      return Err(Failure(IllegalArgument, "Cannot schedule appointment in the past"));
    }
    if BookedAt(store.appointments, customer.value, req.scheduledAt) {
      return Err(Failure(Duplicate, "You already have an appointment scheduled at " + req.scheduledText));
    }
    r := SaveBooking(store, customer.value, req);
  }

  method SaveBooking(store: Store, customerId: Id, req: BookRequest) returns (r: Result<Id>)
    modifies store
    ensures Outcome(r, store.Snapshot()) == BookServicesSpec(old(store.Snapshot()), customerId, req)
  {
    if req.serviceIds == [] {
      return Err(Failure(IllegalArgument, "At least one service must be selected"));
    }
    var found := FindAllById(req.serviceIds, store.services);
    if |found| != |req.serviceIds| {
      return Err(Failure(NotFound, "One or more services not found"));
    }
    var inactive := CheckActive(found, store.services, "Services '");
    if inactive.Some? {
      return Err(inactive.value);
    }
    var appointment := BookedAppointment(customerId, req, store.services);
    var id := store.NewId();
    store.appointments := store.appointments[id := appointment];
    r := Ok(id);
  }

  // ------------------------------------------------------------- updating

  /** The status checks of `updateAppointment`, in their order. */
  function UpdateStatusCheck(s: AppointmentStatus): (r: Option<Failure>)
    ensures r.None? <==> s !in {AppointmentStatus.InProgress, AppointmentStatus.Completed, AppointmentStatus.Cancelled}
    ensures r.Some? ==> r.value.kind == IllegalState
  {
    if s == AppointmentStatus.InProgress then
      Some(Failure(IllegalState, "Cannot update appointment that is currently in progress"))
    else if s == AppointmentStatus.Completed then Some(Failure(IllegalState, "Cannot update a completed appointment"))
    else if s == AppointmentStatus.Cancelled then Some(Failure(IllegalState, "Cannot update a cancelled appointment"))
    else None
  }

  /** The request asks for a different vehicle. */
  predicate ChangesVehicle(a: Appointment, req: UpdateRequest) {
    req.vehicleId.Some? && req.vehicleId.value != a.vehicleId
  }

  /** The request names a non-empty service list. */
  predicate ChangesServices(req: UpdateRequest) {
    req.serviceIds.Some? && req.serviceIds.value != []
  }

  /** The request asks for a different time. */
  predicate ChangesTime(a: Appointment, req: UpdateRequest) {
    req.scheduledAt.Some? && req.scheduledAt.value != a.scheduledAt
  }

  /** The request changes something: the `isUpdated` flag. */
  predicate ChangesAnything(a: Appointment, req: UpdateRequest) {
    ChangesVehicle(a, req) || ChangesServices(req) || ChangesTime(a, req) || req.customerNotes.Some?
  }

  /** The appointment after a successful update. */
  function Updated(a: Appointment, req: UpdateRequest, catalog: map<Id, CatalogService>): (b: Appointment)
    ensures b.customerId == a.customerId && b.assigneeId == a.assigneeId
    ensures b.finalCost == a.finalCost && b.progress == a.progress && b.employeeNotes == a.employeeNotes
    ensures b.status == (if ChangesTime(a, req) && a.status == Confirmed then Rescheduled else a.status)
    ensures b.vehicleId == (if ChangesVehicle(a, req) then req.vehicleId.value else a.vehicleId)
    ensures b.scheduledAt == (if ChangesTime(a, req) then req.scheduledAt.value else a.scheduledAt)
    ensures b.customerNotes == (if req.customerNotes.Some? then req.customerNotes else a.customerNotes)
    ensures ChangesServices(req) ==>
      forall x :: x in b.serviceIds <==> x in req.serviceIds.value && x in catalog
    ensures !ChangesServices(req) ==> b.serviceIds == a.serviceIds
  {
    var requested := if ChangesServices(req) then req.serviceIds.value else [];
    var found := FindAllById(requested, catalog);
    FindAllByIdMembers(requested, catalog);
    var ids := set x | x in found;
    a.(vehicleId := if ChangesVehicle(a, req) then req.vehicleId.value else a.vehicleId,
       serviceIds := if ChangesServices(req) then ids else a.serviceIds,
       scheduledAt := if ChangesTime(a, req) then req.scheduledAt.value else a.scheduledAt,
       status := if ChangesTime(a, req) && a.status == Confirmed then Rescheduled else a.status,
       customerNotes := if req.customerNotes.Some? then req.customerNotes else a.customerNotes)
  }

  /** A requested vehicle exists and belongs to the customer. */
  predicate VehicleChangeOk(db: Db, customerId: Id, a: Appointment, req: UpdateRequest) {
    ChangesVehicle(a, req) ==>
      req.vehicleId.value in db.vehicles && db.vehicles[req.vehicleId.value].ownerId == customerId
  }

  /** Requested services all exist, none twice, and all are active. */
  predicate ServicesChangeOk(db: Db, req: UpdateRequest) {
    ChangesServices(req) ==>
      |FindAllById(req.serviceIds.value, db.services)| == |req.serviceIds.value|
      && FirstInactive(FindAllById(req.serviceIds.value, db.services), db.services).None?
  }

  /** A requested new time is not in the past and does not clash. */
  predicate TimeChangeOk(db: Db, customerId: Id, appointmentId: Id, req: UpdateRequest, now: Time)
    requires appointmentId in db.appointments
  {
    ChangesTime(db.appointments[appointmentId], req) ==>
      req.scheduledAt.value >= now
      && !RescheduleConflict(db.appointments, customerId, appointmentId, req.scheduledAt.value)
  }

  /** The checks `updateAppointment` makes on the requested changes, in
      their order: the new vehicle exists and is the customer's, the new
      services all exist and are active, the new time is not in the past
      and does not clash, and something changes at all. */
  ghost function UpdateFieldCheck(db: Db, customerId: Id, appointmentId: Id, req: UpdateRequest, now: Time)
    : (r: Option<Failure>)
    requires appointmentId in db.appointments
    ensures var a := db.appointments[appointmentId];
      r.None? <==>
        VehicleChangeOk(db, customerId, a, req) && ServicesChangeOk(db, req)
        && TimeChangeOk(db, customerId, appointmentId, req, now) && ChangesAnything(a, req)
    ensures var a := db.appointments[appointmentId];
      VehicleChangeOk(db, customerId, a, req) && ServicesChangeOk(db, req)
      && ChangesTime(a, req) && req.scheduledAt.value < now
      ==> r == Some(Failure(IllegalArgument, "Cannot schedule appointment in the past"))
    ensures !ChangesAnything(db.appointments[appointmentId], req) ==>
      r == Some(Failure(IllegalArgument, "No valid fields provided for update"))
  {
    var a := db.appointments[appointmentId];
    if ChangesVehicle(a, req) && req.vehicleId.value !in db.vehicles then
      Some(Failure(NotFound, "Vehicle not found with ID: " + IntToDecimal(req.vehicleId.value)))
    else if ChangesVehicle(a, req) && db.vehicles[req.vehicleId.value].ownerId != customerId then
      Some(Failure(Unauthorized, "You can only select your own vehicles"))
    else if ChangesServices(req) && |FindAllById(req.serviceIds.value, db.services)| != |req.serviceIds.value| then
      Some(Failure(NotFound, "One or more services not found"))
    else if ChangesServices(req) && FirstInactive(FindAllById(req.serviceIds.value, db.services), db.services).Some? then
      var found := FindAllById(req.serviceIds.value, db.services);
      Some(Failure(IllegalArgument,
        "Service '" + db.services[found[FirstInactive(found, db.services).value]].name + "' is not available"))
    else if ChangesTime(a, req) && req.scheduledAt.value < now then
      Some(Failure(IllegalArgument, "Cannot schedule appointment in the past"))
    else if ChangesTime(a, req) && RescheduleConflict(db.appointments, customerId, appointmentId, req.scheduledAt.value) then
      Some(Failure(Duplicate, "You already have an appointment scheduled at " + req.scheduledText))
    else if !ChangesAnything(a, req) then
      Some(Failure(IllegalArgument, "No valid fields provided for update"))
    else
      None
  }

  /** `updateAppointment`: only the owner may update, and not while the
      appointment is IN_PROGRESS, COMPLETED or CANCELLED; a successful update
      changes only the requested fields (plus CONFIRMED becoming RESCHEDULED
      on a new time) and never the cost or the assignee. */
  ghost function UpdateSpec(db: Db, customerEmail: string, appointmentId: Id, req: UpdateRequest, now: Time)
    : (o: Outcome<Appointment>)
    ensures o.result.Err? ==> o.db == db
    ensures UserIdByEmail(db.users, customerEmail).None? ==> o.result == Err(Failure(NotFound, "Customer not found"))
    ensures o.result.Ok? <==>
      var c := UserIdByEmail(db.users, customerEmail);
      c.Some? && appointmentId in db.appointments && db.appointments[appointmentId].customerId == c.value
      && UpdateStatusCheck(db.appointments[appointmentId].status).None?
      && UpdateFieldCheck(db, c.value, appointmentId, req, now).None?
    ensures var c := UserIdByEmail(db.users, customerEmail);
      c.Some? && appointmentId in db.appointments && db.appointments[appointmentId].customerId != c.value
      ==> o.result == Err(Failure(Unauthorized, "You can only update your own appointments"))
    ensures o.result.Ok? ==>
      o.result.value == Updated(db.appointments[appointmentId], req, db.services)
      && o.db == db.(appointments := db.appointments[appointmentId := o.result.value])
  {
    match UserIdByEmail(db.users, customerEmail)
    case None => Outcome(Err(Failure(NotFound, "Customer not found")), db)
    case Some(c) =>
      if appointmentId !in db.appointments then
        Outcome(Err(Failure(NotFound, "Appointment not found with ID: " + IntToDecimal(appointmentId))), db)
      else
        var a := db.appointments[appointmentId];
        if a.customerId != c then
          Outcome(Err(Failure(Unauthorized, "You can only update your own appointments")), db)
        else if UpdateStatusCheck(a.status).Some? then
          Outcome(Err(UpdateStatusCheck(a.status).value), db)
        else
          var check := UpdateFieldCheck(db, c, appointmentId, req, now);
          if check.Some? then Outcome(Err(check.value), db)
          else
            var b := Updated(a, req, db.services);
            Outcome(Ok(b), db.(appointments := db.appointments[appointmentId := b]))
  }

  /** The field checks on the store, in the source's order. */
  method CheckUpdateFields(store: Store, customerId: Id, appointmentId: Id, req: UpdateRequest, now: Time)
    returns (r: Option<Failure>)
    requires appointmentId in store.appointments
    ensures r == UpdateFieldCheck(store.Snapshot(), customerId, appointmentId, req, now)
  {
    var appointment := store.appointments[appointmentId];
    var isUpdated := false;
    if req.vehicleId.Some? && req.vehicleId.value != appointment.vehicleId {
      if req.vehicleId.value !in store.vehicles {
        return Some(Failure(NotFound, "Vehicle not found with ID: " + IntToDecimal(req.vehicleId.value)));
      }
      if store.vehicles[req.vehicleId.value].ownerId != customerId {
        return Some(Failure(Unauthorized, "You can only select your own vehicles"));
      }
      isUpdated := true;
    }
    if req.serviceIds.Some? && req.serviceIds.value != [] {
      var found := FindAllById(req.serviceIds.value, store.services);
      if |found| != |req.serviceIds.value| {
        return Some(Failure(NotFound, "One or more services not found"));
      }
      var inactive := CheckActive(found, store.services, "Service '");
      if inactive.Some? {
        return Some(inactive.value);
      }
      isUpdated := true;
    }
    if req.scheduledAt.Some? && req.scheduledAt.value != appointment.scheduledAt {
      if req.scheduledAt.value < now {
        return Some(Failure(IllegalArgument, "Cannot schedule appointment in the past"));
      }
      var hasConflict := ActiveBookedAt(store.appointments, customerId, req.scheduledAt.value);
      if hasConflict {
        var isDifferentAppointment := OtherScheduledAt(store.appointments, customerId, appointmentId, req.scheduledAt.value);
        if isDifferentAppointment {
          return Some(Failure(Duplicate, "You already have an appointment scheduled at " + req.scheduledText));
        }
      }
      isUpdated := true;
    }
    if req.customerNotes.Some? {
      isUpdated := true;
    }
    if !isUpdated {
      return Some(Failure(IllegalArgument, "No valid fields provided for update"));
    }
    r := None;
  }

  method UpdateAppointment(store: Store, customerEmail: string, appointmentId: Id, req: UpdateRequest, now: Time)
    returns (r: Result<Appointment>)
    requires Valid(store.Snapshot())
    modifies store
    ensures Outcome(r, store.Snapshot()) == UpdateSpec(old(store.Snapshot()), customerEmail, appointmentId, req, now)
  {
    var customer := store.FindUserByEmail(customerEmail);
    if customer.None? {
      return Err(Failure(NotFound, "Customer not found"));
    }
    if appointmentId !in store.appointments {
      return Err(Failure(NotFound, "Appointment not found with ID: " + IntToDecimal(appointmentId)));
    }
    var appointment := store.appointments[appointmentId];
    if appointment.customerId != customer.value {
      return Err(Failure(Unauthorized, "You can only update your own appointments"));
    }
    if appointment.status == AppointmentStatus.InProgress {
      return Err(Failure(IllegalState, "Cannot update appointment that is currently in progress"));
    }
    if appointment.status == AppointmentStatus.Completed {
      return Err(Failure(IllegalState, "Cannot update a completed appointment"));
    }
    if appointment.status == AppointmentStatus.Cancelled {
      return Err(Failure(IllegalState, "Cannot update a cancelled appointment"));
    }
    var check := CheckUpdateFields(store, customer.value, appointmentId, req, now);
    if check.Some? {
      return Err(check.value);
    }
    if req.vehicleId.Some? && req.vehicleId.value != appointment.vehicleId {
      appointment := appointment.(vehicleId := req.vehicleId.value);
    }
    if req.serviceIds.Some? && req.serviceIds.value != [] {
      var found := FindAllById(req.serviceIds.value, store.services);
      FindAllByIdMembers(req.serviceIds.value, store.services);
      appointment := appointment.(serviceIds := set x | x in found);
    }
    if req.scheduledAt.Some? && req.scheduledAt.value != appointment.scheduledAt {
      appointment := appointment.(scheduledAt := req.scheduledAt.value);
      if appointment.status == Confirmed {
        appointment := appointment.(status := Rescheduled);
      }
    }
    if req.customerNotes.Some? {
      appointment := appointment.(customerNotes := req.customerNotes);
    }
    store.appointments := store.appointments[appointmentId := appointment];
    r := Ok(appointment);
  }

  // ---------------------------------------------------- cancel and delete

  /** `cancelAppointment`: the owner may cancel anything not yet CANCELLED
      or COMPLETED, an IN_PROGRESS appointment included. */
  ghost function CancelSpec(db: Db, customerEmail: string, appointmentId: Id): (o: Outcome<Appointment>)
    ensures o.result.Err? ==> o.db == db
    ensures o.result.Ok? <==>
      var c := UserIdByEmail(db.users, customerEmail);
      c.Some? && appointmentId in db.appointments && db.appointments[appointmentId].customerId == c.value
      && db.appointments[appointmentId].status !in {AppointmentStatus.Cancelled, AppointmentStatus.Completed}
    ensures var c := UserIdByEmail(db.users, customerEmail);
      c.Some? && appointmentId in db.appointments && db.appointments[appointmentId].customerId != c.value
      ==> o.result == Err(Failure(Unauthorized, "You can only cancel your own appointments"))
    ensures o.result.Ok? ==>
      o.result.value == db.appointments[appointmentId].(status := AppointmentStatus.Cancelled)
      && o.db == db.(appointments := db.appointments[appointmentId := o.result.value])
  {
    match UserIdByEmail(db.users, customerEmail)
    case None => Outcome(Err(Failure(NotFound, "Customer not found")), db)
    case Some(c) =>
      if appointmentId !in db.appointments then Outcome(Err(Failure(NotFound, "Appointment not found")), db)
      else
        var a := db.appointments[appointmentId];
        if a.customerId != c then
          Outcome(Err(Failure(Unauthorized, "You can only cancel your own appointments")), db)
        else if a.status == AppointmentStatus.Cancelled then
          Outcome(Err(Failure(IllegalState, "Appointment is already cancelled")), db)
        else if a.status == AppointmentStatus.Completed then
          Outcome(Err(Failure(IllegalState, "Cannot cancel a completed appointment")), db)
        else
          var b := a.(status := AppointmentStatus.Cancelled);
          Outcome(Ok(b), db.(appointments := db.appointments[appointmentId := b]))
  }

  method CancelAppointment(store: Store, customerEmail: string, appointmentId: Id)
    returns (r: Result<Appointment>)
    requires Valid(store.Snapshot())
    modifies store
    ensures Outcome(r, store.Snapshot()) == CancelSpec(old(store.Snapshot()), customerEmail, appointmentId)
  {
    var customer := store.FindUserByEmail(customerEmail);
    if customer.None? {
      return Err(Failure(NotFound, "Customer not found"));
    }
    if appointmentId !in store.appointments {
      return Err(Failure(NotFound, "Appointment not found"));
    }
    var appointment := store.appointments[appointmentId];
    if appointment.customerId != customer.value {
      return Err(Failure(Unauthorized, "You can only cancel your own appointments"));
    }
    if appointment.status == AppointmentStatus.Cancelled {
      return Err(Failure(IllegalState, "Appointment is already cancelled"));
    }
    if appointment.status == AppointmentStatus.Completed {
      return Err(Failure(IllegalState, "Cannot cancel a completed appointment"));
    }
    appointment := appointment.(status := AppointmentStatus.Cancelled);
    store.appointments := store.appointments[appointmentId := appointment];
    r := Ok(appointment);
  }

  /** `ALLOWED_CUSTOMER_STATUSES`. */
  const AllowedCustomerStatuses: set<string> := {"SCHEDULED", "CONFIRMED", "RESCHEDULED"}

  /** The status test of `deleteAppointment`: the status name, trimmed and
      upper-cased, is one of the allowed names. */
  predicate Deletable(s: AppointmentStatus) {
    Upper(JavaTrim(s.Name())) in AllowedCustomerStatuses
  }

  /** A name of upper-case letters and underscores is its own trimmed,
      upper-cased form. */
  lemma NormalizedName(n: string)
    requires forall i | 0 <= i < |n| :: 'A' <= n[i] <= 'Z' || n[i] == '_'
    ensures Upper(JavaTrim(n)) == n
  {
    StripUnchanged(n, Java);
    assert Upper(n) == n;
  }

  /** The names are already trimmed and upper-case, so the test accepts
      exactly SCHEDULED, CONFIRMED and RESCHEDULED. */
  lemma DeletableIff(s: AppointmentStatus)
    ensures Deletable(s) <==> s in {Scheduled, Confirmed, Rescheduled}
  {
    NormalizedName(s.Name());
    match s
    case Scheduled =>
    case Confirmed =>
    case Rescheduled =>
    case InProgress => assert s.Name()[0] == 'I';
    case Completed => assert s.Name()[1] == 'O';
    case Cancelled => assert s.Name()[1] == 'A';
    case NoShow => assert |s.Name()| == 7;
  }

  /** `deleteAppointment`: the status is checked before ownership. */
  ghost function DeleteSpec(db: Db, customerEmail: string, appointmentId: Id): (o: Outcome<()>)
    ensures o.result.Err? ==> o.db == db
    ensures o.result.Ok? <==>
      var c := UserIdByEmail(db.users, customerEmail);
      c.Some? && appointmentId in db.appointments && db.appointments[appointmentId].customerId == c.value
      && db.appointments[appointmentId].status in {Scheduled, Confirmed, Rescheduled}
    ensures var c := UserIdByEmail(db.users, customerEmail);
      c.Some? && appointmentId in db.appointments
      && db.appointments[appointmentId].status !in {Scheduled, Confirmed, Rescheduled}
      ==> o.result == Err(Failure(IllegalState,
        "Only appointments with status SCHEDULED, CONFIRMED, or RESCHEDULED can be deleted"))
    ensures o.result.Ok? ==> o.db == db.(appointments := db.appointments - {appointmentId})
  {
    match UserIdByEmail(db.users, customerEmail)
    case None => Outcome(Err(Failure(NotFound, "Customer not found")), db)
    case Some(c) =>
      if appointmentId !in db.appointments then Outcome(Err(Failure(NotFound, "Appointment not found")), db)
      else
        var a := db.appointments[appointmentId];
        DeletableIff(a.status);
        if !Deletable(a.status) then
          Outcome(Err(Failure(IllegalState,
            "Only appointments with status SCHEDULED, CONFIRMED, or RESCHEDULED can be deleted")), db)
        else if a.customerId != c then
          Outcome(Err(Failure(Unauthorized, "You can only delete your own appointments")), db)
        else
          Outcome(Ok(()), db.(appointments := db.appointments - {appointmentId}))
  }

  method DeleteAppointment(store: Store, customerEmail: string, appointmentId: Id) returns (r: Result<()>)
    requires Valid(store.Snapshot())
    modifies store
    ensures Outcome(r, store.Snapshot()) == DeleteSpec(old(store.Snapshot()), customerEmail, appointmentId)
  {
    var customer := store.FindUserByEmail(customerEmail);
    if customer.None? {
      return Err(Failure(NotFound, "Customer not found"));
    }
    if appointmentId !in store.appointments {
      return Err(Failure(NotFound, "Appointment not found"));
    }
    var appointment := store.appointments[appointmentId];
    var normalizedStatus := Upper(JavaTrim(appointment.status.Name()));
    if normalizedStatus !in AllowedCustomerStatuses {
      return Err(Failure(IllegalState, "Only appointments with status SCHEDULED, CONFIRMED, or RESCHEDULED can be deleted"));
    }
    if appointment.customerId != customer.value {
      return Err(Failure(Unauthorized, "You can only delete your own appointments"));
    }
    store.appointments := store.appointments - {appointmentId};
    r := Ok(());
  }

  // -------------------------------------------------------------- lemmas

  /** A booking adds a SCHEDULED, unassigned appointment under a fresh key:
      the database stays valid and the workflow facts still hold. */
  lemma BookKeepsInvariants(db: Db, customerEmail: string, req: BookRequest, now: Time)
    requires Valid(db) && Workflow(db)
    ensures Valid(BookSpec(db, customerEmail, req, now).db)
    ensures Workflow(BookSpec(db, customerEmail, req, now).db)
    ensures BookSpec(db, customerEmail, req, now).result.Ok? ==> db.nextId !in db.appointments
  {
    var o := BookSpec(db, customerEmail, req, now);
    if o.result.Ok? {
      assert db.nextId !in db.appointments;
      forall id | id in o.db.appointments
        ensures StaffAssignee(o.db.users, o.db.appointments[id].assigneeId)
      {
        if id != db.nextId {
          assert o.db.appointments[id] == db.appointments[id];
        }
      }
    }
  }

  /** An update never assigns or unassigns anyone and only turns CONFIRMED
      into RESCHEDULED, so the workflow facts still hold. */
  lemma UpdateKeepsWorkflow(db: Db, customerEmail: string, appointmentId: Id, req: UpdateRequest, now: Time)
    requires Workflow(db)
    ensures Workflow(UpdateSpec(db, customerEmail, appointmentId, req, now).db)
  {
    var o := UpdateSpec(db, customerEmail, appointmentId, req, now);
    if o.result.Ok? {
      forall id | id in o.db.appointments
        ensures StaffAssignee(o.db.users, o.db.appointments[id].assigneeId)
      {
        if id != appointmentId {
          assert o.db.appointments[id] == db.appointments[id];
        }
      }
    }
  }

  lemma CancelKeepsWorkflow(db: Db, customerEmail: string, appointmentId: Id)
    requires Workflow(db)
    ensures Workflow(CancelSpec(db, customerEmail, appointmentId).db)
  {
    var o := CancelSpec(db, customerEmail, appointmentId);
    if o.result.Ok? {
      forall id | id in o.db.appointments
        ensures StaffAssignee(o.db.users, o.db.appointments[id].assigneeId)
      {
        if id != appointmentId {
          assert o.db.appointments[id] == db.appointments[id];
        }
      }
    }
  }

  /** Updating, cancelling and deleting rewrite or remove one appointment,
      so the database constraints still hold. */
  lemma UpdateKeepsValid(db: Db, customerEmail: string, appointmentId: Id, req: UpdateRequest, now: Time)
    requires Valid(db)
    ensures Valid(UpdateSpec(db, customerEmail, appointmentId, req, now).db)
  {
  }

  lemma CancelKeepsValid(db: Db, customerEmail: string, appointmentId: Id)
    requires Valid(db)
    ensures Valid(CancelSpec(db, customerEmail, appointmentId).db)
  {
  }

  lemma DeleteKeepsValid(db: Db, customerEmail: string, appointmentId: Id)
    requires Valid(db)
    ensures Valid(DeleteSpec(db, customerEmail, appointmentId).db)
  {
  }

  /** Removing an appointment leaves the workflow facts of the others. */
  lemma DeleteKeepsWorkflow(db: Db, customerEmail: string, appointmentId: Id)
    requires Workflow(db)
    ensures Workflow(DeleteSpec(db, customerEmail, appointmentId).db)
  {
  }

  /** After a successful update the appointment may be updated again only
      while it is still open: an update never reaches IN_PROGRESS,
      COMPLETED or CANCELLED. */
  lemma UpdateKeepsUpdatable(db: Db, customerEmail: string, appointmentId: Id, req: UpdateRequest, now: Time)
    requires UpdateSpec(db, customerEmail, appointmentId, req, now).result.Ok?
    ensures UpdateStatusCheck(UpdateSpec(db, customerEmail, appointmentId, req, now).result.value.status).None?
  {
  }
}
