/**
 * A customer's own profile: reading it by the signed-in e-mail, and
 * updating the name and phone number (customers only).
 */
module CustomerProfileService {
  import opened Wrappers
  import opened Text
  import opened Domain
  import opened Storage

  /** The `UserDto` the profile endpoints return (the creation instant is
      not modelled). */
  datatype Profile = Profile(
    id: Id, email: string, name: string, firstName: string, lastName: string,
    phone: string, role: string, isActive: bool)

  datatype ProfileUpdate = ProfileUpdate(firstName: string, lastName: string, phone: string)

  /** The profile of the stored user `id`: its fields, and the display name
      made of the first and last names around one space. */
  function ProfileOf(id: Id, u: User): (p: Profile)
    ensures p.id == id && p.email == u.email && p.role == u.role.Name() && p.isActive == u.isActive
    ensures p.firstName == u.firstName && p.lastName == u.lastName && p.phone == u.phone
    ensures |p.name| == |u.firstName| + 1 + |u.lastName|
    ensures p.name[..|u.firstName|] == u.firstName && p.name[|u.firstName|] == ' '
    ensures p.name[|u.firstName| + 1..] == u.lastName
  {
    Profile(id, u.email, u.firstName + " " + u.lastName, u.firstName, u.lastName, u.phone, u.role.Name(), u.isActive)
  }

  /** `getMyProfile`. */
  ghost function GetProfileSpec(db: Db, email: string): (r: Result<Profile>)
    ensures r.Err? <==> (forall id | id in db.users :: db.users[id].email != email)
    ensures r.Err? ==> r == Err(Failure(NotFound, "User not found"))
    ensures r.Ok? ==> r.value.email == email && r.value.id in db.users
  {
    match UserIdByEmail(db.users, email)
    case None => Err(Failure(NotFound, "User not found"))
    case Some(id) => Ok(ProfileOf(id, db.users[id]))
  }

  method GetMyProfile(store: Store, email: string) returns (r: Result<Profile>)
    requires Valid(store.Snapshot())
    ensures r == GetProfileSpec(store.Snapshot(), email)
  {
    var found := store.FindUserByEmail(email);
    if found.None? {
      return Err(Failure(NotFound, "User not found"));
    }
    var user := store.users[found.value];
    r := Ok(Profile(found.value, user.email, user.firstName + " " + user.lastName, user.firstName,
      user.lastName, user.phone, user.role.Name(), user.isActive));
  }

  /** The stored user after `updateMyProfile`: trimmed names and phone,
      everything else kept. */
  function UpdatedUser(u: User, req: ProfileUpdate): (v: User)
    ensures v.firstName == JavaTrim(req.firstName) && v.lastName == JavaTrim(req.lastName)
    ensures v.phone == JavaTrim(req.phone)
    ensures v.email == u.email && v.role == u.role && v.isActive == u.isActive
  {
    u.(firstName := JavaTrim(req.firstName), lastName := JavaTrim(req.lastName), phone := JavaTrim(req.phone))
  }

  /** `updateMyProfile`: the user must exist and be a customer; the
      returned profile is the one read back after saving. */
  ghost function UpdateProfileSpec(db: Db, email: string, req: ProfileUpdate): (o: Outcome<Profile>)
    ensures o.result.Err? ==> o.db == db
    ensures UserIdByEmail(db.users, email).None? ==> o.result == Err(Failure(NotFound, "User not found"))
    ensures var id := UserIdByEmail(db.users, email);
      id.Some? && db.users[id.value].role != Customer
      ==> o.result == Err(Failure(Unauthorized, "Only customers can update profile via this endpoint"))
    ensures o.result.Ok? <==>
      var id := UserIdByEmail(db.users, email);
      id.Some? && db.users[id.value].role == Customer
    ensures o.result.Ok? ==>
      var id := UserIdByEmail(db.users, email).value;
      o.db == db.(users := db.users[id := UpdatedUser(db.users[id], req)])
      && o.result.value == ProfileOf(id, o.db.users[id])
  {
    match UserIdByEmail(db.users, email)
    case None => Outcome(Err(Failure(NotFound, "User not found")), db)
    case Some(id) =>
      if db.users[id].role != Customer then
        Outcome(Err(Failure(Unauthorized, "Only customers can update profile via this endpoint")), db)
      else
        var u := UpdatedUser(db.users[id], req);
        Outcome(Ok(ProfileOf(id, u)), db.(users := db.users[id := u]))
  }

  method UpdateMyProfile(store: Store, email: string, req: ProfileUpdate) returns (r: Result<Profile>)
    requires Valid(store.Snapshot())
    modifies store
    ensures Outcome(r, store.Snapshot()) == UpdateProfileSpec(old(store.Snapshot()), email, req)
  {
    var found := store.FindUserByEmail(email);
    if found.None? {
      return Err(Failure(NotFound, "User not found"));
    }
    var id := found.value;
    var user := store.users[id];
    if user.role != Customer {
      return Err(Failure(Unauthorized, "Only customers can update profile via this endpoint"));
    }
    user := user.(firstName := JavaTrim(req.firstName));
    user := user.(lastName := JavaTrim(req.lastName));
    user := user.(phone := JavaTrim(req.phone));
    store.users := store.users[id := user];
    ReplaceUserKeepsValid(old(store.Snapshot()), id, user);
    r := GetMyProfile(store, email);
  }

  /** After an update, reading the profile returns what the update
      returned. */
  lemma UpdateThenGet(db: Db, email: string, req: ProfileUpdate)
    requires Valid(db)
    requires UpdateProfileSpec(db, email, req).result.Ok?
    ensures var o := UpdateProfileSpec(db, email, req);
      GetProfileSpec(o.db, email) == o.result
  {
    var o := UpdateProfileSpec(db, email, req);
    var id := UserIdByEmail(db.users, email).value;
    ReplaceUserKeepsValid(db, id, UpdatedUser(db.users[id], req));
    UserIdByEmailUnique(o.db.users, email, id);
  }

  /** Submitting the same update twice stores what submitting it once
      stores: the trimmed values are already trimmed. */
  lemma UpdateIdempotent(db: Db, email: string, req: ProfileUpdate)
    requires Valid(db)
    requires UpdateProfileSpec(db, email, req).result.Ok?
    ensures var o := UpdateProfileSpec(db, email, req);
      UpdateProfileSpec(o.db, email, req) == o
  {
    var o := UpdateProfileSpec(db, email, req);
    var id := UserIdByEmail(db.users, email).value;
    ReplaceUserKeepsValid(db, id, UpdatedUser(db.users[id], req));
    UserIdByEmailUnique(o.db.users, email, id);
    assert o.db.users[id := UpdatedUser(o.db.users[id], req)] == o.db.users;
  }

  /** An update keeps the e-mail, so e-mails stay unique. */
  lemma UpdateProfileKeepsValid(db: Db, email: string, req: ProfileUpdate)
    requires Valid(db)
    ensures Valid(UpdateProfileSpec(db, email, req).db)
  {
  }

  /** An update keeps the workflow facts: no role changes. */
  lemma UpdateProfileKeepsWorkflow(db: Db, email: string, req: ProfileUpdate)
    requires Workflow(db)
    ensures Workflow(UpdateProfileSpec(db, email, req).db)
  {
    var o := UpdateProfileSpec(db, email, req);
    if o.result.Ok? {
      forall id | id in o.db.appointments
        ensures StaffAssignee(o.db.users, o.db.appointments[id].assigneeId)
      {
        assert StaffAssignee(db.users, db.appointments[id].assigneeId);
      }
      forall id | id in o.db.projects
        ensures StaffAssignee(o.db.users, o.db.projects[id].assigneeId)
      {
        assert StaffAssignee(db.users, db.projects[id].assigneeId);
      }
    }
  }
}
