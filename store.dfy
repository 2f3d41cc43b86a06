/**
 * The repositories as one mutable store: each table a map the services
 * update in place, the identity generator, and the mail outbox counter.
 */
module Storage {
  import opened Wrappers
  import opened Domain

  class Store {
    var users: map<Id, User>
    var vehicles: map<Id, Vehicle>
    var services: map<Id, CatalogService>
    var appointments: map<Id, Appointment>
    var projects: map<Id, Project>
    var timeLogs: map<Id, TimeLog>
    var nextId: Id
    var emailsSent: nat

    /** The tables as one immutable value. */
    function Snapshot(): Db
      reads this
    {
      Db(users, vehicles, services, appointments, projects, timeLogs, nextId, emailsSent)
    }

    constructor (db: Db)
      ensures Snapshot() == db
    {
      users, vehicles, services := db.users, db.vehicles, db.services;
      appointments, projects, timeLogs := db.appointments, db.projects, db.timeLogs;
      nextId, emailsSent := db.nextId, db.emailsSent;
    }

    /** `userRepository.findByEmail`: a scan of the user table in key order. */
    method FindUserByEmail(email: string) returns (r: Option<Id>)
      requires UniqueEmails(users) && KeysBelow(users.Keys, nextId)
      ensures r == UserIdByEmail(users, email)
      ensures r.Some? ==> r.value in users && users[r.value].email == email
      ensures r.None? ==> forall id | id in users :: users[id].email != email
    {
      var k := 0;
      while k < nextId
        invariant 0 <= k <= if nextId < 0 then 0 else nextId
        invariant forall id | id in users && id < k :: users[id].email != email
      {
        if k in users && users[k].email == email {
          UserIdByEmailUnique(users, email, k);
          return Some(k);
        }
        k := k + 1;
      }
      r := None;
    }

    /** The next generated primary key. */
    method NewId() returns (id: Id)
      modifies this`nextId
      ensures id == old(nextId) && nextId == id + 1
    {
      id := nextId;
      nextId := nextId + 1;
    }
  }
}
