/**
 * The service catalog: adding a service under a fresh name, and listing
 * every service ordered by name.
 */
module TaskService {
  import opened Wrappers
  import opened Domain
  import opened Storage

  /** The `ServiceDTO` an admin submits. */
  datatype ServiceRequest = ServiceRequest(
    name: string, description: string, basePrice: int, durationMinutes: int, category: string)

  /** The `ServiceResponseDTO` of one catalog entry. */
  datatype ServiceResponse = ServiceResponse(
    id: Id, name: string, description: string, basePrice: int, durationMinutes: int, category: string)

  // --------------------------------------------------------------- adding

  predicate NameTaken(services: map<Id, CatalogService>, name: string) {
    exists id | id in services :: services[id].name == name
  }

  /** No two catalog entries share a name. */
  ghost predicate UniqueNames(services: map<Id, CatalogService>) {
    forall a, b | a in services && b in services && services[a].name == services[b].name :: a == b
  }

  /** The entry `newServiceAdd` saves: the request's fields, and active. */
  function NewService(req: ServiceRequest): (s: CatalogService)
    ensures s.name == req.name && s.description == req.description && s.basePrice == req.basePrice
    ensures s.durationMinutes == req.durationMinutes && s.category == req.category && s.isActive
  {
    CatalogService(req.name, req.description, req.basePrice, req.durationMinutes, req.category, true)
  }

  /** `newServiceAdd`: a taken name is a duplicate; otherwise the catalog
      gains exactly the new entry under a fresh key. */
  ghost function AddServiceSpec(db: Db, req: ServiceRequest): (o: Outcome<()>)
    requires IdsIssued(db)
    ensures o.result.Err? <==> NameTaken(db.services, req.name)
    ensures o.result.Err? ==>
      o.db == db && o.result.failure == Failure(Duplicate, "Service name already exists: " + req.name)
    ensures o.result.Ok? ==>
      db.nextId !in db.services
      && o.db == db.(services := db.services[db.nextId := NewService(req)], nextId := db.nextId + 1)
      && |o.db.services| == |db.services| + 1
  {
    if NameTaken(db.services, req.name) then
      Outcome(Err(Failure(Duplicate, "Service name already exists: " + req.name)), db)
    else
      assert db.nextId !in db.services;
      Outcome(Ok(()), db.(services := db.services[db.nextId := NewService(req)], nextId := db.nextId + 1))
  }

  /** `existsByServiceName`: a scan of the catalog. */
  method ExistsByServiceName(store: Store, name: string) returns (b: bool)
    requires IdsIssued(store.Snapshot())
    ensures b <==> NameTaken(store.services, name)
  {
    var k := 0;
    while k < store.nextId
      invariant 0 <= k <= store.nextId
      invariant forall id | id in store.services && id < k :: store.services[id].name != name
    {
      if k in store.services && store.services[k].name == name {
        return true;
      }
      k := k + 1;
    }
    b := false;
  }

  method NewServiceAdd(store: Store, req: ServiceRequest) returns (r: Result<()>)
    requires IdsIssued(store.Snapshot())
    modifies store
    ensures Outcome(r, store.Snapshot()) == AddServiceSpec(old(store.Snapshot()), req)
  {
    var taken := ExistsByServiceName(store, req.name);
    if taken {
      return Err(Failure(Duplicate, "Service name already exists: " + req.name));
    }
    var service := CatalogService(req.name, "", 0, 0, "", true);
    service := service.(description := req.description, basePrice := req.basePrice);
    service := service.(durationMinutes := req.durationMinutes, category := req.category);
    var id := store.NewId();
    store.services := store.services[id := service];
    r := Ok(());
  }

  /** Adding keeps the catalog's names distinct and the keys issued. */
  lemma AddKeepsUniqueNames(db: Db, req: ServiceRequest)
    requires IdsIssued(db) && UniqueNames(db.services)
    ensures IdsIssued(AddServiceSpec(db, req).db)
    ensures UniqueNames(AddServiceSpec(db, req).db.services)
  {
    var o := AddServiceSpec(db, req);
    if o.result.Ok? {
      var s := o.db.services;
      forall a, b | a in s && b in s && s[a].name == s[b].name ensures a == b {
        if a != db.nextId && b != db.nextId {
          assert db.services[a].name == db.services[b].name;
        } else if a != b {
          assert false;
        }
      }
    }
  }

  /** Adding a catalog service touches no user, appointment or project:
      the database constraints and the workflow facts still hold. */
  lemma AddKeepsInvariants(db: Db, req: ServiceRequest)
    requires Valid(db) && Workflow(db)
    ensures Valid(AddServiceSpec(db, req).db)
    ensures Workflow(AddServiceSpec(db, req).db)
  {
  }

  // -------------------------------------------------------------- listing

  /** Lexicographic order on names, character by character. */
  predicate NameLe(a: string, b: string) {
    a == [] || (b != [] && (a[0] < b[0] || (a[0] == b[0] && NameLe(a[1..], b[1..]))))
  }

  lemma {:induction false} NameLeTotal(a: string, b: string)
    ensures NameLe(a, b) || NameLe(b, a)
  {
    if a != [] && b != [] && a[0] == b[0] {
      NameLeTotal(a[1..], b[1..]);
    }
  }

  lemma {:induction false} NameLeTransitive(a: string, b: string, c: string)
    requires NameLe(a, b) && NameLe(b, c)
    ensures NameLe(a, c)
  {
    if a != [] && a[0] == b[0] && b[0] == c[0] {
      NameLeTransitive(a[1..], b[1..], c[1..]);
    }
  }

  /** Each entry's name is no greater than the next one's. */
  predicate ByName(r: seq<ServiceResponse>) {
    forall i | 0 <= i < |r| - 1 :: NameLe(r[i].name, r[i + 1].name)
  }

  /** A list ordered by neighbours is ordered between any two positions. */
  lemma {:induction false} ByNameEverywhere(r: seq<ServiceResponse>, i: nat, j: nat)
    requires ByName(r) && i <= j < |r|
    ensures NameLe(r[i].name, r[j].name)
    decreases j - i
  {
    if i == j {
      NameLeReflexive(r[i].name);
    } else {
      ByNameEverywhere(r, i + 1, j);
      NameLeTransitive(r[i].name, r[i + 1].name, r[j].name);
    }
  }

  lemma {:induction false} NameLeReflexive(a: string)
    ensures NameLe(a, a)
  {
    if a != [] {
      NameLeReflexive(a[1..]);
    }
  }

  function Ids(r: seq<ServiceResponse>): (ids: seq<Id>)
    ensures |ids| == |r| && forall i | 0 <= i < |r| :: ids[i] == r[i].id
  {
    if r == [] then [] else [r[0].id] + Ids(r[1..])
  }

  function ResponseOf(id: Id, s: CatalogService): ServiceResponse {
    ServiceResponse(id, s.name, s.description, s.basePrice, s.durationMinutes, s.category)
  }

  /** Puts `x` into an ordered list before the first entry whose name is
      not smaller. */
  function Insert(r: seq<ServiceResponse>, x: ServiceResponse): (t: seq<ServiceResponse>)
    requires ByName(r)
    ensures ByName(t)
    ensures |t| == |r| + 1 && (t[0] == x || (r != [] && t[0] == r[0]))
  {
    if r == [] then [x]
    else if NameLe(x.name, r[0].name) then [x] + r
    else
      NameLeTotal(x.name, r[0].name);
      [r[0]] + Insert(r[1..], x)
  }

  /** Inserting adds exactly `x` to the entries. */
  lemma {:induction false} InsertAdds(r: seq<ServiceResponse>, x: ServiceResponse)
    requires ByName(r)
    ensures multiset(Insert(r, x)) == multiset(r) + multiset{x}
  {
    if r != [] && !NameLe(x.name, r[0].name) {
      InsertAdds(r[1..], x);
      assert r == [r[0]] + r[1..];
    }
  }

  /** Inserting adds the key of `x` to the keys. */
  lemma {:induction false} InsertAddsId(r: seq<ServiceResponse>, x: ServiceResponse)
    requires ByName(r)
    ensures multiset(Ids(Insert(r, x))) == multiset(Ids(r)) + multiset{x.id}
  {
    if r == [] {
      assert Ids([x]) == [x.id];
    } else if NameLe(x.name, r[0].name) {
      assert Ids([x] + r) == [x.id] + Ids(r);
    } else {
      var rest := Insert(r[1..], x);
      InsertAddsId(r[1..], x);
      assert Ids(r) == [r[0].id] + Ids(r[1..]);
      assert Ids([r[0]] + rest) == [r[0].id] + Ids(rest);
    }
  }

  /** Strictly increasing keys hold each key once. */
  lemma {:induction false} IncreasingOnce(ids: seq<Id>, id: Id)
    requires forall i, j | 0 <= i < j < |ids| :: ids[i] < ids[j]
    requires id in ids
    ensures multiset(ids)[id] == 1
  {
    assert ids == [ids[0]] + ids[1..];
    if ids[0] != id {
      IncreasingOnce(ids[1..], id);
    } else {
      assert id !in ids[1..];
    }
  }

  /** The catalog's keys in increasing order. */
  method ServiceKeys(store: Store) returns (ids: seq<Id>)
    requires IdsIssued(store.Snapshot())
    ensures forall id :: id in ids <==> id in store.services
    ensures forall i, j | 0 <= i < j < |ids| :: ids[i] < ids[j]
  {
    ids := [];
    var k := 0;
    while k < store.nextId
      invariant 0 <= k <= store.nextId
      invariant forall id :: id in ids <==> id in store.services && id < k
      invariant forall i | 0 <= i < |ids| :: ids[i] < k
      invariant forall i, j | 0 <= i < j < |ids| :: ids[i] < ids[j]
    {
      if k in store.services {
        ids := ids + [k];
      }
      k := k + 1;
    }
  }

  /** Every entry is the response of the catalog entry under its key. */
  predicate FromCatalog(r: seq<ServiceResponse>, services: map<Id, CatalogService>) {
    forall i | 0 <= i < |r| :: r[i].id in services && r[i] == ResponseOf(r[i].id, services[r[i].id])
  }

  /** `getAllServiceDetails`: one response per catalog entry, ordered by
      name. */
  method GetAllServiceDetails(store: Store) returns (r: seq<ServiceResponse>)
    requires IdsIssued(store.Snapshot())
    ensures ByName(r)
    ensures FromCatalog(r, store.services)
    ensures forall id | id in store.services :: multiset(Ids(r))[id] == 1
  {
    var ids := ServiceKeys(store);
    var services := store.services;
    r := [];
    var n := 0;
    while n < |ids|
      invariant 0 <= n <= |ids|
      invariant ByName(r)
      invariant multiset(Ids(r)) == multiset(ids[..n])
      invariant FromCatalog(r, services)
    {
      assert ids[n] in ids;
      InsertStep(r, ids, n, services);
      r := Insert(r, ResponseOf(ids[n], services[ids[n]]));
      n := n + 1;
    }
    assert ids[..n] == ids;
    OnceEach(r, ids, services);
  }

  /** One round of the listing loop: inserting the response for `ids[n]`
      keeps the list ordered and built from the catalog, and adds that key. */
  lemma InsertStep(r: seq<ServiceResponse>, ids: seq<Id>, n: nat, services: map<Id, CatalogService>)
    requires n < |ids| && ids[n] in services
    requires ByName(r) && FromCatalog(r, services) && multiset(Ids(r)) == multiset(ids[..n])
    ensures ByName(Insert(r, ResponseOf(ids[n], services[ids[n]])))
    ensures FromCatalog(Insert(r, ResponseOf(ids[n], services[ids[n]])), services)
    ensures multiset(Ids(Insert(r, ResponseOf(ids[n], services[ids[n]])))) == multiset(ids[..n + 1])
  {
    var x := ResponseOf(ids[n], services[ids[n]]);
    InsertAdds(r, x);
    InsertFromCatalog(r, x, services);
    InsertAddsId(r, x);
    PrefixGrows(ids, n);
  }

  /** One more element of the prefix adds it to the prefix's multiset. */
  lemma PrefixGrows(ids: seq<Id>, n: nat)
    requires n < |ids|
    ensures multiset(ids[..n + 1]) == multiset(ids[..n]) + multiset{ids[n]}
  {
    assert ids[..n + 1] == ids[..n] + [ids[n]];
  }

  /** A listing whose keys are the catalog's keys in increasing order lists
      each catalog entry once. */
  lemma OnceEach(r: seq<ServiceResponse>, ids: seq<Id>, services: map<Id, CatalogService>)
    requires multiset(Ids(r)) == multiset(ids)
    requires forall i, j | 0 <= i < j < |ids| :: ids[i] < ids[j]
    requires forall id :: id in ids <==> id in services
    ensures forall id | id in services :: multiset(Ids(r))[id] == 1
  {
    forall id | id in services ensures multiset(Ids(r))[id] == 1 {
      IncreasingOnce(ids, id);
    }
  }

  lemma InsertFromCatalog(r: seq<ServiceResponse>, x: ServiceResponse, services: map<Id, CatalogService>)
    requires ByName(r) && FromCatalog(r, services)
    requires x.id in services && x == ResponseOf(x.id, services[x.id])
    requires multiset(Insert(r, x)) == multiset(r) + multiset{x}
    ensures FromCatalog(Insert(r, x), services)
  {
    var t := Insert(r, x);
    forall i | 0 <= i < |t| ensures t[i].id in services && t[i] == ResponseOf(t[i].id, services[t[i].id]) {
      assert t[i] in multiset(t);
    }
  }
}
