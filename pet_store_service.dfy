/**
 * The pet-store service: find-or-create, validate and link rules for stores,
 * employees and customers.
 *
 * The three persistence repositories become three maps keyed by identifier,
 * and the identifiers the persistence layer assigns on first save come from
 * the counter `nextId`. Every failure is detected before anything is written,
 * so a failed operation leaves the state exactly as it was.
 */
module Service {
  import opened Entities
  import opened Links
  import opened CustomerDataModel
  import opened EmployeeDataModel

  datatype EntityKind = PetStoreKind | EmployeeKind | CustomerKind

  datatype ServiceError =
      /** "... with ID=... does not exist." */
    | NotFound(kind: EntityKind, id: Id)
      /** "Employee with ID=... does not work at the pet store with ID=..." */
    | NotAtStore(employeeId: Id, petStoreId: Id)
      /** "Customer with ID=... is not a patron of the pet store with ID=..." */
    | NotPatron(customerId: Id, petStoreId: Id)

  datatype Result<T> = Ok(value: T) | Err(error: ServiceError)

  /**
   * What is known of the identifier comparison the employee check uses: it
   * compares two boxed `Long`s by reference, so a positive answer means the
   * values are equal, but equal values need not give a positive answer.
   */
  ghost predicate ImpliesValueEquality(sameId: (Id, Id) -> bool)
  {
    forall a, b :: sameId(a, b) ==> a == b
  }

  /**
   * Reference comparison of two separately boxed `Long`s: `Long.valueOf`
   * shares one object per value only for -128..127.
   */
  function SeparatelyBoxedSame(a: Id, b: Id): bool
  {
    a == b && -128 <= a <= 127
  }

  /**
   * A comparison admitted by `ImpliesValueEquality` may reject equal
   * identifiers: "equal identifiers imply the check passes" does not follow.
   */
  lemma EqualIdsMayBeRejected()
    ensures ImpliesValueEquality(SeparatelyBoxedSame)
    ensures !SeparatelyBoxedSame(128, 128)
  {
  }

  /** Overwrites the identifier and the six scalar fields from the request. */
  function CopyPetStoreFields(s: PetStore, d: PetStoreData): (r: PetStore)
    ensures r.petStoreId == d.petStoreId && ScalarsMatch(r, d)
    ensures r.employees == s.employees && r.customers == s.customers
  {
    s.(petStoreId := d.petStoreId, petStoreName := d.petStoreName,
       petStoreAddress := d.petStoreAddress, petStoreCity := d.petStoreCity,
       petStoreState := d.petStoreState, petStoreZip := d.petStoreZip,
       petStorePhone := d.petStorePhone)
  }

  /** The four employee fields a save overwrites agree between `e` and `d`. */
  predicate EmployeeFieldsMatch(e: Employee, d: EmployeeData)
  {
    && e.employeeFirstName == d.employeeFirstName
    && e.employeeLastName == d.employeeLastName
    && e.employeeJobTitle == d.employeeJobTitle
    && e.employeePhone == d.employeePhone
  }

  /** Overwrites names, job title and phone; the identifier and store are kept. */
  function SetEmployeeFields(e: Employee, d: EmployeeData): (r: Employee)
    ensures EmployeeFieldsMatch(r, d)
    ensures r.employeeId == e.employeeId && r.petStore == e.petStore
  {
    e.(employeeFirstName := d.employeeFirstName, employeeLastName := d.employeeLastName,
       employeeJobTitle := d.employeeJobTitle, employeePhone := d.employeePhone)
  }

  /** The three customer fields a save overwrites agree between `c` and `d`. */
  predicate CustomerFieldsMatch(c: Customer, d: CustomerData)
  {
    && c.customerFirstName == d.customerFirstName
    && c.customerLastName == d.customerLastName
    && c.customerEmail == d.customerEmail
  }

  /** Overwrites names and email; the identifier and stores are kept. */
  function SetCustomerFields(c: Customer, d: CustomerData): (r: Customer)
    ensures CustomerFieldsMatch(r, d)
    ensures r.customerId == c.customerId && r.petStores == c.petStores
  {
    c.(customerFirstName := d.customerFirstName, customerLastName := d.customerLastName,
       customerEmail := d.customerEmail)
  }

  /** The list view of a store: its full record with both relation lists cleared. */
  function ListView(s: PetStore): (d: PetStoreData)
    ensures d.petStoreId == s.petStoreId && ScalarsMatch(s, d)
    ensures d.employees == {} && d.customers == {}
  {
    var psd := PetStoreDataOf(s);
    psd.(customers := {}, employees := {})
  }

  class PetStoreService {
    var stores: map<Id, PetStore>
    var employees: map<Id, Employee>
    var customers: map<Id, Customer>
    /** The next identifier the persistence layer hands out. */
    var nextId: Id
    /** The identifier comparison of the employee check. */
    const sameId: (Id, Id) -> bool

    ghost function Snapshot(): Tables
      reads this
    {
      Tables(stores, employees, customers)
    }

    ghost predicate Valid()
      reads this
    {
      && Invariant(Snapshot(), nextId)
      && ImpliesValueEquality(sameId)
    }

    constructor (sameId: (Id, Id) -> bool)
      requires ImpliesValueEquality(sameId)
      ensures Valid()
      ensures stores == map[] && employees == map[] && customers == map[]
      ensures this.sameId == sameId
      ensures nextId == 1
    {
      stores, employees, customers := map[], map[], map[];
      nextId := 1;
      this.sameId := sameId;
    }

    /**
     * The employee's store passes the identifier check against `petStoreId`.
     * Passing requires a store, and under a comparison that implies value
     * equality it means the store is `petStoreId`.
     */
    predicate WorksAt(e: Employee, petStoreId: Id): (r: bool)
      ensures r ==> e.petStore.Some?
      ensures r && ImpliesValueEquality(sameId) ==> e.petStore == Some(petStoreId)
    {
      match e.petStore
      case None => false
      case Some(store) => sameId(store, petStoreId)
    }

    method FindPetStoreById(petStoreId: Id) returns (r: Result<PetStore>)
      ensures petStoreId in stores ==> r == Ok(stores[petStoreId])
      ensures petStoreId !in stores ==> r == Err(NotFound(PetStoreKind, petStoreId))
    {
      if petStoreId in stores {
        r := Ok(stores[petStoreId]);
      } else {
        r := Err(NotFound(PetStoreKind, petStoreId));
      }
    }

    /** A missing identifier asks for a new store; otherwise the store must exist. */
    method FindOrCreatePetStore(petStoreId: Option<Id>) returns (r: Result<PetStore>)
      ensures petStoreId.None? ==> r == Ok(NewPetStore())
      ensures petStoreId.Some? && petStoreId.value in stores ==> r == Ok(stores[petStoreId.value])
      ensures petStoreId.Some? && petStoreId.value !in stores ==> r == Err(NotFound(PetStoreKind, petStoreId.value))
    {
      if petStoreId.None? {
        r := Ok(NewPetStore());
      } else {
        r := FindPetStoreById(petStoreId.value);
      }
    }

    /**
     * The employee must exist and pass the identifier check. A found employee
     * therefore works at `petStoreId`, and one that works elsewhere is refused.
     */
    method FindEmployeeById(petStoreId: Id, employeeId: Id) returns (r: Result<Employee>)
      requires Valid()
      ensures employeeId !in employees ==> r == Err(NotFound(EmployeeKind, employeeId))
      ensures employeeId in employees && WorksAt(employees[employeeId], petStoreId) ==> r == Ok(employees[employeeId])
      ensures employeeId in employees && !WorksAt(employees[employeeId], petStoreId) ==> r == Err(NotAtStore(employeeId, petStoreId))
      ensures r.Ok? ==> r.value.petStore == Some(petStoreId)
      ensures employeeId in employees && employees[employeeId].petStore != Some(petStoreId) ==> r.Err?
      // every stored employee has a store, so the comparison never meets a missing one
      ensures employeeId in employees ==> employees[employeeId].petStore.Some?
    {
      if employeeId !in employees {
        r := Err(NotFound(EmployeeKind, employeeId));
        return;
      }
      var employee := employees[employeeId];
      if WorksAt(employee, petStoreId) {
        assert sameId(employee.petStore.value, petStoreId);
        r := Ok(employee);
      } else {
        r := Err(NotAtStore(employeeId, petStoreId));
      }
    }

    method FindOrCreateEmployee(petStoreId: Id, employeeId: Option<Id>) returns (r: Result<Employee>)
      requires Valid()
      ensures employeeId.None? ==> r == Ok(NewEmployee())
      ensures employeeId.Some? && employeeId.value !in employees ==> r == Err(NotFound(EmployeeKind, employeeId.value))
      ensures employeeId.Some? && employeeId.value in employees && WorksAt(employees[employeeId.value], petStoreId) ==>
                r == Ok(employees[employeeId.value])
      ensures employeeId.Some? && employeeId.value in employees && !WorksAt(employees[employeeId.value], petStoreId) ==>
                r == Err(NotAtStore(employeeId.value, petStoreId))
      ensures r.Ok? && employeeId.Some? ==> r.value.petStore == Some(petStoreId)
    {
      if employeeId.None? {
        r := Ok(NewEmployee());
      } else {
        r := FindEmployeeById(petStoreId, employeeId.value);
      }
    }

    /**
     * The customer must exist and list `petStoreId` among its stores, which
     * are scanned one by one comparing identifiers by value.
     */
    method FindCustomerById(petStoreId: Id, customerId: Id) returns (r: Result<Customer>)
      ensures customerId !in customers ==> r == Err(NotFound(CustomerKind, customerId))
      ensures customerId in customers && petStoreId in customers[customerId].petStores ==> r == Ok(customers[customerId])
      ensures customerId in customers && petStoreId !in customers[customerId].petStores ==>
                r == Err(NotPatron(customerId, petStoreId))
    {
      if customerId !in customers {
        r := Err(NotFound(CustomerKind, customerId));
        return;
      }
      var customer := customers[customerId];
      var petStoreFound := false;
      var remaining := customer.petStores;
      while remaining != {}
        invariant remaining <= customer.petStores
        invariant petStoreFound <==> petStoreId in customer.petStores - remaining
        decreases |remaining|
      {
        NonEmptyHasElement(remaining);
        var s :| s in remaining;
        if s == petStoreId {
          petStoreFound := true;
        }
        remaining := remaining - {s};
      }
      if petStoreFound {
        r := Ok(customer);
      } else {
        r := Err(NotPatron(customerId, petStoreId));
      }
    }

    method FindOrCreateCustomer(petStoreId: Id, customerId: Option<Id>) returns (r: Result<Customer>)
      ensures customerId.None? ==> r == Ok(NewCustomer())
      ensures customerId.Some? && customerId.value !in customers ==> r == Err(NotFound(CustomerKind, customerId.value))
      ensures customerId.Some? && customerId.value in customers && petStoreId in customers[customerId.value].petStores ==>
                r == Ok(customers[customerId.value])
      ensures customerId.Some? && customerId.value in customers && petStoreId !in customers[customerId.value].petStores ==>
                r == Err(NotPatron(customerId.value, petStoreId))
    {
      if customerId.None? {
        r := Ok(NewCustomer());
      } else {
        r := FindCustomerById(petStoreId, customerId.value);
      }
    }

    /**
     * Create (no identifier) or update (existing identifier) a store. An update
     * overwrites the scalar fields and keeps the store's relations; a new store
     * gets a fresh identifier and no relations.
     */
    method SavePetStore(data: PetStoreData) returns (r: Result<PetStoreData>)
      requires Valid()
      modifies this
      ensures Valid()
      ensures employees == old(employees) && customers == old(customers)
      ensures r.Ok? <==> data.petStoreId.None? || data.petStoreId.value in old(stores)
      ensures r.Err? ==> r.error == NotFound(PetStoreKind, data.petStoreId.value)
      ensures r.Err? ==> stores == old(stores) && nextId == old(nextId)
      ensures r.Ok? ==>
        var id := if data.petStoreId.Some? then data.petStoreId.value else old(nextId);
        && (data.petStoreId.None? ==> id !in old(stores))
        && stores.Keys == old(stores).Keys + {id}
        && (forall k :: k in old(stores) && k != id ==> stores[k] == old(stores)[k])
        && stores[id].petStoreId == Some(id)
        && ScalarsMatch(stores[id], data)
        && stores[id].employees == (if id in old(stores) then old(stores)[id].employees else {})
        && stores[id].customers == (if id in old(stores) then old(stores)[id].customers else {})
        && r.value == PetStoreDataOf(stores[id])
        && nextId == old(nextId) + (if data.petStoreId.None? then 1 else 0)
    {
      var found := FindOrCreatePetStore(data.petStoreId);
      if found.Err? {
        r := Err(found.error);
        return;
      }
      var petStore := CopyPetStoreFields(found.value, data);
      ghost var before := Snapshot();
      // Saving a store without an identifier assigns the next one.
      if petStore.petStoreId.None? {
        petStore := petStore.(petStoreId := Some(nextId));
        nextId := nextId + 1;
      }
      var id := petStore.petStoreId.value;
      IdsBelowGrows(before, old(nextId), nextId);
      PutPetStoreKeepsInvariant(before, nextId, id, petStore);
      stores := stores[id := petStore];
      assert Snapshot() == PutPetStore(before, id, petStore);
      r := Ok(PetStoreDataOf(petStore));
    }

    /**
     * Every stored store as the persistence layer enumerates it: each exactly
     * once, in an order this model leaves open.
     */
    method FindAll() returns (all: seq<PetStore>)
      requires Valid()
      ensures |all| == |stores|
      ensures forall i :: 0 <= i < |all| ==>
                all[i].petStoreId.Some? && all[i].petStoreId.value in stores && stores[all[i].petStoreId.value] == all[i]
      ensures forall i, j :: 0 <= i < j < |all| ==> all[i].petStoreId != all[j].petStoreId
      ensures forall k :: k in stores ==> exists i :: 0 <= i < |all| && all[i].petStoreId == Some(k)
    {
      all := [];
      var remaining := stores.Keys;
      while remaining != {}
        invariant remaining <= stores.Keys
        invariant |all| + |remaining| == |stores|
        invariant forall i :: 0 <= i < |all| ==>
                    all[i].petStoreId.Some? && all[i].petStoreId.value in stores - remaining
                    && stores[all[i].petStoreId.value] == all[i]
        invariant forall i, j :: 0 <= i < j < |all| ==> all[i].petStoreId != all[j].petStoreId
        invariant forall k :: k in stores && k !in remaining ==> exists i :: 0 <= i < |all| && all[i].petStoreId == Some(k)
        decreases |remaining|
      {
        NonEmptyHasElement(remaining);
        var k :| k in remaining;
        ghost var prev := all;
        all := all + [stores[k]];
        remaining := remaining - {k};
        assert forall i :: 0 <= i < |prev| ==> all[i] == prev[i];
        assert all[|prev|].petStoreId == Some(k);
      }
    }

    /**
     * One list view per stored store: scalar fields only, with empty employee
     * and customer lists.
     */
    method RetrieveAllPetStores() returns (response: seq<PetStoreData>)
      requires Valid()
      ensures |response| == |stores|
      ensures forall i :: 0 <= i < |response| ==> response[i].employees == {} && response[i].customers == {}
      ensures forall i :: 0 <= i < |response| ==>
                response[i].petStoreId.Some? && response[i].petStoreId.value in stores
                && response[i] == ListView(stores[response[i].petStoreId.value])
      ensures forall i, j :: 0 <= i < j < |response| ==> response[i].petStoreId != response[j].petStoreId
      ensures forall k :: k in stores ==> exists i :: 0 <= i < |response| && response[i].petStoreId == Some(k)
    {
      var petStores := FindAll();
      response := [];
      for i := 0 to |petStores|
        invariant |response| == i
        invariant forall k :: 0 <= k < i ==> response[k] == ListView(petStores[k])
      {
        var psd := PetStoreDataOf(petStores[i]);
        psd := psd.(customers := {});
        psd := psd.(employees := {});
        response := response + [psd];
      }
    }

    /** Remove an existing store entry; an unknown identifier changes nothing. */
    method DeletePetStoreById(petStoreId: Id) returns (r: Result<()>)
      requires Valid()
      modifies this
      ensures Valid()
      ensures r.Ok? <==> petStoreId in old(stores)
      ensures r.Err? ==> r.error == NotFound(PetStoreKind, petStoreId) && stores == old(stores)
      ensures r.Ok? ==> stores == old(stores) - {petStoreId}
      ensures employees == old(employees) && customers == old(customers) && nextId == old(nextId)
    {
      var found := FindPetStoreById(petStoreId);
      if found.Err? {
        r := Err(found.error);
        return;
      }
      ghost var before := Snapshot();
      stores := stores - {petStoreId};
      RemovePetStoreKeepsInvariant(before, nextId, petStoreId);
      assert Snapshot() == RemovePetStore(before, petStoreId);
      r := Ok(());
    }

    /**
     * Create or update an employee of store `petStoreId`. The store is looked
     * up first, then the employee; an existing employee must pass the store
     * check. On success the fields come from the request, the employee names
     * the store and the store lists the employee.
     */
    method SaveEmployee(petStoreId: Id, data: EmployeeData) returns (r: Result<EmployeeData>)
      requires Valid()
      modifies this
      ensures Valid()
      ensures customers == old(customers)
      ensures petStoreId !in old(stores) ==> r == Err(NotFound(PetStoreKind, petStoreId))
      ensures petStoreId in old(stores) && data.employeeId.Some? && data.employeeId.value !in old(employees) ==>
                r == Err(NotFound(EmployeeKind, data.employeeId.value))
      ensures (petStoreId in old(stores) && data.employeeId.Some? && data.employeeId.value in old(employees)
               && !WorksAt(old(employees)[data.employeeId.value], petStoreId)) ==>
                r == Err(NotAtStore(data.employeeId.value, petStoreId))
      ensures r.Ok? <==>
                (petStoreId in old(stores) &&
                 (data.employeeId.None? ||
                  (data.employeeId.value in old(employees) && WorksAt(old(employees)[data.employeeId.value], petStoreId))))
      // an employee whose store differs is refused, so nobody is ever moved
      ensures (data.employeeId.Some? && data.employeeId.value in old(employees)
               && old(employees)[data.employeeId.value].petStore != Some(petStoreId)) ==> r.Err?
      ensures r.Err? ==> stores == old(stores) && employees == old(employees) && nextId == old(nextId)
      ensures r.Ok? ==>
        var eid := if data.employeeId.Some? then data.employeeId.value else old(nextId);
        && (data.employeeId.None? ==> eid !in old(employees))
        && (data.employeeId.Some? ==> old(employees)[eid].petStore == Some(petStoreId))
        && employees.Keys == old(employees).Keys + {eid}
        && (forall k :: k in old(employees) && k != eid ==> employees[k] == old(employees)[k])
        && employees[eid].employeeId == Some(eid)
        && EmployeeFieldsMatch(employees[eid], data)
        && employees[eid].petStore == Some(petStoreId)
        && stores.Keys == old(stores).Keys
        && (forall k :: k in old(stores) && k != petStoreId ==> stores[k] == old(stores)[k])
        && stores[petStoreId] == old(stores)[petStoreId].(employees := old(stores)[petStoreId].employees + {eid})
        && (data.employeeId.Some? ==> stores == old(stores))
        && r.value == FromEmployee(employees[eid])
        && nextId == old(nextId) + (if data.employeeId.None? then 1 else 0)
    {
      var found := FindPetStoreById(petStoreId);
      if found.Err? {
        r := Err(found.error);
        return;
      }
      var petStore := found.value;
      var lookup := FindOrCreateEmployee(petStoreId, data.employeeId);
      if lookup.Err? {
        r := Err(lookup.error);
        return;
      }
      var employee := SetEmployeeFields(lookup.value, data);
      ghost var before := Snapshot();
      // Saving an employee without an identifier assigns the next one.
      if employee.employeeId.None? {
        employee := employee.(employeeId := Some(nextId));
        nextId := nextId + 1;
        IdsBelowGrows(before, nextId - 1, nextId);
      }
      var eid := employee.employeeId.value;
      employee := employee.(petStore := Some(petStoreId));
      LinkEmployeeKeepsInvariant(before, nextId, petStoreId, employee);
      employees := employees[eid := employee];
      stores := stores[petStoreId := petStore.(employees := petStore.employees + {eid})];
      assert Snapshot() == LinkEmployee(before, petStoreId, employee);
      r := Ok(FromEmployee(employee));
    }

    /**
     * The stores of a customer as the persistence layer loads them: each
     * identifier that still names a stored store, once.
     */
    method LoadPetStores(ids: set<Id>) returns (loaded: seq<PetStore>)
      ensures forall s :: s in loaded ==> exists k :: k in ids && k in stores && stores[k] == s
      ensures forall k :: k in ids && k in stores ==> stores[k] in loaded
      ensures |loaded| <= |ids|
    {
      loaded := [];
      var remaining := ids;
      while remaining != {}
        invariant remaining <= ids
        invariant |loaded| + |remaining| <= |ids|
        invariant forall s :: s in loaded ==> exists k :: k in ids && k in stores && stores[k] == s
        invariant forall k :: k in ids - remaining && k in stores ==> stores[k] in loaded
        decreases |remaining|
      {
        NonEmptyHasElement(remaining);
        var k :| k in remaining;
        if k in stores {
          loaded := loaded + [stores[k]];
        }
        remaining := remaining - {k};
      }
    }

    /**
     * The customer record returned for `c`: its scalar fields and one summary
     * per store it lists that exists.
     */
    method CustomerDataOf(c: Customer) returns (d: CustomerData)
      ensures d.customerId == c.customerId
      ensures d.customerFirstName == c.customerFirstName
      ensures d.customerLastName == c.customerLastName
      ensures d.customerEmail == c.customerEmail
      ensures forall s :: s in c.petStores && s in stores ==> ResponseOf(stores[s]) in d.petStores
      ensures forall x :: x in d.petStores ==> exists s :: s in c.petStores && s in stores && x == ResponseOf(stores[s])
      ensures |d.petStores| <= |c.petStores|
    {
      var loaded := LoadPetStores(c.petStores);
      d := FromCustomer(c, loaded);
    }

    /**
     * Create or update a customer of store `petStoreId`. The store is looked
     * up first, then the customer; an existing customer must already be a
     * patron of the store. On success the fields come from the request and
     * the store is added to the customer's stores and the customer to the
     * store's customers.
     */
    method SaveCustomer(petStoreId: Id, data: CustomerData) returns (r: Result<CustomerData>)
      requires Valid()
      modifies this
      ensures Valid()
      ensures employees == old(employees)
      ensures petStoreId !in old(stores) ==> r == Err(NotFound(PetStoreKind, petStoreId))
      ensures petStoreId in old(stores) && data.customerId.Some? && data.customerId.value !in old(customers) ==>
                r == Err(NotFound(CustomerKind, data.customerId.value))
      ensures (petStoreId in old(stores) && data.customerId.Some? && data.customerId.value in old(customers)
               && petStoreId !in old(customers)[data.customerId.value].petStores) ==>
                r == Err(NotPatron(data.customerId.value, petStoreId))
      ensures r.Ok? <==>
                (petStoreId in old(stores) &&
                 (data.customerId.None? ||
                  (data.customerId.value in old(customers) && petStoreId in old(customers)[data.customerId.value].petStores)))
      ensures r.Err? ==> stores == old(stores) && customers == old(customers) && nextId == old(nextId)
      ensures r.Ok? ==>
        var cid := if data.customerId.Some? then data.customerId.value else old(nextId);
        && (data.customerId.None? ==> cid !in old(customers))
        && customers.Keys == old(customers).Keys + {cid}
        && (forall k :: k in old(customers) && k != cid ==> customers[k] == old(customers)[k])
        && customers[cid].customerId == Some(cid)
        && CustomerFieldsMatch(customers[cid], data)
        && customers[cid].petStores == (if cid in old(customers) then old(customers)[cid].petStores else {}) + {petStoreId}
        && stores.Keys == old(stores).Keys
        && (forall k :: k in old(stores) && k != petStoreId ==> stores[k] == old(stores)[k])
        && stores[petStoreId] == old(stores)[petStoreId].(customers := old(stores)[petStoreId].customers + {cid})
        && (data.customerId.Some? ==> stores == old(stores) && customers[cid].petStores == old(customers)[cid].petStores)
        && r.value.customerId == Some(cid)
        && r.value.customerFirstName == data.customerFirstName
        && r.value.customerLastName == data.customerLastName
        && r.value.customerEmail == data.customerEmail
        && (forall s :: s in customers[cid].petStores && s in stores ==> ResponseOf(stores[s]) in r.value.petStores)
        && (forall x :: x in r.value.petStores ==>
              exists s :: s in customers[cid].petStores && s in stores && x == ResponseOf(stores[s]))
        && nextId == old(nextId) + (if data.customerId.None? then 1 else 0)
    {
      var found := FindPetStoreById(petStoreId);
      if found.Err? {
        r := Err(found.error);
        return;
      }
      var petStore := found.value;
      var lookup := FindOrCreateCustomer(petStoreId, data.customerId);
      if lookup.Err? {
        r := Err(lookup.error);
        return;
      }
      var customer := SetCustomerFields(lookup.value, data);
      ghost var before := Snapshot();
      // Saving a customer without an identifier assigns the next one.
      if customer.customerId.None? {
        customer := customer.(customerId := Some(nextId));
        nextId := nextId + 1;
        IdsBelowGrows(before, nextId - 1, nextId);
      }
      var cid := customer.customerId.value;
      if data.customerId.Some? {
        assert lookup.value == before.customers[data.customerId.value];
        assert cid == data.customerId.value && cid in before.customers;
        LinkPatronChangesNoRelation(before, petStoreId, customer);
      } else {
        assert cid !in before.customers && customer.petStores == {};
      }
      LinkCustomerKeepsInvariant(before, nextId, petStoreId, customer);
      ghost var linked := LinkCustomer(before, petStoreId, customer);
      customer := customer.(petStores := customer.petStores + {petStoreId});
      customers := customers[cid := customer];
      stores := stores[petStoreId := petStore.(customers := petStore.customers + {cid})];
      assert Snapshot() == linked;
      var d := CustomerDataOf(customer);
      r := Ok(d);
    }
  }
}
