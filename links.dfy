/**
 * The three tables the service works on and the two-sided relations between
 * them: employee <-> store (many-to-one) and customer <-> store (many-to-many).
 * Each side of a relation is its own collection, and the service keeps them in
 * step by updating both sides in the same operation.
 */
module Links {
  import opened Entities

  datatype Tables = Tables(
    stores: map<Id, PetStore>,
    employees: map<Id, Employee>,
    customers: map<Id, Customer>)

  /** Every stored entity carries the identifier it is stored under. */
  ghost predicate WellKeyed(t: Tables)
  {
    && (forall k :: k in t.stores ==> t.stores[k].petStoreId == Some(k))
    && (forall k :: k in t.employees ==> t.employees[k].employeeId == Some(k))
    && (forall k :: k in t.customers ==> t.customers[k].customerId == Some(k))
  }

  /**
   * Store-side view agrees with the employee-side view. A store's employees
   * exist and name that store; an employee whose store still exists is listed
   * by it. (Deleting a store leaves its former employees naming it; what the
   * persistence layer cascades is not part of this model.)
   */
  ghost predicate EmployeesLinked(t: Tables)
  {
    && (forall s, e :: s in t.stores && e in t.stores[s].employees ==>
          e in t.employees && t.employees[e].petStore == Some(s))
    && (forall e :: (e in t.employees && t.employees[e].petStore.Some? && t.employees[e].petStore.value in t.stores) ==>
          e in t.stores[t.employees[e].petStore.value].employees)
  }

  /**
   * Store-side view agrees with the customer-side view: a store's customers
   * exist and list the store; a customer is listed by every existing store it
   * lists.
   */
  ghost predicate CustomersLinked(t: Tables)
  {
    && (forall s, c :: s in t.stores && c in t.stores[s].customers ==>
          c in t.customers && s in t.customers[c].petStores)
    && (forall c, s :: c in t.customers && s in t.customers[c].petStores && s in t.stores ==>
          c in t.stores[s].customers)
  }

  ghost predicate Consistent(t: Tables)
  {
    EmployeesLinked(t) && CustomersLinked(t)
  }

  /**
   * Every identifier in use, as a key or as a reference, is below `bound`;
   * the persistence layer hands out identifiers from `bound` on.
   */
  ghost predicate IdsBelow(t: Tables, bound: Id)
  {
    && (forall k :: k in t.stores ==> k < bound)
    && (forall k :: k in t.employees ==> k < bound)
    && (forall k :: k in t.customers ==> k < bound)
    && (forall k :: k in t.employees && t.employees[k].petStore.Some? ==> t.employees[k].petStore.value < bound)
    && (forall k, s :: k in t.customers && s in t.customers[k].petStores ==> s < bound)
  }

  /** Every stored employee works at some store: the service never saves one without. */
  ghost predicate EmployeesPlaced(t: Tables)
  {
    forall k :: k in t.employees ==> t.employees[k].petStore.Some?
  }

  /** The invariant the service keeps, with `bound` the next identifier to hand out. */
  ghost predicate Invariant(t: Tables, bound: Id)
  {
    WellKeyed(t) && Consistent(t) && IdsBelow(t, bound) && EmployeesPlaced(t)
  }

  /** Write store `s` under `sid` (create or update the store row). */
  function PutPetStore(t: Tables, sid: Id, s: PetStore): (r: Tables)
    ensures r.stores.Keys == t.stores.Keys + {sid} && r.stores[sid] == s
    ensures forall k :: k in t.stores && k != sid ==> r.stores[k] == t.stores[k]
    ensures r.employees == t.employees && r.customers == t.customers
  {
    t.(stores := t.stores[sid := s])
  }

  /**
   * Attach employee `e` (already carrying its identifier) to store `sid`:
   * the employee names the store and the store lists the employee.
   */
  function LinkEmployee(t: Tables, sid: Id, e: Employee): (r: Tables)
    requires sid in t.stores && e.employeeId.Some?
    ensures r.customers == t.customers
    ensures r.stores.Keys == t.stores.Keys && r.employees.Keys == t.employees.Keys + {e.employeeId.value}
    ensures r.employees[e.employeeId.value] == e.(petStore := Some(sid))
    ensures forall k :: k in t.employees && k != e.employeeId.value ==> r.employees[k] == t.employees[k]
    ensures r.stores[sid] == t.stores[sid].(employees := t.stores[sid].employees + {e.employeeId.value})
    ensures forall k :: k in t.stores && k != sid ==> r.stores[k] == t.stores[k]
  {
    var eid := e.employeeId.value;
    var store := t.stores[sid];
    Tables(t.stores[sid := store.(employees := store.employees + {eid})],
           t.employees[eid := e.(petStore := Some(sid))],
           t.customers)
  }

  /**
   * Attach customer `c` (already carrying its identifier) to store `sid`:
   * the customer lists the store and the store lists the customer, both by
   * set insertion.
   */
  function LinkCustomer(t: Tables, sid: Id, c: Customer): (r: Tables)
    requires sid in t.stores && c.customerId.Some?
    ensures r.employees == t.employees
    ensures r.stores.Keys == t.stores.Keys && r.customers.Keys == t.customers.Keys + {c.customerId.value}
    ensures r.customers[c.customerId.value] == c.(petStores := c.petStores + {sid})
    ensures forall k :: k in t.customers && k != c.customerId.value ==> r.customers[k] == t.customers[k]
    ensures r.stores[sid] == t.stores[sid].(customers := t.stores[sid].customers + {c.customerId.value})
    ensures forall k :: k in t.stores && k != sid ==> r.stores[k] == t.stores[k]
  {
    var cid := c.customerId.value;
    var store := t.stores[sid];
    Tables(t.stores[sid := store.(customers := store.customers + {cid})],
           t.employees,
           t.customers[cid := c.(petStores := c.petStores + {sid})])
  }

  /** Remove the store entry and nothing else. */
  function RemovePetStore(t: Tables, sid: Id): (r: Tables)
    ensures r.stores.Keys == t.stores.Keys - {sid}
    ensures forall k :: k in r.stores ==> r.stores[k] == t.stores[k]
    ensures r.employees == t.employees && r.customers == t.customers
  {
    t.(stores := t.stores - {sid})
  }

  /** Handing out an identifier only raises the bound. */
  lemma IdsBelowGrows(t: Tables, bound: Id, bound': Id)
    requires IdsBelow(t, bound) && bound <= bound'
    ensures IdsBelow(t, bound')
  {
  }

  /**
   * Updating a store's scalar fields, or adding under a fresh identifier a
   * store without relations, keeps the invariant.
   */
  lemma PutPetStoreKeepsInvariant(t: Tables, bound: Id, sid: Id, s: PetStore)
    requires Invariant(t, bound) && sid < bound && s.petStoreId == Some(sid)
    requires sid in t.stores ==> s.employees == t.stores[sid].employees && s.customers == t.stores[sid].customers
    requires sid !in t.stores ==> s.employees == {} && s.customers == {}
    requires sid !in t.stores ==> forall k :: k in t.employees ==> t.employees[k].petStore != Some(sid)
    requires sid !in t.stores ==> forall k :: k in t.customers ==> sid !in t.customers[k].petStores
    ensures Invariant(PutPetStore(t, sid, s), bound)
  {
    var r := PutPetStore(t, sid, s);
    forall x | x in r.employees && r.employees[x].petStore.Some? && r.employees[x].petStore.value in r.stores
      ensures x in r.stores[r.employees[x].petStore.value].employees
    {
      assert r.employees[x] == t.employees[x];
    }
    forall x, y | x in r.customers && y in r.customers[x].petStores && y in r.stores
      ensures x in r.stores[y].customers
    {
      assert r.customers[x] == t.customers[x];
    }
    assert EmployeesLinked(r);
    assert CustomersLinked(r);
  }

  /**
   * Linking an employee keeps the invariant, provided the employee is new or
   * already works at `sid`, i.e. it is never moved. An employee that already
   * works there is already listed, so the stores stay as they were.
   */
  lemma LinkEmployeeKeepsInvariant(t: Tables, bound: Id, sid: Id, e: Employee)
    requires Invariant(t, bound)
    requires sid in t.stores && e.employeeId.Some? && e.employeeId.value < bound
    requires e.employeeId.value in t.employees ==> t.employees[e.employeeId.value].petStore == Some(sid)
    ensures Invariant(LinkEmployee(t, sid, e), bound)
    ensures e.employeeId.value in t.employees ==> LinkEmployee(t, sid, e).stores == t.stores
  {
    var r := LinkEmployee(t, sid, e);
    var eid := e.employeeId.value;
    forall s, x | s in r.stores && x in r.stores[s].employees
      ensures x in r.employees && r.employees[x].petStore == Some(s)
    {
      if x != eid {
        assert x in t.stores[s].employees;
      } else if s != sid {
        assert x in t.stores[s].employees;
      }
    }
    forall x | x in r.employees && r.employees[x].petStore.Some? && r.employees[x].petStore.value in r.stores
      ensures x in r.stores[r.employees[x].petStore.value].employees
    {
      if x != eid {
        assert r.employees[x] == t.employees[x];
      }
    }
    assert EmployeesLinked(r);
    assert CustomersLinked(r);
    if eid in t.employees {
      assert eid in t.stores[sid].employees;
      assert t.stores[sid].(employees := t.stores[sid].employees + {eid}) == t.stores[sid];
    }
  }

  /**
   * Linking a customer keeps the two views in step, provided the customer
   * record still lists exactly the stores it listed before (none, when new).
   */
  lemma LinkCustomerKeepsConsistent(t: Tables, sid: Id, c: Customer)
    requires Consistent(t)
    requires sid in t.stores && c.customerId.Some?
    requires c.petStores == (if c.customerId.value in t.customers then t.customers[c.customerId.value].petStores else {})
    ensures Consistent(LinkCustomer(t, sid, c))
  {
    var r := LinkCustomer(t, sid, c);
    var cid := c.customerId.value;
    forall s, x | s in r.stores && x in r.stores[s].customers
      ensures x in r.customers && s in r.customers[x].petStores
    {
      if x != cid || s != sid {
        assert x in t.stores[s].customers;
      }
    }
    forall x, s | x in r.customers && s in r.customers[x].petStores && s in r.stores
      ensures x in r.stores[s].customers
    {
      if s != sid {
        assert x in t.customers && s in t.customers[x].petStores;
      }
    }
    assert EmployeesLinked(r);
    assert CustomersLinked(r);
  }

  /** Linking a customer keeps the invariant, under the same proviso. */
  lemma LinkCustomerKeepsInvariant(t: Tables, bound: Id, sid: Id, c: Customer)
    requires Invariant(t, bound)
    requires sid in t.stores && c.customerId.Some? && c.customerId.value < bound
    requires c.petStores == (if c.customerId.value in t.customers then t.customers[c.customerId.value].petStores else {})
    ensures Invariant(LinkCustomer(t, sid, c), bound)
  {
    var r := LinkCustomer(t, sid, c);
    var cid := c.customerId.value;
    LinkCustomerKeepsConsistent(t, sid, c);
    forall k | k in r.stores
      ensures r.stores[k].petStoreId == Some(k)
    {
      assert r.stores[k].petStoreId == t.stores[k].petStoreId;
    }
    forall k | k in r.customers
      ensures r.customers[k].customerId == Some(k) && k < bound
      ensures forall s :: s in r.customers[k].petStores ==> s < bound
    {
      if k != cid {
        assert r.customers[k] == t.customers[k];
      }
    }
    assert WellKeyed(r);
    assert IdsBelow(r, bound);
  }

  /**
   * A customer that already patronises `sid` is listed on both sides, so
   * linking it again leaves every relation as it was.
   */
  lemma LinkPatronChangesNoRelation(t: Tables, sid: Id, c: Customer)
    requires WellKeyed(t) && Consistent(t)
    requires sid in t.stores && c.customerId.Some? && c.customerId.value in t.customers
    requires c.petStores == t.customers[c.customerId.value].petStores && sid in c.petStores
    ensures LinkCustomer(t, sid, c).stores == t.stores
    ensures LinkCustomer(t, sid, c).customers[c.customerId.value].petStores == c.petStores
  {
    var cid := c.customerId.value;
    assert cid in t.stores[sid].customers;
    assert t.stores[sid].(customers := t.stores[sid].customers + {cid}) == t.stores[sid];
    assert c.petStores + {sid} == c.petStores;
  }

  /** Removing a store entry keeps the invariant. */
  lemma RemovePetStoreKeepsInvariant(t: Tables, bound: Id, sid: Id)
    requires Invariant(t, bound)
    ensures Invariant(RemovePetStore(t, sid), bound)
  {
    var r := RemovePetStore(t, sid);
    assert forall s :: s in r.stores ==> r.stores[s] == t.stores[s];
  }

  /**
   * Saving a customer a second time, starting from the record the first save
   * stored, links nothing new: both links are set insertions.
   */
  lemma LinkCustomerTwice(t: Tables, sid: Id, c: Customer)
    requires sid in t.stores && c.customerId.Some?
    ensures var r := LinkCustomer(t, sid, c);
            LinkCustomer(r, sid, r.customers[c.customerId.value]) == r
  {
    var r := LinkCustomer(t, sid, c);
    var cid := c.customerId.value;
    assert r.stores[sid].customers + {cid} == r.stores[sid].customers;
    assert r.customers[cid].petStores + {sid} == r.customers[cid].petStores;
  }
}
