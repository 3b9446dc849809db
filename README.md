# Pet store service — a Dafny model

This project models the service layer of a small pet-store web application.
The service keeps three tables: pet stores, employees and customers. An
employee works at one store, and a store lists its employees. A customer
patronises any number of stores, and each store lists its customers. The
service offers these operations:

- create or update a store;
- list all stores;
- delete a store;
- create or update an employee of a store;
- create or update a customer of a store.

A store save creates a store when the request has no id. Otherwise it looks
up the store and overwrites its scalar fields. Listing reads every store and
clears the relation lists of each entry. Deleting looks up the store and
removes it.

An employee or customer save first looks up the store. It then finds or
creates the employee or customer, and checks that an existing one belongs to
that store. Then it overwrites the fields from the request and links both
sides of the relation. The records these saves return come from two
projections: `CustomerData` (with its nested `PetStoreResponse`) and
`EmployeeData` (with its nested `petStoreStore`).

Layout:

- `entities.dfy` (module `Entities`) holds the entity records. Relations are
  held as identifiers, and Java `null` is `None`. It also holds the store
  request/response record `PetStoreData`.
- `links.dfy` (module `Links`) holds the three tables as one value and the
  invariant the service keeps. Every stored entity carries its own key, and
  the store side and the entity side of each relation agree. Every stored
  employee has a store. Every identifier in use is below the next one to be
  handed out. The module defines the
  create, link and remove steps as functions on the tables, with one lemma
  per step proving that the step keeps the invariant.
- `customer_data.dfy` and `employee_data.dfy` hold the two projections.
- `pet_store_service.dfy` (module `Service`) holds the class
  `PetStoreService`. Its fields are the three tables (maps from identifier
  to entity) and the identifier counter that stands in for the database's
  id generation. Each method returns `Ok(value)` or one of three errors:
  `NotFound`, `NotAtStore` or `NotPatron`. Every mutating method keeps
  `Valid()`. On failure a mutating method leaves every field as it was. On
  success each one states the new tables and the new counter. Its body
  reaches the invariant through the matching `Links` step.

The employee check at `PetStoreService.java:153` compares two boxed `Long`s
with `==`, which compares references. The model keeps this comparison
abstract as the class constant `sameId`. The only thing known of `sameId` is
that a positive answer implies equal values. The model therefore proves two
things: a successful employee lookup means the employee's store is the
requested one, and an employee of another store is refused.
`EqualIdsMayBeRejected` shows that the converse does not follow: an
admissible comparison may reject two equal identifiers.

`EmployeeData(Employee)` (`EmployeeData.java:21-28`) never sets the record's
`petStore` field, so the record a saved employee is returned as carries no
store.

## Model

| member | source | states |
|---|---|---|
| Service.PetStoreService.SavePetStore | src/main/java/pet/store/service/PetStoreService.java:34-51 | No id: a new store under a fresh id, with the request's scalar fields and no relations. Known id: that store's scalar fields are overwritten, its relations kept and the counter unchanged. Unknown id: NotFound, and nothing changes. Other stores, all employees and all customers are unchanged. The returned record is the saved store's. The invariant is kept. |
| Service.CopyPetStoreFields | src/main/java/pet/store/service/PetStoreService.java:53-63 | The id and the six scalar fields come from the request; employees and customers are untouched. |
| Service.PetStoreService.FindOrCreatePetStore | src/main/java/pet/store/service/PetStoreService.java:65-76 | A null id gives a new empty store; a known id gives the stored store; an unknown id gives NotFound. |
| Service.PetStoreService.FindPetStoreById | src/main/java/pet/store/service/PetStoreService.java:78-83 | The stored store for a known id; NotFound with that id otherwise. |
| Service.PetStoreService.FindAll | src/main/java/pet/store/service/PetStoreService.java:87 | Every stored store exactly once: the length equals the table size, every entry is the stored store under its id, no id repeats, and every key appears. |
| Service.PetStoreService.RetrieveAllPetStores | src/main/java/pet/store/service/PetStoreService.java:85-100 | Exactly one entry per stored store, with no repeats and none missing. Each entry is that store's record with empty employee and customer lists. |
| Service.ListView | src/main/java/pet/store/service/PetStoreService.java:91-94 | A store's list entry keeps its id and scalar fields and has empty employee and customer lists. |
| Service.PetStoreService.DeletePetStoreById | src/main/java/pet/store/service/PetStoreService.java:102-106 | Succeeds exactly when the id is stored. On success exactly that entry is removed. On failure the result is NotFound and the stores are unchanged. Employees and customers are never touched, and the invariant is kept. |
| Service.PetStoreService.SaveEmployee | src/main/java/pet/store/service/PetStoreService.java:108-123 | Errors come in order: unknown store, unknown employee id, employee of another store. Any error leaves every table unchanged. Success holds exactly when none applies, and an employee of another store is never moved. On success the four fields come from the request, and an existing employee keeps its id while a new one gets a fresh id (the counter advances by one exactly then). The employee names the store and the store lists it, nothing else changes, and the invariant is kept. |
| Service.SetEmployeeFields | src/main/java/pet/store/service/PetStoreService.java:125-132 | First name, last name, job title and phone come from the request; the id and the store are kept. |
| Service.PetStoreService.FindOrCreateEmployee | src/main/java/pet/store/service/PetStoreService.java:134-145 | A null id gives a new employee without store; otherwise the outcome of the employee lookup, and a found employee works at the requested store. |
| Service.PetStoreService.FindEmployeeById | src/main/java/pet/store/service/PetStoreService.java:147-159 | An unknown id gives NotFound. If the store comparison passes, the result is the employee; if it fails, NotAtStore. Success implies the employee's store is the requested one, and a different store implies an error. A stored employee always has a store, so the comparison never meets a missing one. |
| Service.PetStoreService.WorksAt | src/main/java/pet/store/service/PetStoreService.java:153 | The store check passes only for an employee with a store, and then, since the comparison implies value equality, only when that store is the requested one. |
| Service.EqualIdsMayBeRejected | src/main/java/pet/store/service/PetStoreService.java:153 | A comparison that only implies value equality, as `Long` reference comparison does, may still reject two equal ids (128 and 128). |
| Service.PetStoreService.SaveCustomer | src/main/java/pet/store/service/PetStoreService.java:161-176 | Errors come in order: unknown store, unknown customer id, customer who is not a patron. Any error leaves every table unchanged. Success holds exactly when none applies. On success the three fields come from the request and the customer keeps its other stores. A new customer gets a fresh id and the counter advances by one; an existing one keeps its id and the counter. The store is added to the customer's stores and the customer to the store's customers. A re-save of an existing patron changes no relation. Employees are untouched, and the invariant is kept. The returned record summarises every existing store of the customer and nothing else. |
| Service.SetCustomerFields | src/main/java/pet/store/service/PetStoreService.java:178-184 | First name, last name and email come from the request; the id and the stores are kept. |
| Service.PetStoreService.FindOrCreateCustomer | src/main/java/pet/store/service/PetStoreService.java:186-197 | A null id gives a new customer without stores, with no patron check. Otherwise: an unknown id gives NotFound, a store the customer does not list gives NotPatron, and otherwise the stored customer. |
| Service.PetStoreService.FindCustomerById | src/main/java/pet/store/service/PetStoreService.java:199-219 | The scan of the customer's stores finds the requested store exactly when the customer lists it (value comparison). The result is the customer, NotPatron or NotFound accordingly. |
| Service.PetStoreService.CustomerDataOf | src/main/java/pet/store/service/PetStoreService.java:174 | The returned customer record copies the customer's four fields and holds exactly the summaries of its stores that exist, at most one per store. |
| Service.PetStoreService.LoadPetStores | src/main/java/pet/store/controller/model/CustomerData.java:29 | Loading a customer's stores yields every listed store that exists and only such stores, no more of them than there are ids. |
| Links.PutPetStore | src/main/java/pet/store/service/PetStoreService.java:47 | Saving a store writes that store under its id; the other stores, the employees and the customers stay as they were. |
| Links.LinkEmployee | src/main/java/pet/store/service/PetStoreService.java:116-117 | The stored employee is the given one naming the store, and that store is the old one with the employee added. Every other store and employee, all customers and the set of store ids are unchanged. |
| Links.LinkCustomer | src/main/java/pet/store/service/PetStoreService.java:169-170 | The stored customer is the given one with exactly the store added to its stores, and that store is the old one with the customer added. Every other store and customer, all employees and the set of store ids are unchanged. |
| Links.RemovePetStore | src/main/java/pet/store/service/PetStoreService.java:105 | Deleting a store removes exactly that id from the stores; every other store, all employees and all customers stay as they were. |
| Links.PutPetStoreKeepsInvariant | src/main/java/pet/store/service/PetStoreService.java:45-47 | Writing a store keeps the invariant, both when updating an existing store's scalar fields and when adding a store without relations under a fresh id. |
| Links.LinkEmployeeKeepsInvariant | src/main/java/pet/store/service/PetStoreService.java:116-119 | Linking a new employee, or one already at the store, keeps keys and both directions of the employee/store relation. For an existing employee the stores are unchanged. |
| Links.LinkCustomerKeepsConsistent | src/main/java/pet/store/service/PetStoreService.java:169-172 | Adding the store to the customer and the customer to the store keeps both directions of the customer/store relation. |
| Links.LinkCustomerKeepsInvariant | src/main/java/pet/store/service/PetStoreService.java:169-172 | The same link step keeps the whole invariant, keys and id bound included. |
| Links.LinkPatronChangesNoRelation | src/main/java/pet/store/service/PetStoreService.java:166-170 | Linking a customer who already patronises the store leaves every store and the customer's store set as they were. |
| Links.LinkCustomerTwice | src/main/java/pet/store/service/PetStoreService.java:169-170 | Re-saving a customer at the same store, starting from the record the first save stored, leaves the tables as the first save left them. |
| Links.RemovePetStoreKeepsInvariant | src/main/java/pet/store/service/PetStoreService.java:104-105 | Removing a store entry keeps the invariant. References to the removed store are tolerated. |
| Entities.NewPetStore | src/main/java/pet/store/service/PetStoreService.java:70 | A new store has no id and no employees or customers. |
| Entities.NewEmployee | src/main/java/pet/store/service/PetStoreService.java:139 | A new employee has no id and no store. |
| Entities.NewCustomer | src/main/java/pet/store/service/PetStoreService.java:191 | A new customer has no id and no stores. |
| Entities.PetStoreDataOf | src/main/java/pet/store/service/PetStoreService.java:49 | The returned store record copies the id, the six scalar fields and both relations. |
| CustomerDataModel.FromCustomer | src/main/java/pet/store/controller/model/CustomerData.java:22-33 | The four customer fields are copied unchanged, and the summary set built by the loop is exactly `Summaries` of the customer's stores. |
| CustomerDataModel.Summaries | src/main/java/pet/store/controller/model/CustomerData.java:20-31 | Every given store contributes its summary, every summary comes from a given store, and there are at most as many summaries as stores. |
| CustomerDataModel.ResponseOf | src/main/java/pet/store/controller/model/CustomerData.java:47-56 | The summary copies all seven store fields, id included. |
| CustomerDataModel.SummariesCollapse | src/main/java/pet/store/controller/model/CustomerData.java:20-31 | Two stores at different positions with the same seven fields collapse into one set element, so the customer record has fewer summaries than the customer has stores. |
| CustomerDataModel.EmptyCustomerData | src/main/java/pet/store/controller/model/CustomerData.java:12-20 | The no-argument record has every field null and an empty store set. |
| EmployeeDataModel.FromEmployee | src/main/java/pet/store/controller/model/EmployeeData.java:19-28 | The id, names, phone and job title are copied unchanged, and the store field stays null. |
| EmployeeDataModel.FromEmployeeIgnoresStore | src/main/java/pet/store/controller/model/EmployeeData.java:21-28 | The projection does not depend on the employee's store, so it is defined with or without one. |
| EmployeeDataModel.PetStoreStoreOf | src/main/java/pet/store/controller/model/EmployeeData.java:42-52 | The summary copies all seven store fields, id included. |

## Left out

- Dependency injection and transactions are not modelled. Every failure is detected before the first write, so a failed call changes nothing without them.
- The three repositories are not part of this model. They become three maps and one identifier counter, shared by all tables, that hands out ids from 1 upward. Flushing, merging and lazy loading are not modelled.
- The model never deletes related rows. Whatever the persistence layer does to a deleted store's employees and customers is not part of this model. The invariant therefore tolerates employees and customers that still name a deleted store.
- Service.PetStoreService.FindEmployeeById: the outcome for equal ids is left open, because `Long` reference comparison depends on boxing and caching outside the source.
- A stored employee without a store, for which the comparison at `PetStoreService.java:153` would throw a null-pointer exception, is not modelled: the invariant states that every stored employee has a store, and every save keeps it.
- Ids and `findById`/`delete` arguments are never null here. A null id passed to a lookup or a delete, which the persistence layer rejects, is not modelled.
- Ids are unbounded integers; overflow of the 64-bit `Long` is not modelled.
- Error messages are reduced to an error kind and the ids involved.
- The entity classes, the repositories and the controller layer are not part of this model. Entities are immutable records compared structurally, and the Lombok-generated accessors, `equals` and `hashCode` are replaced by that.
- `PetStoreData` is not part of this model. Its nested employee and customer summaries are reduced to sets of ids.
- A new entity gets its id before it is linked. In the source the object is linked first and receives its id on save. The tables that result are the same.
- Service.PetStoreService.FindAll and Service.PetStoreService.RetrieveAllPetStores: the repository's enumeration order is left open, so the list order is not stated beyond one entry per store.
- Service.PetStoreService.LoadPetStores: a customer's stores are enumerated in an order left open. Ids that no longer name a stored store are skipped.
