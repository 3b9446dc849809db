/**
 * The employee record returned by the service, and the store summary declared
 * beside it. The record's `petStore` field is never filled in by the
 * projection, so every projected record carries no store.
 */
module EmployeeDataModel {
  import opened Entities

  /** The store summary declared beside the employee record. */
  datatype PetStoreStore = PetStoreStore(
    petStoreId: Option<Id>,
    petStoreName: Text,
    petStoreAddress: Text,
    petStoreCity: Text,
    petStoreState: Text,
    petStoreZip: Text,
    petStorePhone: Text)

  datatype EmployeeData = EmployeeData(
    employeeId: Option<Id>,
    employeeFirstName: Text,
    employeeLastName: Text,
    employeePhone: Text,
    employeeJobTitle: Text,
    petStore: Option<PetStore>)

  /** The employee's identifier and four scalar fields agree with `d`'s. */
  predicate Describes(d: EmployeeData, e: Employee)
  {
    && d.employeeId == e.employeeId
    && d.employeeFirstName == e.employeeFirstName
    && d.employeeLastName == e.employeeLastName
    && d.employeePhone == e.employeePhone
    && d.employeeJobTitle == e.employeeJobTitle
  }

  /**
   * `new EmployeeData(employee)`: copies identifier, names, phone and job
   * title; the store field stays null. Defined for every employee, with or
   * without a store.
   */
  function FromEmployee(e: Employee): (d: EmployeeData)
    ensures Describes(d, e)
    ensures d.petStore.None?
  {
    EmployeeData(e.employeeId, e.employeeFirstName, e.employeeLastName,
                 e.employeePhone, e.employeeJobTitle, None)
  }

  /** The projection never looks at the employee's store. */
  lemma FromEmployeeIgnoresStore(e: Employee, store: Option<Id>)
    ensures FromEmployee(e.(petStore := store)) == FromEmployee(e)
  {
  }

  /** `new petStoreStore(petStore)`: copies the seven store fields. */
  function PetStoreStoreOf(s: PetStore): (r: PetStoreStore)
    ensures r.petStoreId == s.petStoreId
    ensures r.petStoreName == s.petStoreName && r.petStoreAddress == s.petStoreAddress
    ensures r.petStoreCity == s.petStoreCity && r.petStoreState == s.petStoreState
    ensures r.petStoreZip == s.petStoreZip && r.petStorePhone == s.petStorePhone
  {
    PetStoreStore(s.petStoreId, s.petStoreName, s.petStoreAddress, s.petStoreCity,
                  s.petStoreState, s.petStoreZip, s.petStorePhone)
  }
}
