/**
 * The persistent entities of the pet store (PetStore, Employee, Customer) and
 * the store record the controller exchanges with the service (PetStoreData).
 *
 * Relations are held as identifiers: an employee names its store, a store names
 * its employees and customers, a customer names the stores it patronises.
 * Java's nullable `Long` and `String` become `Option<Id>` and `Option<string>`,
 * with `None` standing for `null`.
 */
module Entities {

  datatype Option<+T> = None | Some(value: T)

  /** A database identifier (a Java `Long`). */
  type Id = int

  /** A nullable Java `String`. */
  type Text = Option<string>

  datatype PetStore = PetStore(
    petStoreId: Option<Id>,
    petStoreName: Text,
    petStoreAddress: Text,
    petStoreCity: Text,
    petStoreState: Text,
    petStoreZip: Text,
    petStorePhone: Text,
    employees: set<Id>,
    customers: set<Id>)

  datatype Employee = Employee(
    employeeId: Option<Id>,
    employeeFirstName: Text,
    employeeLastName: Text,
    employeePhone: Text,
    employeeJobTitle: Text,
    petStore: Option<Id>)

  datatype Customer = Customer(
    customerId: Option<Id>,
    customerFirstName: Text,
    customerLastName: Text,
    customerEmail: Text,
    petStores: set<Id>)

  /**
   * A non-empty set has an element. Stated for the loops that take the
   * elements of a set one at a time.
   */
  lemma NonEmptyHasElement(s: set<Id>)
    requires s != {}
    ensures exists k :: k in s
  {
    if forall k :: k !in s {
      assert false;
    }
  }

  /** `new PetStore()`: no identifier yet, every field null, no relations. */
  function NewPetStore(): (s: PetStore)
    ensures s.petStoreId.None? && s.employees == {} && s.customers == {}
  {
    PetStore(None, None, None, None, None, None, None, {}, {})
  }

  /** `new Employee()`: no identifier yet and no store. */
  function NewEmployee(): (e: Employee)
    ensures e.employeeId.None? && e.petStore.None?
  {
    Employee(None, None, None, None, None, None)
  }

  /** `new Customer()`: no identifier yet and no stores. */
  function NewCustomer(): (c: Customer)
    ensures c.customerId.None? && c.petStores == {}
  {
    Customer(None, None, None, None, {})
  }

  /**
   * The store record of the controller layer. Its nested employee and customer
   * summaries are reduced to the identifiers of the related entities.
   */
  datatype PetStoreData = PetStoreData(
    petStoreId: Option<Id>,
    petStoreName: Text,
    petStoreAddress: Text,
    petStoreCity: Text,
    petStoreState: Text,
    petStoreZip: Text,
    petStorePhone: Text,
    employees: set<Id>,
    customers: set<Id>)

  /** The six scalar fields a store update overwrites agree between `s` and `d`. */
  predicate ScalarsMatch(s: PetStore, d: PetStoreData)
  {
    && s.petStoreName == d.petStoreName
    && s.petStoreAddress == d.petStoreAddress
    && s.petStoreCity == d.petStoreCity
    && s.petStoreState == d.petStoreState
    && s.petStoreZip == d.petStoreZip
    && s.petStorePhone == d.petStorePhone
  }

  /** `new PetStoreData(petStore)`: the full representation of a store. */
  function PetStoreDataOf(s: PetStore): (d: PetStoreData)
    ensures d.petStoreId == s.petStoreId && ScalarsMatch(s, d)
    ensures d.employees == s.employees && d.customers == s.customers
  {
    PetStoreData(s.petStoreId, s.petStoreName, s.petStoreAddress, s.petStoreCity,
                 s.petStoreState, s.petStoreZip, s.petStorePhone, s.employees, s.customers)
  }
}
