/**
 * The customer record returned by the service: the customer's scalar fields and
 * a set of store summaries, one per store the customer patronises. Records are
 * compared structurally, so two stores with identical fields give one summary.
 */
module CustomerDataModel {
  import opened Entities

  /** The store summary nested in a customer record. */
  datatype PetStoreResponse = PetStoreResponse(
    petStoreId: Option<Id>,
    petStoreName: Text,
    petStoreAddress: Text,
    petStoreCity: Text,
    petStoreState: Text,
    petStoreZip: Text,
    petStorePhone: Text)

  datatype CustomerData = CustomerData(
    customerId: Option<Id>,
    customerFirstName: Text,
    customerLastName: Text,
    customerEmail: Text,
    petStores: set<PetStoreResponse>)

  /** The store's seven scalar fields, identifier included, agree with `r`'s. */
  predicate Summarises(r: PetStoreResponse, s: PetStore)
  {
    && r.petStoreId == s.petStoreId
    && r.petStoreName == s.petStoreName
    && r.petStoreAddress == s.petStoreAddress
    && r.petStoreCity == s.petStoreCity
    && r.petStoreState == s.petStoreState
    && r.petStoreZip == s.petStoreZip
    && r.petStorePhone == s.petStorePhone
  }

  /** The no-argument record: every field null and no store summaries. */
  function EmptyCustomerData(): (d: CustomerData)
    ensures d.petStores == {}
    ensures d.customerId.None? && d.customerFirstName.None? && d.customerLastName.None? && d.customerEmail.None?
  {
    CustomerData(None, None, None, None, {})
  }

  /** `new PetStoreResponse(petStore)`: copies the seven store fields. */
  function ResponseOf(s: PetStore): (r: PetStoreResponse)
    ensures Summarises(r, s)
  {
    PetStoreResponse(s.petStoreId, s.petStoreName, s.petStoreAddress, s.petStoreCity,
                     s.petStoreState, s.petStoreZip, s.petStorePhone)
  }

  /**
   * The set of summaries of `petStores`: one per store, with equal summaries
   * kept once.
   */
  function Summaries(petStores: seq<PetStore>): (r: set<PetStoreResponse>)
    ensures forall s :: s in petStores ==> ResponseOf(s) in r
    ensures forall x :: x in r ==> exists s :: s in petStores && x == ResponseOf(s)
    ensures |r| <= |petStores|
  {
    if petStores == [] then {}
    else Summaries(petStores[..|petStores| - 1]) + {ResponseOf(petStores[|petStores| - 1])}
  }

  /**
   * Two stores at different positions with the same seven fields collapse into
   * one summary, so there are fewer summaries than stores.
   */
  lemma {:induction false} SummariesCollapse(petStores: seq<PetStore>, i: nat, j: nat)
    requires i < j < |petStores| && ResponseOf(petStores[i]) == ResponseOf(petStores[j])
    ensures |Summaries(petStores)| < |petStores|
  {
    var front := petStores[..|petStores| - 1];
    if j == |petStores| - 1 {
      assert petStores[i] == front[i];
      assert ResponseOf(petStores[j]) in Summaries(front);
      assert Summaries(petStores) == Summaries(front);
    } else {
      assert petStores[i] == front[i] && petStores[j] == front[j];
      SummariesCollapse(front, i, j);
    }
  }

  /**
   * `new CustomerData(customer)`: copies the scalar fields, then adds one store
   * summary per element of `petStores`, the customer's stores in the order the
   * persistence layer iterates them.
   */
  method FromCustomer(c: Customer, petStores: seq<PetStore>) returns (d: CustomerData)
    ensures d.customerId == c.customerId
    ensures d.customerFirstName == c.customerFirstName
    ensures d.customerLastName == c.customerLastName
    ensures d.customerEmail == c.customerEmail
    ensures d.petStores == Summaries(petStores)
  {
    d := CustomerData(c.customerId, c.customerFirstName, c.customerLastName, c.customerEmail, {});
    for i := 0 to |petStores|
      invariant d.customerId == c.customerId
      invariant d.customerFirstName == c.customerFirstName
      invariant d.customerLastName == c.customerLastName
      invariant d.customerEmail == c.customerEmail
      invariant d.petStores == Summaries(petStores[..i])
    {
      assert petStores[..i + 1][..i] == petStores[..i];
      d := d.(petStores := d.petStores + {ResponseOf(petStores[i])});
    }
    assert petStores[..|petStores|] == petStores;
  }
}
