/** In-memory customer and administrator repositories: read-only lookups in a
    map fixed when the repository is made. */
module InmemActors {
  import opened Errors
  import opened Actors

  const Customer1: Customer :=
    Customer("CUSTOMER1", "Hari", "+62-12345", "example@email.com", "No, Street, City, Indonesia")

  const Admin1AsCustomer: Customer :=
    Customer("ADMIN1", "Mukti", "+62-67890", "example@email.com", "No, Street, City, Indonesia")

  datatype CustomerRepository = CustomerRepository(customers: map<string, Customer>) {

    /** The stored customer, or `ErrCustomerNotFound`. */
    function FindByID(id: string): (r: Result<Customer>)
      ensures r.Ok? <==> id in customers
      ensures r.Ok? ==> r.value == customers[id]
      ensures r.Err? ==> r.error == ErrCustomerNotFound
    {
      if id in customers then Ok(customers[id]) else Err(ErrCustomerNotFound)
    }
  }

  datatype AdminRepository = AdminRepository(admins: map<string, Admin>) {

    /** The stored administrator; a missing one is reported as a missing
        customer, not as `ErrAdminNotFound`. */
    function FindByID(id: string): (r: Result<Admin>)
      ensures r.Ok? <==> id in admins
      ensures r.Ok? ==> r.value == admins[id]
      ensures r.Err? ==> r.error == ErrCustomerNotFound
    {
      if id in admins then Ok(admins[id]) else Err(ErrCustomerNotFound)
    }
  }

  /** The customer repository holds exactly `CUSTOMER1`. */
  function NewCustomerRepository(): (r: CustomerRepository)
    ensures r.customers.Keys == {"CUSTOMER1"}
    ensures r.FindByID("CUSTOMER1") == Ok(Customer1)
  {
    CustomerRepository(map["CUSTOMER1" := Customer1])
  }

  /** The "admin" repository is in fact a customer repository holding `ADMIN1`. */
  function NewAdminRepository(): (r: CustomerRepository)
    ensures r.customers.Keys == {"ADMIN1"}
    ensures r.FindByID("ADMIN1") == Ok(Admin1AsCustomer)
    ensures r.FindByID("CUSTOMER1") == Err(ErrCustomerNotFound)
  {
    CustomerRepository(map["ADMIN1" := Admin1AsCustomer])
  }
}
