/** The people of the shop: customers, who own orders, and administrators. */
module Actors {

  datatype Customer = Customer(
    id: string,
    name: string,
    phoneNumber: string,
    email: string,
    address: string)

  datatype Admin = Admin(id: string, name: string)

  /** The zero `Customer{}`. */
  const NoCustomer: Customer := Customer("", "", "", "", "")
}
