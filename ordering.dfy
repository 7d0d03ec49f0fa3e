/** The customer-facing ordering service: each operation loads what it needs
    from the repositories, changes the loaded order in place and writes it
    back, returning at the first error. */
module Ordering {
  import opened Errors
  import opened GoInt
  import opened Products
  import opened Coupons
  import opened Payments
  import opened Logistics
  import opened Orders
  import opened InmemActors
  import opened InmemProducts
  import opened InmemCoupons
  import opened InmemLogistics
  import opened InmemOrders
  import opened Fulfillment

  class OrderingService {
    const orders: OrderRepository
    const customers: CustomerRepository
    const products: ProductRepository
    const coupons: CouponRepository
    const logistics: LogisticsPartner

    /** The order repository works on the same coupon and product
        repositories as the service, and keeps its own invariant. */
    ghost predicate Valid()
      reads orders, orders.orders.Values, coupons, products, products.products.Values
    {
      && orders.coupons == coupons
      && orders.products == products
      && orders.Valid()
    }

    /** `NewService`, wired to the repositories it is given. */
    constructor (orders: OrderRepository, customers: CustomerRepository, products: ProductRepository,
                 coupons: CouponRepository, logistics: LogisticsPartner)
      requires orders.coupons == coupons && orders.products == products && orders.Valid()
      ensures Valid()
      ensures this.orders == orders && this.customers == customers && this.products == products
      ensures this.coupons == coupons && this.logistics == logistics
    {
      this.orders, this.customers, this.products := orders, customers, products;
      this.coupons, this.logistics := coupons, logistics;
    }

    /** A new open order for a known customer, stored under `freshId`. */
    method MakeOrder(customerId: string, freshId: string) returns (r: Result<Order>)
      requires Valid()
      modifies orders`orders
      ensures Valid()
      ensures r.Err? <==> customerId !in customers.customers
      ensures r.Err? ==> r.error == ErrCustomerNotFound && orders.orders == old(orders.orders)
      ensures r.Ok? ==> && fresh(r.value)
                        && r.value.State() == NewOrder(customers.customers[customerId]).(id := freshId)
                        && orders.orders == old(orders.orders)[freshId := r.value]
    {
      var c := customers.FindByID(customerId);
      if c.Err? {
        return Err(c.error);
      }
      var o := new Order(c.value);
      orders.Store(o, freshId);
      return Ok(o);
    }

    /** Puts `quantity` units of a product in an order's cart. The stock is
        checked against the live product but nothing is reserved. */
    method AddProduct(orderId: string, productId: string, quantity: Int64) returns (r: Outcome)
      requires Valid()
      modifies orders.Stored(orderId), orders`orders
      ensures Valid() && orders.orders == old(orders.orders)
      ensures orderId !in orders.orders ==> r == Fail(ErrOrderNotFound)
      ensures orderId in orders.orders && productId !in products.products ==>
        r == Fail(ErrProductNotFound) && unchanged(orders.orders[orderId])
      ensures orderId in orders.orders && productId in products.products ==>
        var o, p := orders.orders[orderId], products.products[productId];
        (r, o.State()) == if p.quantity < quantity then (Fail(ErrQuantityExceedProductStock), old(o.State()))
                          else AddProductTo(old(o.State()), p, quantity)
    {
      var found := orders.FindByID(orderId);
      if found.Err? {
        return Fail(found.error);
      }
      var o := found.value;
      var product := products.FindByID(productId);
      if product.Err? {
        return Fail(product.error);
      }
      var p := product.value;
      r := p.TryReserveQuantity(quantity);
      if r != Pass {
        return;
      }
      r := o.AddProduct(p, quantity);
      if r != Pass {
        return;
      }
      orders.Update(o);
      assert orders.orders == old(orders.orders);
    }

    /** Applies a stored coupon to an order. The coupon's remaining quantity
        is only checked, never taken. */
    method ApplyCoupon(orderId: string, code: string, now: Time) returns (r: Outcome)
      requires Valid()
      modifies orders.Stored(orderId), orders`orders
      ensures Valid() && orders.orders == old(orders.orders)
      ensures orderId !in orders.orders ==> r == Fail(ErrOrderNotFound)
      ensures orderId in orders.orders && code !in coupons.coupons ==>
        r == Fail(ErrCouponNotFound) && unchanged(orders.orders[orderId])
      ensures orderId in orders.orders && code in coupons.coupons ==>
        var o := orders.orders[orderId];
        (r, o.State()) == ApplyCouponTo(old(o.State()), coupons.coupons[code], now)
    {
      var found := orders.FindByID(orderId);
      if found.Err? {
        return Fail(found.error);
      }
      var o := found.value;
      var coupon := coupons.FindByCode(code);
      if coupon.Err? {
        return Fail(coupon.error);
      }
      r := o.ApplyCoupon(coupon.value, now);
      if r != Pass {
        return;
      }
      orders.Update(o);
      assert orders.orders == old(orders.orders);
    }

    /** Marks an order submitted, then charges its coupon and reserves its
        cart. A failure of the second step leaves the order submitted, and
        whatever was charged or reserved before it in place. */
    method SubmitOrder(orderId: string) returns (r: Outcome)
      requires Valid()
      modifies orders.Stored(orderId), orders`orders, coupons, products, products.products.Values
      ensures Valid() && orders.orders == old(orders.orders) && products.products == old(products.products)
      ensures orderId !in orders.orders ==>
        r == Fail(ErrOrderNotFound) && orders.Ledgers() == old(orders.Ledgers())
      ensures orderId in orders.orders ==>
        var o := orders.orders[orderId];
        var s := old(o.State());
        if ChangeStatus(s.status, Submitted) != Pass then
          r == ChangeStatus(s.status, Submitted) && o.State() == s && orders.Ledgers() == old(orders.Ledgers())
        else
          var f := FinalizeAndReserve(old(orders.Ledgers()), s.coupon.code, s.cart);
          && o.State() == s.(status := Submitted)
          && r == f.0 && coupons.coupons == f.1.coupons && products.Stocks() == f.1.stocks
    {
      var found := orders.FindByID(orderId);
      if found.Err? {
        return Fail(found.error);
      }
      var o := found.value;
      r := o.ChangeStatusTo(Submitted);
      if r != Pass {
        return;
      }
      r := orders.FinalizeAndReserveProducts(o);
      assert orders.orders == old(orders.orders);
    }

    /** Records a payment and marks the order paid. The specification is
        validated before the order is looked up; the payment is recorded
        before the status change, which may still fail; whether the order
        was submitted is never asked. */
    method MakePayment(orderId: string, ps: PaymentSpecification) returns (r: Outcome)
      requires Valid()
      modifies orders.Stored(orderId), orders`orders
      ensures Valid() && orders.orders == old(orders.orders)
      ensures Payments.Validate(ps) != Pass ==>
        r == Payments.Validate(ps) && (orderId in orders.orders ==> unchanged(orders.orders[orderId]))
      ensures Payments.Validate(ps) == Pass && orderId !in orders.orders ==> r == Fail(ErrOrderNotFound)
      ensures Payments.Validate(ps) == Pass && orderId in orders.orders ==>
        var o := orders.orders[orderId];
        var s := old(o.State());
        && r == ChangeStatus(s.status, Paid)
        && o.State() == s.(paymentSpecification := ps, status := if r == Pass then Paid else s.status)
    {
      r := Payments.Validate(ps);
      if r != Pass {
        return;
      }
      var found := orders.FindByID(orderId);
      if found.Err? {
        return Fail(found.error);
      }
      var o := found.value;
      o.SpecifyNewPayment(ps);
      r := o.ChangeStatusTo(Paid);
      if r != Pass {
        return;
      }
      orders.Update(o);
      assert orders.orders == old(orders.orders);
    }

    /** The status of a stored order. */
    function CheckOrderStatus(orderId: string): (r: Result<OrderStatus>)
      reads orders, orders.orders.Values
      ensures r.Ok? <==> orderId in orders.orders
      ensures r.Ok? ==> r.value == orders.orders[orderId].status
      ensures r.Err? ==> r.error == ErrOrderNotFound
    {
      var found := orders.FindByID(orderId);
      if found.Err? then Err(found.error) else Ok(found.value.status)
    }

    /** The logistics partner's status for a shipment. */
    function CheckShipmentStatus(sid: ShippingId): (r: Result<ShipmentStatus>)
      reads logistics
      ensures r.Ok? <==> sid in logistics.shipments
      ensures r.Ok? ==> r.value == logistics.shipments[sid].status
      ensures r.Err? ==> r.error == ErrLogisticsCheckShipment
    {
      logistics.CheckShipmentStatus(sid)
    }
  }
}
