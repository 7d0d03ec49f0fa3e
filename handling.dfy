/** The administrator-facing handling service: viewing, cancelling and
    shipping orders. */
module Handling {
  import opened Errors
  import opened Logistics
  import opened Orders
  import opened InmemProducts
  import opened InmemLogistics
  import opened InmemOrders
  import opened Fulfillment

  class HandlingService {
    const orders: OrderRepository
    const products: ProductRepository
    const logistics: LogisticsPartner

    /** The order repository works on the same product repository as the
        service, and keeps its own invariant. */
    ghost predicate Valid()
      reads orders, orders.orders.Values, orders.coupons, products, products.products.Values
    {
      && orders.products == products
      && orders.Valid()
    }

    /** `NewService`, wired to the repositories it is given. */
    constructor (orders: OrderRepository, products: ProductRepository, logistics: LogisticsPartner)
      requires orders.products == products && orders.Valid()
      ensures Valid()
      ensures this.orders == orders && this.products == products && this.logistics == logistics
    {
      this.orders, this.products, this.logistics := orders, products, logistics;
    }

    /** The stored order object itself, or `ErrOrderNotFound`. */
    function ViewOrder(orderId: string): (r: Result<Order>)
      reads orders
      ensures r.Ok? <==> orderId in orders.orders
      ensures r.Ok? ==> r.value == orders.orders[orderId]
      ensures r.Err? ==> r.error == ErrOrderNotFound
    {
      orders.FindByID(orderId)
    }

    /** Marks an order cancelled, then refunds its coupon and gives its cart
        back to stock, whatever the order's status was before: cancelling an
        order that was never submitted also adds stock and a coupon use. */
    method CancelOrder(orderId: string) returns (r: Outcome)
      requires Valid()
      modifies orders.Stored(orderId), orders`orders, orders.coupons, products, products.products.Values
      ensures Valid() && orders.orders == old(orders.orders) && products.products == old(products.products)
      ensures orderId !in orders.orders ==>
        r == Fail(ErrOrderNotFound) && orders.Ledgers() == old(orders.Ledgers())
      ensures orderId in orders.orders ==>
        var o := orders.orders[orderId];
        var s := old(o.State());
        if ChangeStatus(s.status, Cancelled) != Pass then
          r == ChangeStatus(s.status, Cancelled) && o.State() == s && orders.Ledgers() == old(orders.Ledgers())
        else
          var f := CancelAndRelease(old(orders.Ledgers()), s.coupon.code, s.cart);
          && o.State() == s.(status := Cancelled)
          && r == f.0 && orders.coupons.coupons == f.1.coupons && products.Stocks() == f.1.stocks
    {
      var found := orders.FindByID(orderId);
      if found.Err? {
        return Fail(found.error);
      }
      var o := found.value;
      r := o.ChangeStatusTo(Cancelled);
      if r != Pass {
        return;
      }
      r := orders.CancelAndReleaseProducts(o);
      assert orders.orders == old(orders.orders);
    }

    /** Marks an order shipped, registers it with the logistics partner
        under `freshId` and records that shipping ID on the order. A failed
        registration leaves the order marked shipped with no shipping ID. */
    method ShipOrderToLogisticsPartner(orderId: string, freshId: ShippingId) returns (r: Result<ShippingId>)
      requires Valid()
      modifies orders.Stored(orderId), orders`orders, logistics
      ensures Valid() && orders.orders == old(orders.orders)
      ensures old(logistics.Valid()) && freshId !in old(logistics.shipments) ==> logistics.Valid()
      ensures orderId !in orders.orders ==>
        r == Err(ErrOrderNotFound) && logistics.shipments == old(logistics.shipments)
      ensures orderId in orders.orders && ChangeStatus(old(orders.orders[orderId].status), Shipped) != Pass ==>
        && r == Err(ChangeStatus(old(orders.orders[orderId].status), Shipped).error)
        && unchanged(orders.orders[orderId]) && logistics.shipments == old(logistics.shipments)
      ensures orderId in orders.orders && ChangeStatus(old(orders.orders[orderId].status), Shipped) == Pass ==>
        var o := orders.orders[orderId];
        var s := old(o.State());
        if old(logistics.Registered(orderId)) then
          && r == Err(ErrLogisticsRegister)
          && o.State() == s.(status := Shipped) && logistics.shipments == old(logistics.shipments)
        else
          && r == Ok(freshId)
          && o.State() == s.(status := Shipped, shippingId := freshId)
          && logistics.shipments == old(logistics.shipments)[freshId := Shipment(orderId, ShipmentStatusShipped)]
          && logistics.CheckShipmentStatus(freshId) == Ok(ShipmentStatusShipped)
    {
      var found := orders.FindByID(orderId);
      if found.Err? {
        return Err(found.error);
      }
      var o := found.value;
      var changed := o.ChangeStatusTo(Shipped);
      if changed != Pass {
        return Err(changed.error);
      }
      r := logistics.RegisterShipment(orderId, freshId);
      if r.Err? {
        return;
      }
      var again := orders.FindByID(orderId);
      o := again.value;
      o.SpecifyShippingID(r.value);
      orders.Update(o);
      assert orders.orders == old(orders.orders);
    }
  }
}
