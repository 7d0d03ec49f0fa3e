/** The in-memory order repository: a map from order ID to the shared order
    object, plus the two coordinator operations that touch the coupon and
    product repositories when an order is submitted or cancelled. */
module InmemOrders {
  import opened Errors
  import opened GoInt
  import opened Products
  import opened Coupons
  import opened Actors
  import opened Orders
  import opened InmemActors
  import opened InmemProducts
  import opened InmemCoupons
  import opened Fulfillment

  class OrderRepository {
    var orders: map<string, Order>
    const coupons: CouponRepository
    const products: ProductRepository

    /** Every order is stored under its own ID, and the coupon and product
        repositories keep their own invariants. */
    ghost predicate Valid()
      reads this, orders.Values, coupons, products, products.products.Values
    {
      && (forall k :: k in orders ==> orders[k].id == k)
      && coupons.Valid()
      && products.Valid()
    }

    /** The coupon and stock counters that submitting and cancelling change. */
    function Ledgers(): Ledgers
      reads coupons, products, products.products.Values
    {
      Fulfillment.Ledgers(coupons.coupons, products.Stocks())
    }

    /** `NewOrderRepository`, made at time `now`, with three open orders of
        `CUSTOMER1`; the two with a cart each hold their own copy of
        `PRODUCT1`, not the product repository's object. */
    constructor (coupons: CouponRepository, products: ProductRepository, now: Time)
      requires coupons.Valid() && products.Valid()
      ensures Valid() && fresh(orders.Values)
      ensures this.coupons == coupons && this.products == products
      ensures orders.Keys == {"ORDER_OPEN", "ORDER_WITH_PRODUCT", "ORDER_WITH_PRODUCT_AND_COUPON"}
      ensures orders["ORDER_OPEN"].State() == SeededState("ORDER_OPEN", NoCoupon, [], 0.0, 0.0)
      ensures var s := orders["ORDER_WITH_PRODUCT"].State();
        && |s.cart| == 1 && fresh(s.cart[0].product)
        && s.cart[0].product.Value() == ProductValue("PRODUCT1", "Sony Xperia 10", 500.0, 200)
        && s == SeededState("ORDER_WITH_PRODUCT", NoCoupon, [CartItem(s.cart[0].product, 5)], 0.0, 0.0)
      ensures var s := orders["ORDER_WITH_PRODUCT_AND_COUPON"].State();
        && |s.cart| == 1 && fresh(s.cart[0].product)
        && s.cart[0].product.Value() == ProductValue("PRODUCT1", "Sony Xperia 10", 500.0, 200)
        && s == SeededState("ORDER_WITH_PRODUCT_AND_COUPON", DiscountTwentyPercent(now),
                            [CartItem(s.cart[0].product, 5)], 2500.0, 2000.0)
    {
      this.coupons, this.products := coupons, products;
      var open := SeedOrder("ORDER_OPEN", NoCoupon, [], 0.0, 0.0);
      var p1 := new Product("PRODUCT1", "Sony Xperia 10", 500.0, 200);
      var withProduct := SeedOrder("ORDER_WITH_PRODUCT", NoCoupon, [CartItem(p1, 5)], 0.0, 0.0);
      var p2 := new Product("PRODUCT1", "Sony Xperia 10", 500.0, 200);
      var withCoupon := SeedOrder("ORDER_WITH_PRODUCT_AND_COUPON", DiscountTwentyPercent(now),
                                  [CartItem(p2, 5)], 500.0 * 5.0, 500.0 * 5.0 - 500.0 * 5.0 * 0.2);
      orders := map["ORDER_OPEN" := open, "ORDER_WITH_PRODUCT" := withProduct,
                    "ORDER_WITH_PRODUCT_AND_COUPON" := withCoupon];
    }

    /** The stored order object itself (not a copy), or `ErrOrderNotFound`. */
    function FindByID(id: string): (r: Result<Order>)
      reads this
      ensures r.Ok? <==> id in orders
      ensures r.Ok? ==> r.value == orders[id]
      ensures r.Err? ==> r.error == ErrOrderNotFound
    {
      if id in orders then Ok(orders[id]) else Err(ErrOrderNotFound)
    }

    /** The stored order object under `id`, as a set: what a service that
        loads that order may write. */
    function Stored(id: string): (r: set<Order>)
      reads this
      ensures id in orders ==> r == {orders[id]}
      ensures id !in orders ==> r == {}
    {
      if id in orders then {orders[id]} else {}
    }

    /** Gives the order the new ID `freshId` and stores it under that ID. */
    method Store(order: Order, freshId: string)
      requires Valid() && order !in orders.Values
      modifies this`orders, order`id
      ensures Valid()
      ensures order.id == freshId && orders == old(orders)[freshId := order]
    {
      order.id := freshId;
      orders := orders[order.id := order];
    }

    /** Stores the order under its ID, replacing whatever was there. */
    method Update(order: Order)
      requires Valid()
      modifies this`orders
      ensures Valid()
      ensures orders == old(orders)[order.id := order]
    {
      orders := orders[order.id := order];
    }

    /** Charges the order's coupon, reserves its cart line by line and, when
        all of that succeeds, stores the order. A failure leaves whatever was
        charged or reserved before it in place. */
    method FinalizeAndReserveProducts(order: Order) returns (r: Outcome)
      requires Valid()
      modifies this`orders, coupons, products, products.products.Values
      ensures Valid()
      ensures var f := FinalizeAndReserve(old(Ledgers()), order.coupon.code, order.cart);
        r == f.0 && coupons.coupons == f.1.coupons && products.Stocks() == f.1.stocks
      ensures products.products == old(products.products)
      ensures orders == if r == Pass then old(orders)[order.id := order] else old(orders)
    {
      r := ChargeAndReserve(order.coupon.code, order.cart);
      if r != Pass {
        return;
      }
      orders := orders[order.id := order];
    }

    /** Takes one use of the coupon, then reserves the cart. */
    method ChargeAndReserve(code: string, cart: seq<CartItem>) returns (r: Outcome)
      requires coupons.Valid() && products.Valid()
      modifies coupons, products, products.products.Values
      ensures coupons.Valid() && products.Valid() && products.products == old(products.products)
      ensures var f := FinalizeAndReserve(old(Ledgers()), code, cart);
        r == f.0 && coupons.coupons == f.1.coupons && products.Stocks() == f.1.stocks
    {
      var found := coupons.FindByCode(code);
      if found.Err? {
        return Fail(found.error);
      }
      var c := found.value;
      coupons.Update(c.(quantity := Sub(c.quantity, 1)));
      r := ReserveAll(cart);
    }

    /** The reservation loop: every line in turn takes its quantity from its
        product's stock; the first failure stops the loop. */
    method ReserveAll(cart: seq<CartItem>) returns (r: Outcome)
      requires products.Valid()
      modifies products, products.products.Values
      ensures products.Valid() && products.products == old(products.products)
      ensures (r, products.Stocks()) == ReserveCart(old(products.Stocks()), cart)
    {
      ghost var start := products.Stocks();
      r := Pass;
      var i := 0;
      while i < |cart|
        invariant 0 <= i <= |cart|
        invariant products.Valid() && products.products == old(products.products)
        invariant r == Pass && ReserveCart(products.Stocks(), cart[i..]) == ReserveCart(start, cart)
      {
        assert cart[i..][0] == cart[i] && cart[i..][1..] == cart[i + 1..];
        r := ReserveItem(cart[i]);
        if r != Pass {
          return;
        }
        i := i + 1;
      }
      assert cart[i..] == [];
    }

    /** One step of the reservation loop: look the line's product up, check
        and take its stock, and store the product back. */
    method ReserveItem(item: CartItem) returns (r: Outcome)
      requires products.Valid()
      modifies products, products.products.Values
      ensures products.Valid() && products.products == old(products.products)
      ensures (r, products.Stocks()) == ReserveLine(old(products.Stocks()), item)
    {
      var found := products.FindByID(item.product.id);
      if found.Err? {
        return Fail(found.error);
      }
      var p := found.value;
      ghost var before := products.Stocks();
      assert p.id == item.product.id && before[p.id] == p.quantity;
      r := p.TryReserveQuantity(item.quantity);
      if r != Pass {
        return;
      }
      p.ReserveQuantity(item.quantity);
      products.Update(p);
      StocksAfterWrite(p);
    }

    /** Refunds the order's coupon, gives its cart back line by line and,
        when all of that succeeds, stores the order. There is no stock check
        and nothing records whether the order had reserved anything. */
    method CancelAndReleaseProducts(order: Order) returns (r: Outcome)
      requires Valid()
      modifies this`orders, coupons, products, products.products.Values
      ensures Valid()
      ensures var f := CancelAndRelease(old(Ledgers()), order.coupon.code, order.cart);
        r == f.0 && coupons.coupons == f.1.coupons && products.Stocks() == f.1.stocks
      ensures products.products == old(products.products)
      ensures orders == if r == Pass then old(orders)[order.id := order] else old(orders)
    {
      r := RefundAndRelease(order.coupon.code, order.cart);
      if r != Pass {
        return;
      }
      orders := orders[order.id := order];
    }

    /** Gives one use of the coupon back, then releases the cart. */
    method RefundAndRelease(code: string, cart: seq<CartItem>) returns (r: Outcome)
      requires coupons.Valid() && products.Valid()
      modifies coupons, products, products.products.Values
      ensures coupons.Valid() && products.Valid() && products.products == old(products.products)
      ensures var f := CancelAndRelease(old(Ledgers()), code, cart);
        r == f.0 && coupons.coupons == f.1.coupons && products.Stocks() == f.1.stocks
    {
      var found := coupons.FindByCode(code);
      if found.Err? {
        return Fail(found.error);
      }
      var c := found.value;
      coupons.Update(c.(quantity := Add(c.quantity, 1)));
      r := ReleaseAll(cart);
    }

    /** The release loop: every line in turn gives its quantity back to its
        product's stock; the first unknown product stops the loop. */
    method ReleaseAll(cart: seq<CartItem>) returns (r: Outcome)
      requires products.Valid()
      modifies products, products.products.Values
      ensures products.Valid() && products.products == old(products.products)
      ensures (r, products.Stocks()) == ReleaseCart(old(products.Stocks()), cart)
    {
      ghost var start := products.Stocks();
      r := Pass;
      var i := 0;
      while i < |cart|
        invariant 0 <= i <= |cart|
        invariant products.Valid() && products.products == old(products.products)
        invariant r == Pass && ReleaseCart(products.Stocks(), cart[i..]) == ReleaseCart(start, cart)
      {
        assert cart[i..][0] == cart[i] && cart[i..][1..] == cart[i + 1..];
        r := ReleaseItem(cart[i]);
        if r != Pass {
          return;
        }
        i := i + 1;
      }
      assert cart[i..] == [];
    }

    /** One step of the release loop: look the line's product up, give its
        stock back, and store the product back. */
    method ReleaseItem(item: CartItem) returns (r: Outcome)
      requires products.Valid()
      modifies products, products.products.Values
      ensures products.Valid() && products.products == old(products.products)
      ensures (r, products.Stocks()) == ReleaseLine(old(products.Stocks()), item)
    {
      var found := products.FindByID(item.product.id);
      if found.Err? {
        return Fail(found.error);
      }
      var p := found.value;
      ghost var before := products.Stocks();
      assert p.id == item.product.id && before[p.id] == p.quantity;
      p.RollbackQuantity(item.quantity);
      products.Update(p);
      StocksAfterWrite(p);
      return Pass;
    }

    /** Writing the stock of one stored product changes the stock counters
        at that product's ID only. */
    twostate lemma StocksAfterWrite(p: Product)
      requires old(products.Valid()) && p.id in old(products.products) && old(products.products[p.id]) == p
      requires products.products == old(products.products)
      requires forall k :: k in products.products && k != p.id ==>
        products.products[k].quantity == old(products.products[k].quantity)
      ensures products.Valid()
      ensures products.Stocks() == old(products.Stocks())[p.id := p.quantity]
    {
      forall k | k in products.products
        ensures products.Stocks()[k] == old(products.Stocks())[p.id := p.quantity][k]
      {
      }
    }
  }

  /** An open order of `CUSTOMER1` as the repository seeds it. */
  function SeededState(id: string, coupon: Coupon, cart: seq<CartItem>, price: real, after: real): OrderState
  {
    NewOrder(Customer1).(id := id, coupon := coupon, cart := cart, price := price, priceAfterReduction := after)
  }

  /** A fresh order object holding a seeded state. */
  method SeedOrder(id: string, coupon: Coupon, cart: seq<CartItem>, price: real, after: real) returns (o: Order)
    ensures fresh(o) && o.State() == SeededState(id, coupon, cart, price, after)
  {
    o := new Order(Customer1);
    o.id, o.coupon, o.cart := id, coupon, cart;
    o.price, o.priceAfterReduction := price, after;
  }
}
