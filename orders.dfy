/** The order aggregate: the cart, the applied coupon, the two prices, the
    status state machine, and the payment and shipping details.

    The value view `OrderState` and the functions over it specify each
    operation; the class `Order` holds the fields that the service updates in
    place, and its methods are proved against those functions. */
module Orders {
  import opened Errors
  import opened GoInt
  import opened Products
  import opened Coupons
  import opened Payments
  import opened Actors
  import opened Logistics

  datatype OrderStatus = Open | Submitted | Paid | Shipped | Completed | Cancelled {

    /** The display name of a status. */
    function String(): (s: string)
      ensures |s| > 7 && s[..7] == "Status "
      ensures this == Open ==> s[7..] == "Open"
      ensures this == Submitted ==> s[7..] == "Submitted"
      ensures this == Paid ==> s[7..] == "Paid"
      ensures this == Shipped ==> s[7..] == "Shipped"
      ensures this == Completed ==> s[7..] == "Completed"
      ensures this == Cancelled ==> s[7..] == "Cancelled"
    {
      match this
      case Open => "Status Open"
      case Submitted => "Status Submitted"
      case Paid => "Status Paid"
      case Shipped => "Status Shipped"
      case Completed => "Status Completed"
      case Cancelled => "Status Cancelled"
    }
  }

  /** A cart line: a reference to a product and the quantity wanted. */
  datatype CartItem = CartItem(product: Product, quantity: Int64)

  datatype OrderState = OrderState(
    id: string,
    coupon: Coupon,
    cart: seq<CartItem>,
    status: OrderStatus,
    price: real,
    priceAfterReduction: real,
    customer: Customer,
    paymentSpecification: PaymentSpecification,
    shippingId: ShippingId)

  /** The exact price of one cart line. */
  function LineTotal(item: CartItem): real {
    item.product.price * (item.quantity as real)
  }

  /** The sum of the line prices of a cart. */
  function CartTotal(cart: seq<CartItem>): real {
    if cart == [] then 0.0 else CartTotal(cart[..|cart| - 1]) + LineTotal(cart[|cart| - 1])
  }

  /** The total of two carts put end to end is the sum of their totals. */
  lemma {:induction false} CartTotalAppend(a: seq<CartItem>, b: seq<CartItem>)
    ensures CartTotal(a + b) == CartTotal(a) + CartTotal(b)
  {
    if b != [] {
      assert (a + b)[..|a + b| - 1] == a + b[..|b| - 1];
      CartTotalAppend(a, b[..|b| - 1]);
    } else {
      assert a + b == a;
    }
  }

  /** A cart whose prices and quantities are not negative has a total that
      is not negative. */
  lemma {:induction false} CartTotalNonNegative(cart: seq<CartItem>)
    requires forall i :: 0 <= i < |cart| ==> 0.0 <= cart[i].product.price && 0 <= cart[i].quantity
    ensures 0.0 <= CartTotal(cart)
  {
    if cart != [] {
      var last := cart[|cart| - 1];
      CartTotalNonNegative(cart[..|cart| - 1]);
      assert 0.0 <= last.product.price * (last.quantity as real);
    }
  }

  /** The position of the first line for product `id`, or `|cart|` if none. */
  function LineOf(cart: seq<CartItem>, id: string): (i: nat)
    ensures i <= |cart|
    ensures i < |cart| ==> cart[i].product.id == id
    ensures forall j :: 0 <= j < i ==> cart[j].product.id != id
  {
    if cart == [] then 0
    else if cart[0].product.id == id then 0
    else 1 + LineOf(cart[1..], id)
  }

  /** `LineOf` is the first position holding the product, whichever way
      that position was found. */
  lemma LineOfIsFirst(cart: seq<CartItem>, id: string, i: nat)
    requires i <= |cart|
    requires i < |cart| ==> cart[i].product.id == id
    requires forall j :: 0 <= j < i ==> cart[j].product.id != id
    ensures LineOf(cart, id) == i
  {
  }

  /** No two lines of the cart are for the same product. */
  predicate DistinctProducts(cart: seq<CartItem>) {
    forall i, j :: 0 <= i < j < |cart| ==> cart[i].product.id != cart[j].product.id
  }

  /** The cart after asking for `q` units of `p`: the first line already for
      that product gets the new quantity (last write wins, the line keeps its
      product reference), otherwise one line is appended at the end. */
  function CartWith(cart: seq<CartItem>, p: Product, q: Int64): (r: seq<CartItem>)
    ensures LineOf(cart, p.id) < |cart| ==> |r| == |cart|
    ensures LineOf(cart, p.id) == |cart| ==> r == cart + [CartItem(p, q)]
    ensures LineOf(r, p.id) == LineOf(cart, p.id) && r[LineOf(r, p.id)].quantity == q
    ensures LineOf(cart, p.id) < |cart| ==> r[LineOf(cart, p.id)] == cart[LineOf(cart, p.id)].(quantity := q)
    ensures forall j :: 0 <= j < |cart| && j != LineOf(cart, p.id) ==> r[j] == cart[j]
    ensures DistinctProducts(cart) ==> DistinctProducts(r)
  {
    var i := LineOf(cart, p.id);
    var r := if i < |cart| then cart[i := cart[i].(quantity := q)] else cart + [CartItem(p, q)];
    LineOfIsFirst(r, p.id, i);
    r
  }

  /** The order that `NewOrder` makes for a customer: open, with an empty
      cart, zero prices, no coupon, no payment, no shipping ID and no ID yet. */
  function NewOrder(customer: Customer): (s: OrderState)
    ensures s.status == Open && s.cart == [] && s.id == "" && s.customer == customer
    ensures s.price == 0.0 && s.priceAfterReduction == 0.0
    ensures s.coupon == NoCoupon && s.paymentSpecification == NoPayment && s.shippingId == ""
  {
    OrderState("", NoCoupon, [], Open, 0.0, 0.0, customer, NoPayment, "")
  }

  /** `CalculateTotalPrice`: the line totals are ADDED to the current price
      rather than replacing it, and the reduced price is recomputed only when
      a coupon is applied (otherwise it keeps its value). */
  function Recalculated(s: OrderState): (r: OrderState)
    ensures r.price == s.price + CartTotal(s.cart)
    ensures s.coupon == NoCoupon ==> r.priceAfterReduction == s.priceAfterReduction
    ensures s.coupon != NoCoupon ==> r.priceAfterReduction == GetPriceAfterReduction(s.coupon, r.price)
    ensures r.(price := s.price, priceAfterReduction := s.priceAfterReduction) == s
  {
    var price := s.price + CartTotal(s.cart);
    s.(price := price,
       priceAfterReduction := if s.coupon != NoCoupon then GetPriceAfterReduction(s.coupon, price)
                              else s.priceAfterReduction)
  }

  /** `AddProduct`: refused unless the order is open; a product already in the
      cart gets its quantity replaced and NO price is recomputed; a new product
      is appended and the prices are recalculated. */
  function AddProductTo(s: OrderState, p: Product, q: Int64): (r: (Outcome, OrderState))
    ensures s.status != Open ==> r == (Fail(ErrOrderIsAlreadyFinalized), s)
    ensures s.status == Open ==> r.0 == Pass && r.1.cart == CartWith(s.cart, p, q)
    ensures s.status == Open && LineOf(s.cart, p.id) < |s.cart| ==>
      r.1 == s.(cart := r.1.cart) && |r.1.cart| == |s.cart|
    ensures s.status == Open && LineOf(s.cart, p.id) == |s.cart| ==>
      |r.1.cart| == |s.cart| + 1 &&
      r.1.price == s.price + CartTotal(s.cart) + LineTotal(CartItem(p, q)) &&
      r.1 == Recalculated(s.(cart := r.1.cart))
  {
    if s.status != Open then (Fail(ErrOrderIsAlreadyFinalized), s)
    else if LineOf(s.cart, p.id) < |s.cart| then (Pass, s.(cart := CartWith(s.cart, p, q)))
    else
      var cart := s.cart + [CartItem(p, q)];
      assert cart[..|cart| - 1] == s.cart;
      (Pass, Recalculated(s.(cart := cart)))
  }

  /** `ApplyCoupon`: refused unless the order is open, then refused with the
      coupon's own validation error; otherwise the coupon replaces any earlier
      one (no stacking) and the prices are recalculated. */
  function ApplyCouponTo(s: OrderState, c: Coupon, now: Time): (r: (Outcome, OrderState))
    ensures s.status != Open ==> r == (Fail(ErrOrderIsAlreadyFinalized), s)
    ensures s.status == Open && Coupons.Validate(c, now) != Pass ==> r == (Coupons.Validate(c, now), s)
    ensures r.0 == Pass <==> s.status == Open && Coupons.Validate(c, now) == Pass
    ensures r.0 == Pass ==>
      r.1.coupon == c && r.1.cart == s.cart && r.1.status == s.status &&
      r.1.price == s.price + CartTotal(s.cart) &&
      r.1.priceAfterReduction == GetPriceAfterReduction(c, r.1.price)
    ensures r.0 == Pass ==>
      r.1.(coupon := s.coupon, price := s.price, priceAfterReduction := s.priceAfterReduction) == s
  {
    if s.status != Open then (Fail(ErrOrderIsAlreadyFinalized), s)
    else if Coupons.Validate(c, now) != Pass then (Coupons.Validate(c, now), s)
    else (Pass, Recalculated(s.(coupon := c)))
  }

  /** The guards of `ChangeStatusTo`, in the order they are checked. */
  function ChangeStatus(from: OrderStatus, to: OrderStatus): (r: Outcome)
    ensures from == Completed ==> r == Fail(ErrOrderIsAlreadyCompleted)
    ensures from != Completed && to == Submitted && from != Open ==> r == Fail(ErrOrderIsAlreadyFinalized)
    ensures from == to == Cancelled ==> r == Fail(ErrOrderIsAlreadyCanceled)
    ensures from == to == Shipped ==> r == Fail(ErrOrderIsAlreadyShipped)
    ensures r == Pass <==>
      && from != Completed
      && (to == Submitted ==> from == Open)
      && !(from == to == Cancelled)
      && !(from == to == Shipped)
  {
    if from == Completed then Fail(ErrOrderIsAlreadyCompleted)
    else if from != Open && to == Submitted then Fail(ErrOrderIsAlreadyFinalized)
    else if from == to && to == Cancelled then Fail(ErrOrderIsAlreadyCanceled)
    else if from == to && to == Shipped then Fail(ErrOrderIsAlreadyShipped)
    else Pass
  }

  /** The cart of one line for a product of price 500, five units, is worth 2500. */
  lemma FiveAt500(p: Product)
    requires p.price == 500.0
    ensures CartTotal([CartItem(p, 5)]) == 2500.0
  {
    assert [CartItem(p, 5)][..0] == [];
  }

  /** Five units of a product of price 500 put in a new order's cart give
      that order a price of 2500 and leave the reduced price at zero. */
  lemma AddToNewOrder(customer: Customer, p: Product)
    requires p.price == 500.0
    ensures var r := AddProductTo(NewOrder(customer), p, 5);
      && r.0 == Pass && r.1.cart == [CartItem(p, 5)]
      && r.1.price == 2500.0 && r.1.priceAfterReduction == 0.0
  {
    FiveAt500(p);
  }

  /** A valid 20% coupon applied to an open order of price zero whose cart
      is worth 2500 gives 2500 reduced to 2000. */
  lemma TwentyPercentOnZeroPricedCart(s: OrderState, p: Product, c: Coupon, now: Time)
    requires s.status == Open && s.price == 0.0 && s.cart == [CartItem(p, 5)] && p.price == 500.0
    requires c.kind == CouponTypePercentage && c.amount == 0.2 && Coupons.Validate(c, now) == Pass
    ensures var r := ApplyCouponTo(s, c, now);
      r.0 == Pass && r.1.price == 2500.0 && r.1.priceAfterReduction == 2000.0
  {
    FiveAt500(p);
  }

  /** Because each recalculation adds the whole cart again, putting five
      units at 500 in a new order and then applying a valid 20% coupon gives
      a price of 5000 (twice the cart) reduced to 4000. */
  lemma AddThenCouponCountsCartTwice(customer: Customer, p: Product, c: Coupon, now: Time)
    requires p.price == 500.0
    requires c.kind == CouponTypePercentage && c.amount == 0.2 && Coupons.Validate(c, now) == Pass
    ensures var added := AddProductTo(NewOrder(customer), p, 5).1;
      var applied := ApplyCouponTo(added, c, now);
      && applied.0 == Pass && CartTotal(applied.1.cart) == 2500.0
      && applied.1.price == 5000.0 && applied.1.priceAfterReduction == 4000.0
  {
    AddToNewOrder(customer, p);
    FiveAt500(p);
  }

  class Order {
    var id: string
    var coupon: Coupon
    var cart: seq<CartItem>
    var status: OrderStatus
    var price: real
    var priceAfterReduction: real
    var customer: Customer
    var paymentSpecification: PaymentSpecification
    var shippingId: ShippingId

    /** The value of the order's fields. */
    function State(): OrderState
      reads this
    {
      OrderState(id, coupon, cart, status, price, priceAfterReduction, customer,
                 paymentSpecification, shippingId)
    }

    /** `NewOrder`. */
    constructor (customer: Customer)
      ensures State() == NewOrder(customer)
    {
      id, coupon, cart, status := "", NoCoupon, [], Open;
      price, priceAfterReduction := 0.0, 0.0;
      this.customer := customer;
      paymentSpecification, shippingId := NoPayment, "";
    }

    method AddProduct(p: Product, quantity: Int64) returns (r: Outcome)
      modifies this`cart, this`price, this`priceAfterReduction
      ensures (r, State()) == AddProductTo(old(State()), p, quantity)
    {
      if status != Open {
        return Fail(ErrOrderIsAlreadyFinalized);
      }
      var i := 0;
      while i < |cart|
        invariant 0 <= i <= |cart|
        invariant forall j :: 0 <= j < i ==> cart[j].product.id != p.id
      {
        if cart[i].product.id == p.id {
          cart := cart[i := cart[i].(quantity := quantity)];
          return Pass;
        }
        i := i + 1;
      }
      cart := cart + [CartItem(p, quantity)];
      CalculateTotalPrice();
      return Pass;
    }

    method ApplyCoupon(c: Coupon, now: Time) returns (r: Outcome)
      modifies this`coupon, this`price, this`priceAfterReduction
      ensures (r, State()) == ApplyCouponTo(old(State()), c, now)
    {
      if status != Open {
        return Fail(ErrOrderIsAlreadyFinalized);
      }
      r := Coupons.Validate(c, now);
      if r != Pass {
        return;
      }
      coupon := c;
      CalculateTotalPrice();
    }

    method ChangeStatusTo(target: OrderStatus) returns (r: Outcome)
      modifies this`status
      ensures r == ChangeStatus(old(status), target)
      ensures status == if r == Pass then target else old(status)
    {
      if status == Completed {
        return Fail(ErrOrderIsAlreadyCompleted);
      }
      if status != Open && target == Submitted {
        return Fail(ErrOrderIsAlreadyFinalized);
      }
      if status == target && target == Cancelled {
        return Fail(ErrOrderIsAlreadyCanceled);
      }
      if status == target && target == Shipped {
        return Fail(ErrOrderIsAlreadyShipped);
      }
      status := target;
      return Pass;
    }

    method CalculateTotalPrice()
      modifies this`price, this`priceAfterReduction
      ensures State() == Recalculated(old(State()))
    {
      ghost var start := price;
      var i := 0;
      while i < |cart|
        invariant 0 <= i <= |cart|
        invariant price == start + CartTotal(cart[..i])
        invariant priceAfterReduction == old(priceAfterReduction)
      {
        assert cart[..i + 1][..i] == cart[..i];
        price := price + cart[i].product.price * (cart[i].quantity as real);
        i := i + 1;
      }
      assert cart[..i] == cart;
      if coupon != NoCoupon {
        priceAfterReduction := GetPriceAfterReduction(coupon, price);
      }
    }

    /** The payment policy: payment is allowed only for a submitted order. */
    function AllowMakePayment(): (b: bool)
      reads this
      ensures b <==> status == Submitted
    {
      status == Submitted
    }

    method SpecifyNewPayment(ps: PaymentSpecification)
      modifies this`paymentSpecification
      ensures paymentSpecification == ps
    {
      paymentSpecification := ps;
    }

    method SpecifyShippingID(sid: ShippingId)
      modifies this`shippingId
      ensures shippingId == sid
    {
      shippingId := sid;
    }
  }
}
