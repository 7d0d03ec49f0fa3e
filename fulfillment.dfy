/** What submitting and cancelling an order do to the coupon and stock
    ledgers, as pure functions: the specification that the order
    repository's `FinalizeAndReserveProducts` and `CancelAndReleaseProducts`
    are proved against.

    Neither operation is atomic: the coupon counter is charged before any
    product is looked at, and a failure part-way through the cart leaves the
    lines before it reserved. */
module Fulfillment {
  import opened Errors
  import opened GoInt
  import opened Products
  import opened Coupons
  import opened Orders

  /** The coupon counters by code and the stock counters by product ID. */
  datatype Ledgers = Ledgers(coupons: map<string, Coupon>, stocks: map<string, Int64>)

  /** The total quantity the cart asks for of product `id`, over all lines. */
  function QtySum(cart: seq<CartItem>, id: string): int {
    if cart == [] then 0
    else (if cart[0].product.id == id then cart[0].quantity as int else 0) + QtySum(cart[1..], id)
  }

  /** Every line of the cart names a product that has a stock counter. */
  predicate AllKnown(stocks: map<string, Int64>, cart: seq<CartItem>) {
    forall i :: 0 <= i < |cart| ==> cart[i].product.id in stocks
  }

  /** Reserves one cart line: the product must have a counter and enough
      stock for the line; on success the line's quantity is taken. */
  function ReserveLine(stocks: map<string, Int64>, item: CartItem): (r: (Outcome, map<string, Int64>))
    ensures r.0 == Pass <==> item.product.id in stocks && item.quantity <= stocks[item.product.id]
    ensures item.product.id !in stocks ==> r == (Fail(ErrProductNotFound), stocks)
    ensures item.product.id in stocks && stocks[item.product.id] < item.quantity ==>
      r == (Fail(ErrQuantityExceedProductStock), stocks)
    ensures r.0 == Pass ==>
      r.1 == stocks[item.product.id := Sub(stocks[item.product.id], item.quantity)]
  {
    var id, q := item.product.id, item.quantity;
    if id !in stocks then (Fail(ErrProductNotFound), stocks)
    else if stocks[id] < q then (Fail(ErrQuantityExceedProductStock), stocks)
    else (Pass, stocks[id := Sub(stocks[id], q)])
  }

  /** Gives one cart line back, with no stock check: the product must have a
      counter, which gets the line's quantity added. */
  function ReleaseLine(stocks: map<string, Int64>, item: CartItem): (r: (Outcome, map<string, Int64>))
    ensures r.0 == Pass <==> item.product.id in stocks
    ensures item.product.id !in stocks ==> r == (Fail(ErrProductNotFound), stocks)
    ensures r.0 == Pass ==>
      r.1 == stocks[item.product.id := Add(stocks[item.product.id], item.quantity)]
  {
    var id := item.product.id;
    if id !in stocks then (Fail(ErrProductNotFound), stocks)
    else (Pass, stocks[id := Add(stocks[id], item.quantity)])
  }

  /** Reserves the cart line by line: the first line that fails stops the
      walk with its error, keeping the reservations already made. */
  function ReserveCart(stocks: map<string, Int64>, cart: seq<CartItem>): (r: (Outcome, map<string, Int64>))
    ensures r.1.Keys == stocks.Keys
    ensures r.0 == Pass ==> AllKnown(stocks, cart)
    ensures r.0 != Pass ==> r.0 == Fail(ErrProductNotFound) || r.0 == Fail(ErrQuantityExceedProductStock)
  {
    if cart == [] then (Pass, stocks)
    else
      var first := ReserveLine(stocks, cart[0]);
      if first.0 != Pass then first else ReserveCart(first.1, cart[1..])
  }

  /** Gives the cart back line by line; only a missing product stops the
      walk. */
  function ReleaseCart(stocks: map<string, Int64>, cart: seq<CartItem>): (r: (Outcome, map<string, Int64>))
    ensures r.1.Keys == stocks.Keys
    ensures r.0 == Pass <==> AllKnown(stocks, cart)
    ensures r.0 != Pass ==> r.0 == Fail(ErrProductNotFound)
  {
    if cart == [] then (Pass, stocks)
    else
      var first := ReleaseLine(stocks, cart[0]);
      if first.0 != Pass then first else ReleaseCart(first.1, cart[1..])
  }

  /** `FinalizeAndReserveProducts` on the ledgers: the order's coupon must
      exist; its counter goes down by one whatever happens next, then the
      cart is reserved. */
  function FinalizeAndReserve(l: Ledgers, code: string, cart: seq<CartItem>): (r: (Outcome, Ledgers))
    ensures code !in l.coupons ==> r == (Fail(ErrCouponNotFound), l)
    ensures code in l.coupons ==>
      r.1.coupons == l.coupons[code := l.coupons[code].(quantity := Sub(l.coupons[code].quantity, 1))]
    ensures code in l.coupons ==> (r.0, r.1.stocks) == ReserveCart(l.stocks, cart)
    ensures r.1.coupons.Keys == l.coupons.Keys && r.1.stocks.Keys == l.stocks.Keys
  {
    if code !in l.coupons then (Fail(ErrCouponNotFound), l)
    else
      var c := l.coupons[code];
      var coupons := l.coupons[code := c.(quantity := Sub(c.quantity, 1))];
      var reserved := ReserveCart(l.stocks, cart);
      (reserved.0, Ledgers(coupons, reserved.1))
  }

  /** `CancelAndReleaseProducts` on the ledgers: the order's coupon must
      exist; its counter goes up by one, then the cart is given back. */
  function CancelAndRelease(l: Ledgers, code: string, cart: seq<CartItem>): (r: (Outcome, Ledgers))
    ensures code !in l.coupons ==> r == (Fail(ErrCouponNotFound), l)
    ensures code in l.coupons ==>
      r.1.coupons == l.coupons[code := l.coupons[code].(quantity := Add(l.coupons[code].quantity, 1))]
    ensures code in l.coupons ==> (r.0, r.1.stocks) == ReleaseCart(l.stocks, cart)
    ensures r.0 == Pass <==> code in l.coupons && AllKnown(l.stocks, cart)
    ensures r.1.coupons.Keys == l.coupons.Keys && r.1.stocks.Keys == l.stocks.Keys
  {
    if code !in l.coupons then (Fail(ErrCouponNotFound), l)
    else
      var c := l.coupons[code];
      var coupons := l.coupons[code := c.(quantity := Add(c.quantity, 1))];
      var released := ReleaseCart(l.stocks, cart);
      (released.0, Ledgers(coupons, released.1))
  }

  /** The stock of product `k` once every line of the cart for `k` has been
      taken from `s`, in order, in int64 arithmetic. */
  function Taken(s: Int64, cart: seq<CartItem>, k: string): Int64
    decreases |cart|
  {
    if cart == [] then s
    else Taken(if cart[0].product.id == k then Sub(s, cart[0].quantity) else s, cart[1..], k)
  }

  /** The stock of product `k` once every line of the cart for `k` has been
      given back to `s`, in order, in int64 arithmetic. */
  function Given(s: Int64, cart: seq<CartItem>, k: string): Int64
    decreases |cart|
  {
    if cart == [] then s
    else Given(if cart[0].product.id == k then Add(s, cart[0].quantity) else s, cart[1..], k)
  }

  /** A successful reservation leaves each product with its stock minus the
      quantities of the lines that name it. */
  lemma {:induction false} ReserveCartPerProduct(stocks: map<string, Int64>, cart: seq<CartItem>, k: string)
    requires ReserveCart(stocks, cart).0 == Pass && k in stocks
    ensures ReserveCart(stocks, cart).1[k] == Taken(stocks[k], cart, k)
  {
    if cart != [] {
      var first := ReserveLine(stocks, cart[0]);
      ReserveCartPerProduct(first.1, cart[1..], k);
    }
  }

  /** A release of known products leaves each product with its stock plus
      the quantities of the lines that name it. */
  lemma {:induction false} ReleaseCartPerProduct(stocks: map<string, Int64>, cart: seq<CartItem>, k: string)
    requires AllKnown(stocks, cart) && k in stocks
    ensures ReleaseCart(stocks, cart).1[k] == Given(stocks[k], cart, k)
  {
    if cart != [] {
      var first := ReleaseLine(stocks, cart[0]);
      assert AllKnown(first.1, cart[1..]) by {
        forall i | 0 <= i < |cart[1..]|
          ensures cart[1..][i].product.id in first.1
        {
          assert cart[1..][i] == cart[i + 1];
        }
      }
      ReleaseCartPerProduct(first.1, cart[1..], k);
    }
  }

  /** Taking the lines of a cart commutes with giving back an amount first. */
  lemma {:induction false} TakenAfterAdd(y: Int64, q: Int64, cart: seq<CartItem>, k: string)
    ensures Taken(Add(y, q), cart, k) == Add(Taken(y, cart, k), q)
    decreases |cart|
  {
    if cart != [] {
      if cart[0].product.id == k {
        SubAddCommute(y, q, cart[0].quantity);
        TakenAfterAdd(Sub(y, cart[0].quantity), q, cart[1..], k);
      } else {
        TakenAfterAdd(y, q, cart[1..], k);
      }
    }
  }

  /** Giving back the lines of a cart undoes taking them, overflow or not. */
  lemma {:induction false} GivenUndoesTaken(s: Int64, cart: seq<CartItem>, k: string)
    ensures Given(Taken(s, cart, k), cart, k) == s
    decreases |cart|
  {
    if cart != [] {
      var q, rest := cart[0].quantity, cart[1..];
      if cart[0].product.id == k {
        TakenAfterAdd(Sub(s, q), q, rest, k);
        SubThenAdd(s, q);
      }
      GivenUndoesTaken(s, rest, k);
    }
  }

  /** What is taken from one product is its total demand, reduced to int64. */
  lemma {:induction false} TakenIsDemand(s: Int64, cart: seq<CartItem>, k: string)
    ensures Taken(s, cart, k) == Wrap(s - QtySum(cart, k))
    decreases |cart|
  {
    if cart != [] {
      var q, rest := cart[0].quantity, cart[1..];
      var d := QtySum(rest, k);
      if cart[0].product.id == k {
        TakenIsDemand(Sub(s, q), rest, k);
        assert QtySum(cart, k) == q + d;
        WrapShift(s as int - q as int, -d);
      } else {
        TakenIsDemand(s, rest, k);
        assert QtySum(cart, k) == d;
        WrapShift(s as int, -d);
      }
    }
  }

  /** Releasing what was reserved restores every stock counter exactly,
      even where the int64 arithmetic wrapped around. */
  lemma ReleaseUndoesReserve(stocks: map<string, Int64>, cart: seq<CartItem>)
    requires ReserveCart(stocks, cart).0 == Pass
    ensures ReleaseCart(ReserveCart(stocks, cart).1, cart) == (Pass, stocks)
  {
    var reserved := ReserveCart(stocks, cart).1;
    assert AllKnown(reserved, cart);
    var released := ReleaseCart(reserved, cart).1;
    forall k | k in stocks
      ensures released[k] == stocks[k]
    {
      ReserveCartPerProduct(stocks, cart, k);
      ReleaseCartPerProduct(reserved, cart, k);
      GivenUndoesTaken(stocks[k], cart, k);
    }
    assert released == stocks;
  }

  /** Cancelling an order that was submitted successfully restores both
      ledgers: the coupon counter and every stock counter. */
  lemma CancelUndoesFinalize(l: Ledgers, code: string, cart: seq<CartItem>)
    requires FinalizeAndReserve(l, code, cart).0 == Pass
    ensures CancelAndRelease(FinalizeAndReserve(l, code, cart).1, code, cart) == (Pass, l)
  {
    var c := l.coupons[code];
    var charged := l.coupons[code := c.(quantity := Sub(c.quantity, 1))];
    var reserved := ReserveCart(l.stocks, cart);
    assert FinalizeAndReserve(l, code, cart).1 == Ledgers(charged, reserved.1);
    ReleaseUndoesReserve(l.stocks, cart);
    RefundUndoesCharge(l.coupons, code);
  }

  /** Giving a use of a coupon back after taking one restores the coupon
      ledger, even where the counter wrapped around. */
  lemma RefundUndoesCharge(coupons: map<string, Coupon>, code: string)
    requires code in coupons
    ensures var c := coupons[code];
      var charged := coupons[code := c.(quantity := Sub(c.quantity, 1))];
      charged[code := charged[code].(quantity := Add(charged[code].quantity, 1))] == coupons
  {
    var c := coupons[code];
    SubThenAdd(c.quantity, 1);
    assert c.(quantity := Add(Sub(c.quantity, 1), 1)) == c;
  }

  /** A total over the lines is never negative when no quantity is. */
  lemma {:induction false} QtySumNonNegative(cart: seq<CartItem>, id: string)
    requires forall i :: 0 <= i < |cart| ==> 0 <= cart[i].quantity
    ensures 0 <= QtySum(cart, id)
  {
    if cart != [] {
      QtySumNonNegative(cart[1..], id);
    }
  }

  /** With no negative quantities and no negative stock, the reservation
      succeeds exactly when every product of the cart is known and its stock
      covers the total quantity the cart asks for. */
  lemma {:induction false} ReserveSucceedsIffStockCovers(stocks: map<string, Int64>, cart: seq<CartItem>)
    requires forall i :: 0 <= i < |cart| ==> 0 <= cart[i].quantity
    requires forall k :: k in stocks ==> 0 <= stocks[k]
    ensures ReserveCart(stocks, cart).0 == Pass <==>
      forall i :: 0 <= i < |cart| ==>
        cart[i].product.id in stocks && QtySum(cart, cart[i].product.id) <= stocks[cart[i].product.id]
  {
    if cart != [] {
      var id, q := cart[0].product.id, cart[0].quantity;
      var rest := cart[1..];
      QtySumNonNegative(rest, id);
      if id in stocks && q <= stocks[id] {
        var next := stocks[id := Sub(stocks[id], q)];
        assert next[id] == stocks[id] - q;
        ReserveSucceedsIffStockCovers(next, rest);
        forall k | k != id
          ensures QtySum(cart, k) == QtySum(rest, k)
        {
        }
        if ReserveCart(next, rest).0 == Pass {
          forall i | 0 <= i < |cart|
            ensures cart[i].product.id in stocks && QtySum(cart, cart[i].product.id) <= stocks[cart[i].product.id]
          {
            if i > 0 {
              assert rest[i - 1] == cart[i];
            } else if exists j :: 0 <= j < |rest| && rest[j].product.id == id {
            } else {
              QtySumAbsent(rest, id);
            }
          }
        } else {
          var j :| 0 <= j < |rest| &&
            !(rest[j].product.id in next && QtySum(rest, rest[j].product.id) <= next[rest[j].product.id]);
          assert cart[j + 1] == rest[j];
        }
      }
    }
  }

  /** A product that no line names has a total demand of zero. */
  lemma {:induction false} QtySumAbsent(cart: seq<CartItem>, id: string)
    requires forall j :: 0 <= j < |cart| ==> cart[j].product.id != id
    ensures QtySum(cart, id) == 0
  {
    if cart != [] {
      assert forall j :: 0 <= j < |cart[1..]| ==> cart[1..][j] == cart[j + 1];
      QtySumAbsent(cart[1..], id);
    }
  }

  /** With no negative quantities, a successful reservation never takes a
      non-negative stock below zero and never raises any stock. */
  lemma {:induction false} ReserveKeepsStockNonNegative(stocks: map<string, Int64>, cart: seq<CartItem>)
    requires forall i :: 0 <= i < |cart| ==> 0 <= cart[i].quantity
    requires forall k :: k in stocks ==> 0 <= stocks[k]
    requires ReserveCart(stocks, cart).0 == Pass
    ensures forall k :: k in stocks ==> 0 <= ReserveCart(stocks, cart).1[k] <= stocks[k]
  {
    if cart != [] {
      var id, q := cart[0].product.id, cart[0].quantity;
      var next := stocks[id := Sub(stocks[id], q)];
      ReserveAfterCheck(stocks[id], q);
      ReserveKeepsStockNonNegative(next, cart[1..]);
    }
  }

  /** A failed reservation is not rolled back: it leaves exactly the stocks
      that reserving some proper prefix of the cart would leave. */
  lemma {:induction false} FailedReserveKeepsPrefix(stocks: map<string, Int64>, cart: seq<CartItem>)
    requires ReserveCart(stocks, cart).0 != Pass
    ensures exists n :: (0 <= n < |cart| &&
      ReserveCart(stocks, cart[..n]) == (Pass, ReserveCart(stocks, cart).1))
  {
    var id, q := cart[0].product.id, cart[0].quantity;
    if id !in stocks || stocks[id] < q {
      assert cart[..0] == [];
    } else {
      var next := stocks[id := Sub(stocks[id], q)];
      FailedReserveKeepsPrefix(next, cart[1..]);
      var n :| 0 <= n < |cart[1..]| && ReserveCart(next, cart[1..][..n]) == (Pass, ReserveCart(next, cart[1..]).1);
      assert cart[..n + 1][1..] == cart[1..][..n];
      assert ReserveCart(stocks, cart[..n + 1]) == ReserveCart(next, cart[1..][..n]);
    }
  }

  /** A concrete partial reservation: 3 units of a product with stock 10 are
      taken, then the next line fails on a product with no stock, and the 3
      units stay taken. */
  lemma PartialReservationExample(a: Product, b: Product)
    requires a.id == "A" && b.id == "B"
    ensures var stocks := map["A" := 10, "B" := 0];
      ReserveCart(stocks, [CartItem(a, 3), CartItem(b, 1)]) ==
        (Fail(ErrQuantityExceedProductStock), map["A" := 7, "B" := 0])
  {
    var stocks: map<string, Int64> := map["A" := 10, "B" := 0];
    var cart := [CartItem(a, 3), CartItem(b, 1)];
    assert cart[1..] == [CartItem(b, 1)];
    assert stocks["A" := Sub(10, 3)] == map["A" := 7, "B" := 0];
  }

  /** An order with no coupon (the zero coupon has the empty code) cannot be
      finalized unless a coupon is stored under the empty code. */
  lemma FinalizeNeedsCoupon(l: Ledgers, cart: seq<CartItem>)
    requires NoCoupon.code !in l.coupons
    ensures FinalizeAndReserve(l, NoCoupon.code, cart) == (Fail(ErrCouponNotFound), l)
  {
  }
}
