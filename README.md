# Order transactions, modelled in Dafny

This project models the domain core of a small order-transaction service,
`github.com/muktihari/order-transaction-ddd`. A customer makes an order,
puts products in its cart, applies a discount coupon, submits the order
and pays for it. An administrator can cancel the order or ship it through
a logistics partner.

When an order is submitted, the order repository takes one use of the
order's coupon and reserves each cart line against the live product
stock. Cancelling gives the coupon use and the stock back.

The model follows the Go code's own shape:

- **Values.** Coupons, customers and payment specifications are values
  (`datatype`).
- **Objects.** Orders and products are objects (`class`), because the
  in-memory repositories hand out the stored object itself. A change made through
  a loaded order or product is therefore already visible in the store.
- **Repositories.** The product, coupon, order and logistics repositories
  are classes holding a `map` field that their methods reassign. The
  customer and admin repositories are only ever read, so they are values
  (`datatype`) holding a `map`.
- **Services.** The two services are classes whose methods call the
  repositories in the source's order and return at the first error.

The behaviour of each operation is specified by pure functions over value
views, and the imperative methods are proved against them:

- `Orders.OrderState` and `Order.State()` give the value view of an order.
- `Fulfillment.Ledgers` holds the coupon and stock counters.
- The lemmas about those functions state the properties the code promises
  or exhibits.

Modules, one per file:

| module | file | models |
|---|---|---|
| `Errors` | errors.dfy | the sentinel errors; `Outcome` stands for `error`, `Result<T>` for `(T, error)` |
| `GoInt` | goint.dfy | int64 `+` and `-`, with two's-complement wrap-around |
| `Products` | products.dfy | `Product`, with its stock check, reservation and rollback |
| `Coupons` | coupons.dfy | `Coupon`, its validation and its price reduction |
| `Payments` | payments.dfy | `PaymentSpecification.Validate`, with unpadded base64 |
| `Actors`, `Logistics` | actors.dfy, logistics.dfy | customer, admin and shipment-status types |
| `Orders` | orders.dfy | the order aggregate and its status machine |
| `Fulfillment` | fulfillment.dfy | the coupon and stock ledgers, as the coordinator changes them |
| `InmemActors`, `InmemProducts`, `InmemCoupons`, `InmemLogistics`, `InmemOrders` | inmem_*.dfy | the in-memory repositories and their seeds |
| `Ordering`, `Handling` | ordering.dfy, handling.dfy | the two application services |

Arithmetic and identifiers:

- **Decimal amounts** (`shopspring/decimal`) are exact, so they are Dafny
  `real`.
- **Stock and coupon quantities** are Go `int64`/`int`. They are `GoInt.Int64`,
  and `-`/`+` on them wrap around as in Go.
- **The current time** is a parameter `now`: nanoseconds as an `int`.
- **Fresh identifiers** are parameters `freshId`. These come from uuid
  generation for stored orders and shipments.

## Model

| member | source | states |
|---|---|---|
| `Orders.OrderStatus.String` | transaction/order.go:61-77 | every status displays as "Status " followed by its own name, stated status by status |
| `Orders.LineOf` | transaction/order.go:93-98 | the index found is the first cart line for the product, or the cart length when no line is for it |
| `Orders.LineOfIsFirst` | transaction/order.go:93-98 | any index that is the first line for the product is the one `LineOf` finds |
| `Orders.CartWith` | transaction/order.go:89-102 | an existing line for the product keeps its place and its product and gets the new quantity (last write wins), while every other line stays; otherwise one line is appended; no product ever gets two lines |
| `Orders.CartTotalAppend` | transaction/order.go:136-139 | the cart total of two carts put end to end is the sum of their totals |
| `Orders.CartTotalNonNegative` | transaction/order.go:136-139 | with no negative prices or quantities the cart total is not negative |
| `Orders.NewOrder` | transaction/order.go:80-86 | a new order is open, with an empty cart, zero prices, no coupon, no payment, no shipping ID, an empty ID and the given customer |
| `Orders.Recalculated` | transaction/order.go:136-143 | the whole cart total is added to the current price; the reduced price follows the coupon only when a coupon is applied; nothing else changes |
| `Orders.AddProductTo` | transaction/order.go:89-102 | a non-open order is refused with `ErrOrderIsAlreadyFinalized` and left unchanged; an existing line gets the new quantity and no price is recomputed; a new product is appended and the price grows by the whole cart total |
| `Orders.ApplyCouponTo` | transaction/order.go:105-115 | a non-open order or an invalid coupon is refused with that error and nothing changes; otherwise the coupon replaces the previous one and the prices are recalculated, and every other field (ID, cart, status, customer, payment, shipping ID) stays |
| `Orders.ChangeStatus` | transaction/order.go:118-133 | the four guards, in order, each with its own error (`ErrOrderIsAlreadyCompleted`, `ErrOrderIsAlreadyFinalized`, `ErrOrderIsAlreadyCanceled`, `ErrOrderIsAlreadyShipped`); the change succeeds exactly when the status is not `Completed`, `Submitted` is only reached from `Open`, and neither `Cancelled` nor `Shipped` is re-entered |
| `Orders.FiveAt500` | transaction/order.go:136-139 | five units at a price of 500 are worth 2500 |
| `Orders.AddToNewOrder` | ordering/service_test.go:74-86 | five units at 500 put in a new order give a one-line cart and a price of 2500 |
| `Orders.TwentyPercentOnZeroPricedCart` | ordering/service_test.go:126-146 | a valid 20% coupon on an open order of price 0 whose cart is worth 2500 gives 2500, reduced to 2000 |
| `Orders.AddThenCouponCountsCartTwice` | transaction/order.go:136-143 | adding five units at 500 to a new order and then applying a valid 20% coupon gives a price of 5000 (twice the cart), reduced to 4000 |
| `Orders.Order.constructor` | transaction/order.go:80-86 | a new order object holds the state `NewOrder` describes |
| `Orders.Order.AddProduct` | transaction/order.go:89-102 | the loop over the cart and the append end in the outcome and state that `AddProductTo` gives |
| `Orders.Order.ApplyCoupon` | transaction/order.go:105-115 | the new state and the outcome are those of `ApplyCouponTo` |
| `Orders.Order.ChangeStatusTo` | transaction/order.go:118-133 | returns the `ChangeStatus` outcome; the status becomes the target on success and is unchanged on error |
| `Orders.Order.CalculateTotalPrice` | transaction/order.go:136-143 | the accumulation loop leaves the state `Recalculated` describes |
| `Orders.Order.AllowMakePayment` | transaction/order.go:146-148 | payment is allowed exactly when the order is submitted |
| `Orders.Order.SpecifyNewPayment` | transaction/order.go:151-153 | the payment specification is replaced, and nothing else changes |
| `Orders.Order.SpecifyShippingID` | transaction/order.go:156-158 | the shipping ID is replaced, and nothing else changes |
| `Products.Product.TryReserveQuantity` | transaction/product.go:26-31 | passes exactly when the request does not exceed the stock, and fails with `ErrQuantityExceedProductStock` otherwise; it reads but never writes |
| `Products.Product.ReserveQuantity` | transaction/product.go:34-36 | the stock becomes the int64 difference, unconditionally; only the quantity changes |
| `Products.Product.RollbackQuantity` | transaction/product.go:39-41 | the stock becomes the int64 sum, unconditionally; only the quantity changes |
| `Products.ReserveAfterCheck` | transaction/product.go:26-36 | after a passed check with a non-negative request, a non-negative stock stays within [0, stock] with no wrap-around |
| `Products.NegativeReserveCanWrap` | transaction/product.go:26-36 | a negative request passes the check and can wrap the stock to a negative value |
| `GoInt.WrapIsCongruent` | transaction/product.go:34-41 | wrapping changes a value by a multiple of 2^64 |
| `GoInt.WrapShift` | transaction/product.go:34-41 | wrapping an intermediate result does not change the final wrapped value |
| `GoInt.SubThenAdd` | transaction/product.go:34-41 | a rollback of the amount reserved restores the stock, even across wrap-around |
| `GoInt.AddThenSub` | persistent/inmem/order.go:141-142 | taking a coupon use after giving one back restores the counter |
| `GoInt.SubOfAdd` | transaction/product.go:34-41 | an int64 addition followed by a subtraction wraps once, at the end |
| `GoInt.AddOfSub` | transaction/product.go:34-41 | an int64 subtraction followed by an addition wraps once, at the end |
| `GoInt.SubAddCommute` | transaction/product.go:34-41 | adding one amount and subtracting another give the same result in either order |
| `GoInt.SubCanWrapNegative` | transaction/product.go:34-36 | 1 minus -(2^63-1) wraps to the smallest int64 |
| `Coupons.Validate` | transaction/coupon.go:49-58 | passes exactly when the quantity is not zero and `now` is in the closed interval [begin, end]; otherwise `ErrInvalidCoupon` |
| `Coupons.GetPriceAfterReduction` | transaction/coupon.go:61-69 | nominal subtracts the amount, percentage subtracts that fraction of the price, and any other kind leaves the price |
| `Coupons.PercentageStaysWithinPrice` | transaction/coupon.go:61-69 | a percentage in [0, 1] keeps a non-negative price within [0, price] |
| `Coupons.ValidCouponIsNotNoCoupon` | transaction/coupon.go:49-58 | the zero coupon never validates |
| `Coupons.NegativeQuantityValidates` | transaction/coupon.go:50-52 | a negative quantity still validates inside the window |
| `Coupons.NominalIsNotClamped` | transaction/coupon.go:63-64 | a nominal amount above the price gives a negative price |
| `Coupons.TwentyPercentOf2500` | transaction/coupon.go:65-66 | 20% off 2500 leaves 2000 |
| `Payments.StripLineBreaks` | transaction/payment.go:40 | the result has no line breaks, is no longer than the input, and is the input itself when there was none |
| `Payments.Validate` | transaction/payment.go:36-46 | the type is checked first (`ErrPaymentTypeNotAllowed`); a bank transfer passes exactly when the proof decodes, and otherwise fails with `ErrPaymentProofIsNotBase64EncodedString` |
| `Payments.EmptyProofDecodes` | transaction/payment.go:40-45 | the empty proof decodes |
| `Payments.PaddedProofIsRefused` | transaction/payment.go:40-43 | a proof holding `=` never decodes |
| `Payments.LineBreaksAreSkipped` | transaction/payment.go:40 | leading line breaks do not count towards the encoded length |
| `Fulfillment.ReserveLine` | persistent/inmem/order.go:113-124 | an unknown product fails with `ErrProductNotFound` and a short stock with `ErrQuantityExceedProductStock`, in both cases with nothing changed; otherwise only that product's stock drops by the quantity |
| `Fulfillment.ReleaseLine` | persistent/inmem/order.go:147-154 | an unknown product fails and nothing changes; otherwise only that product's stock grows by the quantity, with no check |
| `Fulfillment.ReserveCart` | persistent/inmem/order.go:112-127 | the products are kept; success means every line's product is known; a failure is one of the two line errors |
| `Fulfillment.ReleaseCart` | persistent/inmem/order.go:146-155 | the products are kept; it succeeds exactly when every line's product is known |
| `Fulfillment.FinalizeAndReserve` | persistent/inmem/order.go:98-130 | an unknown coupon code fails with `ErrCouponNotFound` and nothing changes; otherwise the coupon loses one use and the cart is reserved, whatever the reservation's outcome |
| `Fulfillment.CancelAndRelease` | persistent/inmem/order.go:132-159 | an unknown coupon fails and nothing changes; otherwise the coupon gains one use and the cart is released; it succeeds exactly when the coupon and every product are known |
| `Fulfillment.ReserveCartPerProduct` | persistent/inmem/order.go:112-127 | after a successful reservation, each product's stock is its old stock with its own lines taken in turn |
| `Fulfillment.ReleaseCartPerProduct` | persistent/inmem/order.go:146-155 | after a release, each product's stock is its old stock with its own lines given back in turn |
| `Fulfillment.TakenAfterAdd` | transaction/product.go:34-41 | taking a cart's lines commutes with first giving an amount back |
| `Fulfillment.GivenUndoesTaken` | transaction/product.go:34-41 | giving back a product's lines undoes taking them, even across wrap-around |
| `Fulfillment.TakenIsDemand` | persistent/inmem/order.go:112-127 | what a reservation takes from a product is its total demand in the cart, reduced to int64 |
| `Fulfillment.ReleaseUndoesReserve` | persistent/inmem/order.go:112-127 | releasing a successfully reserved cart restores every stock counter exactly |
| `Fulfillment.CancelUndoesFinalize` | persistent/inmem/order.go:98-159 | cancelling after a successful submit restores both ledgers exactly: the coupon counter and every stock counter |
| `Fulfillment.RefundUndoesCharge` | persistent/inmem/order.go:107-108 | giving a coupon use back after taking one restores the coupon ledger |
| `Fulfillment.QtySumNonNegative` | persistent/inmem/order.go:112-127 | with no negative quantities, a product's total demand is not negative |
| `Fulfillment.ReserveSucceedsIffStockCovers` | persistent/inmem/order.go:112-127 | with no negative quantities or stocks, a reservation succeeds exactly when every line's product is known and its stock covers its total demand in the cart |
| `Fulfillment.QtySumAbsent` | persistent/inmem/order.go:112-127 | a product that no line names has zero demand |
| `Fulfillment.ReserveKeepsStockNonNegative` | persistent/inmem/order.go:112-127 | with no negative quantities, a successful reservation keeps each stock within [0, old stock] |
| `Fulfillment.FailedReserveKeepsPrefix` | persistent/inmem/order.go:102-125 | a failed reservation is not rolled back: its stocks are those of a successful reservation of a proper prefix of the cart |
| `Fulfillment.PartialReservationExample` | persistent/inmem/order.go:102-125 | taking 3 of 10 and then failing on an empty product leaves 7 |
| `Fulfillment.FinalizeNeedsCoupon` | persistent/inmem/order.go:103-106 | an order with no coupon (empty code) cannot be submitted unless a coupon is stored under the empty code; nothing changes |
| `InmemProducts.ProductRepository.Stocks` | persistent/inmem/product.go:11-15 | the stock counters are indexed by exactly the stored product IDs |
| `InmemProducts.ProductRepository.constructor` | persistent/inmem/product.go:17-24 | exactly PRODUCT1 (500, stock 200) and PRODUCT2 (5, stock 2000) |
| `InmemProducts.ProductRepository.FindByID` | persistent/inmem/product.go:26-33 | the stored object for a known ID, and `ErrProductNotFound` otherwise |
| `InmemProducts.ProductRepository.FindAll` | persistent/inmem/product.go:35-43 | one copy of every stored product, each exactly once, and as many as are stored |
| `InmemProducts.ProductRepository.Update` | persistent/inmem/product.go:45-50 | the product is stored under its ID; the other entries stay |
| `InmemCoupons.CouponRepository.constructor` | persistent/inmem/coupon.go:18-39 | exactly `DISCOUNT_$5` and `DISCOUNT_20%`, each with 100 uses and valid for ten days from `now` |
| `InmemCoupons.CouponRepository.FindByCode` | persistent/inmem/coupon.go:41-48 | the stored coupon, or `ErrCouponNotFound` |
| `InmemCoupons.CouponRepository.Update` | persistent/inmem/coupon.go:50-55 | the coupon is stored under its code, whether or not it was there; the other entries stay; the key-equals-code invariant is kept |
| `InmemCoupons.SeededCouponsValidate` | persistent/inmem/coupon.go:18-39 | both seeded coupons validate at every instant of their ten days, both ends included |
| `InmemActors.CustomerRepository.FindByID` | persistent/inmem/actor.go:25-33 | the stored customer, or `ErrCustomerNotFound` |
| `InmemActors.AdminRepository.FindByID` | persistent/inmem/actor.go:49-56 | the stored admin; a missing one gives `ErrCustomerNotFound`, not `ErrAdminNotFound` |
| `InmemActors.NewCustomerRepository` | persistent/inmem/actor.go:17-23 | exactly `CUSTOMER1` |
| `InmemActors.NewAdminRepository` | persistent/inmem/actor.go:41-47 | a customer repository holding exactly `ADMIN1`, in which `CUSTOMER1` is not found |
| `InmemLogistics.LogisticsPartner.constructor` | persistent/inmem/logistics.go:22-26 | no shipments |
| `InmemLogistics.LogisticsPartner.RegisterShipment` | persistent/inmem/logistics.go:28-41 | fails with `ErrLogisticsRegister` and no change exactly when the order already has a shipment; otherwise maps the fresh ID to a shipped shipment of the order; keeps at most one shipment per order |
| `InmemLogistics.LogisticsPartner.CheckShipmentStatus` | persistent/inmem/logistics.go:43-50 | the stored status for a known shipping ID, and `ErrLogisticsCheckShipment` otherwise |
| `InmemOrders.OrderRepository.constructor` | persistent/inmem/order.go:21-72 | the three seeded open orders of `CUSTOMER1`; the ones with a cart hold their own copy of `PRODUCT1`; only `ORDER_WITH_PRODUCT_AND_COUPON` carries prices (2500 and 2000) |
| `InmemOrders.OrderRepository.FindByID` | persistent/inmem/order.go:74-81 | the stored object for a known ID, and `ErrOrderNotFound` otherwise |
| `InmemOrders.OrderRepository.Store` | persistent/inmem/order.go:83-89 | the order gets the fresh ID and is stored under it; the other entries stay |
| `InmemOrders.OrderRepository.Update` | persistent/inmem/order.go:91-96 | the order is stored under its ID; the other entries stay |
| `InmemOrders.OrderRepository.FinalizeAndReserveProducts` | persistent/inmem/order.go:98-130 | the ledgers change as `FinalizeAndReserve` says, including the partial changes left by a failure; the order is stored only on success |
| `InmemOrders.OrderRepository.ChargeAndReserve` | persistent/inmem/order.go:103-127 | the coupon lookup, the charge and the reservation loop leave the ledgers `FinalizeAndReserve` gives |
| `InmemOrders.OrderRepository.ReserveAll` | persistent/inmem/order.go:112-127 | the loop over the cart leaves the outcome and stocks `ReserveCart` gives |
| `InmemOrders.OrderRepository.ReserveItem` | persistent/inmem/order.go:113-124 | one lookup, check, reservation and store-back leave the outcome and stocks `ReserveLine` gives |
| `InmemOrders.OrderRepository.CancelAndReleaseProducts` | persistent/inmem/order.go:132-159 | the ledgers change as `CancelAndRelease` says; the order is stored only on success |
| `InmemOrders.OrderRepository.RefundAndRelease` | persistent/inmem/order.go:137-155 | the coupon lookup, the refund and the release loop leave the ledgers `CancelAndRelease` gives |
| `InmemOrders.OrderRepository.ReleaseAll` | persistent/inmem/order.go:146-155 | the loop over the cart leaves the outcome and stocks `ReleaseCart` gives |
| `InmemOrders.OrderRepository.ReleaseItem` | persistent/inmem/order.go:147-154 | one lookup, rollback and store-back leave the outcome and stocks `ReleaseLine` gives |
| `InmemOrders.OrderRepository.StocksAfterWrite` | persistent/inmem/order.go:120-123 | writing one stored product's quantity changes the stock counters at that product's ID only |
| `InmemOrders.SeedOrder` | persistent/inmem/order.go:21-72 | a fresh order object with the given seeded state |
| `Ordering.OrderingService.constructor` | ordering/service.go:36-50 | the service holds exactly the five repositories it is given |
| `Ordering.OrderingService.MakeOrder` | ordering/service.go:52-65 | an unknown customer gives `ErrCustomerNotFound` and nothing is stored; otherwise a fresh open order of that customer is stored under the fresh ID and returned |
| `Ordering.OrderingService.AddProduct` | ordering/service.go:67-91 | fails at the first failing step: order lookup, product lookup, stock check, then the aggregate's own `AddProduct`; stock is checked but never reserved |
| `Ordering.OrderingService.ApplyCoupon` | ordering/service.go:93-113 | order lookup, then coupon lookup, then the aggregate's `ApplyCoupon`; the coupon ledger is never changed |
| `Ordering.OrderingService.SubmitOrder` | ordering/service.go:115-130 | a refused status change touches nothing; otherwise the order is marked submitted and stays so, and the ledgers change as `FinalizeAndReserve` says, even when that fails |
| `Ordering.OrderingService.MakePayment` | ordering/service.go:132-152 | an invalid payment is refused before the order is looked up; otherwise the payment is recorded and the order becomes paid whenever `ChangeStatus` allows it, even when open; the payment stays recorded if it does not |
| `Ordering.OrderingService.CheckOrderStatus` | ordering/service.go:154-160 | the stored order's status, or `ErrOrderNotFound` |
| `Ordering.OrderingService.CheckShipmentStatus` | ordering/service.go:162-164 | the logistics partner's status for the shipment |
| `Handling.HandlingService.constructor` | handling/service.go:28-38 | the service holds exactly the order, product and logistics repositories it is given |
| `Handling.HandlingService.ViewOrder` | handling/service.go:40-42 | the stored order object, or `ErrOrderNotFound` |
| `Handling.HandlingService.CancelOrder` | handling/service.go:44-59 | a refused status change touches nothing; otherwise the order is cancelled and the ledgers change as `CancelAndRelease` says, whatever the earlier status was |
| `Handling.HandlingService.ShipOrderToLogisticsPartner` | handling/service.go:61-90 | a refused status change touches nothing; otherwise the order is marked shipped before registration; a refused registration leaves it shipped with no shipping ID; otherwise the fresh shipping ID is registered, recorded on the order and returned |

## Left out

- Mutexes in every in-memory repository are concurrency control; the
  model is sequential. This includes the coupon repository's `Update`,
  which writes under a read lock.
- Logging (`logrus`), the HTTP handlers, the logging and instrumenting
  decorators, `main.go`, and the MongoDB and PostgreSQL repositories are
  not part of this model.
- The `context.Context` parameters carry nothing the core uses and are
  dropped.
- `time.Now` is the parameter `now`, and uuid generation is the parameter
  `freshId`.
- `base64.RawStdEncoding` is not modelled as a decoder. `Payments.Decodable`
  states when it accepts: the standard alphabet, no `=` padding, CR and LF
  skipped, and a length that is not 1 modulo 4. The encoding is not strict,
  so the unused bits of the final character are not checked, and the model
  does not check them either.
- The `Update` calls of the repositories never fail. The services'
  `if err != nil` branches after them, and after the second `FindByID` in
  `ShipOrderToLogisticsPartner` (the order was found a moment earlier and
  nothing removes orders), are dead code and are not written.
- InmemOrders.OrderRepository.Store requires that the order is not
  already stored. The only caller stores a freshly made order.
- InmemOrders.OrderRepository.constructor requires the coupon and product
  repositories it is given to keep their key-equals-ID invariant. The seeded
  ones do.
- Handling.HandlingService.ShipOrderToLogisticsPartner promises the
  at-most-one-shipment-per-order invariant only when the fresh shipping ID
  is not already in use. This is the uniqueness uuid generation provides.
- InmemCoupons.DiscountTwentyPercent and InmemCoupons.DiscountFive take one
  time `now` for both ends of the window. Go reads the clock separately for
  `Begin` and `End`, so its window is a few nanoseconds longer than ten days.
- Ordering.OrderingService.constructor and
  Handling.HandlingService.constructor require that the order repository
  they are given works on the same product (and coupon) repository as the
  service. Go does not check this; `main.go` wires them that way.
- The `String` method of `CouponType` and the declarations in
  `transaction/actor.go` and `transaction/logistics.go` are types only.
- Where the written description of the system and the code disagree, the
  model follows the code:
  - coupon validity is the closed interval [begin, end], and only a
    quantity of exactly zero is refused;
  - submitting needs a coupon, and cancelling needs one too;
  - cancelling releases stock and refunds a coupon use for an order that
    was never submitted;
  - `MakePayment` never consults `AllowMakePayment`.
