/** Discount coupons: a validity check against the current time and the price
    reduction a coupon grants. The current time is a parameter. */
module Coupons {
  import opened Errors
  import opened GoInt

  /** An instant, as a count of nanoseconds. */
  type Time = int

  /** A duration of one hour, in nanoseconds. */
  const Hour: int := 3_600_000_000_000

  /** The zero `time.Time`. */
  const ZeroTime: Time := 0

  /** The coupon kind is an integer; values other than the two below are
      possible (the zero coupon has kind 0) and reduce nothing. */
  type CouponType = int

  const CouponTypePercentage: CouponType := 1
  const CouponTypeNominal: CouponType := 2

  datatype Coupon = Coupon(
    code: string,
    quantity: Int64,
    amount: real,
    begin: Time,
    end: Time,
    kind: CouponType)

  /** The zero `Coupon{}`: an order that carries it has no coupon applied. */
  const NoCoupon: Coupon := Coupon("", 0, 0.0, ZeroTime, ZeroTime, 0)

  /** A coupon is valid unless its quantity is exactly zero or `now` lies
      outside the closed interval [begin, end]. */
  function Validate(c: Coupon, now: Time): (r: Outcome)
    ensures r == Pass <==> c.quantity != 0 && c.begin <= now <= c.end
    ensures r != Pass ==> r == Fail(ErrInvalidCoupon)
  {
    if c.quantity == 0 then Fail(ErrInvalidCoupon)
    else if now < c.begin || now > c.end then Fail(ErrInvalidCoupon)
    else Pass
  }

  /** The price once the coupon's reduction is applied: a nominal coupon
      subtracts its amount (with no floor at zero), a percentage coupon
      subtracts that fraction of the price, any other kind leaves it. */
  function GetPriceAfterReduction(c: Coupon, price: real): (r: real)
    ensures c.kind == CouponTypeNominal ==> r == price - c.amount
    ensures c.kind == CouponTypePercentage ==> r == price * (1.0 - c.amount)
    ensures c.kind != CouponTypeNominal && c.kind != CouponTypePercentage ==> r == price
  {
    if c.kind == CouponTypeNominal then price - c.amount
    else if c.kind == CouponTypePercentage then price - price * c.amount
    else price
  }

  /** A percentage coupon whose amount is a fraction in [0, 1] never raises a
      non-negative price and never takes it below zero. */
  lemma PercentageStaysWithinPrice(c: Coupon, price: real)
    requires c.kind == CouponTypePercentage && 0.0 <= c.amount <= 1.0 && 0.0 <= price
    ensures 0.0 <= GetPriceAfterReduction(c, price) <= price
  {
    assert 0.0 <= price * c.amount;
    assert price * c.amount <= price * 1.0;
  }

  /** The zero coupon never validates, so a coupon that validated is never
      mistaken for "no coupon". */
  lemma ValidCouponIsNotNoCoupon(c: Coupon, now: Time)
    requires Validate(c, now) == Pass
    ensures c != NoCoupon
  {
  }

  /** A quantity below zero still validates: only exactly zero is refused. */
  lemma NegativeQuantityValidates(c: Coupon, now: Time)
    requires c.quantity < 0 && c.begin <= now <= c.end
    ensures Validate(c, now) == Pass
  {
  }

  /** A nominal reduction larger than the price gives a negative price. */
  lemma NominalIsNotClamped(c: Coupon, price: real)
    requires c.kind == CouponTypeNominal && price < c.amount
    ensures GetPriceAfterReduction(c, price) < 0.0
  {
  }

  /** The 20% coupon on a price of 2500 leaves 2000. */
  lemma TwentyPercentOf2500(c: Coupon)
    requires c.kind == CouponTypePercentage && c.amount == 0.2
    ensures GetPriceAfterReduction(c, 2500.0) == 2000.0
  {
  }
}
