/** The in-memory coupon repository: a map from coupon code to the coupon,
    seeded with two coupons valid for ten days from the moment it is made. */
module InmemCoupons {
  import opened Errors
  import opened GoInt
  import opened Coupons

  /** The nominal coupon worth 5, valid for ten days from `now`. */
  function DiscountFive(now: Time): Coupon {
    Coupon("DISCOUNT_$5", 100, 5.0, now, now + 10 * 24 * Hour, CouponTypeNominal)
  }

  /** The 20% coupon, valid for ten days from `now`. */
  function DiscountTwentyPercent(now: Time): Coupon {
    Coupon("DISCOUNT_20%", 100, 0.2, now, now + 10 * 24 * Hour, CouponTypePercentage)
  }

  class CouponRepository {
    var coupons: map<string, Coupon>

    /** Every coupon is stored under its own code. */
    predicate Valid()
      reads this
    {
      forall k :: k in coupons ==> coupons[k].code == k
    }

    /** `NewCouponRepository`, made at time `now`. */
    constructor (now: Time)
      ensures Valid()
      ensures coupons == map["DISCOUNT_$5" := DiscountFive(now), "DISCOUNT_20%" := DiscountTwentyPercent(now)]
    {
      coupons := map["DISCOUNT_$5" := DiscountFive(now), "DISCOUNT_20%" := DiscountTwentyPercent(now)];
    }

    /** The stored coupon, or `ErrCouponNotFound`. */
    function FindByCode(code: string): (r: Result<Coupon>)
      reads this
      ensures r.Ok? <==> code in coupons
      ensures r.Ok? ==> r.value == coupons[code]
      ensures r.Err? ==> r.error == ErrCouponNotFound
    {
      if code in coupons then Ok(coupons[code]) else Err(ErrCouponNotFound)
    }

    /** Stores the coupon under its code, replacing whatever was there. */
    method Update(c: Coupon)
      modifies this
      ensures coupons == old(coupons)[c.code := c]
      ensures old(Valid()) ==> Valid()
    {
      coupons := coupons[c.code := c];
    }
  }

  /** Both seeded coupons validate at any time within their ten days,
      both ends included. */
  lemma SeededCouponsValidate(now: Time, t: Time)
    requires now <= t <= now + 10 * 24 * Hour
    ensures Validate(DiscountFive(now), t) == Pass
    ensures Validate(DiscountTwentyPercent(now), t) == Pass
  {
  }
}
