/** A product of the catalogue and its stock counter. Products are shared by
    reference between the product repository and the carts that hold them,
    so a product is an object; only its stock quantity is ever written. */
module Products {
  import opened Errors
  import opened GoInt

  /** A copy of a product's fields. */
  datatype ProductValue = ProductValue(id: string, name: string, price: real, quantity: Int64)

  class Product {
    const id: string
    const name: string
    const price: real
    var quantity: Int64

    constructor (id: string, name: string, price: real, quantity: Int64)
      ensures this.id == id && this.name == name && this.price == price
      ensures this.quantity == quantity
    {
      this.id, this.name, this.price := id, name, price;
      this.quantity := quantity;
    }

    /** The current value of the product's fields. */
    function Value(): ProductValue
      reads this
    {
      ProductValue(id, name, price, quantity)
    }

    /** Checks, without reserving, whether `q` units can be taken from stock.
        There is no positivity check on `q`. */
    function TryReserveQuantity(q: Int64): (r: Outcome)
      reads this
      ensures r == Pass <==> q <= quantity
      ensures r != Pass ==> r == Fail(ErrQuantityExceedProductStock)
    {
      if quantity < q then Fail(ErrQuantityExceedProductStock) else Pass
    }

    /** Takes `q` units from stock, unconditionally. */
    method ReserveQuantity(q: Int64)
      modifies this`quantity
      ensures quantity == Sub(old(quantity), q)
    {
      quantity := Sub(quantity, q);
    }

    /** Gives `q` units back to stock, unconditionally. */
    method RollbackQuantity(q: Int64)
      modifies this`quantity
      ensures quantity == Add(old(quantity), q)
    {
      quantity := Add(quantity, q);
    }
  }

  /** A reservation that passed its check keeps a non-negative stock
      non-negative, provided the requested amount is not negative. */
  lemma ReserveAfterCheck(stock: Int64, q: Int64)
    requires 0 <= stock && 0 <= q && q <= stock
    ensures Sub(stock, q) == stock - q
    ensures 0 <= Sub(stock, q) <= stock
  {
  }

  /** Without a positivity check, a negative request passes the check and the
      reservation can wrap the stock around to a negative number. */
  lemma NegativeReserveCanWrap()
    ensures var stock, q := 1, -MaxInt64;
      q <= stock && Sub(stock, q) < 0
  {
    SubCanWrapNegative();
  }
}
