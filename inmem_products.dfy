/** The in-memory product repository: a map from product ID to the shared
    product object. */
module InmemProducts {
  import opened Errors
  import opened GoInt
  import opened Products

  class ProductRepository {
    var products: map<string, Product>

    /** Every product is stored under its own ID. */
    ghost predicate Valid()
      reads this, products.Values
    {
      forall k :: k in products ==> products[k].id == k
    }

    /** The stock counter of every stored product, by ID. */
    function Stocks(): (m: map<string, Int64>)
      reads this, products.Values
      ensures m.Keys == products.Keys
    {
      map k | k in products :: products[k].quantity
    }

    /** `NewProductRepository`: the two seeded products. */
    constructor ()
      ensures Valid() && fresh(products.Values)
      ensures products.Keys == {"PRODUCT1", "PRODUCT2"}
      ensures products["PRODUCT1"].Value() == ProductValue("PRODUCT1", "Sony Xperia 10", 500.0, 200)
      ensures products["PRODUCT2"].Value() == ProductValue("PRODUCT2", "Ultramilk 1L", 5.0, 2000)
    {
      var p1 := new Product("PRODUCT1", "Sony Xperia 10", 500.0, 200);
      var p2 := new Product("PRODUCT2", "Ultramilk 1L", 5.0, 2000);
      products := map["PRODUCT1" := p1, "PRODUCT2" := p2];
    }

    /** The stored product object itself (not a copy), or `ErrProductNotFound`. */
    function FindByID(id: string): (r: Result<Product>)
      reads this
      ensures r.Ok? <==> id in products
      ensures r.Ok? ==> r.value == products[id]
      ensures r.Err? ==> r.error == ErrProductNotFound
    {
      if id in products then Ok(products[id]) else Err(ErrProductNotFound)
    }

    /** A copy of every stored product, in no particular order. */
    method FindAll() returns (r: seq<ProductValue>)
      requires Valid()
      ensures |r| == |products|
      ensures forall k :: k in products ==> products[k].Value() in r
      ensures forall i :: 0 <= i < |r| ==> r[i].id in products && r[i] == products[r[i].id].Value()
      ensures forall i, j :: 0 <= i < j < |r| ==> r[i].id != r[j].id
    {
      r := [];
      var left := products.Keys;
      while left != {}
        invariant left <= products.Keys
        invariant |r| + |left| == |products|
        invariant forall k :: k in products && k !in left ==> products[k].Value() in r
        invariant forall i :: 0 <= i < |r| ==> r[i].id in products && r[i].id !in left
        invariant forall i :: 0 <= i < |r| ==> r[i] == products[r[i].id].Value()
        invariant forall i, j :: 0 <= i < j < |r| ==> r[i].id != r[j].id
        decreases |left|
      {
        var k :| k in left;
        r := r + [products[k].Value()];
        left := left - {k};
      }
    }

    /** Stores the product under its ID, replacing whatever was there. */
    method Update(p: Product)
      modifies this`products
      ensures products == old(products)[p.id := p]
    {
      products := products[p.id := p];
    }
  }
}
