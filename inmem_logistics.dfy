/** The in-memory logistics partner: shipments by shipping ID, at most one
    per order. Shipping IDs are generated by the caller and passed in. */
module InmemLogistics {
  import opened Errors
  import opened Logistics

  datatype Shipment = Shipment(orderId: string, status: ShipmentStatus)

  class LogisticsPartner {
    var shipments: map<ShippingId, Shipment>

    /** No order has two shipments. */
    predicate Valid()
      reads this
    {
      forall a, b :: a in shipments && b in shipments && shipments[a].orderId == shipments[b].orderId ==> a == b
    }

    /** Some shipment is registered for the order. */
    predicate Registered(orderId: string)
      reads this
    {
      exists k :: k in shipments && shipments[k].orderId == orderId
    }

    /** `NewLogisticsParner`: no shipments. */
    constructor ()
      ensures Valid() && shipments == map[]
    {
      shipments := map[];
    }

    /** Registers a shipment for the order under `freshId`, refusing an order
        that already has one; a new shipment starts as shipped. */
    method RegisterShipment(orderId: string, freshId: ShippingId) returns (r: Result<ShippingId>)
      modifies this
      ensures r.Err? <==> old(Registered(orderId))
      ensures r.Err? ==> r.error == ErrLogisticsRegister && shipments == old(shipments)
      ensures r.Ok? ==> r.value == freshId
      ensures r.Ok? ==> shipments == old(shipments)[freshId := Shipment(orderId, ShipmentStatusShipped)]
      ensures r.Ok? ==> CheckShipmentStatus(r.value) == Ok(ShipmentStatusShipped) && Registered(orderId)
      ensures old(Valid()) && freshId !in old(shipments) ==> Valid()
    {
      var left := shipments.Keys;
      while left != {}
        invariant left <= shipments.Keys
        invariant forall k :: k in shipments && k !in left ==> shipments[k].orderId != orderId
        decreases |left|
      {
        var k :| k in left;
        if shipments[k].orderId == orderId {
          return Err(ErrLogisticsRegister);
        }
        left := left - {k};
      }
      shipments := shipments[freshId := Shipment(orderId, ShipmentStatusShipped)];
      assert shipments[freshId].orderId == orderId;
      return Ok(freshId);
    }

    /** The status of a registered shipment, or `ErrLogisticsCheckShipment`. */
    function CheckShipmentStatus(sid: ShippingId): (r: Result<ShipmentStatus>)
      reads this
      ensures r.Ok? <==> sid in shipments
      ensures r.Ok? ==> r.value == shipments[sid].status
      ensures r.Err? ==> r.error == ErrLogisticsCheckShipment
    {
      if sid in shipments then Ok(shipments[sid].status) else Err(ErrLogisticsCheckShipment)
    }
  }
}
