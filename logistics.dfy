/** What the logistics partner reports about a shipment. */
module Logistics {

  /** The identifier a logistics partner gives a registered shipment. */
  type ShippingId = string

  datatype ShipmentStatus = ShipmentStatusShipped | ShipmentStatusOnDelivery | ShipmentStatusDelivered
}
