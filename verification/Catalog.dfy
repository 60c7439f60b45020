/** What stays fixed while the ledger runs: the clock, the items, the suppliers and
    the stored forecasts. */
module Catalog {
  import opened Options
  import opened Quantity
  import opened Identifiers
  import opened DeliveryWindow
  import opened Reorder

  /** An item with its purchase terms, forecast metrics and stored forecast rows
      (ascending by day). */
  datatype Item = Item(
    archived: bool,
    serviceLevel: int,
    manualMin: Qty,
    supplier: Option<Supplier>,
    minOrder: Qty,
    pack: Qty,
    sigma: real,
    metricsModel: Option<Model>,
    forecast: seq<Point>)

  /** `root` is the floating-point square root used for the safety stock. */
  datatype World = World(now: Moment, items: map<Uuid, Item>, suppliers: map<Uuid, Supplier>, root: int -> real) {
    function Today(): Day { DayOf(now) }
  }
}
