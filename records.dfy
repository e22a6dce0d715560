/** One vendor-period observation and the frame that holds them. */
module Records {

  /** A row of the observation frame. Dates are day (or month) indices;
      counts are integers, money and lead times are exact rationals. */
  datatype Row = Row(
    vendor: string,
    category: string,
    region: string,
    date: int,
    onTime: int,
    total: int,
    defects: int,
    units: int,
    spend: real,
    compliant: int,
    leadTime: real)

  /** A frame of observations. The Vendor and measure columns are always
      present; the flags say whether the optional Date, Category and Region
      columns exist. */
  datatype Table = Table(rows: seq<Row>, hasDate: bool, hasCategory: bool, hasRegion: bool)

  /** The data-model invariants the rates rely on but the loader does not
      enforce: on-time at most total deliveries, defects at most units, a 0/1
      compliance flag and a non-negative lead time. */
  predicate ValidRow(r: Row)
  {
    && 0 <= r.onTime <= r.total
    && 0 <= r.defects <= r.units
    && 0 <= r.compliant <= 1
    && 0.0 <= r.leadTime
  }

  predicate AllValid(rows: seq<Row>)
  {
    forall i :: 0 <= i < |rows| ==> ValidRow(rows[i])
  }
}
