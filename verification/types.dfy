/** The shapes of types.go that cross component boundaries. */
module CostTypes {
  datatype Query = Query(granularity: string, groupBy: string, days: int)

  datatype GroupSeries = GroupSeries(key: string, values: seq<real>, total: real)

  datatype Series = Series(times: seq<string>, groups: seq<GroupSeries>, total: real, currency: string)

  datatype Mover = Mover(service: string, current: real, previous: real, delta: real)

  datatype Summary = Summary(monthToDate: real, prevMonthToDate: real, deltaPct: real, topMovers: seq<Mover>)

  /** What the cache holds as an untyped value: the service only ever stores these two. */
  datatype Value = SeriesValue(series: Series) | SummaryValue(summary: Summary)

  /** What an upstream fetch returns: a value, or an error that is never cached. */
  datatype Outcome = Ok(val: Value) | Err(msg: string)
}
