/**
 * `getHistoricalPerformance`: the bucket format chosen from `groupBy` and the
 * per-bucket rows of the time-series query shaped one by one, in order.
 */
module Historical {
  import opened Wrappers
  import opened Ratios

  /** The `DATE_FORMAT` pattern for a grouping; anything unrecognised groups by day. */
  function DateFormat(groupBy: string): (format: string)
    ensures groupBy == "hour" ==> format == "%Y-%m-%d %H:00:00"
    ensures groupBy == "week" ==> format == "%Y-%U"
    ensures groupBy == "month" ==> format == "%Y-%m"
    ensures groupBy != "hour" && groupBy != "week" && groupBy != "month" ==> format == "%Y-%m-%d"
  {
    match groupBy
    case "hour" => "%Y-%m-%d %H:00:00"
    case "week" => "%Y-%U"
    case "month" => "%Y-%m"
    case _ => "%Y-%m-%d"
  }

  /** One row of the grouped query: the bucket label and its aggregates. */
  datatype PeriodRow = PeriodRow(
    period: string, totalCalls: nat, contacts: nat, conversions: nat, averageDuration: Option<real>)

  /** `periodo`, `totalLlamadas`, `contactosExitosos`, `conversiones`, `duracionPromedio`, `tasaContacto`, `tasaConversion`. */
  datatype PeriodPerformance = PeriodPerformance(
    period: string, totalCalls: nat, contacts: nat, conversions: nat,
    averageDuration: int, contactRate: Percentage, conversionRate: Percentage)

  /**
   * The counts pass through; the contact rate is the number 0 exactly when the
   * bucket has no calls and the conversion rate exactly when it has no
   * successful contacts, otherwise each is the rate rounded to hundredths. A
   * present average duration is rounded to the nearest second, halves up.
   */
  function ShapePeriod(row: PeriodRow): (p: PeriodPerformance)
    ensures p.period == row.period && p.totalCalls == row.totalCalls
    ensures p.contacts == row.contacts && p.conversions == row.conversions
    ensures p.contactRate == NumericZero <==> row.totalCalls == 0
    ensures p.conversionRate == NumericZero <==> row.contacts == 0
    ensures row.totalCalls > 0 ==>
      -(row.totalCalls as int) < 2 * row.totalCalls * Hundredths(p.contactRate) - 20000 * row.contacts <= row.totalCalls
    ensures row.contacts > 0 ==>
      -(row.contacts as int) < 2 * row.contacts * Hundredths(p.conversionRate) - 20000 * row.conversions <= row.contacts
    ensures p.averageDuration == AverageDuration(row.averageDuration)
    ensures row.averageDuration.None? ==> p.averageDuration == 0
    ensures row.averageDuration.Some? ==>
      p.averageDuration as real <= row.averageDuration.value + 0.5 < p.averageDuration as real + 1.0
  {
    PeriodPerformance(
      row.period, row.totalCalls, row.contacts, row.conversions,
      AverageDuration(row.averageDuration),
      GuardedPercentage(row.contacts, row.totalCalls),
      GuardedPercentage(row.conversions, row.contacts))
  }

  /** One record per bucket row, in the store's order (no bucket is added or dropped). */
  function HistoricalPerformance(rows: seq<PeriodRow>): (series: seq<PeriodPerformance>)
    ensures |series| == |rows|
    ensures forall i :: 0 <= i < |rows| ==> series[i] == ShapePeriod(rows[i])
  {
    seq(|rows|, i requires 0 <= i < |rows| => ShapePeriod(rows[i]))
  }

  /** The series carries the bucket labels in the order the store returned them. */
  lemma HistoricalKeepsOrder(rows: seq<PeriodRow>)
    ensures forall i :: 0 <= i < |rows| ==> HistoricalPerformance(rows)[i].period == rows[i].period
  {
  }
}
