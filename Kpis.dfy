/**
 * `getMainKPIs`: the single aggregate row of the KPI query shaped into the
 * KPI snapshot, with NULL aggregates read as 0 and both percentages guarded
 * against a zero denominator.
 */
module Kpis {
  import opened Wrappers
  import opened Ratios

  /**
   * The one row the KPI query returns. COUNT(*) is never NULL; the SUMs and
   * the AVG are NULL when no call falls in the range.
   */
  datatype KpiRow = KpiRow(
    totalCalls: nat,
    completedCalls: Option<nat>,
    contacts: Option<nat>,
    averageDuration: Option<real>,
    conversions: Option<nat>,
    interested: Option<nat>)

  /** A count with its percentage. */
  datatype Rate = Rate(count: nat, percentage: Percentage)

  /** The KPI snapshot (`totalLlamadas`, `llamadasCompletadas`, `contactoExitoso`, ...). */
  datatype MainKpis = MainKpis(
    totalCalls: nat,
    completedCalls: nat,
    successfulContact: Rate,
    averageDuration: int,
    offerConversion: Rate,
    interestedProviders: nat)

  /**
   * The contact percentage is the number 0 exactly when there are no calls,
   * the conversion percentage exactly when there are no successful contacts;
   * otherwise each is the rate rounded to hundredths. Missing aggregates count as 0;
   * a present average duration is rounded to the nearest second, halves up.
   */
  function ShapeKpis(row: KpiRow): (k: MainKpis)
    ensures k.totalCalls == row.totalCalls
    ensures k.completedCalls == OrZero(row.completedCalls)
    ensures k.interestedProviders == OrZero(row.interested)
    ensures k.successfulContact.count == OrZero(row.contacts)
    ensures k.offerConversion.count == OrZero(row.conversions)
    ensures k.successfulContact.percentage == NumericZero <==> row.totalCalls == 0
    ensures k.offerConversion.percentage == NumericZero <==> k.successfulContact.count == 0
    ensures row.totalCalls > 0 ==>
      var h, n, d := Hundredths(k.successfulContact.percentage), k.successfulContact.count, row.totalCalls;
      -(d as int) < 2 * d * h - 20000 * n <= d
    ensures k.successfulContact.count > 0 ==>
      var h, n, d := Hundredths(k.offerConversion.percentage), k.offerConversion.count, k.successfulContact.count;
      -(d as int) < 2 * d * h - 20000 * n <= d
    ensures k.successfulContact.count <= row.totalCalls ==> Hundredths(k.successfulContact.percentage) <= 10000
    ensures k.offerConversion.count <= k.successfulContact.count ==> Hundredths(k.offerConversion.percentage) <= 10000
    ensures k.averageDuration == AverageDuration(row.averageDuration)
    ensures row.averageDuration.None? ==> k.averageDuration == 0
    ensures row.averageDuration.Some? ==>
      k.averageDuration as real <= row.averageDuration.value + 0.5 < k.averageDuration as real + 1.0
  {
    var contacts := OrZero(row.contacts);
    var conversions := OrZero(row.conversions);
    MainKpis(
      row.totalCalls,
      OrZero(row.completedCalls),
      Rate(contacts, GuardedPercentage(contacts, row.totalCalls)),
      AverageDuration(row.averageDuration),
      Rate(conversions, GuardedPercentage(conversions, contacts)),
      OrZero(row.interested))
  }
}
