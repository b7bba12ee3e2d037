/**
 * `getSystemAlerts`: three fixed threshold rules applied to the KPI snapshot,
 * each pushing one alert when it holds, in rule order. The thresholds are
 * compared against the re-read two-decimal text of each percentage.
 */
module Alerts {
  import opened Wrappers
  import opened Text
  import opened Ratios
  import opened Kpis

  /** The three rules, in the order they are evaluated. */
  datatype AlertKind = LowContactRate | CriticalConversion | LowVolume

  /** An alert's `type`, `severity`, `title` and `message` (its creation time is not modelled). */
  datatype Alert = Alert(alertType: string, severity: string, title: string, message: string)

  const Rules: seq<AlertKind> := [LowContactRate, CriticalConversion, LowVolume]

  function Rank(kind: AlertKind): nat {
    match kind
    case LowContactRate => 0
    case CriticalConversion => 1
    case LowVolume => 2
  }

  /** The condition of each rule; all comparisons are strict. */
  predicate Fires(k: MainKpis, kind: AlertKind) {
    match kind
    case LowContactRate => ReadsBelow(k.successfulContact.percentage, 50)
    case CriticalConversion => ReadsBelow(k.offerConversion.percentage, 20)
    case LowVolume => k.totalCalls < 100
  }

  /**
   * The alert a rule produces: warning/high for the contact rate,
   * critical/critical for the conversion rate, info/medium for the volume,
   * each message quoting the metric as displayed.
   */
  function AlertFor(k: MainKpis, kind: AlertKind): (a: Alert)
    ensures kind == LowContactRate ==>
      && a.alertType == "warning" && a.severity == "high"
      && a.title == "Tasa de Contacto Exitoso Baja"
      && Contains(a.message, "del " + Display(k.successfulContact.percentage) + "%")
    ensures kind == CriticalConversion ==>
      && a.alertType == "critical" && a.severity == "critical"
      && a.title == "Tasa de Conversi\U{F3}n Cr\U{ED}tica"
      && Contains(a.message, "del " + Display(k.offerConversion.percentage) + "%")
    ensures kind == LowVolume ==>
      && a.alertType == "info" && a.severity == "medium"
      && a.title == "Volumen de Llamadas Bajo"
      && Contains(a.message, " " + NatToString(k.totalCalls) + " llamadas")
  {
    match kind
    case LowContactRate =>
      var pre, quoted := "La tasa de contacto exitoso es ", "del " + Display(k.successfulContact.percentage) + "%";
      var message := pre + quoted + ", por debajo del objetivo del 50%";
      assert message[|pre|..|pre| + |quoted|] == quoted;
      Alert("warning", "high", "Tasa de Contacto Exitoso Baja", message)
    case CriticalConversion =>
      var pre, quoted := "La tasa de conversi\U{F3}n a oferta es ", "del " + Display(k.offerConversion.percentage) + "%";
      var message := pre + quoted + ", muy por debajo del objetivo del 20%";
      assert message[|pre|..|pre| + |quoted|] == quoted;
      Alert("critical", "critical", "Tasa de Conversi\U{F3}n Cr\U{ED}tica", message)
    case LowVolume =>
      var pre, quoted := "Solo se han realizado", " " + NatToString(k.totalCalls) + " llamadas";
      var message := pre + quoted + " en el periodo seleccionado";
      assert message[|pre|..|pre| + |quoted|] == quoted;
      Alert("info", "medium", "Volumen de Llamadas Bajo", message)
  }

  /** `[x]` when `b` holds, nothing otherwise: what one conditional push contributes. */
  function When<T>(b: bool, x: T): seq<T> {
    if b then [x] else []
  }

  /** The kinds among `kinds` for which `holds` is true, in the order given. */
  function Keep(holds: AlertKind -> bool, kinds: seq<AlertKind>): seq<AlertKind> {
    if kinds == [] then []
    else When(holds(kinds[0]), kinds[0]) + Keep(holds, kinds[1..])
  }

  /** The rules among `kinds` that hold, in the order given. */
  function FiringKinds(k: MainKpis, kinds: seq<AlertKind>): seq<AlertKind> {
    Keep(kind => Fires(k, kind), kinds)
  }

  /** The alert of each kind, in order. */
  function AlertsFor(k: MainKpis, kinds: seq<AlertKind>): (alerts: seq<Alert>)
    ensures |alerts| == |kinds|
    ensures forall i :: 0 <= i < |kinds| ==> alerts[i] == AlertFor(k, kinds[i])
  {
    if kinds == [] then [] else [AlertFor(k, kinds[0])] + AlertsFor(k, kinds[1..])
  }

  lemma {:induction false} AlertsForConcat(k: MainKpis, a: seq<AlertKind>, b: seq<AlertKind>)
    ensures AlertsFor(k, a + b) == AlertsFor(k, a) + AlertsFor(k, b)
  {
  }

  /** The alerts of every rule that holds, in rule order. */
  function TriggeredAlerts(k: MainKpis): seq<Alert> {
    AlertsFor(k, FiringKinds(k, Rules))
  }

  lemma AlertsForWhen(k: MainKpis, b: bool, kind: AlertKind)
    ensures AlertsFor(k, When(b, kind)) == When(b, AlertFor(k, kind))
  {
    if b {
      assert [kind][1..] == [];
    }
  }

  /** Filtering the rule list keeps each rule that holds, in rule order. */
  lemma FiringRules(k: MainKpis)
    ensures FiringKinds(k, Rules) ==
      When(Fires(k, LowContactRate), LowContactRate)
      + When(Fires(k, CriticalConversion), CriticalConversion)
      + When(Fires(k, LowVolume), LowVolume)
  {
    var c1 := When(Fires(k, LowContactRate), LowContactRate);
    var c2 := When(Fires(k, CriticalConversion), CriticalConversion);
    var c3 := When(Fires(k, LowVolume), LowVolume);
    assert Rules[1..] == [CriticalConversion, LowVolume];
    assert Rules[1..][1..] == [LowVolume] && [LowVolume][1..] == [];
    var holds := kind => Fires(k, kind);
    assert Keep(holds, [LowVolume]) == c3 + Keep(holds, []);
    assert Keep(holds, Rules[1..]) == c2 + c3;
    assert Keep(holds, Rules) == c1 + (c2 + c3);
  }

  /** The alerts of up to three conditionally kept rules are the conditionally kept alerts. */
  lemma AlertsForThree(k: MainKpis, b1: bool, b2: bool, b3: bool)
    ensures AlertsFor(k, When(b1, LowContactRate) + When(b2, CriticalConversion) + When(b3, LowVolume)) ==
      When(b1, AlertFor(k, LowContactRate))
      + When(b2, AlertFor(k, CriticalConversion))
      + When(b3, AlertFor(k, LowVolume))
  {
    var c1, c2, c3 := When(b1, LowContactRate), When(b2, CriticalConversion), When(b3, LowVolume);
    AlertsForConcat(k, c1 + c2, c3);
    AlertsForConcat(k, c1, c2);
    AlertsForWhen(k, b1, LowContactRate);
    AlertsForWhen(k, b2, CriticalConversion);
    AlertsForWhen(k, b3, LowVolume);
  }

  /** The rule-by-rule pushes build exactly the triggered alerts. */
  lemma TriggeredAlertsInRuleOrder(k: MainKpis)
    ensures TriggeredAlerts(k) ==
      When(Fires(k, LowContactRate), AlertFor(k, LowContactRate))
      + When(Fires(k, CriticalConversion), AlertFor(k, CriticalConversion))
      + When(Fires(k, LowVolume), AlertFor(k, LowVolume))
  {
    FiringRules(k);
    AlertsForThree(k, Fires(k, LowContactRate), Fires(k, CriticalConversion), Fires(k, LowVolume));
  }

  /** `getSystemAlerts` after its KPI query: compute the snapshot, then push each alert whose rule holds. */
  method SystemAlerts(row: KpiRow) returns (alerts: seq<Alert>)
    ensures alerts == TriggeredAlerts(ShapeKpis(row))
  {
    var k := ShapeKpis(row);
    alerts := [];
    if Fires(k, LowContactRate) {
      alerts := alerts + [AlertFor(k, LowContactRate)];
    }
    assert alerts == When(Fires(k, LowContactRate), AlertFor(k, LowContactRate));
    if Fires(k, CriticalConversion) {
      alerts := alerts + [AlertFor(k, CriticalConversion)];
    }
    assert alerts == When(Fires(k, LowContactRate), AlertFor(k, LowContactRate))
      + When(Fires(k, CriticalConversion), AlertFor(k, CriticalConversion));
    if Fires(k, LowVolume) {
      alerts := alerts + [AlertFor(k, LowVolume)];
    }
    TriggeredAlertsInRuleOrder(k);
  }

  /** Keeping never adds a kind: exactly the kinds that hold, never more than given. */
  lemma {:induction false} KeepMembers(holds: AlertKind -> bool, kinds: seq<AlertKind>)
    ensures |Keep(holds, kinds)| <= |kinds|
    ensures forall kind :: kind in Keep(holds, kinds) <==> kind in kinds && holds(kind)
    decreases |kinds|
  {
    if kinds != [] {
      KeepMembers(holds, kinds[1..]);
      assert kinds == [kinds[0]] + kinds[1..];
    }
  }

  /** Keeping preserves a strictly increasing rule order. */
  lemma {:induction false} KeepOrder(holds: AlertKind -> bool, kinds: seq<AlertKind>)
    requires forall i, j :: 0 <= i < j < |kinds| ==> Rank(kinds[i]) < Rank(kinds[j])
    ensures var f := Keep(holds, kinds);
      forall i, j :: 0 <= i < j < |f| ==> Rank(f[i]) < Rank(f[j])
    decreases |kinds|
  {
    if kinds != [] {
      KeepOrder(holds, kinds[1..]);
      KeepMembers(holds, kinds[1..]);
      var rest := Keep(holds, kinds[1..]);
      forall x | x in rest ensures Rank(kinds[0]) < Rank(x) {
        var m :| 0 <= m < |kinds[1..]| && kinds[1..][m] == x;
        assert kinds[m + 1] == x;
      }
    }
  }

  /** Filtering keeps exactly the kinds that hold, never more than it was given, in the given order. */
  lemma FiringKindsFilter(k: MainKpis, kinds: seq<AlertKind>)
    ensures |FiringKinds(k, kinds)| <= |kinds|
    ensures forall kind :: kind in FiringKinds(k, kinds) <==> kind in kinds && Fires(k, kind)
    ensures (forall i, j :: 0 <= i < j < |kinds| ==> Rank(kinds[i]) < Rank(kinds[j])) ==>
      var f := FiringKinds(k, kinds);
      forall i, j :: 0 <= i < j < |f| ==> Rank(f[i]) < Rank(f[j])
  {
    KeepMembers(kind => Fires(k, kind), kinds);
    if forall i, j :: 0 <= i < j < |kinds| ==> Rank(kinds[i]) < Rank(kinds[j]) {
      KeepOrder(kind => Fires(k, kind), kinds);
    }
  }

  /** The rule list names every kind of alert, in strictly increasing rank. */
  lemma EveryKindIsARule()
    ensures forall kind :: kind in Rules
    ensures forall i, j :: 0 <= i < j < |Rules| ==> Rank(Rules[i]) < Rank(Rules[j])
  {
    forall kind ensures kind in Rules {
      match kind
      case LowContactRate => assert Rules[0] == kind;
      case CriticalConversion => assert Rules[1] == kind;
      case LowVolume => assert Rules[2] == kind;
    }
  }

  /**
   * Between 0 and 3 alerts; an alert of a rule is present exactly when the rule
   * holds; and they come in the fixed rule order, each rule at most once.
   */
  lemma AlertsCharacterised(k: MainKpis)
    ensures var fired := FiringKinds(k, Rules);
      && |TriggeredAlerts(k)| == |fired| <= 3
      && (forall i :: 0 <= i < |fired| ==> TriggeredAlerts(k)[i] == AlertFor(k, fired[i]))
      && (forall kind :: kind in fired <==> Fires(k, kind))
      && (forall i, j :: 0 <= i < j < |fired| ==> Rank(fired[i]) < Rank(fired[j]))
  {
    var fired := FiringKinds(k, Rules);
    EveryKindIsARule();
    FiringKindsFilter(k, Rules);
    assert forall kind :: kind in fired <==> Fires(k, kind);
  }

  /**
   * The contact-rate alert fires exactly when there are no calls (the plain 0
   * re-reads as 0) or the exact rate is below 49.995%, the least rate that
   * displays as "50.00".
   */
  lemma ContactAlertThreshold(row: KpiRow)
    ensures Fires(ShapeKpis(row), LowContactRate) <==>
      row.totalCalls == 0 || 20000 * OrZero(row.contacts) < 9999 * row.totalCalls
  {
    var k := ShapeKpis(row);
    ReadsBelowRounded(k.successfulContact.percentage, 50);
    if row.totalCalls > 0 {
      RoundedBelow(OrZero(row.contacts), row.totalCalls, 50);
    }
  }

  /** The conversion alert fires exactly when there are no successful contacts or the exact rate is below 19.995%. */
  lemma ConversionAlertThreshold(row: KpiRow)
    ensures Fires(ShapeKpis(row), CriticalConversion) <==>
      OrZero(row.contacts) == 0 || 20000 * OrZero(row.conversions) < 3999 * OrZero(row.contacts)
  {
    var k := ShapeKpis(row);
    ReadsBelowRounded(k.offerConversion.percentage, 20);
    if OrZero(row.contacts) > 0 {
      RoundedBelow(OrZero(row.conversions), OrZero(row.contacts), 20);
    }
  }

  /** The snapshot of 40 calls, 15 successful contacts and 2 conversions. */
  function ScenarioRow(): KpiRow {
    KpiRow(40, Some(15), Some(15), Some(60.0), Some(2), Some(3))
  }

  /** Its rates display as "37.50" and "13.33". */
  lemma ScenarioDisplays()
    ensures Display(ShapeKpis(ScenarioRow()).successfulContact.percentage) == "37.50"
    ensures Display(ShapeKpis(ScenarioRow()).offerConversion.percentage) == "13.33"
  {
    var k := ShapeKpis(ScenarioRow());
    assert k.successfulContact.percentage == Fixed(3750);
    assert k.offerConversion.percentage == Fixed(1333);
    assert NatToString(37) == "37" && NatToString(13) == "13";
    assert Pad2(50) == "50" && Pad2(33) == "33";
  }

  /** All three alerts fire for it: low contact rate, low conversion, low volume. */
  lemma ThreeAlertScenario()
    ensures FiringKinds(ShapeKpis(ScenarioRow()), Rules) == Rules
    ensures |TriggeredAlerts(ShapeKpis(ScenarioRow()))| == 3
  {
    var k := ShapeKpis(ScenarioRow());
    ContactAlertThreshold(ScenarioRow());
    ConversionAlertThreshold(ScenarioRow());
    assert Fires(k, LowContactRate) && Fires(k, CriticalConversion) && Fires(k, LowVolume);
    FiringRules(k);
  }

  /** A true rate of 49.996% displays as "50.00" and raises no contact alert. */
  lemma RoundedUpRateRaisesNoAlert()
    ensures var k := ShapeKpis(KpiRow(25000, None, Some(12499), None, None, None));
      Display(k.successfulContact.percentage) == "50.00" && !Fires(k, LowContactRate)
  {
    var row := KpiRow(25000, None, Some(12499), None, None, None);
    assert Hundredths(ShapeKpis(row).successfulContact.percentage) == 5000;
    assert NatToString(50) == "50";
    ContactAlertThreshold(row);
  }

  /** Exactly 50.00% raises no contact alert; 49.99% does. */
  lemma ContactAlertIsStrict()
    ensures !Fires(ShapeKpis(KpiRow(2, None, Some(1), None, None, None)), LowContactRate)
    ensures Fires(ShapeKpis(KpiRow(10000, None, Some(4999), None, None, None)), LowContactRate)
  {
    ContactAlertThreshold(KpiRow(2, None, Some(1), None, None, None));
    ContactAlertThreshold(KpiRow(10000, None, Some(4999), None, None, None));
  }
}
