/**
 * The two tally loops of the analytics service: `getPerformanceMetrics`
 * routes per-status counts into four named buckets and a total, and
 * `getSentimentAnalysis` adds per-(sentiment, interest) counts into three
 * sentiment and three interest buckets. Each loop is a method proved
 * against a specification function over the query's rows.
 */
module Tallies {
  import opened Wrappers

  // ---------------------------------------------------------------------------
  // getPerformanceMetrics
  // ---------------------------------------------------------------------------

  /** A row of `GROUP BY estado`: the status and its `cantidad` (the average column is unused). */
  datatype StatusRow = StatusRow(status: string, count: nat)

  /** `completadas`, `ocupadas`, `fallidas`, `sinRespuesta`, `total`. */
  datatype PerformanceMetrics = PerformanceMetrics(completed: nat, busy: nat, failed: nat, noAnswer: nat, total: nat)

  /** The sum of every row's count. */
  function StatusTotal(rows: seq<StatusRow>): nat {
    if rows == [] then 0 else StatusTotal(rows[..|rows| - 1]) + rows[|rows| - 1].count
  }

  /** The count of the last row with this status, or 0 when no row has it (a bucket is assigned, not added to). */
  function LastCount(rows: seq<StatusRow>, status: string): nat {
    if rows == [] then 0
    else if rows[|rows| - 1].status == status then rows[|rows| - 1].count
    else LastCount(rows[..|rows| - 1], status)
  }

  /** What the tally loop computes. */
  function PerformanceOf(rows: seq<StatusRow>): PerformanceMetrics {
    PerformanceMetrics(
      LastCount(rows, "completada"), LastCount(rows, "ocupada"),
      LastCount(rows, "fallida"), LastCount(rows, "sin_respuesta"),
      StatusTotal(rows))
  }

  /** The loop of `getPerformanceMetrics`: every row is added to the total and sets its status's bucket. */
  method TallyPerformance(rows: seq<StatusRow>) returns (m: PerformanceMetrics)
    ensures m == PerformanceOf(rows)
  {
    m := PerformanceMetrics(0, 0, 0, 0, 0);
    var i := 0;
    while i < |rows|
      invariant 0 <= i <= |rows|
      invariant m == PerformanceOf(rows[..i])
    {
      var row := rows[i];
      assert rows[..i + 1][..i] == rows[..i];
      m := m.(total := m.total + row.count);
      match row.status {
        case "completada" => m := m.(completed := row.count);
        case "ocupada" => m := m.(busy := row.count);
        case "fallida" => m := m.(failed := row.count);
        case "sin_respuesta" => m := m.(noAnswer := row.count);
        case _ =>
      }
      i := i + 1;
    }
    assert rows[..i] == rows;
  }

  predicate IsKnownStatus(status: string) {
    status == "completada" || status == "ocupada" || status == "fallida" || status == "sin_respuesta"
  }

  /** `GROUP BY estado` yields each status at most once. */
  predicate DistinctStatuses(rows: seq<StatusRow>) {
    forall i, j :: 0 <= i < j < |rows| ==> rows[i].status != rows[j].status
  }

  /** The sum of the counts of the rows with one of the four known statuses. */
  function KnownTotal(rows: seq<StatusRow>): nat {
    if rows == [] then 0
    else KnownTotal(rows[..|rows| - 1]) + (if IsKnownStatus(rows[|rows| - 1].status) then rows[|rows| - 1].count else 0)
  }

  function BucketSum(m: PerformanceMetrics): nat {
    m.completed + m.busy + m.failed + m.noAnswer
  }

  lemma {:induction false} LastCountAbsent(rows: seq<StatusRow>, status: string)
    requires forall i :: 0 <= i < |rows| ==> rows[i].status != status
    ensures LastCount(rows, status) == 0
    decreases |rows|
  {
    if rows != [] {
      LastCountAbsent(rows[..|rows| - 1], status);
    }
  }

  /** With distinct statuses the four buckets hold exactly the counts of the known statuses. */
  lemma {:induction false} BucketsAreKnownTotal(rows: seq<StatusRow>)
    requires DistinctStatuses(rows)
    ensures BucketSum(PerformanceOf(rows)) == KnownTotal(rows)
    decreases |rows|
  {
    if rows != [] {
      var prefix, last := rows[..|rows| - 1], rows[|rows| - 1];
      BucketsAreKnownTotal(prefix);
      LastCountAbsent(prefix, last.status);
    }
  }

  /** Known-status counts never exceed the total, and reach it exactly when every unknown-status row counts 0. */
  lemma {:induction false} KnownTotalWithinTotal(rows: seq<StatusRow>)
    ensures KnownTotal(rows) <= StatusTotal(rows)
    ensures KnownTotal(rows) == StatusTotal(rows) <==>
      forall i :: 0 <= i < |rows| && !IsKnownStatus(rows[i].status) ==> rows[i].count == 0
    decreases |rows|
  {
    if rows != [] {
      var prefix := rows[..|rows| - 1];
      KnownTotalWithinTotal(prefix);
      assert forall i :: 0 <= i < |prefix| ==> prefix[i] == rows[i];
    }
  }

  /**
   * The four buckets sum to at most the total; with every status known they
   * sum to it exactly, and since grouped rows count at least one call, only then.
   */
  lemma PerformanceBucketsWithinTotal(rows: seq<StatusRow>)
    requires DistinctStatuses(rows)
    ensures BucketSum(PerformanceOf(rows)) <= PerformanceOf(rows).total
    ensures (forall i :: 0 <= i < |rows| ==> IsKnownStatus(rows[i].status))
      ==> BucketSum(PerformanceOf(rows)) == PerformanceOf(rows).total
    ensures (forall i :: 0 <= i < |rows| ==> rows[i].count > 0)
      && BucketSum(PerformanceOf(rows)) == PerformanceOf(rows).total
      ==> forall i :: 0 <= i < |rows| ==> IsKnownStatus(rows[i].status)
  {
    BucketsAreKnownTotal(rows);
    KnownTotalWithinTotal(rows);
  }

  // ---------------------------------------------------------------------------
  // getSentimentAnalysis
  // ---------------------------------------------------------------------------

  /** A row of `GROUP BY sentimiento, proveedor_interesado` over completed calls; both keys may be NULL. */
  datatype SentimentRow = SentimentRow(sentiment: Option<string>, interested: Option<int>, count: nat)

  datatype Tone = Positive | Neutral | Negative

  datatype Interest = Interested | NotInterested | Undecided

  /** The sentiment bucket a row belongs to, if any. */
  function ToneOf(sentiment: Option<string>): Option<Tone> {
    match sentiment
    case Some("positivo") => Some(Positive)
    case Some("neutro") => Some(Neutral)
    case Some("negativo") => Some(Negative)
    case _ => None
  }

  /** The interest bucket every row belongs to: strictly 1, strictly 0, or anything else (NULL included). */
  function InterestOf(flag: Option<int>): Interest {
    match flag
    case Some(1) => Interested
    case Some(0) => NotInterested
    case _ => Undecided
  }

  /** `sentimiento.{positivo,neutro,negativo}` and `interes.{interesados,noInteresados,indeciso}`. */
  datatype SentimentAnalysis = SentimentAnalysis(
    positive: nat, neutral: nat, negative: nat,
    interested: nat, notInterested: nat, undecided: nat)

  function RowsTotal(rows: seq<SentimentRow>): nat {
    if rows == [] then 0 else RowsTotal(rows[..|rows| - 1]) + rows[|rows| - 1].count
  }

  /** The sum of the counts of the rows whose sentiment falls in bucket `t`. */
  function ToneTotal(rows: seq<SentimentRow>, t: Tone): nat {
    if rows == [] then 0
    else ToneTotal(rows[..|rows| - 1], t) + (if ToneOf(rows[|rows| - 1].sentiment) == Some(t) then rows[|rows| - 1].count else 0)
  }

  /** The sum of the counts of the rows whose interest flag falls in bucket `b`. */
  function InterestTotal(rows: seq<SentimentRow>, b: Interest): nat {
    if rows == [] then 0
    else InterestTotal(rows[..|rows| - 1], b) + (if InterestOf(rows[|rows| - 1].interested) == b then rows[|rows| - 1].count else 0)
  }

  /** What the tally loop computes. */
  function AnalysisOf(rows: seq<SentimentRow>): SentimentAnalysis {
    SentimentAnalysis(
      ToneTotal(rows, Positive), ToneTotal(rows, Neutral), ToneTotal(rows, Negative),
      InterestTotal(rows, Interested), InterestTotal(rows, NotInterested), InterestTotal(rows, Undecided))
  }

  /** The loop of `getSentimentAnalysis`: each row adds its count to at most one sentiment and exactly one interest bucket. */
  method TallySentiment(rows: seq<SentimentRow>) returns (a: SentimentAnalysis)
    ensures a == AnalysisOf(rows)
  {
    a := SentimentAnalysis(0, 0, 0, 0, 0, 0);
    var i := 0;
    while i < |rows|
      invariant 0 <= i <= |rows|
      invariant a == AnalysisOf(rows[..i])
    {
      var row := rows[i];
      assert rows[..i + 1][..i] == rows[..i];
      if row.sentiment == Some("positivo") {
        a := a.(positive := a.positive + row.count);
      } else if row.sentiment == Some("neutro") {
        a := a.(neutral := a.neutral + row.count);
      } else if row.sentiment == Some("negativo") {
        a := a.(negative := a.negative + row.count);
      }
      if row.interested == Some(1) {
        a := a.(interested := a.interested + row.count);
      } else if row.interested == Some(0) {
        a := a.(notInterested := a.notInterested + row.count);
      } else {
        a := a.(undecided := a.undecided + row.count);
      }
      i := i + 1;
    }
    assert rows[..i] == rows;
  }

  /** The interest buckets partition the rows: together they hold every row's count. */
  lemma {:induction false} InterestBucketsPartition(rows: seq<SentimentRow>)
    ensures var a := AnalysisOf(rows); a.interested + a.notInterested + a.undecided == RowsTotal(rows)
    decreases |rows|
  {
    if rows != [] {
      InterestBucketsPartition(rows[..|rows| - 1]);
    }
  }

  /**
   * The sentiment buckets hold at most every row's count, and all of it exactly
   * when every row with a positive count has a recognised sentiment.
   */
  lemma {:induction false} ToneBucketsWithinTotal(rows: seq<SentimentRow>)
    ensures var a := AnalysisOf(rows); a.positive + a.neutral + a.negative <= RowsTotal(rows)
    ensures var a := AnalysisOf(rows); a.positive + a.neutral + a.negative == RowsTotal(rows) <==>
      forall i :: 0 <= i < |rows| && rows[i].count > 0 ==> ToneOf(rows[i].sentiment).Some?
    decreases |rows|
  {
    if rows != [] {
      var prefix := rows[..|rows| - 1];
      ToneBucketsWithinTotal(prefix);
      assert forall i :: 0 <= i < |prefix| ==> prefix[i] == rows[i];
    }
  }
}
