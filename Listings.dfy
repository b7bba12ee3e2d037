/**
 * `getTopProviders` (fetch every provider, keep a prefix) and `getCalls`
 * (the store keeps a prefix through LIMIT, each row is formatted).
 */
module Listings {
  import opened Wrappers
  import opened Text
  import opened Limits
  import opened Formatters

  // ---------------------------------------------------------------------------
  // getTopProviders
  // ---------------------------------------------------------------------------

  /** A provider with its aggregates over the range (providers without calls have zeros). */
  datatype ProviderRow = ProviderRow(
    id: nat, name: string, category: string,
    totalCalls: nat, contacts: nat, offers: nat, averageDuration: real)

  /** `ORDER BY ofertas_generadas DESC, contactos_exitosos DESC`. */
  predicate RankedByOffers(rows: seq<ProviderRow>) {
    forall i, j :: 0 <= i < j < |rows| ==>
      rows[i].offers > rows[j].offers || (rows[i].offers == rows[j].offers && rows[i].contacts >= rows[j].contacts)
  }

  /**
   * `results.slice(0, parsedLimit)`: the first min(limit, |rows|) providers,
   * so at most 100, and the store's ranking is kept.
   */
  function TopProviders(rows: seq<ProviderRow>, limitArg: Option<int>): (top: seq<ProviderRow>)
    ensures |top| == Min(TopProvidersLimit(limitArg), |rows|) && |top| <= 100
    ensures rows != [] ==> |top| >= 1
    ensures top == rows[..|top|]
    ensures RankedByOffers(rows) ==> RankedByOffers(top)
  {
    var n := TopProvidersLimit(limitArg);
    if n <= |rows| then rows[..n] else rows
  }

  // ---------------------------------------------------------------------------
  // getCalls
  // ---------------------------------------------------------------------------

  /** A call joined with its provider's name (the transcript column is unused). */
  datatype CallRow = CallRow(
    id: nat, date: int, provider: string, durationSeconds: nat, status: string,
    sentiment: Option<string>, interested: Option<int>, conversion: Option<int>)

  /** The formatted call: `id`, `date`, `provider`, `duration`, `status`, `sentiment`, `result`. */
  datatype CallSummary = CallSummary(
    id: nat, date: int, provider: string, duration: string,
    status: string, sentiment: string, result: string)

  /** A row formatted for display; its duration text reads back as the duration in seconds. */
  function SummarizeCall(row: CallRow): (c: CallSummary)
    ensures c.id == row.id && c.date == row.date && c.provider == row.provider
    ensures c.duration == FormatDuration(row.durationSeconds)
    ensures c.duration == NatToString(row.durationSeconds / 60) + ":" + Pad2(row.durationSeconds % 60)
    ensures ReadDuration(c.duration) == Some(row.durationSeconds)
    ensures c.status == MapStatus(row.status)
    ensures c.sentiment == SentimentLabel(row.sentiment)
    ensures c.result == MapResult(row.status, row.interested, row.conversion)
  {
    CallSummary(
      row.id, row.date, row.provider, FormatDuration(row.durationSeconds),
      MapStatus(row.status), SentimentLabel(row.sentiment),
      MapResult(row.status, row.interested, row.conversion))
  }

  /** Newest first, as `ORDER BY l.fecha_llamada DESC` returns them. */
  predicate CallsNewestFirst(rows: seq<CallRow>) {
    forall i, j :: 0 <= i < j < |rows| ==> rows[i].date >= rows[j].date
  }

  /**
   * The calls listing. `matching` is every call in the range in the store's
   * order; `LIMIT ?` keeps its first `CallsLimit(limitArg)` rows, and each is
   * formatted in place.
   */
  function ListCalls(matching: seq<CallRow>, limitArg: Option<int>): (calls: seq<CallSummary>)
    ensures |calls| == Min(CallsLimit(limitArg), |matching|) && |calls| <= 500
    ensures forall i :: 0 <= i < |calls| ==> calls[i] == SummarizeCall(matching[i])
  {
    var n := CallsLimit(limitArg);
    var kept := if n <= |matching| then matching[..n] else matching;
    seq(|kept|, i requires 0 <= i < |kept| => SummarizeCall(kept[i]))
  }

  /** The listing keeps the store's newest-first order. */
  lemma ListCallsNewestFirst(matching: seq<CallRow>, limitArg: Option<int>)
    requires CallsNewestFirst(matching)
    ensures var calls := ListCalls(matching, limitArg);
      forall i, j :: 0 <= i < j < |calls| ==> calls[i].date >= calls[j].date
  {
    var calls := ListCalls(matching, limitArg);
    forall i, j | 0 <= i < j < |calls| ensures calls[i].date >= calls[j].date {
      assert calls[i].date == matching[i].date && calls[j].date == matching[j].date;
    }
  }
}
