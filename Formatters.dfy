/**
 * The display helpers of the analytics service: durations as "m:ss", status
 * labels, the derived call result and first-letter capitalisation.
 */
module Formatters {
  import opened Wrappers
  import opened Text

  /** JavaScript truthiness of a nullable tinyint flag: NULL and 0 are false. */
  predicate Truthy(flag: Option<int>) {
    flag.Some? && flag.value != 0
  }

  // ---------------------------------------------------------------------------
  // formatDuration
  // ---------------------------------------------------------------------------

  /** Reads "m:ss" (any number of minute digits, exactly two second digits) as m * 60 + ss. */
  function ReadDuration(s: string): Option<nat> {
    if |s| >= 4 && s[|s| - 3] == ':' && AllDigits(s[..|s| - 3]) && AllDigits(s[|s| - 2..])
    then Some(DigitsValue(s[..|s| - 3]) * 60 + DigitsValue(s[|s| - 2..]))
    else None
  }

  /**
   * Whole minutes, a colon and the remaining seconds padded to two digits. The
   * early "0:00" for a zero duration agrees with the general shape, and
   * reading the text back gives the duration.
   */
  function FormatDuration(seconds: nat): (s: string)
    ensures s == NatToString(seconds / 60) + ":" + Pad2(seconds % 60)
    ensures ReadDuration(s) == Some(seconds)
  {
    var general := NatToString(seconds / 60) + ":" + Pad2(seconds % 60);
    var m, p := NatToString(seconds / 60), Pad2(seconds % 60);
    assert general[..|general| - 3] == m && general[|general| - 2..] == p;
    ReadNatToString(seconds / 60);
    if seconds == 0 then
      assert NatToString(0) == "0" && Pad2(0) == "00";
      "0:00"
    else general
  }

  // ---------------------------------------------------------------------------
  // mapStatus
  // ---------------------------------------------------------------------------

  const StatusLabels: map<string, string> := map[
    "completada" := "Completada",
    "ocupada" := "Ocupada",
    "fallida" := "Fallida",
    "sin_respuesta" := "Sin Respuesta"
  ]

  /** The display label of a known call status; an unknown status is shown as it is. */
  function MapStatus(status: string): (shown: string)
    ensures status in StatusLabels ==> shown == StatusLabels[status]
    ensures status !in StatusLabels ==> shown == status
  {
    if status in StatusLabels then StatusLabels[status] else status
  }

  /** No label is itself a status key, so relabelling a label leaves it alone. */
  lemma MapStatusIdempotent(status: string)
    ensures MapStatus(MapStatus(status)) == MapStatus(status)
  {
  }

  // ---------------------------------------------------------------------------
  // mapResult
  // ---------------------------------------------------------------------------

  /** The result label of a call: Oferta, then Interesado, then No Interesado (completed calls only), else Reintentar. */
  function MapResult(status: string, interested: Option<int>, conversion: Option<int>): (r: string)
    ensures r == "Oferta" <==> Truthy(conversion)
    ensures r == "Interesado" <==> !Truthy(conversion) && Truthy(interested)
    ensures r == "No Interesado" <==> !Truthy(conversion) && !Truthy(interested) && status == "completada"
    ensures r == "Reintentar" <==> !Truthy(conversion) && !Truthy(interested) && status != "completada"
  {
    if Truthy(conversion) then "Oferta"
    else if Truthy(interested) then "Interesado"
    else if status == "completada" then "No Interesado"
    else "Reintentar"
  }

  // ---------------------------------------------------------------------------
  // capitalize
  // ---------------------------------------------------------------------------

  /** Upper case of an ASCII letter; every other character is unchanged. */
  function UpperAscii(c: char): (u: char)
    ensures 'a' <= c <= 'z' ==> u as int == c as int - 32
    ensures !('a' <= c <= 'z') ==> u == c
  {
    if 'a' <= c <= 'z' then (c as int - 32) as char else c
  }

  /** The first character upper-cased, the tail untouched, "" for "". */
  function Capitalize(s: string): (r: string)
    ensures |r| == |s|
    ensures s != [] ==> r[0] == UpperAscii(s[0]) && r[1..] == s[1..]
  {
    if s == [] then "" else [UpperAscii(s[0])] + s[1..]
  }

  /** Capitalising twice is capitalising once. */
  lemma CapitalizeIdempotent(s: string)
    ensures Capitalize(Capitalize(s)) == Capitalize(s)
  {
  }

  /** `capitalize(row.sentimiento || '-')`: a missing or empty sentiment shows as "-". */
  function SentimentLabel(sentiment: Option<string>): (r: string)
    ensures sentiment.None? || sentiment.value == "" ==> r == "-"
    ensures sentiment.Some? && sentiment.value != "" ==> r == Capitalize(sentiment.value)
  {
    Capitalize(if sentiment.None? || sentiment.value == "" then "-" else sentiment.value)
  }
}
