/**
 * The limit arguments of the listing operations: `parseInt(limit) || fallback`
 * and, where the source clamps it, `Math.max(1, Math.min(ceiling, ...))`.
 * `parseInt`'s result is taken as given; None stands for NaN.
 */
module Limits {
  import opened Wrappers

  function Min(a: int, b: int): int {
    if a <= b then a else b
  }

  function Max(a: int, b: int): int {
    if a >= b then a else b
  }

  /** `parseInt(limit) || fallback`: NaN and 0 are falsy and give the fallback. */
  function ParsedOr(parsed: Option<int>, fallback: int): (v: int)
    ensures parsed.None? || parsed == Some(0) ==> v == fallback
    ensures parsed.Some? && parsed.value != 0 ==> v == parsed.value
  {
    match parsed
    case Some(n) => if n != 0 then n else fallback
    case None => fallback
  }

  /** `Math.max(1, Math.min(ceiling, parseInt(limit) || fallback))`. */
  function ClampLimit(parsed: Option<int>, fallback: nat, ceiling: nat): (limit: nat)
    requires 1 <= fallback <= ceiling
    ensures 1 <= limit <= ceiling
    ensures parsed.None? || parsed == Some(0) ==> limit == fallback
    ensures parsed.Some? && 1 <= parsed.value <= ceiling ==> limit == parsed.value
    ensures parsed.Some? && parsed.value < 0 ==> limit == 1
    ensures parsed.Some? && parsed.value > ceiling ==> limit == ceiling
  {
    Max(1, Min(ceiling, ParsedOr(parsed, fallback)))
  }

  /** The top-providers limit: within [1, 100], 10 when the argument parses to 0 or NaN. */
  function TopProvidersLimit(parsed: Option<int>): (limit: nat)
    ensures 1 <= limit <= 100
    ensures parsed.None? || parsed == Some(0) ==> limit == 10
    ensures parsed.Some? && 1 <= parsed.value <= 100 ==> limit == parsed.value
    ensures parsed.Some? && parsed.value < 0 ==> limit == 1
    ensures parsed.Some? && parsed.value > 100 ==> limit == 100
  {
    ClampLimit(parsed, 10, 100)
  }

  /** The calls-listing limit: within [1, 500], 100 when the argument parses to 0 or NaN. */
  function CallsLimit(parsed: Option<int>): (limit: nat)
    ensures 1 <= limit <= 500
    ensures parsed.None? || parsed == Some(0) ==> limit == 100
    ensures parsed.Some? && 1 <= parsed.value <= 500 ==> limit == parsed.value
    ensures parsed.Some? && parsed.value < 0 ==> limit == 1
    ensures parsed.Some? && parsed.value > 500 ==> limit == 500
  {
    ClampLimit(parsed, 100, 500)
  }

  /** The recent-activity limit is not clamped: `parseInt(limit) || 10`. */
  function ActivityLimit(parsed: Option<int>): (limit: int)
    ensures limit != 0
    ensures parsed.None? || parsed == Some(0) ==> limit == 10
    ensures parsed.Some? && parsed.value != 0 ==> limit == parsed.value
  {
    ParsedOr(parsed, 10)
  }
}
