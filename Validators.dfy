/**
 * The request-input validators: character stripping, role membership, the
 * e-mail shape test and the date-range order test.
 */
module Validators {
  import opened Wrappers

  // ---------------------------------------------------------------------------
  // sanitizeInput
  // ---------------------------------------------------------------------------

  /** A JavaScript value that may or may not be a string. */
  datatype Untyped<V> = Str(s: string) | NotStr(other: V)

  /** The four characters `sanitizeInput` removes: `<`, `>`, `'` and `"`. */
  predicate IsStripped(c: char) {
    c == '<' || c == '>' || c == '\'' || c == '"'
  }

  /** `s.replace(/[<>'"]/g, '')`: every stripped character removed, the rest kept in order. */
  function Strip(s: string): (r: string)
    ensures |r| <= |s|
    ensures forall i :: 0 <= i < |r| ==> !IsStripped(r[i])
  {
    if s == [] then []
    else (if IsStripped(s[0]) then [] else [s[0]]) + Strip(s[1..])
  }

  /** Strings are stripped; any other value is returned unchanged. */
  function SanitizeInput<V>(input: Untyped<V>): (r: Untyped<V>)
    ensures input.NotStr? ==> r == input
    ensures input.Str? ==> r.Str? && |r.s| <= |input.s|
    ensures input.Str? ==> forall i :: 0 <= i < |r.s| ==> !IsStripped(r.s[i])
  {
    match input
    case Str(s) => Str(Strip(s))
    case NotStr(_) => input
  }

  /** Stripping works character by character: it distributes over concatenation. */
  lemma {:induction false} StripConcat(a: string, b: string)
    ensures Strip(a + b) == Strip(a) + Strip(b)
    decreases |a|
  {
    if a == [] {
      assert a + b == b;
    } else {
      assert (a + b)[0] == a[0] && (a + b)[1..] == a[1..] + b;
      StripConcat(a[1..], b);
    }
  }

  /** Each character occurs as often as in the input, except the stripped ones, which vanish. */
  lemma {:induction false} StripCounts(s: string, c: char)
    ensures multiset(Strip(s))[c] == if IsStripped(c) then 0 else multiset(s)[c]
    decreases |s|
  {
    if s != [] {
      StripCounts(s[1..], c);
      assert s == [s[0]] + s[1..];
    }
  }

  /** A string with no stripped character is left as it is. */
  lemma {:induction false} StripKeepsClean(s: string)
    requires forall i :: 0 <= i < |s| ==> !IsStripped(s[i])
    ensures Strip(s) == s
    decreases |s|
  {
    if s != [] {
      StripKeepsClean(s[1..]);
    }
  }

  /** Sanitizing twice is sanitizing once. */
  lemma StripIdempotent(s: string)
    ensures Strip(Strip(s)) == Strip(s)
  {
    StripKeepsClean(Strip(s));
  }

  /** Stripping shortens the string by exactly the number of stripped characters. */
  lemma {:induction false} StripLength(s: string)
    ensures |Strip(s)| == |s| - multiset(s)['<'] - multiset(s)['>'] - multiset(s)['\''] - multiset(s)['"']
    decreases |s|
  {
    if s != [] {
      StripLength(s[1..]);
      assert s == [s[0]] + s[1..];
    }
  }

  // ---------------------------------------------------------------------------
  // isValidRole
  // ---------------------------------------------------------------------------

  const ValidRoles: seq<string> := ["Admin", "Manager", "Analyst"]

  /** `validRoles.includes(role)`: exact, case-sensitive membership. */
  function IsValidRole(role: string): (ok: bool)
    ensures ok <==> role == "Admin" || role == "Manager" || role == "Analyst"
  {
    role in ValidRoles
  }

  // ---------------------------------------------------------------------------
  // isValidEmail: /^[^\s@]+@[^\s@]+\.[^\s@]+$/
  // ---------------------------------------------------------------------------

  /** The characters of the ECMAScript `\s` class (white space and line terminators). */
  predicate IsJsWhitespace(c: char) {
    ('\t' <= c <= '\r') || c == ' ' || c == '\U{00A0}' || c == '\U{1680}'
    || ('\U{2000}' <= c <= '\U{200A}') || c == '\U{2028}' || c == '\U{2029}'
    || c == '\U{202F}' || c == '\U{205F}' || c == '\U{3000}' || c == '\U{FEFF}'
  }

  /** A character of the class `[^\s@]`. */
  predicate IsPlain(c: char) {
    !IsJsWhitespace(c) && c != '@'
  }

  /** A non-empty run `[^\s@]+` covering `s[lo..hi]`. */
  predicate PlainRun(s: string, lo: int, hi: int)
    requires 0 <= lo <= hi <= |s|
  {
    lo < hi && forall i :: lo <= i < hi ==> IsPlain(s[i])
  }

  /** `s` matches the pattern with its `@` at index `at` and the chosen `.` at index `dot`. */
  predicate MatchesAt(s: string, at: int, dot: int) {
    0 <= at < dot < |s|
    && s[at] == '@' && s[dot] == '.'
    && PlainRun(s, 0, at) && PlainRun(s, at + 1, dot) && PlainRun(s, dot + 1, |s|)
  }

  /** What the regular expression accepts: some placement of `@` and `.` splits it into three runs. */
  ghost predicate MatchesEmailPattern(s: string) {
    exists at, dot :: MatchesAt(s, at, dot)
  }

  /** The index of the first `c` in `s`, or `|s|` when there is none. */
  function FirstIndex(s: string, c: char): (k: nat)
    ensures k <= |s|
    ensures k < |s| ==> s[k] == c
    ensures forall i :: 0 <= i < k ==> s[i] != c
  {
    if s == [] then 0
    else if s[0] == c then 0
    else 1 + FirstIndex(s[1..], c)
  }

  /** No white space anywhere in `s`. */
  predicate NoWhitespace(s: string) {
    forall i :: 0 <= i < |s| ==> !IsJsWhitespace(s[i])
  }

  /** No `@` after index `at`. */
  predicate NoAtAfter(s: string, at: nat) {
    forall i :: at < i < |s| ==> s[i] != '@'
  }

  /** A `.` after index `at + 1` that is not the last character. */
  predicate InnerDotAfter(s: string, at: nat) {
    exists j :: at + 1 < j < |s| - 1 && s[j] == '.'
  }

  /**
   * `emailRegex.test(email)`, stated as the shape the pattern forces: no white
   * space, exactly one `@` (a first one and none after it), a non-empty local
   * part, and a `.` in the domain that is neither its first nor its last character.
   */
  function IsValidEmail(email: string): (ok: bool)
    ensures ok <==> MatchesEmailPattern(email)
  {
    var at := FirstIndex(email, '@');
    var ok := NoWhitespace(email) && 0 < at < |email| && NoAtAfter(email, at) && InnerDotAfter(email, at);
    ShapeMatchesPattern(email);
    PatternHasShape(email);
    ok
  }

  /** Every string of the shape matches the pattern. */
  lemma ShapeMatchesPattern(s: string)
    ensures var at := FirstIndex(s, '@');
      NoWhitespace(s) && 0 < at < |s| && NoAtAfter(s, at) && InnerDotAfter(s, at)
      ==> MatchesEmailPattern(s)
  {
    var at := FirstIndex(s, '@');
    if !(NoWhitespace(s) && 0 < at < |s| && NoAtAfter(s, at) && InnerDotAfter(s, at)) {
      return;
    }
    var dot :| at + 1 < dot < |s| - 1 && s[dot] == '.';
    assert MatchesAt(s, at, dot);
  }

  /** Every string the pattern matches has the shape. */
  lemma PatternHasShape(s: string)
    ensures MatchesEmailPattern(s) ==> var at := FirstIndex(s, '@');
      NoWhitespace(s) && 0 < at < |s| && NoAtAfter(s, at) && InnerDotAfter(s, at)
  {
    if !MatchesEmailPattern(s) {
      return;
    }
    var a, dot :| MatchesAt(s, a, dot);
    assert forall i :: 0 <= i < |s| && i != a && i != dot ==> IsPlain(s[i]);
    assert s[dot] == '.';
    assert FirstIndex(s, '@') == a;
  }

  // ---------------------------------------------------------------------------
  // isValidDateRange
  // ---------------------------------------------------------------------------

  /**
   * `new Date(startDate) <= new Date(endDate)` over timestamps; `None` is an
   * Invalid Date, whose NaN makes every comparison false.
   */
  function IsValidDateRange(start: Option<int>, end: Option<int>): (ok: bool)
    ensures ok <==> start.Some? && end.Some? && start.value <= end.value
  {
    match (start, end)
    case (Some(s), Some(e)) => s <= e
    case _ => false
  }

  /** Every valid instant forms a valid range with itself; a range that ends before it starts does not. */
  lemma DateRangeOrder(s: int, e: int)
    ensures IsValidDateRange(Some(s), Some(s))
    ensures s > e ==> !IsValidDateRange(Some(s), Some(e))
    ensures !IsValidDateRange(None, Some(e)) && !IsValidDateRange(Some(s), None)
  {
  }
}
