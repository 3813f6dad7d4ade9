/** Values shared by every part of the order-management model: nullable
    values, the exceptions the core throws, and the few string operations
    (Java's `trim`-based blankness test, `Long.toString`, `String.replace`)
    that the messages and responses are built from. */
module Common {

  /** A Java reference that may be null. */
  datatype Option<+T> = None | Some(value: T)

  /** One rejected field of a request: the field path and the constraint's message. */
  datatype FieldError = FieldError(field: string, message: string)

  /** The exceptions the core throws, by the class the handlers dispatch on. */
  datatype Error =
    | ResourceNotFound(message: string)
    | DuplicateOrderNumber(message: string)
    | ValidationFailed(fieldErrors: seq<FieldError>)
    | UsernameNotFound(message: string)
    | Runtime(message: string)
      /** An exception raised inside the persistence provider or the JVM (a
          null unit price met by the total, a null in a `nullable = false`
          column), named by its class; its message is not part of this model. */
    | Internal(exception: string)

  /** A call that either returns a value or throws. */
  datatype Result<+T> = Ok(value: T) | Err(error: Error)

  // ---------------------------------------------------------------------
  // Blankness, as `@NotBlank` decides it: `String.trim()` drops every
  // character up to U+0020, so a string is blank when it has no other.
  // ---------------------------------------------------------------------

  predicate HasText(s: string) {
    exists i | 0 <= i < |s| :: s[i] > ' '
  }

  /** `@NotBlank`: present, and not made of whitespace/control characters only. */
  predicate NotBlank(s: Option<string>) {
    s.Some? && HasText(s.value)
  }

  // ---------------------------------------------------------------------
  // Decimal rendering of a `long`, as string concatenation writes it.
  // ---------------------------------------------------------------------

  predicate IsDigit(c: char) {
    '0' <= c <= '9'
  }

  function DigitChar(d: nat): (c: char)
    requires d < 10
    ensures IsDigit(c) && (c as int) - ('0' as int) == d
  {
    (('0' as int) + d) as char
  }

  function DigitsOf(n: nat): (s: string)
    ensures |s| > 0
    ensures forall i | 0 <= i < |s| :: IsDigit(s[i])
  {
    if n < 10 then [DigitChar(n)] else DigitsOf(n / 10) + [DigitChar(n % 10)]
  }

  /** The value of a string of decimal digits. */
  function DigitsValue(s: string): nat
    requires forall i | 0 <= i < |s| :: IsDigit(s[i])
  {
    if s == [] then 0
    else
      assert IsDigit(s[|s| - 1]);
      10 * DigitsValue(s[..|s| - 1]) + ((s[|s| - 1] as int) - ('0' as int))
  }

  /** `Long.toString(n)`: a minus sign for negative values, then the digits. */
  function LongToString(n: int): string {
    if n < 0 then "-" + DigitsOf(-n) else DigitsOf(n)
  }

  /** Reading the digits back gives the number: the rendering loses nothing. */
  lemma {:induction false} DigitsRoundTrip(n: nat)
    ensures DigitsValue(DigitsOf(n)) == n
  {
    var s := DigitsOf(n);
    if n >= 10 {
      DigitsRoundTrip(n / 10);
      assert s[..|s| - 1] == DigitsOf(n / 10);
    }
  }

  /** Different non-negative numbers have different digit strings. */
  lemma DigitsApart(a: nat, b: nat)
    requires a != b
    ensures DigitsOf(a) != DigitsOf(b)
  {
    DigitsRoundTrip(a);
    DigitsRoundTrip(b);
  }

  /** The rendering starts with a minus sign exactly for negative values. */
  lemma LongToStringSign(n: int)
    ensures |LongToString(n)| > 0
    ensures n < 0 <==> LongToString(n)[0] == '-'
  {
    if n >= 0 {
      assert IsDigit(DigitsOf(n)[0]);
    }
  }

  /** Two ids render to the same text only when they are the same id, so the
      "... with id: <id>" messages tell ids apart. */
  lemma LongToStringInjective(a: int, b: int)
    requires LongToString(a) == LongToString(b)
    ensures a == b
  {
    LongToStringSign(a);
    LongToStringSign(b);
    if a < 0 {
      assert DigitsOf(-a) == LongToString(a)[1..] == LongToString(b)[1..] == DigitsOf(-b);
      DigitsRoundTrip(-a);
      DigitsRoundTrip(-b);
    } else {
      assert DigitsOf(a) == DigitsOf(b);
      DigitsRoundTrip(a);
      DigitsRoundTrip(b);
    }
  }

  // ---------------------------------------------------------------------
  // `String.replace(target, "")`: scan left to right, drop each occurrence
  // of the target, resume after it.
  // ---------------------------------------------------------------------

  predicate OccursAt(s: string, pat: string, i: nat) {
    i + |pat| <= |s| && s[i..i + |pat|] == pat
  }

  predicate Contains(s: string, pat: string) {
    exists i: nat | i <= |s| :: OccursAt(s, pat, i)
  }

  function RemoveAll(s: string, pat: string): string
    requires |pat| > 0
    decreases |s|
  {
    if |s| < |pat| then s
    else if s[..|pat|] == pat then RemoveAll(s[|pat|..], pat)
    else [s[0]] + RemoveAll(s[1..], pat)
  }

  /** A string without the target comes back unchanged. */
  lemma {:induction false} RemoveAllAbsent(s: string, pat: string)
    requires |pat| > 0 && !Contains(s, pat)
    ensures RemoveAll(s, pat) == s
  {
    if |s| >= |pat| {
      assert !OccursAt(s, pat, 0);
      assert s[..|pat|] != pat;
      forall i: nat | i <= |s[1..]|
        ensures !OccursAt(s[1..], pat, i)
      {
        assert !OccursAt(s, pat, i + 1);
      }
      RemoveAllAbsent(s[1..], pat);
    }
  }
}
