/** Error values and the failure-carrying wrappers used by the rest of the model.

    `Error` has the four variants of `DeviceFlowError` in src/errors.rs. The
    device-flow functions of the program return boxed errors built from the
    messages they format themselves; those become `Other(message)`. Failures
    of the HTTP client (sending a request, decoding a JSON body) become `Http`,
    a failed read of standard input `Io`, and a failure of the OS secret store
    `Keyring`. */
module Errors {

  datatype Option<+T> = None | Some(value: T)

  datatype Error =
    | Other(message: string)
    | Io
    | Http
    | Keyring

  datatype Result<+T> = Ok(value: T) | Err(error: Error)

  /** Whether `c` is an ASCII decimal digit. */
  predicate IsDigit(c: char) {
    '0' <= c <= '9'
  }

  /** The decimal digits of `n`, most significant first, as the program's
      `{:?}` formatting of an HTTP status code prints them. */
  function Decimal(n: nat): (s: string)
    ensures |s| >= 1
    ensures forall i :: 0 <= i < |s| ==> IsDigit(s[i])
    ensures n < 10 <==> |s| == 1
    ensures n == 0 ==> s == "0"
    ensures n > 0 ==> s[0] != '0'
    decreases n
  {
    if n < 10 then [DigitChar(n)] else Decimal(n / 10) + [DigitChar(n % 10)]
  }

  function DigitChar(d: nat): (c: char)
    requires d < 10
    ensures IsDigit(c)
  {
    '0' + d as char
  }

  /** The number that a string of decimal digits denotes. */
  function DigitsValue(s: string): int
    requires forall i :: 0 <= i < |s| ==> IsDigit(s[i])
  {
    if s == [] then 0
    else 10 * DigitsValue(s[..|s| - 1]) + (s[|s| - 1] as int - '0' as int)
  }

  /** `Decimal` loses nothing: reading its digits back gives the number. */
  lemma {:induction false} DecimalRoundTrip(n: nat)
    ensures DigitsValue(Decimal(n)) == n
    decreases n
  {
    var s := Decimal(n);
    if n >= 10 {
      DecimalRoundTrip(n / 10);
      assert s[..|s| - 1] == Decimal(n / 10);
    }
  }
}
