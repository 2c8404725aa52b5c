/** Python exceptions as values, and the structured error value the API layer returns. */
module Errors {
  import opened Common

  /** What a call may raise. `ApiException` and `PyException` are subclasses of
      `Exception`; `BaseOnly` stands for a `BaseException` outside `Exception`
      (an interrupt or an exit), which `except Exception` does not catch. */
  datatype Raised =
    | ApiException(statusCode: int, message: string, responseText: Option<string>)
    | PyException(kind: string, text: string)   // text is what str(e) gives
    | BaseOnly(kind: string, text: string)

  predicate IsException(e: Raised)
  {
    !e.BaseOnly?
  }

  /** `ApiError` of the integration models: code, message and an optional URL. */
  datatype ApiError = ApiError(errorCode: string, message: string, url: Option<string>)

  function DigitChar(d: nat): char
    requires d < 10
  {
    "0123456789"[d]
  }

  function NatToDecimal(n: nat): (s: string)
    ensures |s| >= 1 && s[0] != '-'
  {
    if n < 10 then [DigitChar(n)] else NatToDecimal(n / 10) + [DigitChar(n % 10)]
  }

  /** Python's `str(n)` for an int. */
  function IntToString(n: int): (s: string)
  {
    if n < 0 then "-" + NatToDecimal(-n) else NatToDecimal(n)
  }

  /** Reads a decimal numeral back: the reference that `IntToString` is checked against. */
  function DecimalValue(s: string): int
  {
    if s == [] then 0 else DecimalValue(s[..|s| - 1]) * 10 + (s[|s| - 1] as int - '0' as int)
  }

  function ParseInt(s: string): int
  {
    if |s| > 0 && s[0] == '-' then -DecimalValue(s[1..]) else DecimalValue(s)
  }

  lemma {:induction false} NatToDecimalValue(n: nat)
    ensures DecimalValue(NatToDecimal(n)) == n
  {
    if n >= 10 {
      NatToDecimalValue(n / 10);
      var s := NatToDecimal(n / 10) + [DigitChar(n % 10)];
      assert s[..|s| - 1] == NatToDecimal(n / 10);
    }
  }

  /** `str(status_code)` can be read back as the status code. */
  lemma {:induction false} IntToStringRoundTrip(n: int)
    ensures ParseInt(IntToString(n)) == n
  {
    if n < 0 {
      var digits := NatToDecimal(-n);
      assert IntToString(n) == "-" + digits;
      NatToDecimalValue(-n);
      ParseNegative(digits);
    } else {
      var digits := NatToDecimal(n);
      assert IntToString(n) == digits;
      NatToDecimalValue(n);
      ParseUnsigned(digits);
    }
  }

  lemma ParseNegative(digits: string)
    ensures ParseInt("-" + digits) == -DecimalValue(digits)
  {
    assert ("-" + digits)[1..] == digits;
  }

  lemma ParseUnsigned(digits: string)
    requires |digits| >= 1 && digits[0] != '-'
    ensures ParseInt(digits) == DecimalValue(digits)
  {
  }
}
