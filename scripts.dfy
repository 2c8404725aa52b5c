/** Small utilities: the retry loop with geometric backoff, the wrapper that
    swallows failures, and the boolean and primitive validators. */
module Scripts {
  import opened Common
  import opened PyValues
  import opened Errors

  /** `isinstance(v, (bool, str, int, float, type(None)))`: the primitives are
      exactly the scalar kinds other than dates. */
  predicate IsPrimitive(v: Value)
    ensures !IsPrimitive(v) <==> v.VDate? || v.VList? || v.VSet? || v.VDict? || v.VIter? || v.VObject?
  {
    match v
    case VNone => true
    case VBool(_) => true
    case VInt(_) => true
    case VFloat(_) => true
    case VStr(_) => true
    case _ => false
  }

  function Max(a: int, b: int): int
  {
    if a < b then b else a
  }

  function Pow(b: int, k: nat): int
  {
    if k == 0 then 1 else b * Pow(b, k - 1)
  }

  /** Multiplying the k-th delay by the backoff gives the next one. */
  lemma NextDelay(delay: int, backoff: int, k: nat)
    ensures delay * Pow(backoff, k) * backoff == delay * Pow(backoff, k + 1)
  {
    calc {
      delay * Pow(backoff, k + 1);
      delay * (backoff * Pow(backoff, k));
      { MulAssocComm(delay, backoff, Pow(backoff, k)); }
      delay * Pow(backoff, k) * backoff;
    }
  }

  lemma MulAssocComm(a: int, b: int, c: int)
    ensures a * (b * c) == a * c * b
  {
  }

  /** What `time.sleep` raises for a negative length. */
  const NegativeSleep := PyException("ValueError", "sleep length must be non-negative")

  lemma DelayNonNegative(delay: int, backoff: int, k: nat)
    requires delay >= 0 && backoff >= 0
    ensures delay * Pow(backoff, k) >= 0
  {
  }

  /** Calls the operation until it succeeds, raises an exception the retry does
      not check for, or `tries` attempts have been made; between attempts it
      sleeps `delay`, multiplying the delay by `backoff` each time. A negative
      delay makes the sleep raise ValueError, which ends the retry. Attempt k
      (0-based) of the operation gives `attempt(k)`; `sleeps` lists the delays
      slept, in order. */
  method Retry<T>(attempt: nat -> Result<T, Raised>, toCheck: Raised -> bool, tries: int, delay: int, backoff: int)
    returns (r: Result<T, Raised>, calls: nat, sleeps: seq<int>)
    ensures 1 <= calls <= Max(tries, 1)
    ensures tries <= 1 ==> calls == 1 && sleeps == []
    ensures |sleeps| == calls - 1
    ensures forall k :: 0 <= k < |sleeps| ==> sleeps[k] == delay * Pow(backoff, k) && sleeps[k] >= 0
    ensures forall k :: 0 <= k < calls - 1 ==> attempt(k).Err? && toCheck(attempt(k).error)
    ensures calls < Max(tries, 1) && attempt(calls - 1).Err? && toCheck(attempt(calls - 1).error) ==>
      delay * Pow(backoff, calls - 1) < 0 && r == Err(NegativeSleep)
    ensures !(calls < Max(tries, 1) && attempt(calls - 1).Err? && toCheck(attempt(calls - 1).error)) ==>
      r == attempt(calls - 1)
    ensures delay >= 0 && backoff >= 0 ==> r == attempt(calls - 1)
  {
    var remaining, currentDelay := tries, delay;
    calls, sleeps := 0, [];
    while remaining > 1
      invariant tries > 1 ==> calls + remaining == tries && remaining >= 1
      invariant tries <= 1 ==> calls == 0 && remaining == tries
      invariant currentDelay == delay * Pow(backoff, calls)
      invariant |sleeps| == calls
      invariant forall k :: 0 <= k < calls ==> sleeps[k] == delay * Pow(backoff, k) && sleeps[k] >= 0
      invariant forall k :: 0 <= k < calls ==> attempt(k).Err? && toCheck(attempt(k).error)
    {
      var outcome := attempt(calls);
      if outcome.Ok? || !toCheck(outcome.error) {
        r := outcome;
        calls := calls + 1;
        return;
      }
      if currentDelay < 0 {
        if delay >= 0 && backoff >= 0 {
          DelayNonNegative(delay, backoff, calls);
        }
        r := Err(NegativeSleep);
        calls := calls + 1;
        return;
      }
      sleeps := sleeps + [currentDelay];
      NextDelay(delay, backoff, calls);
      currentDelay := currentDelay * backoff;
      calls := calls + 1;
      remaining := remaining - 1;
    }
    r := attempt(calls);
    calls := calls + 1;
  }

  /** Two tries with delay -1: the first attempt fails with a checked
      exception, and the sleep before the second raises ValueError. */
  method NegativeDelayRaises() returns (r: Result<int, Raised>, calls: nat)
    ensures r == Err(NegativeSleep) && calls == 1
  {
    var failing := (k: nat) => Err(PyException("RuntimeError", "down"));
    var sleeps;
    r, calls, sleeps := Retry(failing, (e: Raised) => true, 2, -1, 2);
    if calls == 2 {
      assert sleeps[0] == -1 * Pow(2, 0);
    }
  }

  /** The wrapper that logs and drops any `Exception`: a success passes
      through, an `Exception` becomes None, anything else propagates. */
  function ExceptionSwallow<T>(outcome: Result<T, Raised>): (r: Result<Option<T>, Raised>)
    ensures (r.Ok? && r.value.None?) <==> (outcome.Err? && IsException(outcome.error))
    ensures r.Ok? && r.value.Some? ==> outcome == Ok(r.value.value)
    ensures r.Err? ==> outcome == Err(r.error) && !IsException(r.error)
    ensures outcome.Ok? ==> r.Ok?
  {
    match outcome
    case Ok(v) => Ok(Some(v))
    case Err(e) => if IsException(e) then Ok(None) else Err(e)
  }

  /** Lower-cases ASCII letters; the only characters whose `lower()` can turn
      a string into one of the accepted words. */
  function AsciiLower(s: string): (t: string)
    ensures |t| == |s|
  {
    if s == [] then []
    else
      var c := s[0];
      [if 'A' <= c <= 'Z' then (c as int + 32) as char else c] + AsciiLower(s[1..])
  }

  lemma {:induction false} AsciiLowerIdempotent(s: string)
    ensures AsciiLower(AsciiLower(s)) == AsciiLower(s)
  {
    if s != [] {
      AsciiLowerIdempotent(s[1..]);
      assert AsciiLower(s)[1..] == AsciiLower(s[1..]);
    }
  }

  const TrueWords: seq<string> := ["yes", "true", "t", "y", "1"]
  const FalseWords: seq<string> := ["no", "false", "f", "n", "0"]

  /** Booleans pass through, the accepted words map to True or False
      regardless of case, and anything else raises. */
  function StrToBool(v: Value): (r: Result<bool, Raised>)
    ensures r == Ok(true) <==> v == VBool(true) || (v.VStr? && AsciiLower(v.s) in TrueWords)
    ensures r == Ok(false) <==> v == VBool(false) || (v.VStr? && AsciiLower(v.s) in FalseWords)
    ensures r.Err? ==> r.error.PyException?
  {
    if v.VBool? then Ok(v.b)
    else if !v.VStr? then Err(PyException("AttributeError", "object has no attribute 'lower'"))
    else if AsciiLower(v.s) in TrueWords then Ok(true)
    else if AsciiLower(v.s) in FalseWords then Ok(false)
    else Err(PyException("Exception", "Boolean value expected, got " + v.s))
  }

  /** Case does not matter. */
  lemma StrToBoolCaseInsensitive(s: string)
    ensures StrToBool(VStr(s)).Ok? == StrToBool(VStr(AsciiLower(s))).Ok?
    ensures StrToBool(VStr(s)).Ok? ==> StrToBool(VStr(s)) == StrToBool(VStr(AsciiLower(s)))
  {
    AsciiLowerIdempotent(s);
  }

  lemma StrToBoolExamples()
    ensures StrToBool(VStr("YES")) == Ok(true)
    ensures StrToBool(VStr("False")) == Ok(false)
  {
    assert AsciiLower("YES") == "yes";
    assert AsciiLower("False") == "false";
  }

  lemma StrToBoolRejects()
    ensures StrToBool(VStr("maybe")).Err?
    ensures StrToBool(VInt(1)).Err?
  {
    var m := AsciiLower("maybe");
    assert m == "maybe";
    assert m !in TrueWords && m !in FalseWords;
  }
}
