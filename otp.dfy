/** The numeric one-time password generator. */
module Otp {
  import opened Wrappers
  import opened Strings

  /** The widest range the platform's random integer source accepts, exclusive: `2^48`. */
  const RandomRange: nat := 0x1_0000_0000_0000

  /** The largest integer a JavaScript number holds exactly: `2^53 - 1`. */
  const MaxSafeInteger: nat := 0x1F_FFFF_FFFF_FFFF

  /**
   * How the random source refuses its bounds: a bound that is not a safe integer
   * is of the wrong type, a range of `2^48` or more is out of range.
   */
  datatype OtpError = InvalidArgType | OutOfRange

  /** `otp.padStart(length, '0')`. */
  function PadStart(s: string, length: int): (r: string)
    ensures |r| == if |s| < length then length else |s|
    ensures r[|r| - |s|..] == s && forall i :: 0 <= i < |r| - |s| ==> r[i] == '0'
  {
    if |s| < length then Zeros(length - |s|) + s else s
  }

  /**
   * `generateNumericOtp(length)` given the number `draw` that
   * `randomInt(0, 10^length)` returns. A negative length makes the upper bound a
   * fraction and a length of 16 or more makes it exceed the safe integers, which
   * the random source rejects as arguments of the wrong type; a length of 15 is a
   * safe bound but a range of `2^48` or more, which it rejects as out of range.
   */
  function GenerateNumericOtp(length: Option<int>, draw: nat): (r: Result<string, OtpError>)
    requires var n := length.GetOr(6); n >= 0 ==> draw < Pow10(n)
  {
    var n := length.GetOr(6);
    if n < 0 || Pow10(n) > MaxSafeInteger then Failure(InvalidArgType)
    else if Pow10(n) >= RandomRange then Failure(OutOfRange)
    else Success(PadStart(NatToString(draw), n))
  }

  /**
   * The range check fails exactly for lengths of 15 and more, and the bound
   * leaves the safe integers exactly for lengths of 16 and more.
   */
  lemma {:induction false} RangeLimit(n: nat)
    ensures Pow10(n) >= RandomRange <==> n >= 15
    ensures Pow10(n) > MaxSafeInteger <==> n >= 16
  {
    var p14 := Pow10(14);
    assert p14 == 100_000_000_000_000;
    if n > 16 {
      Pow10Grows(16, n);
    } else if n < 14 {
      Pow10Grows(n, 14);
    }
  }

  lemma {:induction false} Pow10Grows(m: nat, n: nat)
    requires m <= n
    ensures Pow10(m) <= Pow10(n)
    decreases n - m
  {
    if m < n {
      Pow10Grows(m + 1, n);
    }
  }

  /**
   * A generated password has exactly `length` characters (one for length 0), all
   * of them decimal digits, and reads back as the drawn number; the default length
   * is 6.
   */
  lemma OtpShape(length: Option<int>, draw: nat)
    requires var n := length.GetOr(6); n >= 0 ==> draw < Pow10(n)
    ensures var n := length.GetOr(6);
      GenerateNumericOtp(length, draw).Success? <==> 0 <= n < 15
    ensures var n := length.GetOr(6);
      GenerateNumericOtp(length, draw) == Failure(InvalidArgType) <==> n < 0 || n >= 16
    ensures var n := length.GetOr(6);
      GenerateNumericOtp(length, draw) == Failure(OutOfRange) <==> n == 15
    ensures var n := length.GetOr(6); var r := GenerateNumericOtp(length, draw);
      r.Success? ==> |r.value| == (if n == 0 then 1 else n) && AllDigits(r.value) && DigitsValue(r.value) == draw
  {
    var n := length.GetOr(6);
    if n >= 0 {
      RangeLimit(n);
      var s := NatToString(draw);
      NatToStringValue(draw);
      if n >= 1 {
        NatToStringLength(draw, n);
      }
      if |s| < n {
        LeadingZerosValue(n - |s|, s);
      }
    }
  }
}
