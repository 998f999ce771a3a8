/**
 * The start screen (app/owner/start/page.tsx): a mobile-number field that
 * keeps only digits and at most ten of them, and a "Get OTP" button enabled
 * when exactly ten are present.
 */
module OwnerStart {
  import opened JsStrings

  const MobileLength := 10

  /** `value.replace(/\D/g, "")`. */
  function DigitsOnly(s: string): (r: string)
    ensures IsAllDigits(r) && |r| <= |s|
    ensures r == s <==> IsAllDigits(s)
  {
    if s == [] then []
    else
      var rest := DigitsOnly(s[1..]);
      if IsAsciiDigit(s[0]) then
        assert IsAllDigits(s) <==> IsAllDigits(s[1..]) by {
          assert forall i :: 1 <= i < |s| ==> s[i] == s[1..][i - 1];
        }
        [s[0]] + rest
      else
        rest
  }

  /** On one character: a digit is kept, anything else is dropped. */
  lemma DigitsOnlyChar(c: char)
    ensures IsAsciiDigit(c) ==> DigitsOnly([c]) == [c]
    ensures !IsAsciiDigit(c) ==> DigitsOnly([c]) == []
  {
  }

  /** The filter works piece by piece: the digits of a concatenation are the digits of each part, in order. */
  lemma {:induction false} DigitsOnlyAppend(a: string, b: string)
    ensures DigitsOnly(a + b) == DigitsOnly(a) + DigitsOnly(b)
  {
    if a == [] {
      assert a + b == b;
    } else {
      assert (a + b)[0] == a[0] && (a + b)[1..] == a[1..] + b;
      DigitsOnlyAppend(a[1..], b);
    }
  }

  /** Filtering twice is filtering once. */
  lemma DigitsOnlyIdempotent(s: string)
    ensures DigitsOnly(DigitsOnly(s)) == DigitsOnly(s)
  {
  }

  class StartScreen {
    var mobile: string

    ghost predicate Valid()
      reads this
    {
      IsAllDigits(mobile) && |mobile| <= MobileLength
    }

    constructor ()
      ensures Valid() && mobile == ""
    {
      mobile := "";
    }

    /** `handleChange`: a cleaned value of more than ten digits is dropped. */
    method HandleChange(value: string)
      requires Valid()
      modifies this
      ensures Valid()
      ensures |DigitsOnly(value)| <= MobileLength ==> mobile == DigitsOnly(value)
      ensures |DigitsOnly(value)| > MobileLength ==> mobile == old(mobile)
    {
      var cleaned := DigitsOnly(value);
      if |cleaned| <= MobileLength {
        mobile := cleaned;
      }
    }

    /** `isValid`, which enables the "Get OTP" button. */
    function IsValid(): (ok: bool)
      reads this
      requires Valid()
      ensures ok <==> |mobile| == MobileLength
      ensures ok ==> IsAllDigits(mobile)
    {
      |mobile| == MobileLength
    }
  }
}
