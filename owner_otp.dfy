/**
 * The OTP page (app/owner/otp/page.tsx): four one-digit boxes with focus
 * movement, a Verify button enabled once all four are filled, and a
 * 30-second countdown after which the code may be resent.
 */
module OwnerOtp {
  import opened Wrappers
  import opened JsStrings

  const BoxCount := 4
  const CountdownStart := 30
  const Backspace := "Backspace"
  const DetailsRoute := "/owner/details"

  /** The test `/^\d?$/`: the empty string or one ASCII digit. */
  predicate IsBoxValue(value: string)
  {
    value == "" || (|value| == 1 && IsAsciiDigit(value[0]))
  }

  const EmptyOtp: seq<string> := ["", "", "", ""]

  /** `otp.join("")`. */
  function Joined(boxes: seq<string>): (r: string)
    ensures r == "" <==> forall i :: 0 <= i < |boxes| ==> boxes[i] == ""
  {
    if boxes == [] then ""
    else
      assert forall i :: 1 <= i < |boxes| ==> boxes[i] == boxes[1..][i - 1];
      boxes[0] + Joined(boxes[1..])
  }

  /** With every box empty or one digit, the joined code has full length exactly when every box is filled. */
  lemma {:induction false} JoinedFull(boxes: seq<string>)
    requires forall i :: 0 <= i < |boxes| ==> IsBoxValue(boxes[i])
    ensures |Joined(boxes)| <= |boxes|
    ensures |Joined(boxes)| == |boxes| <==> forall i :: 0 <= i < |boxes| ==> boxes[i] != ""
  {
    if boxes != [] {
      var rest := boxes[1..];
      assert forall i :: 1 <= i < |boxes| ==> boxes[i] == rest[i - 1];
      JoinedFull(rest);
    }
  }

  /** The countdown text "0:SS": `timeLeft` left-padded with '0' to two characters. */
  function CountdownLabel(timeLeft: nat): (text: string)
    ensures |text| >= 4 && text[..2] == "0:"
    ensures timeLeft < 100 ==> |text| == 4
  {
    "0:" + PadStart(NatToString(timeLeft), 2, '0')
  }

  /** Every value the countdown takes shows as exactly two digits that read back as that value. */
  lemma CountdownLabelDigits(timeLeft: nat)
    requires timeLeft <= CountdownStart
    ensures var text := CountdownLabel(timeLeft);
      |text| == 4 && text[..2] == "0:" && IsAllDigits(text[2..]) && DecimalValue(text[2..]) == timeLeft
  {
    var digits := NatToString(timeLeft);
    var text := CountdownLabel(timeLeft);
    DecimalRoundTrip(timeLeft);
    if timeLeft < 10 {
      LeadingZero(digits);
      assert PadStart(digits, 2, '0') == "0" + digits;
    }
    assert text[2..] == PadStart(digits, 2, '0');
  }

  class OtpPage {
    var otp: seq<string>
    var timeLeft: int
    var canResend: bool
    var route: Option<string>

    /** Four boxes, each empty or one digit; resending is offered exactly when the countdown is at zero. */
    ghost predicate Valid()
      reads this
    {
      |otp| == BoxCount && (forall i :: 0 <= i < BoxCount ==> IsBoxValue(otp[i])) &&
      0 <= timeLeft <= CountdownStart && (canResend <==> timeLeft == 0)
    }

    constructor ()
      ensures Valid()
      ensures otp == EmptyOtp && timeLeft == CountdownStart && !canResend && route == None
    {
      otp := EmptyOtp;
      timeLeft := CountdownStart;
      canResend := false;
      route := None;
    }

    /**
     * `handleChange`: a value that is not empty or one digit is ignored;
     * otherwise it replaces box `index` only. Returns the box to focus next.
     */
    method HandleChange(value: string, index: nat) returns (focus: Option<nat>)
      requires Valid() && index < BoxCount
      modifies this
      ensures Valid()
      ensures IsBoxValue(value) ==> otp == old(otp)[index := value]
      ensures !IsBoxValue(value) ==> otp == old(otp)
      ensures timeLeft == old(timeLeft) && canResend == old(canResend) && route == old(route)
      ensures focus.Some? <==> IsBoxValue(value) && value != "" && index < BoxCount - 1
      ensures focus.Some? ==> focus.value == index + 1 && focus.value < BoxCount
    {
      focus := None;
      if !(value == "" || (|value| == 1 && IsAsciiDigit(value[0]))) {
        return;
      }
      otp := otp[index := value];
      if value != "" && index < 3 {
        focus := Some(index + 1);
      }
    }

    /** `handleKeyDown`: Backspace in an empty box moves focus back one box. */
    method HandleKeyDown(key: string, index: nat) returns (focus: Option<nat>)
      requires Valid() && index < BoxCount
      ensures focus.Some? <==> key == Backspace && otp[index] == "" && index > 0
      ensures focus.Some? ==> focus.value == index - 1
    {
      focus := None;
      if key == Backspace && otp[index] == "" && index > 0 {
        focus := Some(index - 1);
      }
    }

    /** The Verify button is enabled when the joined code has four characters. */
    function VerifyEnabled(): (enabled: bool)
      reads this
      requires Valid()
      ensures enabled <==> forall i :: 0 <= i < BoxCount ==> otp[i] != ""
    {
      JoinedFull(otp);
      |Joined(otp)| == 4
    }

    /** `handleVerify`: navigates only with all four digits present. */
    method HandleVerify()
      requires Valid()
      modifies this
      ensures Valid() && otp == old(otp) && timeLeft == old(timeLeft) && canResend == old(canResend)
      ensures old(VerifyEnabled()) ==> route == Some(DetailsRoute)
      ensures !old(VerifyEnabled()) ==> route == old(route)
    {
      if |Joined(otp)| == 4 {
        route := Some(DetailsRoute);
      }
    }

    /**
     * One second of the countdown: the pending timer fires and decrements
     * `timeLeft`; the effect that then sees zero offers the resend.
     */
    method Tick()
      requires Valid() && timeLeft > 0
      modifies this
      ensures Valid()
      ensures timeLeft == old(timeLeft) - 1
      ensures canResend <==> timeLeft == 0
      ensures otp == old(otp) && route == old(route)
    {
      timeLeft := timeLeft - 1;
      if timeLeft == 0 {
        canResend := true;
      }
    }

    /** `handleResend`: four empty boxes, a fresh countdown, focus on the first box. */
    method HandleResend() returns (focus: Option<nat>)
      requires Valid()
      modifies this
      ensures Valid()
      ensures otp == EmptyOtp && timeLeft == CountdownStart && !canResend
      ensures !VerifyEnabled()
      ensures route == old(route) && focus == Some(0)
    {
      otp := EmptyOtp;
      timeLeft := CountdownStart;
      canResend := false;
      focus := Some(0);
    }
  }
}
