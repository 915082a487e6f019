/**
 * The one-time codes of user_signup: the draw range of the `pre_save` hook, the
 * text the `otp` CharField ends up holding, the SMS body, and the elapsed-time
 * measure every view compares against its window (`timedelta.seconds`).
 */
module Otp {
  import opened Text
  import opened Wrappers

  /** `random.randrange(10101, 909090)`: the draw is a parameter within this range. */
  const DrawLow: int := 10101
  const DrawHigh: int := 909090
  type OtpDraw = n: int | DrawLow <= n < DrawHigh witness DrawLow

  /** `max_length` of `TempUser.otp` and of `Profile.otp`. */
  const TempUserOtpMaxLength: nat := 8
  const ProfileOtpMaxLength: nat := 10

  /** Validity windows, in seconds, of the four comparisons in the views. */
  const ResendAfter: nat := 20
  const SignupWindow: nat := 50
  const LoginWindow: nat := 5000
  const ResetWindow: nat := 50

  const SecondsPerDay: nat := 86400

  /**
   * What a saved draw reads back as: the CharField stores `str(draw)`, five or six
   * digits, which fits both columns.
   */
  function StoredOtp(draw: OtpDraw): (s: string)
    ensures 5 <= |s| <= 6
    ensures |s| <= TempUserOtpMaxLength && |s| <= ProfileOtpMaxLength
    ensures forall i :: 0 <= i < |s| ==> IsDigitChar(s[i])
    ensures s[0] != '0'
  {
    DigitsOfDraw(draw);
    DecimalString(draw)
  }

  lemma DigitsOfDraw(draw: OtpDraw)
    ensures 5 <= |DecimalString(draw)| <= 6
  {
    assert Pow10(4) == 10000 by {
      assert Pow10(2) == 100;
    }
    assert Pow10(6) == 1000000 by {
      assert Pow10(5) == 100000;
    }
    if draw < 100000 {
      DecimalStringLength(draw, 5);
    } else {
      DecimalStringLength(draw, 6);
    }
  }

  /** The stored text determines the draw: `int(stored) == draw`. */
  lemma StoredOtpRoundTrip(draw: OtpDraw)
    ensures DecimalValue(StoredOtp(draw)) == draw
  {
    DecimalRoundTrip(draw);
  }

  /** Two saves with different draws leave different codes. */
  lemma StoredOtpInjective(a: OtpDraw, b: OtpDraw)
    ensures StoredOtp(a) == StoredOtp(b) <==> a == b
  {
    StoredOtpRoundTrip(a);
    StoredOtpRoundTrip(b);
  }

  /** Text that some save could have left in an `otp` column. */
  ghost predicate IsStoredOtp(s: string)
  {
    exists d: OtpDraw :: StoredOtp(d) == s
  }

  /** The placeholder "1234" that the resend view assigns is never what gets stored. */
  lemma SignalNeverStored(draw: OtpDraw)
    ensures StoredOtp(draw) != "1234"
  {
  }

  const SmsPrefix: string := "verification code is: "
  const SmsSuffix: string := "\nthis code will valid for only 45 secs"

  /** The SMS body of the TempUser hook and of the sms branch of PasswordResetView. */
  function OtpSmsBody(code: string): (body: string)
    ensures |body| == |SmsPrefix| + |code| + |SmsSuffix|
    ensures body[|SmsPrefix|..|SmsPrefix| + |code|] == code
  {
    SmsPrefix + code + SmsSuffix
  }

  /** Reads the code back out of an SMS body, if it has the body's shape. */
  function SmsCode(body: string): (code: Option<string>)
  {
    if |body| >= |SmsPrefix| + |SmsSuffix|
       && body[..|SmsPrefix|] == SmsPrefix
       && body[|body| - |SmsSuffix|..] == SmsSuffix
    then Some(body[|SmsPrefix|..|body| - |SmsSuffix|])
    else None
  }

  /** The recipient can read the code out of the message: the body round-trips. */
  lemma SmsBodyRoundTrip(code: string)
    ensures SmsCode(OtpSmsBody(code)) == Some(code)
  {
    var body := OtpSmsBody(code);
    assert body[..|SmsPrefix|] == SmsPrefix;
    assert body[|body| - |SmsSuffix|..] == SmsSuffix;
    assert body[|SmsPrefix|..|body| - |SmsSuffix|] == code;
  }

  /**
   * `(now - date).seconds` with both instants in whole seconds: the seconds part of
   * a normalised timedelta, which drops whole days (and is never negative).
   */
  function ElapsedSeconds(now: int, date: int): (s: nat)
    ensures s < SecondsPerDay
    ensures (now - date - s) % SecondsPerDay == 0
    ensures 0 <= now - date < SecondsPerDay ==> s == now - date
  {
    (now - date) % SecondsPerDay
  }

  /** The measure forgets whole days: one day later it reads exactly the same. */
  lemma ElapsedSecondsPeriodic(now: int, date: int, days: nat)
    ensures ElapsedSeconds(now + days * SecondsPerDay, date) == ElapsedSeconds(now, date)
  {
    var d := now - date;
    assert (d + days * SecondsPerDay) % SecondsPerDay == d % SecondsPerDay by {
      ModAddMultiple(d, days);
    }
  }

  lemma {:induction false} ModAddMultiple(d: int, days: nat)
    ensures (d + days * SecondsPerDay) % SecondsPerDay == d % SecondsPerDay
  {
    if days > 0 {
      ModAddMultiple(d, days - 1);
      assert d + days * SecondsPerDay == (d + (days - 1) * SecondsPerDay) + SecondsPerDay;
    }
  }

  /** Whole elapsed seconds, as `timedelta.total_seconds()` gives them. */
  function TotalElapsed(now: int, date: int): int
  {
    now - date
  }

  /** A window test on the day-wrapping measure, as every view writes it. */
  predicate InWindow(now: int, date: int, window: nat)
  {
    ElapsedSeconds(now, date) < window
  }

  /** The same test on total elapsed time, as the windows are evidently meant. */
  predicate InWindowIntended(now: int, date: int, window: nat)
  {
    TotalElapsed(now, date) < window
  }

  /**
   * As written, a window reopens every day: a code issued at 0 and presented at
   * 86410 is inside a 50-second window.
   */
  lemma WindowReopensNextDay()
    ensures InWindow(86410, 0, SignupWindow)
    ensures !InWindowIntended(86410, 0, SignupWindow)
  {
  }

  /** Inside a window now, inside it again after any number of whole days. */
  lemma WindowReopensEveryDay(now: int, date: int, window: nat, days: nat)
    requires InWindow(now, date, window)
    ensures InWindow(now + days * SecondsPerDay, date, window)
  {
    ElapsedSecondsPeriodic(now, date, days);
  }

  /** On total elapsed time, once a window has closed it stays closed. */
  lemma IntendedExpiryIsPermanent(now: int, later: int, date: int, window: nat)
    requires !InWindowIntended(now, date, window) && now <= later
    ensures !InWindowIntended(later, date, window)
  {
  }

  /** The two tests agree for the first day after issue. */
  lemma WindowsAgreeWithinADay(now: int, date: int, window: nat)
    requires 0 <= now - date < SecondsPerDay
    ensures InWindow(now, date, window) <==> InWindowIntended(now, date, window)
  {
  }
}
