/**
 * user_signup/views.py: sign-up submission (`TempUserView.post`), resend
 * (`TempUserView.get`), code verification and promotion (`VerifyOtpView.post`) and
 * e-mail activation (`activate_account`).
 */
module SignupViews {
  import opened Wrappers
  import opened Text
  import opened Otp
  import opened Models
  import opened Http

  /** The request data `TempUserSerializer` reads: it has no `otp` and no `date` field. */
  datatype SignupForm = SignupForm(
    firstName: Option<string>,
    lastName: Option<string>,
    email: Option<string>,
    phoneNumber: Option<string>,
    password: Option<string>)

  const FirstNameMax: nat := 15
  const LastNameMax: nat := 15
  const EmailMax: nat := 254
  const PhoneMax: nat := 13
  const PasswordMax: nat := 256

  const SignupFields: set<string> := {"first_name", "last_name", "email", "phone_number", "password"}

  /**
   * DRF's `CharField` and `EmailField` trim the submitted text: whitespace-only text
   * counts as blank, and the validators see, and the row stores, the stripped text.
   */
  predicate Blank(s: string)
  {
    Strip(s) == ""
  }

  /** The stripped text is within `max_length` and holds no NUL character. */
  predicate TextOk(s: string, max: nat)
  {
    |Strip(s)| <= max && '\0' !in Strip(s)
  }

  /** A required, non-blank CharField whose stripped text passes its validators. */
  predicate RequiredOk(v: Option<string>, max: nat)
  {
    v.Some? && !Blank(v.value) && TextOk(v.value, max)
  }

  /** A present, non-blank e-mail fails when its stripped text is too long, malformed or taken. */
  predicate EmailRejected(v: Option<string>, others: map<string, TempUser>, isEmail: string -> bool)
  {
    v.Some? && !Blank(v.value)
    && (!TextOk(v.value, EmailMax) || !isEmail(Strip(v.value)) || EmailTaken(others, Strip(v.value)))
  }

  /** Submit looks for an existing row under `"+91" + phone_number`. */
  function ExistingKey(table: map<string, TempUser>, form: SignupForm): (key: Option<string>)
    ensures key.Some? ==> key.value in table && form.phoneNumber.Some? && key.value == "+91" + form.phoneNumber.value
    ensures key.None? ==> form.phoneNumber.None? || "+91" + form.phoneNumber.value !in table
  {
    if form.phoneNumber.Some? && "+91" + form.phoneNumber.value in table then Some("+91" + form.phoneNumber.value)
    else None
  }

  /** The error fields of a form, one flag per serializer field. */
  function FieldErrors(firstName: bool, lastName: bool, email: bool, phoneNumber: bool, password: bool)
    : (errs: set<string>)
    ensures errs <= SignupFields
    ensures "first_name" in errs <==> firstName
    ensures "last_name" in errs <==> lastName
    ensures "email" in errs <==> email
    ensures "phone_number" in errs <==> phoneNumber
    ensures "password" in errs <==> password
  {
    (if firstName then {"first_name"} else {}) + (if lastName then {"last_name"} else {})
    + (if email then {"email"} else {}) + (if phoneNumber then {"phone_number"} else {})
    + (if password then {"password"} else {})
  }

  /**
   * The fields `TempUserSerializer.is_valid()` rejects, given the rows other than
   * the one being updated. A blank email skips the field's validators; the unique
   * phone number is checked on the stripped text.
   */
  function SignupErrors(form: SignupForm, others: map<string, TempUser>, isEmail: string -> bool): (errs: set<string>)
    ensures errs <= SignupFields
    ensures "first_name" in errs <==> !RequiredOk(form.firstName, FirstNameMax)
    ensures "last_name" in errs <==> !RequiredOk(form.lastName, LastNameMax)
    ensures "password" in errs <==> !RequiredOk(form.password, PasswordMax)
    ensures "phone_number" in errs <==> !RequiredOk(form.phoneNumber, PhoneMax) || Strip(form.phoneNumber.value) in others
    ensures "email" in errs <==> form.email.Some? && !Blank(form.email.value)
                                 && (|Strip(form.email.value)| > EmailMax || '\0' in Strip(form.email.value)
                                     || !isEmail(Strip(form.email.value)) || EmailTaken(others, Strip(form.email.value)))
  {
    FieldErrors(!RequiredOk(form.firstName, FirstNameMax),
                !RequiredOk(form.lastName, LastNameMax),
                EmailRejected(form.email, others, isEmail),
                !RequiredOk(form.phoneNumber, PhoneMax) || Strip(form.phoneNumber.value) in others,
                !RequiredOk(form.password, PasswordMax))
  }

  /**
   * The row `serializer.save()` writes (before the hook): the stripped submitted
   * fields, an absent email kept from the row being updated or left blank on a new
   * row, and `otp` and `date` as the existing row had them (blank on a new row).
   */
  function FormRecord(form: SignupForm, existing: Option<TempUser>): (rec: TempUser)
    requires form.firstName.Some? && form.lastName.Some? && form.phoneNumber.Some? && form.password.Some?
    ensures rec.firstName == Strip(form.firstName.value) && rec.lastName == Strip(form.lastName.value)
    ensures rec.phoneNumber == Strip(form.phoneNumber.value) && rec.password == Strip(form.password.value)
    ensures rec.email == if form.email.Some? then Strip(form.email.value)
                         else if existing.Some? then existing.value.email else ""
    ensures rec.otp == (if existing.Some? then existing.value.otp else "")
    ensures rec.date == (if existing.Some? then existing.value.date else 0)
  {
    var base := if existing.Some? then existing.value else TempUser("", "", "", "", "", "", 0);
    base.(firstName := Strip(form.firstName.value),
          lastName := Strip(form.lastName.value),
          email := if form.email.Some? then Strip(form.email.value) else base.email,
          phoneNumber := Strip(form.phoneNumber.value),
          password := Strip(form.password.value))
  }

  /**
   * What `TempUserView.post` answers and leaves in the pending table: 400 with the
   * field errors, or the saved row with 201, or the IntegrityError of a save whose
   * email another row already holds (possible only for the blank email, which skips
   * the validators).
   */
  function SubmitOutcome(table: map<string, TempUser>, form: SignupForm, isEmail: string -> bool, draw: OtpDraw, now: int)
    : (out: (Response, map<string, TempUser>))
    ensures out.0.status == 201 || out.0.status == 400 || out.0 == Crash("IntegrityError")
    ensures out.0.status == 400 <==> SignupErrors(form, Others(table, ExistingKey(table, form)), isEmail) != {}
    ensures out.0.status != 201 ==> out.1 == table
    ensures out.0.status == 201 ==>
              form.phoneNumber.Some?
              && var p := Strip(form.phoneNumber.value);
                 && p in out.1 && out.1[p].otp == StoredOtp(draw) && out.1[p].date == now
                 && forall k :: k in out.1 && k != p ==> k in table && out.1[k] == table[k]
  {
    var key := ExistingKey(table, form);
    var others := Others(table, key);
    var errs := SignupErrors(form, others, isEmail);
    if errs != {} then (Response(400, Errors(errs)), table)
    else
      var rec := FormRecord(form, if key.Some? then Some(table[key.value]) else None);
      if EmailTaken(others, rec.email) then (Crash("IntegrityError"), table)
      else (Response(201, Message("otp sent")), others[rec.phoneNumber := HookApplied(rec, draw, now)])
  }

  /**
   * `TempUserView.post`: validate, then create or update the pending row. The save
   * always sends the SMS first; it can still fail on the blank email that another
   * pending row already holds.
   */
  method Submit(db: Database, form: SignupForm, isEmail: string -> bool, draw: OtpDraw, now: int)
    returns (resp: Response)
    requires db.Valid()
    modifies db
    ensures db.Valid()
    ensures (resp, db.tempUsers) == SubmitOutcome(old(db.tempUsers), form, isEmail, draw, now)
    ensures var key := ExistingKey(old(db.tempUsers), form);
            var others := Others(old(db.tempUsers), key);
            var errs := SignupErrors(form, others, isEmail);
            && (errs != {} ==> resp == Response(400, Errors(errs)) && unchanged(db))
            && (errs == {} ==>
                  var rec := FormRecord(form, if key.Some? then Some(old(db.tempUsers)[key.value]) else None);
                  && db.outbox == old(db.outbox) + [Sms(rec.phoneNumber, OtpSmsBody(StoredOtp(draw)))]
                  && db.users == old(db.users) && db.profiles == old(db.profiles)
                  && (!EmailTaken(others, rec.email) ==>
                        resp == Response(201, Message("otp sent"))
                        && db.tempUsers == others[rec.phoneNumber := HookApplied(rec, draw, now)])
                  && (EmailTaken(others, rec.email) ==>
                        resp == Crash("IntegrityError") && db.tempUsers == old(db.tempUsers)))
  {
    var key := ExistingKey(db.tempUsers, form);
    var others := Others(db.tempUsers, key);
    var errs := SignupErrors(form, others, isEmail);
    if errs != {} {
      return Response(400, Errors(errs));
    }
    var existing := if key.Some? then Some(db.tempUsers[key.value]) else None;
    var rec := FormRecord(form, existing);
    var saved := db.SaveTempUser(key, rec, draw, now);
    if saved {
      resp := Response(201, Message("otp sent"));
    } else {
      resp := Crash("IntegrityError");
    }
  }

  /** The resend branch is taken once more than 20 seconds (of the day-wrapping measure) have passed. */
  predicate ResendDue(rec: TempUser, now: int)
  {
    ElapsedSeconds(now, rec.date) > ResendAfter
  }

  /**
   * `TempUserView.get`: re-save the row when the resend is due (the "1234" it
   * assigns is overwritten by the hook), otherwise answer "wait".
   */
  method Resend(db: Database, phNo: string, draw: OtpDraw, now: int) returns (resp: Response)
    requires db.Valid()
    modifies db
    ensures db.Valid()
    ensures phNo !in old(db.tempUsers) ==> resp == Crash("DoesNotExist") && unchanged(db)
    ensures phNo in old(db.tempUsers) && ResendDue(old(db.tempUsers)[phNo], now) ==>
              && resp == Response(202, Message("resend"))
              && db.tempUsers == old(db.tempUsers)[phNo := HookApplied(old(db.tempUsers)[phNo], draw, now)]
              && db.outbox == old(db.outbox) + [Sms(phNo, OtpSmsBody(StoredOtp(draw)))]
              && db.users == old(db.users) && db.profiles == old(db.profiles)
    ensures phNo in old(db.tempUsers) && !ResendDue(old(db.tempUsers)[phNo], now) ==>
              resp == Response(200, Message("wait")) && unchanged(db)
  {
    if phNo !in db.tempUsers {
      return Crash("DoesNotExist");
    }
    var data := db.tempUsers[phNo];
    if ResendDue(data, now) {
      var others := Others(db.tempUsers, Some(phNo));
      assert !EmailTaken(others, data.email);
      var saved := db.SaveTempUser(Some(phNo), data.(otp := "1234"), draw, now);
      assert saved;
      assert others[phNo := HookApplied(data.(otp := "1234"), draw, now)]
          == old(db.tempUsers)[phNo := HookApplied(data, draw, now)];
      resp := Response(202, Message("resend"));
    } else {
      resp := Response(200, Message("wait"));
    }
  }

  /** How `VerifyOtpView.post` judges a submitted code against the pending row. */
  datatype Verdict = Expired | CodeMissing | Incorrect | Accepted

  /**
   * Expiry is decided first, whatever was submitted; only inside the window is the
   * `otp` key read (a missing key raises) and compared with the stored text.
   */
  function Verify(rec: TempUser, submitted: Option<string>, now: int): (v: Verdict)
    ensures v == Expired <==> !InWindow(now, rec.date, SignupWindow)
    ensures v == Accepted <==> InWindow(now, rec.date, SignupWindow) && submitted == Some(rec.otp)
    ensures v == Incorrect <==> InWindow(now, rec.date, SignupWindow) && submitted.Some? && submitted.value != rec.otp
  {
    if !InWindow(now, rec.date, SignupWindow) then Expired
    else if submitted.None? then CodeMissing
    else if submitted.value != rec.otp then Incorrect
    else Accepted
  }

  /**
   * The user `create_user` makes: the pending fields, the email normalised (its
   * domain lower-cased), the password hashed.
   */
  function PromotedUser(rec: TempUser, makePassword: string -> string): (u: User)
    ensures u.username == rec.phoneNumber && u.email == NormalizeEmail(rec.email)
    ensures u.email == "" <==> rec.email == ""
    ensures u.firstName == rec.firstName && u.lastName == rec.lastName
    ensures u.password == makePassword(rec.password) && u.isActive
  {
    User(rec.phoneNumber, NormalizeEmail(rec.email), rec.firstName, rec.lastName, makePassword(rec.password), true)
  }

  const VerifiedHead: string := "phone number verified  " + "\naccess token: "
  const MailNotice: string := "please verify your mail also"
  const NoMailNotice: string := "it will be better if you also provide us your email address"

  /** The 202 reply of a successful verification. */
  function VerifiedMessage(access: string, refresh: string, email: string): (msg: string)
    ensures IsPrefix(VerifiedHead, msg)
    ensures |VerifiedHead| + |access| <= |msg| && msg[|VerifiedHead|..|VerifiedHead| + |access|] == access
    ensures EndsWith(msg, if email != "" then MailNotice else NoMailNotice)
  {
    var notice := if email != "" then MailNotice else NoMailNotice;
    var msg := VerifiedHead + access + "\nrefresh token: " + refresh + notice;
    assert msg[|msg| - |notice|..] == notice;
    msg
  }

  predicate EndsWith(s: string, suffix: string)
  {
    |suffix| <= |s| && s[|s| - |suffix|..] == suffix
  }

  /** The reply asks the user to verify the mail exactly when the new user has an email. */
  lemma VerifiedMessageMentionsMail(access: string, refresh: string, email: string)
    ensures EndsWith(VerifiedMessage(access, refresh, email), MailNotice) <==> email != ""
  {
    var head := VerifiedHead + access + "\nrefresh token: " + refresh;
    var msg := VerifiedMessage(access, refresh, email);
    if email != "" {
      assert msg == head + MailNotice;
      assert msg[|msg| - |MailNotice|..] == MailNotice;
    } else {
      assert msg == head + NoMailNotice;
      assert msg[|msg| - |MailNotice|..] == NoMailNotice[|NoMailNotice| - |MailNotice|..];
      assert NoMailNotice[|NoMailNotice| - 1] != MailNotice[|MailNotice| - 1];
    }
  }

  /**
   * `VerifyOtpView.post`. On an accepted code exactly one user is created from the
   * pending row and that row is deleted; every other outcome changes nothing.
   */
  method VerifyOtp(db: Database, phNo: string, submitted: Option<string>, now: int,
                   makePassword: string -> string, refresh: string, access: string)
    returns (resp: Response)
    requires db.Valid()
    modifies db
    ensures db.Valid()
    ensures phNo !in old(db.tempUsers) ==> resp == Crash("DoesNotExist") && unchanged(db)
    ensures phNo in old(db.tempUsers) && Verify(old(db.tempUsers)[phNo], submitted, now) == Expired ==>
              resp == Response(200, Message("OTP expire")) && unchanged(db)
    ensures phNo in old(db.tempUsers) && Verify(old(db.tempUsers)[phNo], submitted, now) == CodeMissing ==>
              resp == Crash("KeyError") && unchanged(db)
    ensures phNo in old(db.tempUsers) && Verify(old(db.tempUsers)[phNo], submitted, now) == Incorrect ==>
              resp == Response(200, Message("OTP incorrect")) && unchanged(db)
    ensures phNo in old(db.tempUsers) && Verify(old(db.tempUsers)[phNo], submitted, now) == Accepted ==>
              var u := PromotedUser(old(db.tempUsers)[phNo], makePassword);
              && (UsernameTaken(old(db.users), u.username) ==>
                    resp == Crash("IntegrityError") && db.users == old(db.users) && db.tempUsers == old(db.tempUsers)
                    && db.outbox == old(db.outbox) && db.profiles == old(db.profiles))
              && (!UsernameTaken(old(db.users), u.username) ==>
                    && db.users == old(db.users) + [u]
                    && db.tempUsers == old(db.tempUsers) - {phNo}
                    && db.outbox == old(db.outbox) + (if u.email != "" then [ActivationMail(u.email, |old(db.users)| + 1)] else [])
                    && db.profiles == old(db.profiles)
                    && resp == Response(202, Message(VerifiedMessage(access, refresh, u.email))))
  {
    if phNo !in db.tempUsers {
      return Crash("DoesNotExist");
    }
    var data := db.tempUsers[phNo];
    var verdict := Verify(data, submitted, now);
    match verdict
    case Expired =>
      resp := Response(200, Message("OTP expire"));
    case CodeMissing =>
      resp := Crash("KeyError");
    case Incorrect =>
      resp := Response(200, Message("OTP incorrect"));
    case Accepted =>
      var u := PromotedUser(data, makePassword);
      var pk := db.CreateUser(u);
      if pk.None? {
        return Crash("IntegrityError");
      }
      if u.email != "" {
        db.Send(ActivationMail(u.email, pk.value));
      }
      db.DeleteTempUser(phNo);
      resp := Response(202, Message(VerifiedMessage(access, refresh, u.email)));
  }

  /**
   * `activate_account`: `uid` is the decoded primary key (None when the link does
   * not decode), `checkToken` the token generator's verdict.
   */
  method ActivateAccount(db: Database, uid: Option<nat>, token: string, checkToken: (User, string) -> bool)
    returns (resp: Response)
    requires db.Valid()
    modifies db
    ensures db.Valid()
    ensures var ok := uid.Some? && 1 <= uid.value <= |old(db.users)| && checkToken(old(db.users)[uid.value - 1], token);
            && (ok ==> resp == Response(200, Message("Email_verified"))
                       && db.users == old(db.users)[uid.value - 1 := old(db.users)[uid.value - 1].(isActive := true)]
                       && db.tempUsers == old(db.tempUsers) && db.profiles == old(db.profiles) && db.outbox == old(db.outbox))
            && (!ok ==> resp == Response(200, Message("Activation link is invalid!")) && unchanged(db))
  {
    if uid.Some? && 1 <= uid.value <= |db.users| && checkToken(db.users[uid.value - 1], token) {
      var user := db.users[uid.value - 1];
      db.SaveUser(uid.value, user.(isActive := true));
      resp := Response(200, Message("Email_verified"));
    } else {
      resp := Response(200, Message("Activation link is invalid!"));
    }
  }

  // Properties of the code lifecycle, stated on the functions the views are specified by.

  /** Once the window has passed the answer is "expired", whatever code is submitted. */
  lemma ExpiredWhateverTheCode(rec: TempUser, a: Option<string>, b: Option<string>, now: int)
    requires Verify(rec, a, now) == Expired
    ensures Verify(rec, b, now) == Expired
  {
  }

  /** After a save with draw `d`, the code of any other draw is never accepted. */
  lemma OnlyLatestCodeAccepted(rec: TempUser, earlier: OtpDraw, latest: OtpDraw, saved: int, now: int)
    requires earlier != latest
    ensures Verify(HookApplied(rec, latest, saved), Some(StoredOtp(earlier)), now) != Accepted
  {
    StoredOtpInjective(earlier, latest);
  }

  /** A freshly saved code is accepted when presented within the first 50 seconds. */
  lemma FreshCodeAccepted(rec: TempUser, d: OtpDraw, saved: int, now: int)
    requires saved <= now < saved + SignupWindow
    ensures Verify(HookApplied(rec, d, saved), Some(StoredOtp(d)), now) == Accepted
  {
  }

  /** A resend is never due at the moment of the save it would repeat. */
  lemma NoResendRightAfterSave(rec: TempUser, d: OtpDraw, saved: int, now: int)
    requires saved <= now <= saved + ResendAfter
    ensures !ResendDue(HookApplied(rec, d, saved), now)
  {
  }

  /**
   * Submitting the same phone number again is rejected: the row is looked up under
   * `"+91" + phone` but was stored under the phone as submitted (stripped), so the
   * unique check on `phone_number` fails and the table is left as it was.
   */
  lemma ResubmissionRejected(table: map<string, TempUser>, form: SignupForm, isEmail: string -> bool,
                             draw: OtpDraw, now: int)
    requires form.phoneNumber.Some? && Strip(form.phoneNumber.value) in table
    requires "+91" + form.phoneNumber.value !in table
    ensures var (resp, after) := SubmitOutcome(table, form, isEmail, draw, now);
            resp.status == 400 && resp.body.Errors? && "phone_number" in resp.body.fields && after == table
  {
    assert ExistingKey(table, form).None?;
    assert "phone_number" in SignupErrors(form, table, isEmail);
  }

  /**
   * A valid submission whose email is blank, or absent on a new row, while another
   * pending row already has the blank email, passes validation and then fails to
   * save: the view raises the IntegrityError and the table is left as it was.
   */
  lemma SecondBlankEmailFails(table: map<string, TempUser>, form: SignupForm, isEmail: string -> bool,
                              draw: OtpDraw, now: int, p: string)
    requires SignupErrors(form, Others(table, ExistingKey(table, form)), isEmail) == {}
    requires (form.email.Some? && Blank(form.email.value)) || (form.email.None? && ExistingKey(table, form).None?)
    requires p in Others(table, ExistingKey(table, form)) && table[p].email == ""
    ensures SubmitOutcome(table, form, isEmail, draw, now) == (Crash("IntegrityError"), table)
  {
    var key := ExistingKey(table, form);
    var others := Others(table, key);
    assert RequiredOk(form.firstName, FirstNameMax) && RequiredOk(form.lastName, LastNameMax);
    assert RequiredOk(form.phoneNumber, PhoneMax) && RequiredOk(form.password, PasswordMax);
    var rec := FormRecord(form, if key.Some? then Some(table[key.value]) else None);
    assert rec.email == "";
    assert others[p].email == rec.email;
    assert EmailTaken(others, rec.email);
  }
}
