/**
 * user_signup/views2.py: login by code (`otp_login_view`), password-reset code
 * issue (`PasswordResetView`), reset-code verification
 * (`PasswordResetOtpVerifyView.post`) and new-password setting (`reset_password`).
 * The two verifications only read the tables, so they are functions of them.
 */
module ProfileViews {
  import opened Wrappers
  import opened Text
  import opened Otp
  import opened Models
  import opened Http

  /** The `username` and `otp` entries of a request. */
  datatype OtpForm = OtpForm(username: Option<string>, otp: Option<string>)

  /** How a profile-code check ends: a user, the caught failure, or an exception that escapes. */
  datatype Check = Passed(pk: nat) | Refused | Escaped(exception: string)

  const CheckFailure: string := "either otp provided is wrong or it expires"

  /**
   * The body shared by both verifications. `except ObjectDoesNotExist or Exception`
   * catches only ObjectDoesNotExist: an unknown login and a user without a profile
   * are refused, while a missing key or a login that matches several users escapes.
   */
  function CheckProfileOtp(users: seq<User>, profiles: map<nat, Profile>, form: OtpForm, now: int, window: nat)
    : (c: Check)
    ensures c.Passed? ==> && form.username.Some?
                          && MatchesAt(users, c.pk, form.username.value)
                          && (forall q :: MatchesAt(users, q, form.username.value) ==> q == c.pk)
                          && c.pk in profiles
                          && form.otp == Some(profiles[c.pk].otp)
                          && InWindow(now, profiles[c.pk].date, window)
    ensures forall p :: && form.username.Some?
                        && MatchesAt(users, p, form.username.value)
                        && (forall q :: MatchesAt(users, q, form.username.value) ==> q == p)
                        && p in profiles
                        && form.otp == Some(profiles[p].otp)
                        && InWindow(now, profiles[p].date, window)
                        ==> c == Passed(p)
    ensures c.Escaped? <==> || form.username.None?
                            || GetByLogin(users, form.username.value).MultipleFound?
                            || (GetByLogin(users, form.username.value).Found?
                                && GetByLogin(users, form.username.value).pk in profiles
                                && form.otp.None?)
  {
    if form.username.None? then Escaped("KeyError")
    else
      match GetByLogin(users, form.username.value)
      case NotFound => Refused
      case MultipleFound => Escaped("MultipleObjectsReturned")
      case Found(pk) =>
        if pk !in profiles then Refused
        else if form.otp.None? then Escaped("KeyError")
        else if form.otp.value == profiles[pk].otp && InWindow(now, profiles[pk].date, window) then Passed(pk)
        else Refused
  }

  /** `otp_login_view`, as written: the token pair with 202 exactly when the check passes. */
  function OtpLogin(users: seq<User>, profiles: map<nat, Profile>, form: OtpForm, now: int,
                    refresh: string, access: string): (resp: Response)
    ensures resp.status == 202 <==> CheckProfileOtp(users, profiles, form, now, LoginWindow).Passed?
    ensures resp.status == 202 ==> resp.body == TokenPair(refresh, access)
    ensures CheckProfileOtp(users, profiles, form, now, LoginWindow).Refused? ==> resp == Response(200, Message(CheckFailure))
    ensures resp.status == 500 <==> CheckProfileOtp(users, profiles, form, now, LoginWindow).Escaped?
  {
    match CheckProfileOtp(users, profiles, form, now, LoginWindow)
    case Passed(_) => Response(202, TokenPair(refresh, access))
    case Refused => Response(200, Message(CheckFailure))
    case Escaped(e) => Crash(e)
  }

  /** `otp_login_view` as its handler is evidently meant: every failure gets the fixed reply. */
  function OtpLoginIntended(users: seq<User>, profiles: map<nat, Profile>, form: OtpForm, now: int,
                            refresh: string, access: string): (resp: Response)
    ensures resp.status == 202 <==> CheckProfileOtp(users, profiles, form, now, LoginWindow).Passed?
    ensures resp.status == 202 ==> resp.body == TokenPair(refresh, access)
  {
    match CheckProfileOtp(users, profiles, form, now, LoginWindow)
    case Passed(_) => Response(202, TokenPair(refresh, access))
    case _ => Response(200, Message(CheckFailure))
  }

  /** With the handler as meant, a login attempt is answered 202 or 200 and never fails. */
  lemma LoginIntendedNeverFails(users: seq<User>, profiles: map<nat, Profile>, form: OtpForm, now: int,
                                refresh: string, access: string)
    ensures var r := OtpLoginIntended(users, profiles, form, now, refresh, access);
            r.status == 202 || r == Response(200, Message(CheckFailure))
  {
  }

  /**
   * As written, a login that is one user's username and another user's email
   * raises MultipleObjectsReturned, which the handler does not catch.
   */
  lemma LoginFailsOnSharedLogin(refresh: string, access: string)
    ensures var users := [User("a@x.com", "", "", "", "h1", true), User("b", "a@x.com", "", "", "h2", true)];
            OtpLogin(users, map[], OtpForm(Some("a@x.com"), Some("12345")), 0, refresh, access)
              == Crash("MultipleObjectsReturned")
  {
    var users := [User("a@x.com", "", "", "", "h1", true), User("b", "a@x.com", "", "", "h2", true)];
    assert MatchesAt(users, 1, "a@x.com") && MatchesAt(users, 2, "a@x.com");
  }

  /** A code is not consumed by a check: it passes again at any instant its window still holds. */
  lemma CodeStaysAccepted(users: seq<User>, profiles: map<nat, Profile>, form: OtpForm, now: int, later: int, window: nat)
    requires CheckProfileOtp(users, profiles, form, now, window).Passed?
    requires InWindow(later, profiles[CheckProfileOtp(users, profiles, form, now, window).pk].date, window)
    ensures CheckProfileOtp(users, profiles, form, later, window) == CheckProfileOtp(users, profiles, form, now, window)
  {
  }

  /** The reset link: `'http://' + domain + '/' + 'signup/new_password/' + uid + '/' + token + '/'`. */
  function ResetLink(domain: string, uid: string, token: string): (link: string)
    ensures IsPrefix(LinkHead(domain), link) && link[|link| - 1] == '/'
    ensures |LinkHead(domain)| + |uid| < |link| && link[|LinkHead(domain)|..|LinkHead(domain)| + |uid|] == uid
  {
    "http://" + domain + "/" + "signup/new_password/" + uid + "/" + token + "/"
  }

  function LinkHead(domain: string): string
  {
    "http://" + domain + "/" + "signup/new_password/"
  }

  /** Reads the uid and the token back out of a reset link for `domain`. */
  function LinkParts(domain: string, link: string): Option<(string, string)>
  {
    var head := LinkHead(domain);
    if |link| < |head| + 1 || link[..|head|] != head || link[|link| - 1] != '/' then None
    else
      var rest := link[|head|..|link| - 1];
      var i := IndexOfChar(rest, '/');
      if i == -1 then None else Some((rest[..i], rest[i + 1..]))
  }

  /** Uid and token, neither holding a `/`, can be read back out of the link. */
  lemma ResetLinkRoundTrip(domain: string, uid: string, token: string)
    requires '/' !in uid && '/' !in token
    ensures LinkParts(domain, ResetLink(domain, uid, token)) == Some((uid, token))
  {
    var head := LinkHead(domain);
    var link := ResetLink(domain, uid, token);
    assert link == head + (uid + "/" + token) + "/";
    var rest := link[|head|..|link| - 1];
    assert rest == uid + ['/'] + token;
    IndexOfCharAfter(uid, '/', token);
  }

  /**
   * `PasswordResetOtpVerifyView.post` as written: the reset link (status 200) when
   * the check passes within 50 seconds. `encodeUid` and `makeToken` stand for the
   * base64 encoding of the primary key and the token generator.
   */
  function PasswordResetOtpVerify(users: seq<User>, profiles: map<nat, Profile>, form: OtpForm, now: int,
                                  domain: string, encodeUid: nat -> string, makeToken: User -> string)
    : (resp: Response)
    ensures var c := CheckProfileOtp(users, profiles, form, now, ResetWindow);
            && (c.Passed? ==> 1 <= c.pk <= |users|
                              && resp == Response(200, Message(ResetLink(domain, encodeUid(c.pk), makeToken(users[c.pk - 1])))))
            && (c.Refused? ==> resp == Response(200, Message(CheckFailure)))
            && (c.Escaped? ==> resp.status == 500)
  {
    match CheckProfileOtp(users, profiles, form, now, ResetWindow)
    case Passed(pk) => Response(200, Message(ResetLink(domain, encodeUid(pk), makeToken(users[pk - 1]))))
    case Refused => Response(200, Message(CheckFailure))
    case Escaped(e) => Crash(e)
  }

  /**
   * `PasswordResetOtpVerifyView.post` as its handler is evidently meant: the link on
   * a passing check, the fixed reply on every failure.
   */
  function PasswordResetOtpVerifyIntended(users: seq<User>, profiles: map<nat, Profile>, form: OtpForm, now: int,
                                          domain: string, encodeUid: nat -> string, makeToken: User -> string)
    : (resp: Response)
    ensures var c := CheckProfileOtp(users, profiles, form, now, ResetWindow);
            && (c.Passed? ==> resp == PasswordResetOtpVerify(users, profiles, form, now, domain, encodeUid, makeToken))
            && (!c.Passed? ==> resp == Response(200, Message(CheckFailure)))
  {
    match CheckProfileOtp(users, profiles, form, now, ResetWindow)
    case Passed(_) => PasswordResetOtpVerify(users, profiles, form, now, domain, encodeUid, makeToken)
    case _ => Response(200, Message(CheckFailure))
  }

  /** As meant, the reset verification always answers 200 and never fails. */
  lemma ResetVerifyIntendedNeverFails(users: seq<User>, profiles: map<nat, Profile>, form: OtpForm, now: int,
                                      domain: string, encodeUid: nat -> string, makeToken: User -> string)
    ensures PasswordResetOtpVerifyIntended(users, profiles, form, now, domain, encodeUid, makeToken).status == 200
  {
  }

  /** As written, the shared login that breaks the login view breaks the reset verification too. */
  lemma ResetVerifyFailsOnSharedLogin(domain: string, encodeUid: nat -> string, makeToken: User -> string)
    ensures var users := [User("a@x.com", "", "", "", "h1", true), User("b", "a@x.com", "", "", "h2", true)];
            PasswordResetOtpVerify(users, map[], OtpForm(Some("a@x.com"), Some("12345")), 0, domain, encodeUid, makeToken)
              .status == 500
  {
    var users := [User("a@x.com", "", "", "", "h1", true), User("b", "a@x.com", "", "", "h2", true)];
    assert MatchesAt(users, 1, "a@x.com") && MatchesAt(users, 2, "a@x.com");
  }

  /** The `new_password` and `confirm_password` entries of a request. */
  datatype NewPasswordForm = NewPasswordForm(newPassword: Option<string>, confirmPassword: Option<string>)

  /**
   * `reset_password`: a bad uid or an unknown user is 400, an invalid token is 400;
   * with a valid token the password changes only when the two entries are equal.
   */
  method ResetPassword(db: Database, uid: Option<nat>, token: string, form: NewPasswordForm,
                       checkToken: (User, string) -> bool, makePassword: string -> string)
    returns (resp: Response)
    requires db.Valid()
    modifies db
    ensures db.Valid()
    ensures db.tempUsers == old(db.tempUsers) && db.profiles == old(db.profiles) && db.outbox == old(db.outbox)
    ensures !(uid.Some? && 1 <= uid.value <= |old(db.users)|) ==>
              resp == Response(400, Message("Activation link is invalid!")) && db.users == old(db.users)
    ensures uid.Some? && 1 <= uid.value <= |old(db.users)| ==>
              var user := old(db.users)[uid.value - 1];
              && (!checkToken(user, token) ==> resp == Response(400, Message("link is invalid!")) && db.users == old(db.users))
              && (checkToken(user, token) && (form.newPassword.None? || form.confirmPassword.None?) ==>
                    resp == Crash("KeyError") && db.users == old(db.users))
              && (checkToken(user, token) && form.newPassword.Some? && form.confirmPassword.Some? ==>
                    && (form.newPassword.value == form.confirmPassword.value ==>
                          resp == Response(201, Message("Password Reset"))
                          && db.users == old(db.users)[uid.value - 1 := user.(password := makePassword(form.newPassword.value))])
                    && (form.newPassword.value != form.confirmPassword.value ==>
                          resp == Response(201, Message("new password and confirm password are not same"))
                          && db.users == old(db.users)))
  {
    if !(uid.Some? && 1 <= uid.value <= |db.users|) {
      return Response(400, Message("Activation link is invalid!"));
    }
    var user := db.users[uid.value - 1];
    if !checkToken(user, token) {
      return Response(400, Message("link is invalid!"));
    }
    if form.newPassword.None? || form.confirmPassword.None? {
      return Crash("KeyError");
    }
    if form.newPassword.value == form.confirmPassword.value {
      db.SaveUser(uid.value, user.(password := makePassword(form.newPassword.value)));
      resp := Response(201, Message("Password Reset"));
    } else {
      resp := Response(201, Message("new password and confirm password are not same"));
    }
  }

  const SmsSentReply: string := "otp send to your number ,if not receive please check mobile number entered"
  const EmailSentReply: string := "otp send to your email ,if not receive please check email entered"
  const ResetMailSubject: string := "Resset Your Account"

  /** The HTML body of the email branch. */
  function OtpMailBody(code: string): (body: string)
    ensures body == "<p>" + OtpSmsBody(code) + "</p>"
    ensures body[3 + |SmsPrefix|..3 + |SmsPrefix| + |code|] == code
  {
    var sms := SmsPrefix + code + SmsSuffix;
    assert "<p>" + SmsPrefix + code + SmsSuffix + "</p>" == "<p>" + sms + "</p>";
    assert ("<p>" + sms + "</p>")[3..3 + |sms|] == sms;
    "<p>" + SmsPrefix + code + SmsSuffix + "</p>"
  }

  /**
   * The status `PasswordResetView.post` answers with, as written: the user lookup
   * stands outside the `try`, so an unknown (or ambiguous) login fails with 500;
   * a medium other than sms or email returns nothing, which the framework refuses.
   */
  function ResetRequestStatus(users: seq<User>, username: Option<string>, medium: string): (status: nat)
    ensures status == 200 <==> username.Some? && GetByLogin(users, username.value).Found?
                               && (medium == "sms" || medium == "email")
    ensures status == 200 || status == 500
  {
    if username.None? then 500
    else if !GetByLogin(users, username.value).Found? then 500
    else if medium == "sms" || medium == "email" then 200
    else 500
  }

  /**
   * The status as the identical replies of both branches (views2.py:95, 106)
   * suggest it was meant: a known medium answers 200 whether the login is found,
   * unknown or shared; only the code's dispatch depends on the lookup.
   */
  function ResetRequestStatusIntended(users: seq<User>, username: Option<string>, medium: string): (status: nat)
    ensures status == 200 <==> username.Some? && (medium == "sms" || medium == "email")
  {
    if username.None? || !(medium == "sms" || medium == "email") then 500
    else 200
  }

  /** For a login that names exactly one user, the intended reply is the written one. */
  lemma IntendedAgreesForRegisteredLogins(users: seq<User>, username: string, medium: string)
    requires GetByLogin(users, username).Found?
    ensures ResetRequestStatusIntended(users, Some(username), medium) == ResetRequestStatus(users, Some(username), medium)
  {
  }

  /** As written, the reply tells a registered login from an unknown one. */
  lemma ResetRequestRevealsAccounts()
    ensures var users := [User("alice", "", "", "", "h", true)];
            ResetRequestStatus(users, Some("alice"), "sms") == 200
            && ResetRequestStatus(users, Some("mallory"), "sms") == 500
  {
    var users := [User("alice", "", "", "", "h", true)];
    assert MatchesAt(users, 1, "alice");
    assert !MatchesAt(users, 1, "mallory");
  }

  /** As meant, the status does not depend on which users exist or which login is asked for. */
  lemma IntendedResetRequestHidesAccounts(a: seq<User>, b: seq<User>, x: string, y: string, medium: string)
    ensures ResetRequestStatusIntended(a, Some(x), medium) == ResetRequestStatusIntended(b, Some(y), medium)
  {
  }

  /**
   * `PasswordResetView`: the code is drawn once, when the view instance is made
   * (one instance per request), and that one value is both sent and stored.
   */
  class PasswordResetView {
    const otp: OtpDraw

    constructor (draw: OtpDraw)
      ensures otp == draw
    {
      otp := draw;
    }

    /** `post(request, medium)`: dispatch the code, then upsert the user's one profile. */
    method Post(db: Database, medium: string, username: Option<string>, now: int) returns (resp: Response)
      requires db.Valid()
      modifies db
      ensures db.Valid()
      ensures resp.status == ResetRequestStatus(old(db.users), username, medium)
      ensures db.tempUsers == old(db.tempUsers) && db.users == old(db.users)
      ensures resp.status == 500 ==> db.profiles == old(db.profiles) && db.outbox == old(db.outbox)
      ensures resp.status == 200 ==>
                var pk := GetByLogin(old(db.users), username.value).pk;
                && db.profiles == UpsertProfile(old(db.profiles), pk, StoredOtp(otp), now)
                && (medium == "sms" ==>
                      db.outbox == old(db.outbox) + [Sms(username.value, OtpSmsBody(StoredOtp(otp)))]
                      && resp == Response(200, Message(SmsSentReply)))
                && (medium == "email" ==>
                      db.outbox == old(db.outbox) + [Mail(ResetMailSubject, OtpMailBody(StoredOtp(otp)), username.value)]
                      && resp == Response(200, Message(EmailSentReply)))
    {
      if username.None? {
        return Crash("KeyError");
      }
      var found := GetByLogin(db.users, username.value);
      match found
      case NotFound =>
        resp := Crash("DoesNotExist");
      case MultipleFound =>
        resp := Crash("MultipleObjectsReturned");
      case Found(pk) =>
        var code := StoredOtp(otp);
        if medium == "sms" {
          db.Send(Sms(username.value, OtpSmsBody(code)));
          db.UpdateOrCreateProfile(pk, code, now);
          resp := Response(200, Message(SmsSentReply));
        } else if medium == "email" {
          db.Send(Mail(ResetMailSubject, OtpMailBody(code), username.value));
          db.UpdateOrCreateProfile(pk, code, now);
          resp := Response(200, Message(EmailSentReply));
        } else {
          resp := Crash("AssertionError");
        }
    }

    /**
     * `post` as evidently intended by the identical replies of both branches
     * (views2.py:95, 106): every outcome of the lookup (no match, one, several)
     * answers 200 with the medium's reply, and only a login that selects one user
     * is sent a code and has its profile saved.
     */
    method PostIntended(db: Database, medium: string, username: Option<string>, now: int) returns (resp: Response)
      requires db.Valid()
      modifies db
      ensures db.Valid()
      ensures resp.status == ResetRequestStatusIntended(old(db.users), username, medium)
      ensures resp.status == 200 ==> resp == Response(200, Message(if medium == "sms" then SmsSentReply else EmailSentReply))
      ensures db.tempUsers == old(db.tempUsers) && db.users == old(db.users)
      ensures resp.status == 500 || !GetByLogin(old(db.users), username.value).Found? ==>
                db.profiles == old(db.profiles) && db.outbox == old(db.outbox)
      ensures resp.status == 200 && GetByLogin(old(db.users), username.value).Found? ==>
                var pk := GetByLogin(old(db.users), username.value).pk;
                && db.profiles == UpsertProfile(old(db.profiles), pk, StoredOtp(otp), now)
                && db.outbox == old(db.outbox) + [if medium == "sms" then Sms(username.value, OtpSmsBody(StoredOtp(otp)))
                                                  else Mail(ResetMailSubject, OtpMailBody(StoredOtp(otp)), username.value)]
    {
      if username.None? {
        return Crash("KeyError");
      }
      if medium != "sms" && medium != "email" {
        return Crash("AssertionError");
      }
      var found := GetByLogin(db.users, username.value);
      if found.Found? {
        var code := StoredOtp(otp);
        if medium == "sms" {
          db.Send(Sms(username.value, OtpSmsBody(code)));
        } else {
          db.Send(Mail(ResetMailSubject, OtpMailBody(code), username.value));
        }
        db.UpdateOrCreateProfile(found.pk, code, now);
      }
      resp := Response(200, Message(if medium == "sms" then SmsSentReply else EmailSentReply));
    }
  }
}
