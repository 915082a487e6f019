/**
 * The rows of user_signup/models.py (TempUser, Profile), the rows of Django's user
 * table that the views create and change, and the database holding them. The
 * TempUser `pre_save` hook lives in `Database.SaveTempUser`: every save draws a
 * fresh code, overwrites whatever `otp` the caller set, refreshes `date` and hands
 * one SMS to the gateway.
 */
module Models {
  import opened Wrappers
  import opened Otp
  import opened Text

  /** A pending sign-up. `password` is the raw text the client submitted. */
  datatype TempUser = TempUser(
    firstName: string,
    lastName: string,
    email: string,
    phoneNumber: string,
    password: string,
    otp: string,
    date: int)

  /** A row of the user table; `password` is the encoded hash the hasher produced. */
  datatype User = User(
    username: string,
    email: string,
    firstName: string,
    lastName: string,
    password: string,
    isActive: bool)

  /** `Profile`, one per user: the code of the login and password-reset flows. */
  datatype Profile = Profile(emailVerified: bool, otp: string, date: int)

  /** A message handed to a gateway; whether it arrives is outside the model. */
  datatype Dispatch =
    | Sms(to: string, body: string)
    | Mail(subject: string, htmlBody: string, to: string)
    | ActivationMail(to: string, userPk: nat)

  /** What the `pre_save` hook and `auto_now` do to the row being saved. */
  function HookApplied(rec: TempUser, draw: OtpDraw, now: int): (r: TempUser)
    ensures r.otp == StoredOtp(draw) && r.date == now
    ensures r.(otp := rec.otp, date := rec.date) == rec
  {
    rec.(otp := StoredOtp(draw), date := now)
  }

  /** The rows a save competes with for the unique columns: all but the one being updated. */
  function Others(table: map<string, TempUser>, replacing: Option<string>): (r: map<string, TempUser>)
    ensures replacing.None? ==> r == table
    ensures replacing.Some? ==> r.Keys == table.Keys - {replacing.value}
    ensures forall p :: p in r ==> r[p] == table[p]
  {
    if replacing.Some? then table - {replacing.value} else table
  }

  /** `email` is unique even when blank: the empty string collides with itself. */
  predicate EmailTaken(table: map<string, TempUser>, email: string)
  {
    exists p :: p in table && table[p].email == email
  }

  ghost predicate EmailsUnique(table: map<string, TempUser>)
  {
    forall p, q :: p in table && q in table && p != q ==> table[p].email != table[q].email
  }

  predicate UsernameTaken(users: seq<User>, username: string)
  {
    exists i :: 0 <= i < |users| && users[i].username == username
  }

  ghost predicate UsernamesUnique(users: seq<User>)
  {
    forall i, j :: 0 <= i < j < |users| ==> users[i].username != users[j].username
  }

  /** `Q(username=login) | Q(email=login)` holds of the user with primary key `pk` (1-based). */
  predicate MatchesAt(users: seq<User>, pk: int, login: string)
  {
    1 <= pk <= |users| && (users[pk - 1].username == login || users[pk - 1].email == login)
  }

  /** The primary keys that the username-or-email filter selects, in ascending order. */
  function MatchingPks(users: seq<User>, login: string): (r: seq<nat>)
    ensures forall pk :: pk in r <==> MatchesAt(users, pk, login)
    ensures forall i, j :: 0 <= i < j < |r| ==> r[i] < r[j]
    ensures forall i :: 0 <= i < |r| ==> r[i] <= |users|
  {
    if users == [] then []
    else
      var n := |users|;
      var prev := MatchingPks(users[..n - 1], login);
      assert forall pk :: pk < n ==> (MatchesAt(users[..n - 1], pk, login) <==> MatchesAt(users, pk, login));
      prev + (if MatchesAt(users, n, login) then [n] else [])
  }

  /**
   * `BaseUserManager.normalize_email`, which `create_user` applies: the stripped
   * address is split at its last '@' and the domain lower-cased; an address with
   * no '@' is kept exactly as given.
   */
  function NormalizeEmail(email: string): (r: string)
    ensures '@' !in Strip(email) ==> r == email
    ensures r == "" <==> email == ""
  {
    var e := Strip(email);
    var i := LastIndexOfChar(e, '@');
    if i == -1 then email else Address(e[..i], e[i + 1..])
  }

  /** The normalised address: the local part as given, the domain lower-cased. */
  function Address(name: string, domain: string): (r: string)
    ensures r != ""
  {
    name + "@" + Lower(domain)
  }

  /** An address without surrounding whitespace keeps its local part and gets its domain lower-cased. */
  lemma NormalizeEmailSplits(name: string, domain: string)
    requires '@' !in domain
    requires name != [] ==> !IsSpace(name[0])
    requires domain != [] ==> !IsSpace(domain[|domain| - 1])
    ensures NormalizeEmail(name + "@" + domain) == Address(name, domain)
  {
    var s := name + "@" + domain;
    assert s[0] == if name != [] then name[0] else '@';
    assert s[|s| - 1] == if domain != [] then domain[|domain| - 1] else '@';
    StripClean(s);
    LastIndexOfCharBefore(name, '@', domain);
    assert s[..|name|] == name && s[|name| + 1..] == domain;
  }

  /** Lower-casing a domain adds no '@' and no trailing whitespace. */
  lemma LowerKeepsDomainShape(domain: string)
    requires '@' !in domain
    requires domain != [] ==> !IsSpace(domain[|domain| - 1])
    ensures '@' !in Lower(domain)
    ensures domain != [] ==> !IsSpace(Lower(domain)[|domain| - 1])
  {
    var lowered := Lower(domain);
    forall k | 0 <= k < |lowered| ensures lowered[k] != '@' {
      assert domain[k] != '@';
    }
  }

  /** Split at its last '@', a stripped address has no '@' in its domain and no whitespace at its ends. */
  lemma {:induction false} LastAtSplit(e: string, i: int)
    requires 0 <= i < |e| && i == LastIndexOfChar(e, '@')
    requires !IsSpace(e[0]) && !IsSpace(e[|e| - 1])
    ensures '@' !in e[i + 1..]
    ensures i > 0 ==> !IsSpace(e[..i][0])
    ensures i + 1 < |e| ==> !IsSpace(e[i + 1..][|e| - i - 2])
  {
    var domain := e[i + 1..];
    forall k | 0 <= k < |domain| ensures domain[k] != '@' {
      assert domain[k] == e[i + 1 + k];
    }
  }

  /** An address with an '@' normalises to its stripped local part and domain, split at the last '@'. */
  lemma NormalizedParts(email: string) returns (name: string, domain: string)
    requires '@' in Strip(email)
    ensures NormalizeEmail(email) == Address(name, domain)
    ensures '@' !in domain
    ensures name != [] ==> !IsSpace(name[0])
    ensures domain != [] ==> !IsSpace(domain[|domain| - 1])
  {
    var e := Strip(email);
    var i := LastIndexOfChar(e, '@');
    assert 0 <= i < |e| && !IsSpace(e[0]) && !IsSpace(e[|e| - 1]);
    LastAtSplit(e, i);
    name, domain := e[..i], e[i + 1..];
    assert NormalizeEmail(email) == Address(name, domain);
  }

  /** Normalising twice changes nothing more. */
  lemma NormalizeEmailIdempotent(email: string)
    ensures NormalizeEmail(NormalizeEmail(email)) == NormalizeEmail(email)
  {
    if '@' in Strip(email) {
      var name, domain := NormalizedParts(email);
      LowerKeepsDomainShape(domain);
      NormalizeEmailSplits(name, Lower(domain));
      LowerIdempotent(domain);
    }
  }

  /** The outcome of `User.objects.get(...)`. */
  datatype Lookup = NotFound | Found(pk: nat) | MultipleFound

  /**
   * `User.objects.get(Q(username=login) | Q(email=login))`: one match is returned,
   * none raises DoesNotExist, several raise MultipleObjectsReturned.
   */
  function GetByLogin(users: seq<User>, login: string): (l: Lookup)
    ensures l.NotFound? <==> forall pk :: !MatchesAt(users, pk, login)
    ensures l.Found? ==> MatchesAt(users, l.pk, login)
                         && forall pk :: MatchesAt(users, pk, login) ==> pk == l.pk
    ensures l.MultipleFound? <==> exists a, b :: a < b && MatchesAt(users, a, login) && MatchesAt(users, b, login)
  {
    var r := MatchingPks(users, login);
    if |r| == 0 then NotFound
    else if |r| == 1 then
      assert forall pk :: MatchesAt(users, pk, login) ==> pk == r[0] by {
        forall pk | MatchesAt(users, pk, login) ensures pk == r[0] {
          assert pk in r;
        }
      }
      assert !exists a, b :: a < b && MatchesAt(users, a, login) && MatchesAt(users, b, login);
      assert r[0] in r;
      Found(r[0])
    else
      assert r[0] in r && r[1] in r;
      MultipleFound
  }

  /**
   * `update_or_create` on the profile of user `pk`: the new code replaces the old one
   * (or starts a fresh, unverified profile) and `date` is refreshed.
   */
  function UpsertProfile(profiles: map<nat, Profile>, pk: nat, code: string, now: int): (r: map<nat, Profile>)
    ensures r.Keys == profiles.Keys + {pk}
    ensures r[pk].otp == code && r[pk].date == now
    ensures r[pk].emailVerified == (pk in profiles && profiles[pk].emailVerified)
    ensures forall q :: q in profiles && q != pk ==> r[q] == profiles[q]
  {
    profiles[pk := if pk in profiles then profiles[pk].(otp := code, date := now) else Profile(false, code, now)]
  }

  /** A second request replaces the first one's code: only the latest is kept, and no profile is added. */
  lemma UpsertOverwrites(profiles: map<nat, Profile>, pk: nat, first: string, second: string, t1: int, t2: int)
    ensures UpsertProfile(UpsertProfile(profiles, pk, first, t1), pk, second, t2) == UpsertProfile(profiles, pk, second, t2)
  {
  }

  /** The tables behind the ORM, and the gateway outbox. */
  class Database {
    /** Pending sign-ups, keyed by their (unique) phone number. */
    var tempUsers: map<string, TempUser>
    /** The user table; the user with primary key `pk` is `users[pk - 1]`. */
    var users: seq<User>
    /** Profiles, keyed by their user's primary key: at most one per user. */
    var profiles: map<nat, Profile>
    /** Every message handed to the SMS or mail gateway, in order. */
    var outbox: seq<Dispatch>

    ghost predicate Valid()
      reads this
    {
      && (forall p :: p in tempUsers ==> tempUsers[p].phoneNumber == p && IsStoredOtp(tempUsers[p].otp))
      && EmailsUnique(tempUsers)
      && UsernamesUnique(users)
      && (forall pk :: pk in profiles ==> 1 <= pk <= |users|)
    }

    constructor ()
      ensures Valid()
      ensures tempUsers == map[] && users == [] && profiles == map[] && outbox == []
    {
      tempUsers, users, profiles, outbox := map[], [], map[], [];
    }

    /**
     * `TempUser.save()`: the hook draws the code and sends the SMS before the row is
     * written; the write then fails (IntegrityError) when another row already has
     * this phone number or this email, and the SMS has gone out all the same.
     */
    method SaveTempUser(replacing: Option<string>, rec: TempUser, draw: OtpDraw, now: int) returns (saved: bool)
      requires Valid()
      requires replacing.Some? ==> replacing.value in tempUsers
      modifies this
      ensures Valid()
      ensures outbox == old(outbox) + [Sms(rec.phoneNumber, OtpSmsBody(StoredOtp(draw)))]
      ensures saved <==> rec.phoneNumber !in Others(old(tempUsers), replacing)
                         && !EmailTaken(Others(old(tempUsers), replacing), rec.email)
      ensures tempUsers == if saved then Others(old(tempUsers), replacing)[rec.phoneNumber := HookApplied(rec, draw, now)]
                           else old(tempUsers)
      ensures users == old(users) && profiles == old(profiles)
    {
      var stored := HookApplied(rec, draw, now);
      outbox := outbox + [Sms(rec.phoneNumber, OtpSmsBody(StoredOtp(draw)))];
      var others := Others(tempUsers, replacing);
      saved := rec.phoneNumber !in others && !EmailTaken(others, rec.email);
      if saved {
        assert IsStoredOtp(stored.otp) by {
          assert StoredOtp(draw) == stored.otp;
        }
        tempUsers := others[rec.phoneNumber := stored];
      }
    }

    /** `TempUser.delete()`. */
    method DeleteTempUser(phone: string)
      requires Valid()
      modifies this
      ensures Valid()
      ensures tempUsers == old(tempUsers) - {phone}
      ensures users == old(users) && profiles == old(profiles) && outbox == old(outbox)
    {
      tempUsers := tempUsers - {phone};
    }

    /**
     * `User.objects.create_user(...)`: appends the row and returns its primary key,
     * or changes nothing (IntegrityError) when the username is taken.
     */
    method CreateUser(u: User) returns (pk: Option<nat>)
      requires Valid()
      modifies this
      ensures Valid()
      ensures UsernameTaken(old(users), u.username) ==> pk == None && users == old(users)
      ensures !UsernameTaken(old(users), u.username) ==>
                pk == Some(|old(users)| + 1) && users == old(users) + [u]
      ensures tempUsers == old(tempUsers) && profiles == old(profiles) && outbox == old(outbox)
    {
      if UsernameTaken(users, u.username) {
        pk := None;
      } else {
        users := users + [u];
        pk := Some(|users|);
      }
    }

    /** `user.save()` after the views change `is_active` or the password. */
    method SaveUser(pk: nat, u: User)
      requires Valid()
      requires 1 <= pk <= |users| && u.username == users[pk - 1].username
      modifies this
      ensures Valid()
      ensures users == old(users)[pk - 1 := u]
      ensures tempUsers == old(tempUsers) && profiles == old(profiles) && outbox == old(outbox)
    {
      users := users[pk - 1 := u];
    }

    /**
     * `Profile.objects.update_or_create(user=t, defaults={'otp': code})`: the user's
     * one profile gets the new code, and `date` is refreshed by `auto_now`.
     */
    method UpdateOrCreateProfile(pk: nat, code: string, now: int)
      requires Valid()
      requires 1 <= pk <= |users|
      modifies this
      ensures Valid()
      ensures profiles == UpsertProfile(old(profiles), pk, code, now)
      ensures tempUsers == old(tempUsers) && users == old(users) && outbox == old(outbox)
    {
      profiles := UpsertProfile(profiles, pk, code, now);
    }

    /** Hands one message to a gateway. */
    method Send(d: Dispatch)
      requires Valid()
      modifies this
      ensures Valid()
      ensures outbox == old(outbox) + [d]
      ensures tempUsers == old(tempUsers) && users == old(users) && profiles == old(profiles)
    {
      outbox := outbox + [d];
    }
  }
}
