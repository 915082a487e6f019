/**
 * user_signup/token.py: the text the activation-token generator signs, and the
 * shape of the JWT pair handed out after a login.
 */
module Token {
  import opened Wrappers
  import opened Text
  import opened Models

  /** Python's `str()` of a boolean. */
  function BoolString(b: bool): string
  {
    if b then "True" else "False"
  }

  /**
   * `TokenGenerator._make_hash_value(user, timestamp)`: primary key, timestamp,
   * active flag and password hash, written one after the other with no separator.
   */
  function HashValue(pk: nat, user: User, timestamp: int): (h: string)
    ensures |h| == |DecimalString(pk)| + |IntString(timestamp)| + |BoolString(user.isActive)| + |user.password|
    ensures IsPrefix(DecimalString(pk) + IntString(timestamp), h)
    ensures h[|h| - |user.password|..] == user.password
  {
    DecimalString(pk) + IntString(timestamp) + BoolString(user.isActive) + user.password
  }

  /** For a known key and timestamp, reads the active flag and the password back out of a fingerprint. */
  function ReadFingerprint(h: string, pk: nat, timestamp: int): Option<(bool, string)>
  {
    var head := DecimalString(pk) + IntString(timestamp);
    if IsPrefix(head + "True", h) then Some((true, h[|head| + 4..]))
    else if IsPrefix(head + "False", h) then Some((false, h[|head| + 5..]))
    else None
  }

  /** The fingerprint records the active flag and the password in full. */
  lemma FingerprintDecodes(pk: nat, user: User, timestamp: int)
    ensures ReadFingerprint(HashValue(pk, user, timestamp), pk, timestamp) == Some((user.isActive, user.password))
  {
    var head := DecimalString(pk) + IntString(timestamp);
    var h := HashValue(pk, user, timestamp);
    assert h == head + BoolString(user.isActive) + user.password;
    if user.isActive {
      assert h[..|head| + 4] == head + "True";
      assert h[|head| + 4..] == user.password;
    } else {
      assert h[..|head| + 4] != head + "True" by {
        assert h[|head|] == 'F';
        assert (head + "True")[|head|] == 'T';
      }
      assert h[..|head| + 5] == head + "False";
      assert h[|head| + 5..] == user.password;
    }
  }

  /** Nothing but the key, the timestamp, the active flag and the password enters the fingerprint. */
  lemma FingerprintIgnoresOtherFields(pk: nat, u: User, v: User, timestamp: int)
    requires u.isActive == v.isActive && u.password == v.password
    ensures HashValue(pk, u, timestamp) == HashValue(pk, v, timestamp)
  {
  }

  /** Activating an account changes its fingerprint, so a link issued before activation stops checking. */
  lemma ActivationChangesFingerprint(pk: nat, u: User, v: User, timestamp: int)
    requires u.isActive != v.isActive
    ensures HashValue(pk, u, timestamp) != HashValue(pk, v, timestamp)
  {
    FingerprintDecodes(pk, u, timestamp);
    FingerprintDecodes(pk, v, timestamp);
  }

  /** A password change changes the fingerprint. */
  lemma PasswordChangesFingerprint(pk: nat, u: User, v: User, timestamp: int)
    requires u.isActive == v.isActive && u.password != v.password
    ensures HashValue(pk, u, timestamp) != HashValue(pk, v, timestamp)
  {
    FingerprintDecodes(pk, u, timestamp);
    FingerprintDecodes(pk, v, timestamp);
  }

  /** With no separator, key 1 at timestamp 23 and key 12 at timestamp 3 give the same text. */
  lemma KeyAndTimestampRunTogether(user: User)
    ensures HashValue(1, user, 23) == HashValue(12, user, 3)
  {
    assert DecimalString(1) == "1" && DecimalString(3) == "3";
    assert DecimalString(2) == "2";
    assert DecimalString(23) == DecimalString(2) + [Digit(3)] == "23";
    assert DecimalString(12) == DecimalString(1) + [Digit(2)] == "12";
  }

  /** `get_tokens_for_user`: the refresh token and its access token, under exactly these two keys. */
  function TokensForUser(refresh: string, access: string): (m: map<string, string>)
    ensures m.Keys == {"refresh", "access"}
    ensures m["refresh"] == refresh && m["access"] == access
  {
    map["refresh" := refresh, "access" := access]
  }
}
