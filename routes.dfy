/**
 * user_signup/urls.py: the four routes of the sign-up table, and the two prefixes
 * under which the site's root table mounts it (medhistory/urls.py). Paths are the
 * request path without its leading `/`, as the resolver sees them.
 */
module Routes {
  import opened Wrappers
  import opened Text

  /** The route a path resolves to, with the segments it captures. */
  datatype Route = Signup | Resend(phNo: string) | Verify(phNo: string) | Activate(uid: string, token: string)

  /** The view each route dispatches to. */
  function Handler(r: Route): string
  {
    match r
    case Signup => "TempUserView"
    case Resend(_) => "TempUserView"
    case Verify(_) => "VerifyOtpView"
    case Activate(_, _) => "activate_account"
  }

  predicate IsAlnum(c: char)
  {
    '0' <= c <= '9' || 'A' <= c <= 'Z' || 'a' <= c <= 'z'
  }

  predicate AllAlnum(s: string)
  {
    forall i :: 0 <= i < |s| ==> IsAlnum(s[i])
  }

  /** `<str:ph_no>`: a non-empty segment without `/`. */
  predicate IsSegment(s: string)
  {
    |s| >= 1 && '/' !in s
  }

  /** `[0-9A-Za-z_\-]+`. */
  predicate IsUid(s: string)
  {
    |s| >= 1 && forall i :: 0 <= i < |s| ==> IsAlnum(s[i]) || s[i] == '_' || s[i] == '-'
  }

  /** `[0-9A-Za-z]{1,13}-[0-9A-Za-z]{1,20}`: the timestamp and hash halves of a token. */
  predicate IsTokenHalves(a: string, b: string)
  {
    1 <= |a| <= 13 && 1 <= |b| <= 20 && AllAlnum(a) && AllAlnum(b)
  }

  ghost predicate IsToken(t: string)
  {
    exists a, b :: t == a + "-" + b && IsTokenHalves(a, b)
  }

  /** The language of each pattern, stated the way the pattern reads. */
  ghost predicate Denotes(path: string, r: Route)
  {
    match r
    case Signup => path == "signup/"
    case Resend(p) => IsSegment(p) && path == p + "/resend/"
    case Verify(p) => IsSegment(p) && path == p + "/verify/"
    case Activate(u, t) => IsUid(u) && IsToken(t) && path == ActivatePath(u, t)
  }

  /** `s` ends with `tail` after a non-empty, slash-free head; returns that head. */
  function SegmentBefore(s: string, tail: string): (r: Option<string>)
    ensures r.Some? ==> IsSegment(r.value) && s == r.value + tail
    ensures forall p :: IsSegment(p) && s == p + tail ==> r == Some(p)
  {
    if |s| > |tail| && s[|s| - |tail|..] == tail && '/' !in s[..|s| - |tail|] then
      assert s == s[..|s| - |tail|] + tail;
      Some(s[..|s| - |tail|])
    else
      assert forall p :: IsSegment(p) && s == p + tail ==> s[|s| - |tail|..] == tail && s[..|s| - |tail|] == p;
      None
  }

  /** Recognizes `[0-9A-Za-z]{1,13}-[0-9A-Za-z]{1,20}`, splitting at the one `-`. */
  function ReadToken(t: string): (r: Option<(string, string)>)
    ensures r.Some? ==> t == r.value.0 + "-" + r.value.1 && IsTokenHalves(r.value.0, r.value.1)
  {
    var k := IndexOfChar(t, '-');
    if k == -1 then None
    else
      IndexOfCharSplits(t, '-');
      if IsTokenHalves(t[..k], t[k + 1..]) then Some((t[..k], t[k + 1..])) else None
  }

  lemma ReadTokenSound(t: string)
    requires ReadToken(t).Some?
    ensures IsToken(t)
  {
    IndexOfCharSplits(t, '-');
    var k := IndexOfChar(t, '-');
    assert t == t[..k] + "-" + t[k + 1..];
  }

  lemma ReadTokenComplete(a: string, b: string)
    requires IsTokenHalves(a, b)
    ensures ReadToken(a + "-" + b) == Some((a, b))
  {
    assert '-' !in a by {
      forall i | 0 <= i < |a| ensures a[i] != '-' {
        assert IsAlnum(a[i]);
      }
    }
    IndexOfCharAfter(a, '-', b);
    assert a + "-" + b == a + ['-'] + b;
  }

  const ActivatePrefix: string := "verify_email/"

  /** `verify_email/<uid>/<token>/`. */
  function ActivatePath(uid: string, token: string): string
  {
    ActivatePrefix + (uid + "/" + token) + "/"
  }

  /** The part between `verify_email/` and the final `/`. */
  function ActivateBody(path: string): (r: Option<string>)
    ensures r.Some? ==> path == ActivatePrefix + r.value + "/"
  {
    if IsPrefix(ActivatePrefix, path) && |path| >= |ActivatePrefix| + 1 && path[|path| - 1] == '/' then
      assert path == path[..|ActivatePrefix|] + path[|ActivatePrefix|..|path| - 1] + [path[|path| - 1]];
      Some(path[|ActivatePrefix|..|path| - 1])
    else None
  }

  lemma ActivateBodyOf(rest: string)
    ensures ActivateBody(ActivatePrefix + rest + "/") == Some(rest)
  {
    var path := ActivatePrefix + rest + "/";
    assert path[..|ActivatePrefix|] == ActivatePrefix;
    assert path[|ActivatePrefix|..|path| - 1] == rest;
  }

  /** Splits at the first `/`. */
  function SplitSlash(rest: string): (r: Option<(string, string)>)
    ensures r.Some? ==> rest == r.value.0 + "/" + r.value.1 && '/' !in r.value.0
  {
    var i := IndexOfChar(rest, '/');
    if i == -1 then None
    else
      IndexOfCharSplits(rest, '/');
      Some((rest[..i], rest[i + 1..]))
  }

  lemma SplitSlashOf(u: string, t: string)
    requires '/' !in u
    ensures SplitSlash(u + "/" + t) == Some((u, t))
  {
    IndexOfCharAfter(u, '/', t);
    assert u + "/" + t == u + ['/'] + t;
  }

  /**
   * The `verify_email` regular expression: `^verify_email/(uid)/(token)/$`, read
   * left to right. The uid class has no `/`, so the first `/` ends the uid.
   */
  function MatchActivate(path: string): (r: Option<Route>)
    ensures r.Some? ==> r.value.Activate? && IsUid(r.value.uid) && path == ActivatePath(r.value.uid, r.value.token)
  {
    match ActivateBody(path)
    case None => None
    case Some(rest) =>
      match SplitSlash(rest)
      case None => None
      case Some((uid, token)) =>
        if IsUid(uid) && ReadToken(token).Some? then Some(Activate(uid, token)) else None
  }

  lemma MatchActivateSound(path: string)
    requires MatchActivate(path).Some?
    ensures Denotes(path, MatchActivate(path).value)
  {
    var rest := ActivateBody(path).value;
    var (uid, token) := SplitSlash(rest).value;
    ReadTokenSound(token);
  }

  lemma MatchActivateComplete(u: string, t: string)
    requires IsUid(u) && IsToken(t)
    ensures MatchActivate(ActivatePath(u, t)) == Some(Activate(u, t))
  {
    var a, b :| t == a + "-" + b && IsTokenHalves(a, b);
    ReadTokenComplete(a, b);
    assert '/' !in u by {
      forall i | 0 <= i < |u| ensures u[i] != '/' {
        assert IsAlnum(u[i]) || u[i] == '_' || u[i] == '-';
      }
    }
    ActivateBodyOf(u + "/" + t);
    SplitSlashOf(u, t);
  }

  /** The sign-up table, tried in order; a path no pattern takes is `None`. */
  function Resolve(path: string): (r: Option<Route>)
    ensures r.Some? ==> |path| >= 1 && path[|path| - 1] == '/'
    ensures '/' !in path ==> r.None?
  {
    if path == "signup/" then Some(Signup)
    else if SegmentBefore(path, "/resend/").Some? then Some(Resend(SegmentBefore(path, "/resend/").value))
    else if SegmentBefore(path, "/verify/").Some? then Some(Verify(SegmentBefore(path, "/verify/").value))
    else MatchActivate(path)
  }

  /** Whatever the table resolves is in the language of the pattern that took it. */
  lemma ResolveSound(path: string)
    requires Resolve(path).Some?
    ensures Denotes(path, Resolve(path).value)
  {
    if path != "signup/" && SegmentBefore(path, "/resend/").None? && SegmentBefore(path, "/verify/").None? {
      MatchActivateSound(path);
    }
  }

  /** The number of `/` in a path: 1 for `signup/`, 2 for the phone routes, at least 3 for activation. */
  function Slashes(s: string): nat
  {
    if s == [] then 0 else (if s[0] == '/' then 1 else 0) + Slashes(s[1..])
  }

  lemma {:induction false} SlashesAppend(a: string, b: string)
    ensures Slashes(a + b) == Slashes(a) + Slashes(b)
  {
    if a == [] {
      assert a + b == b;
    } else {
      assert (a + b)[0] == a[0];
      assert (a + b)[1..] == a[1..] + b;
      SlashesAppend(a[1..], b);
    }
  }

  lemma {:induction false} NoSlashes(p: string)
    requires '/' !in p
    ensures Slashes(p) == 0
  {
    if p != [] {
      assert p[0] in p;
      assert forall c :: c in p[1..] ==> c in p;
      NoSlashes(p[1..]);
    }
  }

  lemma SegmentSlashes(p: string, tail: string)
    requires IsSegment(p)
    ensures Slashes(p + tail) == Slashes(tail)
  {
    SlashesAppend(p, tail);
    NoSlashes(p);
  }

  lemma ActivateSlashes(u: string, t: string)
    ensures Slashes(ActivatePath(u, t)) >= 3
  {
    SlashesAppend(ActivatePrefix, u + "/" + t);
    SlashesAppend(u + "/", t);
    SlashesAppend(u, "/");
    SlashesAppend(ActivatePrefix + (u + "/" + t), "/");
    assert Slashes(ActivatePrefix) == 1;
  }

  /** Every path in a pattern's language resolves to that pattern's route, with those captures. */
  lemma ResolveComplete(path: string, r: Route)
    requires Denotes(path, r)
    ensures Resolve(path) == Some(r)
  {
    assert Slashes("/resend/") == 2 && Slashes("/verify/") == 2 && Slashes("signup/") == 1;
    match r
    case Signup =>
    case Resend(p) =>
      SegmentSlashes(p, "/resend/");
    case Verify(p) =>
      SegmentSlashes(p, "/verify/");
      assert path[|path| - 7] == 'v';
    case Activate(u, t) =>
      ActivateSlashes(u, t);
      MatchActivateComplete(u, t);
      if SegmentBefore(path, "/resend/").Some? {
        SegmentSlashes(SegmentBefore(path, "/resend/").value, "/resend/");
      }
      if SegmentBefore(path, "/verify/").Some? {
        SegmentSlashes(SegmentBefore(path, "/verify/").value, "/verify/");
      }
  }

  /** A path belongs to the language of at most one route: the order of the table does not matter. */
  lemma PatternsDisjoint(path: string, r1: Route, r2: Route)
    requires Denotes(path, r1) && Denotes(path, r2)
    ensures r1 == r2
  {
    ResolveComplete(path, r1);
    ResolveComplete(path, r2);
  }

  /** An activation path whose token does not have the `-` between its halves reaches no view. */
  lemma TokenNeedsDash()
    ensures Resolve("verify_email/MQ/abc/") == None
  {
    var path := "verify_email/MQ/abc/";
    assert path[|path| - 8..] != "/resend/" && path[|path| - 8..] != "/verify/" by {
      assert path[|path| - 7] == 'M';
    }
    var rest := path[|ActivatePrefix|..|path| - 1];
    assert rest == "MQ" + ['/'] + "abc";
    IndexOfCharAfter("MQ", '/', "abc");
    assert IndexOfChar("abc", '-') == -1 by {
      assert "abc" == ['a', 'b', 'c'];
    }
  }

  /** The root table: the same sign-up table is mounted under `signup/` and under `login/`. */
  function ResolveSite(path: string): (r: Option<Route>)
    ensures r.Some? ==> (IsPrefix("signup/", path) && r == Resolve(path[7..]))
                        || (IsPrefix("login/", path) && r == Resolve(path[6..]))
  {
    if IsPrefix("signup/", path) then Resolve(path[7..])
    else if IsPrefix("login/", path) then Resolve(path[6..])
    else None
  }

  /** Both mounts reach the same route with the same captures. */
  lemma MountedTwice(path: string)
    ensures ResolveSite("signup/" + path) == Resolve(path)
    ensures ResolveSite("login/" + path) == Resolve(path)
  {
    assert ("signup/" + path)[..7] == "signup/" && ("signup/" + path)[7..] == path;
    assert ("login/" + path)[..6] == "login/" && ("login/" + path)[6..] == path;
    assert !IsPrefix("signup/", "login/" + path) by {
      assert ("login/" + path)[0] == 'l';
    }
  }
}
