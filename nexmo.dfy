/**
 * The non-network parts of the vendored Nexmo `Client`
 * (venv/lib/python3.6/site-packages/nexmo/__init__.py): settings resolution and
 * the user agent in `__init__`, `auth`, `signature`, `check_signature`, `parse`
 * and `generate_application_jwt`.
 */
module Nexmo {
  import opened Wrappers
  import opened Text
  import opened NexmoSignature

  const Version: string := "2.4.0"

  /** The names `__init__` swaps for the `hashlib` constructor of that name. */
  const HashlibNames: set<string> := {"md5", "sha1", "sha256", "sha512"}

  predicate Truthy(v: Option<string>)
  {
    v.Some? && v.value != ""
  }

  /** `arg or os.environ.get(name, None)`. */
  function OrEnv(arg: Option<string>, env: map<string, string>, name: string): Option<string>
  {
    if Truthy(arg) then arg else if name in env then Some(env[name]) else None
  }

  /**
   * The signature method as `__init__` resolves it: the argument, else the
   * environment. A name in `HashlibNames` is then looked up on `hashlib` by the
   * ARGUMENT, so a name that came from the environment fails: `getattr(hashlib, None)`
   * is a TypeError, `getattr(hashlib, "")` an AttributeError.
   */
  function ResolveSignatureMethod(arg: Option<string>, env: map<string, string>): (r: Result<Option<string>, string>)
    ensures r.Err? <==> OrEnv(arg, env, "NEXMO_SIGNATURE_METHOD").Some?
                        && OrEnv(arg, env, "NEXMO_SIGNATURE_METHOD").value in HashlibNames
                        && !Truthy(arg)
    ensures r.Err? ==> r.error == (if arg.None? then "TypeError" else "AttributeError")
    ensures r.Ok? ==> r.value == OrEnv(arg, env, "NEXMO_SIGNATURE_METHOD")
  {
    var resolved := OrEnv(arg, env, "NEXMO_SIGNATURE_METHOD");
    if resolved.Some? && resolved.value in HashlibNames then
      if arg.None? then Err("TypeError")
      else if arg.value !in HashlibNames then Err("AttributeError")
      else Ok(resolved)
    else Ok(resolved)
  }

  /** The resolution as evidently meant: the looked-up name is the resolved one, so it cannot fail. */
  function ResolveSignatureMethodIntended(arg: Option<string>, env: map<string, string>): (r: Option<string>)
    ensures Truthy(arg) ==> r == arg
    ensures !Truthy(arg) ==> r == (if "NEXMO_SIGNATURE_METHOD" in env then Some(env["NEXMO_SIGNATURE_METHOD"]) else None)
  {
    OrEnv(arg, env, "NEXMO_SIGNATURE_METHOD")
  }

  /** As written, a method configured only through the environment makes the client fail to construct. */
  lemma EnvironmentMethodFails()
    ensures ResolveSignatureMethod(None, map["NEXMO_SIGNATURE_METHOD" := "sha256"]) == Err("TypeError")
    ensures ResolveSignatureMethodIntended(None, map["NEXMO_SIGNATURE_METHOD" := "sha256"]) == Some("sha256")
  {
  }

  /** The two resolutions agree whenever the written one succeeds. */
  lemma ResolutionsAgree(arg: Option<string>, env: map<string, string>)
    ensures ResolveSignatureMethod(arg, env).Ok? ==>
              ResolveSignatureMethod(arg, env).value == ResolveSignatureMethodIntended(arg, env)
    ensures Truthy(arg) ==> ResolveSignatureMethod(arg, env) == Ok(ResolveSignatureMethodIntended(arg, env))
  {
  }

  /** `"nexmo-python/{version}/{python_version}"`. */
  function LibraryAgent(pythonVersion: string): string
  {
    "nexmo-python/" + Version + "/" + pythonVersion
  }

  /** The `User-Agent` header: the library part, then `/name/version` when both are given and non-empty. */
  function UserAgent(pythonVersion: string, appName: Option<string>, appVersion: Option<string>): (ua: string)
    ensures IsPrefix(LibraryAgent(pythonVersion), ua)
    ensures ua == LibraryAgent(pythonVersion) <==> !(Truthy(appName) && Truthy(appVersion))
  {
    var base := LibraryAgent(pythonVersion);
    if Truthy(appName) && Truthy(appVersion) then
      var ua := base + ("/" + appName.value + "/" + appVersion.value);
      assert ua[..|base|] == base;
      ua
    else base
  }

  /** Reads the application part back out of a user agent. */
  function AppOf(ua: string, pythonVersion: string): Option<(string, string)>
  {
    var base := LibraryAgent(pythonVersion);
    if !IsPrefix(base, ua) || |ua| == |base| || ua[|base|] != '/' then None
    else
      var rest := ua[|base| + 1..];
      var i := IndexOfChar(rest, '/');
      if i == -1 then None else Some((rest[..i], rest[i + 1..]))
  }

  /** An application name without `/` and its version are recovered from the header. */
  lemma UserAgentReadsBack(pythonVersion: string, name: string, version: string)
    requires name != "" && version != "" && '/' !in name
    ensures AppOf(UserAgent(pythonVersion, Some(name), Some(version)), pythonVersion) == Some((name, version))
  {
    var base := LibraryAgent(pythonVersion);
    var ua := UserAgent(pythonVersion, Some(name), Some(version));
    assert ua == base + ("/" + name + "/" + version);
    assert ua[|base|] == '/';
    assert ua[|base| + 1..] == name + ['/'] + version;
    IndexOfCharAfter(name, '/', version);
  }

  /** What `__init__` settles on. */
  datatype Settings = Settings(
    apiKey: Option<string>,
    apiSecret: Option<string>,
    signatureSecret: Option<string>,
    signatureMethod: Option<string>,
    applicationId: Option<string>,
    privateKey: Option<string>,
    host: string,
    apiHost: string,
    userAgent: string)

  /**
   * `Client.__init__`, as written: each credential from its argument or the
   * environment, the signature method resolved (and possibly failing), a private
   * key without a newline taken as a file name (`readKeyFile` stands for reading it).
   */
  function Init(key: Option<string>, secret: Option<string>, signatureSecret: Option<string>,
                signatureMethod: Option<string>, applicationId: Option<string>, privateKey: Option<string>,
                appName: Option<string>, appVersion: Option<string>,
                env: map<string, string>, pythonVersion: string, readKeyFile: string -> string)
    : (r: Result<Settings, string>)
    ensures r.Err? <==> ResolveSignatureMethod(signatureMethod, env).Err?
    ensures r.Ok? ==> && r.value.signatureMethod == ResolveSignatureMethod(signatureMethod, env).value
                      && r.value.apiKey == OrEnv(key, env, "NEXMO_API_KEY")
                      && r.value.apiSecret == OrEnv(secret, env, "NEXMO_API_SECRET")
                      && r.value.signatureSecret == OrEnv(signatureSecret, env, "NEXMO_SIGNATURE_SECRET")
                      && r.value.applicationId == applicationId
                      && r.value.userAgent == UserAgent(pythonVersion, appName, appVersion)
                      && r.value.host == "rest.nexmo.com" && r.value.apiHost == "api.nexmo.com"
                      && (privateKey.Some? && '\n' !in privateKey.value ==>
                            r.value.privateKey == Some(readKeyFile(privateKey.value)))
                      && (privateKey.None? || '\n' in privateKey.value ==> r.value.privateKey == privateKey)
  {
    match ResolveSignatureMethod(signatureMethod, env)
    case Err(e) => Err(e)
    case Ok(resolved) =>
      var pk := if privateKey.Some? && '\n' !in privateKey.value then Some(readKeyFile(privateKey.value)) else privateKey;
      Ok(Settings(OrEnv(key, env, "NEXMO_API_KEY"), OrEnv(secret, env, "NEXMO_API_SECRET"),
                  OrEnv(signatureSecret, env, "NEXMO_SIGNATURE_SECRET"), resolved, applicationId, pk,
                  "rest.nexmo.com", "api.nexmo.com", UserAgent(pythonVersion, appName, appVersion)))
  }

  predicate AllAscii(s: string)
  {
    forall i :: 0 <= i < |s| ==> s[i] as int < 128
  }

  /**
   * What `check_signature` answers for a parameter dictionary: the `sig` entry
   * (default `""`) lower-cased, set against the signature of the other entries.
   * A non-string `sig` has no `lower`; `compare_digest` refuses non-ASCII text.
   */
  ghost function CheckOutcome(signatureMethod: Option<string>, secret: Option<string>, m: map<string, Value>,
                              now: int, hexdigest: Digest -> string): (r: Result<bool, string>)
    ensures "sig" in m && !m["sig"].Str? ==> r == Err("AttributeError")
    ensures r.Ok? ==>
              var given := if "sig" in m && m["sig"].Str? then Lower(m["sig"].s) else "";
              var d := Digested(signatureMethod, secret, Canonical(WithTimestamp(m - {"sig"}, now)));
              d.Ok? && (r.value <==> given == hexdigest(d.value))
  {
    var sig := if "sig" in m then m["sig"] else Str("");
    if !sig.Str? then Err("AttributeError")
    else
      var rest := m - {"sig"};
      if Truthy(signatureMethod) && secret.None? then Err("AttributeError")
      else
        match Digested(signatureMethod, secret, Canonical(WithTimestamp(rest, now)))
        case Err(e) => Err(e)
        case Ok(d) =>
          var given := Lower(sig.s);
          if !AllAscii(given) || !AllAscii(hexdigest(d)) then Err("TypeError")
          else Ok(given == hexdigest(d))
  }

  /**
   * A request signed at a non-zero time, sent with its `sig`, checks at any later
   * time, provided the hex digest is lower-case ASCII.
   */
  lemma SignedRequestChecks(signatureMethod: Option<string>, secret: Option<string>, m: map<string, Value>,
                            now: int, later: int, hexdigest: Digest -> string)
    requires "sig" !in m && now != 0
    requires Digested(signatureMethod, secret, Canonical(WithTimestamp(m, now))).Ok?
    requires var h := hexdigest(Digested(signatureMethod, secret, Canonical(WithTimestamp(m, now))).value);
             AllAscii(h) && Lower(h) == h
    ensures var h := hexdigest(Digested(signatureMethod, secret, Canonical(WithTimestamp(m, now))).value);
            CheckOutcome(signatureMethod, secret, WithTimestamp(m, now)["sig" := Str(h)], later, hexdigest) == Ok(true)
  {
    var signed := WithTimestamp(m, now);
    var h := hexdigest(Digested(signatureMethod, secret, Canonical(signed)).value);
    var sent := signed["sig" := Str(h)];
    assert sent - {"sig"} == signed;
    assert WithTimestamp(signed, later) == signed;
  }

  /** A `sig` that differs from the recomputed signature (after lower-casing) is refused. */
  lemma ForgedSignatureRefused(signatureMethod: Option<string>, secret: Option<string>, m: map<string, Value>,
                               now: int, hexdigest: Digest -> string, forged: string)
    requires "sig" !in m
    requires Digested(signatureMethod, secret, Canonical(WithTimestamp(m, now))).Ok?
    requires Lower(forged) != hexdigest(Digested(signatureMethod, secret, Canonical(WithTimestamp(m, now))).value)
    ensures CheckOutcome(signatureMethod, secret, m["sig" := Str(forged)], now, hexdigest) != Ok(true)
  {
    assert m["sig" := Str(forged)] - {"sig"} == m;
  }

  /** The claims `generate_application_jwt` signs: `auth_params` first, each default only where absent. */
  function JwtClaims(authParams: map<string, Value>, applicationId: Option<string>, iat: int, jti: string)
    : (p: map<string, Value>)
    ensures p.Keys == authParams.Keys + {"application_id", "iat", "exp", "jti"}
    ensures forall k :: k in authParams ==> p[k] == authParams[k]
    ensures "application_id" !in authParams ==>
              p["application_id"] == (if applicationId.Some? then Str(applicationId.value) else Null)
    ensures "iat" !in authParams ==> p["iat"] == Int(iat)
    ensures "exp" !in authParams ==> p["exp"] == Int(iat + 60)
    ensures "jti" !in authParams ==> p["jti"] == Str(jti)
  {
    var p1 := SetDefault(authParams, "application_id", if applicationId.Some? then Str(applicationId.value) else Null);
    var p2 := SetDefault(p1, "iat", Int(iat));
    var p3 := SetDefault(p2, "exp", Int(iat + 60));
    SetDefault(p3, "jti", Str(jti))
  }

  /** `d.setdefault(k, v)` on a copy. */
  function SetDefault(m: map<string, Value>, k: string, v: Value): (r: map<string, Value>)
    ensures r.Keys == m.Keys + {k}
    ensures k in m ==> r == m
    ensures k !in m ==> r[k] == v
    ensures forall q :: q in m ==> r[q] == m[q]
  {
    if k in m then m else m[k := v]
  }

  /**
   * `exp` is computed from the call's own `iat`, not from an `iat` supplied in
   * `auth_params`: here the claims say issued at 0 yet expire at 5060.
   */
  lemma ExpIgnoresSuppliedIat(applicationId: Option<string>, jti: string)
    ensures var p := JwtClaims(map["iat" := Int(0)], applicationId, 5000, jti);
            p["iat"] == Int(0) && p["exp"] == Int(5060)
  {
  }

  /** The token `jwt.encode` produces, kept symbolic. */
  datatype Jwt = Jwt(payload: map<string, Value>, key: Option<string>, algorithm: string)

  /** A parsed JSON body: an object (values as `str.format` writes them) or anything else. */
  datatype JsonValue = JObject(fields: map<string, string>) | JOther

  /** An HTTP response: status, `content-type` header, raw content, and the body decoded as JSON if it is JSON. */
  datatype HttpResponse = HttpResponse(status: int, contentType: Option<string>, content: string, json: Option<JsonValue>)

  /** What `parse` returns or raises. */
  datatype Parsed =
    | Nothing
    | Json(value: JsonValue)
    | Content(bytes: string)
    | AuthenticationError
    | ClientError(message: string)
    | ServerError(message: string)
    | Raised(exception: string)

  /** `content_type.split(";", 1)[0]`. */
  function MimeType(contentType: string): (t: string)
    ensures ';' !in t && IsPrefix(t, contentType)
  {
    var i := IndexOfChar(contentType, ';');
    if i == -1 then contentType else contentType[..i]
  }

  /** A parameter list after the `;` never changes the mime type. */
  lemma MimeTypeIgnoresParameters(base: string, params: string)
    requires ';' !in base
    ensures MimeType(base + ";" + params) == base
    ensures MimeType(base) == base
  {
    IndexOfCharAfter(base, ';', params);
    assert base + ";" + params == base + [';'] + params;
  }

  /** `"{code} response from {host}"`. */
  function DefaultMessage(status: int, host: string): string
  {
    IntString(status) + " response from " + host
  }

  /** The body is in the standard error format: an object with `type`, `title` and `detail`. */
  predicate StandardError(json: Option<JsonValue>)
  {
    json.Some? && json.value.JObject?
    && "type" in json.value.fields && "title" in json.value.fields && "detail" in json.value.fields
  }

  /** The ClientError message: the standard error format when the body has it, else the default. */
  function ClientMessage(status: int, host: string, json: Option<JsonValue>): (msg: string)
    ensures StandardError(json) ==>
              var f := json.value.fields;
              msg == f["title"] + ": " + f["detail"] + " (" + f["type"] + ")"
    ensures !StandardError(json) ==> msg == DefaultMessage(status, host)
  {
    if json.Some? && json.value.JObject? then
      var f := json.value.fields;
      if "type" in f && "title" in f && "detail" in f then f["title"] + ": " + f["detail"] + " (" + f["type"] + ")"
      else DefaultMessage(status, host)
    else DefaultMessage(status, host)
  }

  /** `Client.parse(host, response)`: the classification of a response by status code. */
  function Parse(host: string, r: HttpResponse): (p: Parsed)
    ensures p == AuthenticationError <==> r.status == 401
    ensures p == Nothing <==> r.status == 204 || !(200 <= r.status < 300 || 400 <= r.status < 600)
    ensures p.ClientError? <==> 400 <= r.status < 500 && r.status != 401
    ensures p.ClientError? ==> p.message == ClientMessage(r.status, host, r.json)
    ensures p.ServerError? <==> 500 <= r.status < 600
    ensures p.ServerError? ==> p.message == DefaultMessage(r.status, host)
    ensures p.Json? ==> && 200 <= r.status < 300 && r.status != 204
                        && r.contentType.Some? && MimeType(r.contentType.value) == "application/json"
                        && r.json == Some(p.value)
    ensures p.Content? ==> && 200 <= r.status < 300 && r.status != 204
                           && r.contentType.Some? && MimeType(r.contentType.value) != "application/json"
                           && p.bytes == r.content
    ensures p.Raised? <==> && 200 <= r.status < 300 && r.status != 204
                           && (r.contentType.None? || (MimeType(r.contentType.value) == "application/json" && r.json.None?))
  {
    if r.status == 401 then AuthenticationError
    else if r.status == 204 then Nothing
    else if 200 <= r.status < 300 then
      if r.contentType.None? then Raised("AttributeError")
      else if MimeType(r.contentType.value) == "application/json" then
        if r.json.Some? then Json(r.json.value) else Raised("JSONDecodeError")
      else Content(r.content)
    else if 400 <= r.status < 500 then ClientError(ClientMessage(r.status, host, r.json))
    else if 500 <= r.status < 600 then ServerError(DefaultMessage(r.status, host))
    else Nothing
  }

  /** The loop of `signature`: one `&key=value` piece per key, fed to the hasher in the order of `ks`. */
  method HashPieces(m: map<string, Value>, ks: seq<string>) returns (input: string)
    requires forall i :: 0 <= i < |ks| ==> ks[i] in m
    ensures input == CanonicalFor(m, ks)
  {
    input := "";
    var i := 0;
    while i < |ks|
      invariant 0 <= i <= |ks|
      invariant input == CanonicalFor(m, ks[..i])
    {
      CanonicalForExtends(m, ks, i);
      input := input + Pair(ks[i], m[ks[i]]);
      i := i + 1;
    }
    assert ks[..|ks|] == ks;
  }

  /** The client object; after construction only `auth_params` changes. */
  class Client {
    const settings: Settings
    var authParams: map<string, Value>

    /** The object `__init__` leaves behind once `Init` has succeeded. */
    constructor (settings: Settings)
      ensures this.settings == settings && authParams == map[]
    {
      this.settings := settings;
      authParams := map[];
    }

    /** `auth(params=None, **kwargs)`: `params or kwargs`. */
    method Auth(params: Option<map<string, Value>>, kwargs: map<string, Value>)
      modifies this
      ensures authParams == (if params.Some? && params.value != map[] then params.value else kwargs)
    {
      authParams := if params.Some? && params.value != map[] then params.value else kwargs;
    }

    /**
     * `signature(params)`: an HMAC without a secret fails before anything else;
     * otherwise a timestamp is put into the caller's dictionary when it has none
     * (or a falsy one), and the `&key=value` pieces are hashed in sorted key order.
     */
    method Signature(params: Params, now: int) returns (r: Result<Digest, string>)
      modifies params
      ensures Truthy(settings.signatureMethod) && settings.signatureSecret.None? ==>
                r == Err("AttributeError") && params.entries == old(params.entries)
      ensures !(Truthy(settings.signatureMethod) && settings.signatureSecret.None?) ==>
                && params.entries == WithTimestamp(old(params.entries), now)
                && r == Digested(settings.signatureMethod, settings.signatureSecret, Canonical(params.entries))
    {
      if Truthy(settings.signatureMethod) && settings.signatureSecret.None? {
        return Err("AttributeError");
      }
      if "timestamp" !in params.entries || Falsy(params.entries["timestamp"]) {
        params.entries := params.entries["timestamp" := Int(now)];
      }
      var m := params.entries;
      var ks := SortKeys(m.Keys);
      var input := HashPieces(m, ks);
      SortKeysIsSorted(m.Keys, ks);
      r := Digested(settings.signatureMethod, settings.signatureSecret, input);
    }

    /** `check_signature(params)`: works on a copy, so the caller's dictionary is left as it was. */
    method CheckSignature(params: Params, now: int, hexdigest: Digest -> string) returns (r: Result<bool, string>)
      ensures r == CheckOutcome(settings.signatureMethod, settings.signatureSecret, params.entries, now, hexdigest)
    {
      var copy := new Params(params.entries);
      var sig := if "sig" in copy.entries then copy.entries["sig"] else Str("");
      copy.entries := copy.entries - {"sig"};
      if !sig.Str? {
        return Err("AttributeError");
      }
      var given := Lower(sig.s);
      var d := Signature(copy, now);
      if d.Err? {
        return Err(d.error);
      }
      var expected := hexdigest(d.value);
      if !AllAscii(given) || !AllAscii(expected) {
        return Err("TypeError");
      }
      r := Ok(given == expected);
    }

    /** `generate_application_jwt(when=None)`: the claims, signed RS256 with the private key. */
    function GenerateApplicationJwt(when: Option<int>, now: int, jti: string): (t: Jwt)
      reads this
      ensures t.algorithm == "RS256" && t.key == settings.privateKey
      ensures t.payload == JwtClaims(authParams, settings.applicationId, if when.Some? then when.value else now, jti)
    {
      Jwt(JwtClaims(authParams, settings.applicationId, if when.Some? then when.value else now, jti),
          settings.privateKey, "RS256")
    }
  }
}
