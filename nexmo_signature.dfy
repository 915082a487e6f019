/**
 * The request-signing rules of the vendored Nexmo client
 * (venv/lib/python3.6/site-packages/nexmo/__init__.py): parameter values, the
 * order `sorted()` puts the keys in, value sanitising, the `&key=value` string
 * fed to the hasher, timestamp insertion and where the secret goes. The digests
 * themselves are symbolic.
 */
module NexmoSignature {
  import opened Wrappers
  import opened Text

  /** A request parameter value: the Python types that reach the signer. */
  datatype Value = Str(s: string) | Int(i: int) | Bool(b: bool) | Null

  /** Python truthiness of a value. */
  predicate Falsy(v: Value)
  {
    match v
    case Str(s) => s == ""
    case Int(i) => i == 0
    case Bool(b) => !b
    case Null => true
  }

  /** Python's `<` on `str`: code points compared left to right, a proper prefix first. */
  predicate StrLess(a: string, b: string)
  {
    if |a| == 0 then |b| > 0
    else if |b| == 0 then false
    else if a[0] != b[0] then a[0] < b[0]
    else StrLess(a[1..], b[1..])
  }

  lemma {:induction false} StrLessIrreflexive(a: string)
    ensures !StrLess(a, a)
  {
    if |a| > 0 {
      StrLessIrreflexive(a[1..]);
    }
  }

  lemma {:induction false} StrLessTotal(a: string, b: string)
    ensures a == b || StrLess(a, b) || StrLess(b, a)
  {
    if |a| > 0 && |b| > 0 && a[0] == b[0] {
      StrLessTotal(a[1..], b[1..]);
      if a[1..] == b[1..] {
        assert a == [a[0]] + a[1..] && b == [b[0]] + b[1..];
      }
    }
  }

  lemma {:induction false} StrLessAsymmetric(a: string, b: string)
    ensures !(StrLess(a, b) && StrLess(b, a))
  {
    if |a| > 0 && |b| > 0 && a[0] == b[0] {
      StrLessAsymmetric(a[1..], b[1..]);
    }
  }

  lemma {:induction false} StrLessTransitive(a: string, b: string, c: string)
    requires StrLess(a, b) && StrLess(b, c)
    ensures StrLess(a, c)
  {
    if |a| > 0 && a[0] == b[0] && b[0] == c[0] {
      StrLessTransitive(a[1..], b[1..], c[1..]);
    }
  }

  /** `ks` lists keys in strictly increasing order. */
  predicate StrictlySorted(ks: seq<string>)
  {
    forall i, j :: 0 <= i < j < |ks| ==> StrLess(ks[i], ks[j])
  }

  /** `ks` is what `sorted()` returns for a dictionary with key set `keys`. */
  ghost predicate SortsKeys(ks: seq<string>, keys: set<string>)
  {
    StrictlySorted(ks) && (forall k :: k in ks <==> k in keys)
  }

  /** Every finite non-empty set of keys has a least key. */
  lemma {:induction false} LeastKeyExists(keys: set<string>)
    requires keys != {}
    ensures exists m :: m in keys && forall k :: k in keys && k != m ==> StrLess(m, k)
  {
    var x :| x in keys;
    var rest := keys - {x};
    if rest == {} {
      assert keys == {x};
    } else {
      LeastKeyExists(rest);
      var m :| m in rest && forall k :: k in rest && k != m ==> StrLess(m, k);
      StrLessTotal(m, x);
      if StrLess(m, x) {
        assert forall k :: k in keys && k != m ==> StrLess(m, k);
      } else {
        forall k | k in keys && k != x ensures StrLess(x, k) {
          if k != m {
            StrLessTransitive(x, m, k);
          }
        }
      }
    }
  }

  lemma EmptyIffNoMembers(s: seq<string>)
    ensures s == [] <==> forall k :: k !in s
  {
    if s != [] {
      assert s[0] in s;
    }
  }

  /** There is only one sorted listing of a key set. */
  lemma {:induction false} SortedKeysUnique(a: seq<string>, b: seq<string>, keys: set<string>)
    requires SortsKeys(a, keys) && SortsKeys(b, keys)
    ensures a == b
  {
    if a == [] {
      assert forall k :: k !in b;
      EmptyIffNoMembers(b);
    } else {
      assert a[0] in keys;
      assert a[0] in b;
      if a[0] != b[0] {
        assert b[0] in a;
        var j :| 0 <= j < |a| && a[j] == b[0];
        assert a[0] in b;
        var l :| 0 <= l < |b| && b[l] == a[0];
        assert StrLess(a[0], b[0]) && StrLess(b[0], a[0]);
        StrLessAsymmetric(a[0], b[0]);
        assert false;
      }
      var rest := keys - {a[0]};
      forall k ensures k in a[1..] <==> k in rest {
        if k in a[1..] {
          var j :| 1 <= j < |a| && a[j] == k;
          StrLessIrreflexive(a[0]);
        }
        if k in rest {
          assert k in a;
          var j :| 0 <= j < |a| && a[j] == k;
          assert j != 0;
          assert a[1..][j - 1] == k;
        }
      }
      forall k ensures k in b[1..] <==> k in rest {
        if k in b[1..] {
          var j :| 1 <= j < |b| && b[j] == k;
          StrLessIrreflexive(b[0]);
        }
        if k in rest {
          assert k in b;
          var j :| 0 <= j < |b| && b[j] == k;
          assert j != 0;
          assert b[1..][j - 1] == k;
        }
      }
      SortedKeysUnique(a[1..], b[1..], rest);
      assert a == [a[0]] + a[1..] && b == [b[0]] + b[1..];
    }
  }

  /** Python's `sorted()` over the keys of a dictionary, as a specification. */
  ghost function SortedKeys(keys: set<string>): (ks: seq<string>)
    ensures SortsKeys(ks, keys)
  {
    SortedKeysExist(keys);
    var ks :| SortsKeys(ks, keys);
    ks
  }

  lemma {:induction false} SortedKeysExist(keys: set<string>)
    ensures exists ks :: SortsKeys(ks, keys)
    decreases |keys|
  {
    if keys == {} {
      assert SortsKeys([], keys);
    } else {
      LeastKeyExists(keys);
      var m :| m in keys && forall k :: k in keys && k != m ==> StrLess(m, k);
      var rest := keys - {m};
      SortedKeysExist(rest);
      var tail :| SortsKeys(tail, rest);
      var ks := [m] + tail;
      assert forall k :: k in ks <==> k in keys by {
        forall k ensures k in ks <==> k in keys {
          assert k in ks <==> k == m || k in tail;
        }
      }
      forall i, j | 0 <= i < j < |ks| ensures StrLess(ks[i], ks[j]) {
        if i > 0 {
          assert ks[i] == tail[i - 1] && ks[j] == tail[j - 1];
        } else {
          assert ks[j] == tail[j - 1] && ks[j] in rest;
        }
      }
      assert SortsKeys(ks, keys);
    }
  }

  /** `sorted(keys)`: repeatedly takes the least key not yet listed. */
  method SortKeys(keys: set<string>) returns (ks: seq<string>)
    ensures SortsKeys(ks, keys)
  {
    ks := [];
    var rest := keys;
    while rest != {}
      invariant StrictlySorted(ks)
      invariant forall k :: k in keys <==> k in ks || k in rest
      invariant forall k :: k in ks ==> k !in rest
      invariant forall i, k :: 0 <= i < |ks| && k in rest ==> StrLess(ks[i], k)
      decreases |rest|
    {
      LeastKeyExists(rest);
      var m :| m in rest && forall k :: k in rest && k != m ==> StrLess(m, k);
      ks := ks + [m];
      rest := rest - {m};
    }
  }

  /** `sorted()` of the keys, computed, is the one sorted listing. */
  lemma SortKeysIsSorted(keys: set<string>, ks: seq<string>)
    requires SortsKeys(ks, keys)
    ensures ks == SortedKeys(keys)
  {
    SortedKeysUnique(ks, SortedKeys(keys), keys);
  }

  /** `s.replace(c, with)`. */
  function Replace(s: string, c: char, with: char): (r: string)
    ensures |r| == |s|
    ensures forall i :: 0 <= i < |s| ==> r[i] == (if s[i] == c then with else s[i])
  {
    if s == [] then [] else [if s[0] == c then with else s[0]] + Replace(s[1..], c, with)
  }

  /** `value.replace("&", "_").replace("=", "_")`. */
  function Sanitize(s: string): (r: string)
    ensures |r| == |s|
    ensures '&' !in r && '=' !in r
    ensures forall i :: 0 <= i < |s| && s[i] != '&' && s[i] != '=' ==> r[i] == s[i]
    ensures forall i :: 0 <= i < |s| && (s[i] == '&' || s[i] == '=') ==> r[i] == '_'
  {
    var r := Replace(Replace(s, '&', '_'), '=', '_');
    assert forall i :: 0 <= i < |r| ==> r[i] != '&' && r[i] != '=';
    r
  }

  /** A value already free of separators passes through unchanged, so sanitising twice is sanitising once. */
  lemma SanitizeClean(s: string)
    requires '&' !in s && '=' !in s
    ensures Sanitize(s) == s
  {
  }

  lemma SanitizeIdempotent(s: string)
    ensures Sanitize(Sanitize(s)) == Sanitize(s)
  {
    SanitizeClean(Sanitize(s));
  }

  /** `str.format` of a value: strings sanitised, everything else as `str()` writes it. */
  function Format(v: Value): (r: string)
    ensures '&' !in r && '=' !in r
    ensures v.Str? && CleanKey(v.s) ==> r == v.s
  {
    match v
    case Str(s) =>
      if CleanKey(s) then SanitizeClean(s); Sanitize(s) else Sanitize(s)
    case Int(i) =>
      var d := DecimalString(if i < 0 then -i else i);
      assert forall k :: 0 <= k < |d| ==> IsDigitChar(d[k]);
      IntString(i)
    case Bool(b) => if b then "True" else "False"
    case Null => "None"
  }

  /** One `&key=value` piece. */
  function Pair(key: string, v: Value): (r: string)
    ensures |r| == |key| + |Format(v)| + 2 && r[0] == '&' && r[|key| + 1] == '='
    ensures r[1..|key| + 1] == key && r[|key| + 2..] == Format(v)
  {
    "&" + key + "=" + Format(v)
  }

  /** The hasher input for the keys `ks`, taken in that order. */
  function CanonicalFor(m: map<string, Value>, ks: seq<string>): (r: string)
    requires forall i :: 0 <= i < |ks| ==> ks[i] in m
    ensures |r| >= 2 * |ks|
    ensures ks == [] ==> |r| == 0
  {
    if ks == [] then "" else CanonicalFor(m, ks[..|ks| - 1]) + Pair(ks[|ks| - 1], m[ks[|ks| - 1]])
  }

  /** One more key extends the hasher input by that key's piece. */
  lemma CanonicalForExtends(m: map<string, Value>, ks: seq<string>, i: nat)
    requires i < |ks| && forall j :: 0 <= j < |ks| ==> ks[j] in m
    ensures CanonicalFor(m, ks[..i + 1]) == CanonicalFor(m, ks[..i]) + Pair(ks[i], m[ks[i]])
  {
    assert ks[..i + 1][..i] == ks[..i];
  }

  /** The hasher input for a parameter dictionary: every key in sorted order. */
  ghost function Canonical(m: map<string, Value>): (r: string)
    ensures r == "" <==> m.Keys == {}
  {
    var ks := SortedKeys(m.Keys);
    assert ks != [] ==> ks[0] in m.Keys;
    CanonicalFor(m, ks)
  }

  /** A key free of separators: the sanitising leaves keys untouched, so only such keys read back. */
  predicate CleanKey(k: string)
  {
    '&' !in k && '=' !in k
  }

  /** Splits a hasher input back into its `(key, formatted value)` pieces. */
  function ReadCanonical(s: string): Option<seq<(string, string)>>
  {
    if s == [] then Some([])
    else
      var i := LastIndexOfChar(s, '&');
      if i == -1 then None
      else
        var piece := s[i + 1..];
        var j := IndexOfChar(piece, '=');
        if j == -1 then None
        else
          match ReadCanonical(s[..i])
          case None => None
          case Some(pairs) => Some(pairs + [(piece[..j], piece[j + 1..])])
  }

  /** The pieces each key contributes, in order. */
  function Pieces(m: map<string, Value>, ks: seq<string>): seq<(string, string)>
    requires forall i :: 0 <= i < |ks| ==> ks[i] in m
  {
    if ks == [] then [] else Pieces(m, ks[..|ks| - 1]) + [(ks[|ks| - 1], Format(m[ks[|ks| - 1]]))]
  }

  /** Reading a hasher input one piece longer adds that piece. */
  lemma ReadCanonicalStep(head: string, k: string, v: string)
    requires CleanKey(k) && '&' !in v && '=' !in v
    ensures ReadCanonical(head + ("&" + k + "=" + v)) ==
              match ReadCanonical(head)
              case None => None
              case Some(pairs) => Some(pairs + [(k, v)])
  {
    var piece := k + "=" + v;
    var s := head + ("&" + k + "=" + v);
    assert s == head + ['&'] + piece;
    assert '&' !in piece;
    LastIndexOfCharBefore(head, '&', piece);
    assert s[|head| + 1..] == piece && s[..|head|] == head;
    IndexOfCharAfter(k, '=', v);
    assert piece == k + ['='] + v;
  }

  /** With separator-free keys, the hasher input determines every key and every formatted value. */
  lemma {:induction false} CanonicalReadsBack(m: map<string, Value>, ks: seq<string>)
    requires forall i :: 0 <= i < |ks| ==> ks[i] in m && CleanKey(ks[i])
    ensures ReadCanonical(CanonicalFor(m, ks)) == Some(Pieces(m, ks))
  {
    if ks != [] {
      var front := ks[..|ks| - 1];
      var k := ks[|ks| - 1];
      CanonicalReadsBack(m, front);
      ReadCanonicalStep(CanonicalFor(m, front), k, Format(m[k]));
    }
  }

  /**
   * Keys are not sanitised: with a separator in a key, two different dictionaries
   * can give the same hasher input, and so the same signature.
   */
  lemma UncleanKeysCollide(a: string, b: string, x: string, u: Value)
    requires a != b && '&' !in x && '=' !in x
    ensures var joined := a + "=" + x + "&" + b;
            CanonicalFor(map[joined := u], [joined]) == CanonicalFor(map[a := Str(x), b := u], [a, b])
  {
    var joined := a + "=" + x + "&" + b;
    var two := map[a := Str(x), b := u];
    var f := Format(u);
    SanitizeClean(x);
    assert [a, b][..1] == [a] && [a][..0] == [] && [joined][..0] == [];
    assert CanonicalFor(two, [a, b]) == CanonicalFor(two, [a]) + Pair(b, u);
    assert CanonicalFor(two, [a]) == "&" + a + "=" + x;
    assert CanonicalFor(map[joined := u], [joined]) == "&" + joined + "=" + f;
    PairSplits(a, b, x, f);
  }

  /** The text of one pair whose key holds `=x&` reads as two pairs. */
  lemma PairSplits(a: string, b: string, x: string, f: string)
    ensures "&" + (a + "=" + x + "&" + b) + "=" + f == ("&" + a + "=" + x) + ("&" + b + "=" + f)
  {
  }


  /** `if not params.get("timestamp"): params["timestamp"] = now`. */
  function WithTimestamp(m: map<string, Value>, now: int): (r: map<string, Value>)
    ensures r.Keys == m.Keys + {"timestamp"}
    ensures "timestamp" !in m || Falsy(m["timestamp"]) ==> r["timestamp"] == Int(now)
    ensures forall k :: k in m && k != "timestamp" ==> r[k] == m[k]
    ensures "timestamp" in m && !Falsy(m["timestamp"]) ==> r == m
  {
    if "timestamp" !in m || Falsy(m["timestamp"]) then m["timestamp" := Int(now)] else m
  }

  /** Once a non-zero timestamp is present, a second insertion keeps it. */
  lemma WithTimestampSettles(m: map<string, Value>, now: int, later: int)
    requires now != 0
    ensures WithTimestamp(WithTimestamp(m, now), later) == WithTimestamp(m, now)
  {
  }

  /**
   * The digest a signature is the hex form of: a plain MD5 of the input, or an
   * HMAC keyed by the secret with the named digest.
   */
  datatype Digest = Md5(input: string) | Hmac(digestmod: string, key: string, input: string)

  /**
   * The digest for a hasher input, by signature method: a non-empty method is an
   * HMAC keyed by the secret; `None` is an MD5 with the secret appended after the
   * parameters; an empty method is an MD5 with no secret at all. A missing
   * secret fails (`None.encode()`).
   */
  function Digested(signatureMethod: Option<string>, secret: Option<string>, input: string)
    : (r: Result<Digest, string>)
    ensures signatureMethod.Some? && signatureMethod.value != "" ==>
              (secret.None? <==> r.Err?)
              && (secret.Some? ==> r == Ok(Hmac(signatureMethod.value, secret.value, input)))
    ensures signatureMethod.None? ==>
              (secret.None? <==> r.Err?)
              && (secret.Some? ==> r.Ok? && r.value.Md5? && r.value.input == input + secret.value)
    ensures signatureMethod == Some("") ==> r == Ok(Md5(input))
  {
    match signatureMethod
    case Some(name) =>
      if name == "" then Ok(Md5(input))
      else if secret.None? then Err("AttributeError")
      else Ok(Hmac(name, secret.value, input))
    case None =>
      if secret.None? then Err("AttributeError") else Ok(Md5(input + secret.value))
  }

  /** With an MD5 signature the secret is read back off the end of the digest input. */
  lemma SecretAfterParameters(secret: string, m: map<string, Value>)
    ensures var d := Digested(None, Some(secret), Canonical(m)).value;
            d.input[..|Canonical(m)|] == Canonical(m) && d.input[|Canonical(m)|..] == secret
  {
  }

  /** A signature never depends on which order the caller's dictionary lists its keys in. */
  lemma SignatureOrderFree(m: map<string, Value>, ks: seq<string>)
    requires SortsKeys(ks, m.Keys)
    ensures CanonicalFor(m, ks) == Canonical(m)
  {
    SortedKeysUnique(ks, SortedKeys(m.Keys), m.Keys);
  }

  /** A parameter dictionary the caller owns; the signer may insert into it. */
  class Params {
    var entries: map<string, Value>

    constructor (entries: map<string, Value>)
      ensures this.entries == entries
    {
      this.entries := entries;
    }
  }
}
