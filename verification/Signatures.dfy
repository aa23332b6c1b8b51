/** Which keys a token's header admits, and the verdict a list of keys gives. */
module Signatures {
  import opened Wrappers
  import opened Jwks

  datatype Verdict =
    | Ok | Malformed | DisallowedAlgorithm | InvalidSignature | Expired | NotYetValid | WrongIssuer | WrongAudience
    | UnsupportedKeyType | UnusableKey | NoMatchingKey | UnknownKid | JwksFetchFailed | JwksThrottled

  datatype Header = Header(kid: string, alg: string)

  // One validation: the token, its header if it parses, the configured
  // algorithms and document address, and the clock reading it keeps throughout.
  datatype Call = Call(uri: string, token: string, header: Option<Header>, allowed: seq<string>, now: int)

  // The cryptographic library, as far as a call and a key determine its answers.
  datatype Crypto = Crypto(verify: (Call, Jwk) -> Verdict, usable: Jwk -> bool, shortRsa: Jwk -> bool)

  const DEFAULT_ALGORITHMS := ["RS256", "RS384", "RS512", "ES256", "ES384", "EdDSA"]

  predicate Forbidden(alg: string) {
    alg == "" || alg == "none" || "HS" <= alg
  }

  predicate AlgorithmAllowed(alg: string, allowed: seq<string>) {
    alg in if allowed == [] then DEFAULT_ALGORITHMS else allowed
  }

  // The signature was good, whatever the claims were.
  predicate SignatureHolds(v: Verdict) {
    v.Ok? || v.Expired? || v.NotYetValid? || v.WrongIssuer? || v.WrongAudience?
  }

  predicate HeaderFits(k: Jwk, alg: string) {
    (k.use == "" || k.use == "sig") && (k.alg == "" || k.alg == alg)
  }

  predicate KeyUnusable(v: Verdict) {
    v.InvalidSignature? || v.UnusableKey?
  }

  predicate Signs(cr: Crypto, call: Call, k: Jwk) {
    SignatureHolds(cr.verify(call, k))
  }

  predicate Verifies(cr: Crypto, call: Call, alg: string, k: Jwk) {
    HeaderFits(k, alg) && Signs(cr, call, k)
  }

  // ---- Specifications ----

  function Matching(keys: seq<Jwk>, alg: string): (r: seq<Jwk>)
    ensures forall k :: k in r <==> k in keys && HeaderFits(k, alg)
  {
    if keys == [] then []
    else if HeaderFits(keys[0], alg) then [keys[0]] + Matching(keys[1..], alg)
    else Matching(keys[1..], alg)
  }

  // Index of the first key the signature holds under, or |keys|.
  function FirstSigning(cr: Crypto, call: Call, keys: seq<Jwk>): (i: nat)
    ensures i <= |keys| && (i < |keys| ==> Signs(cr, call, keys[i]))
    ensures forall j :: 0 <= j < i ==> !Signs(cr, call, keys[j])
  {
    if keys == [] then 0 else if Signs(cr, call, keys[0]) then 0 else 1 + FirstSigning(cr, call, keys[1..])
  }

  // Index of the first fitting key the signature holds under, or |keys|.
  function FirstVerifying(cr: Crypto, call: Call, alg: string, keys: seq<Jwk>): (i: nat)
    ensures i <= |keys| && (i < |keys| ==> Verifies(cr, call, alg, keys[i]))
    ensures forall j :: 0 <= j < i ==> !Verifies(cr, call, alg, keys[j])
  {
    if keys == [] then 0
    else if Verifies(cr, call, alg, keys[0]) then 0
    else 1 + FirstVerifying(cr, call, alg, keys[1..])
  }

  function Selected(cr: Crypto, call: Call, alg: string, keys: seq<Jwk>): Option<Verdict> {
    var i := FirstVerifying(cr, call, alg, keys);
    if i < |keys| then Some(cr.verify(call, keys[i])) else None
  }

  function LastSupported(cr: Crypto, call: Call, keys: seq<Jwk>): Verdict {
    if keys == [] then UnsupportedKeyType
    else
      var v := cr.verify(call, keys[|keys| - 1]);
      if v.UnsupportedKeyType? then LastSupported(cr, call, keys[..|keys| - 1]) else v
  }

  predicate SomeInvalid(cr: Crypto, call: Call, keys: seq<Jwk>) {
    exists i :: 0 <= i < |keys| && cr.verify(call, keys[i]).InvalidSignature?
  }

  // The verdict of the cached keys: the first good signature decides, then a
  // bad signature, then the last other failure.
  function CachedVerdict(cr: Crypto, call: Call, keys: seq<Jwk>): Verdict {
    var i := FirstSigning(cr, call, keys);
    if keys == [] then UnknownKid
    else if i < |keys| then cr.verify(call, keys[i])
    else if SomeInvalid(cr, call, keys) then InvalidSignature
    else LastSupported(cr, call, keys)
  }

  lemma {:induction false} LastSupportedIsNotOk(cr: Crypto, call: Call, keys: seq<Jwk>)
    requires forall i :: 0 <= i < |keys| ==> !Signs(cr, call, keys[i])
    ensures !SignatureHolds(LastSupported(cr, call, keys))
  {
    if keys != [] {
      assert !Signs(cr, call, keys[|keys| - 1]);
      LastSupportedIsNotOk(cr, call, keys[..|keys| - 1]);
    }
  }

  // A good signature is reported exactly when some cached key gives one, and
  // the verdict is then that key's own.
  lemma CachedVerdictHasAKey(cr: Crypto, call: Call, keys: seq<Jwk>)
    ensures SignatureHolds(CachedVerdict(cr, call, keys)) <==> exists k :: k in keys && Signs(cr, call, k)
    ensures SignatureHolds(CachedVerdict(cr, call, keys)) ==>
              exists k :: k in keys && cr.verify(call, k) == CachedVerdict(cr, call, keys)
  {
    var i := FirstSigning(cr, call, keys);
    if i == |keys| {
      LastSupportedIsNotOk(cr, call, keys);
    } else {
      assert keys[i] in keys;
    }
  }

  // ---- The loops ----

  lemma MatchingFrom(keys: seq<Jwk>, i: nat, alg: string, before: seq<Jwk>)
    requires i < |keys|
    ensures before + Matching(keys[i..], alg)
         == (if HeaderFits(keys[i], alg) then before + [keys[i]] else before) + Matching(keys[i + 1..], alg)
  {
    assert keys[i..][1..] == keys[i + 1..];
  }

  method MatchingKeys(keys: seq<Jwk>, alg: string) returns (matching: seq<Jwk>)
    ensures matching == Matching(keys, alg)
  {
    matching := [];
    for i := 0 to |keys|
      invariant matching + Matching(keys[i..], alg) == Matching(keys, alg)
    {
      MatchingFrom(keys, i, alg, matching);
      if HeaderFits(keys[i], alg) {
        matching := matching + [keys[i]];
      }
    }
  }

  method SelectAndVerify(cr: Crypto, call: Call, alg: string, candidates: seq<Jwk>) returns (v: Option<Verdict>)
    ensures v == Selected(cr, call, alg, candidates)
  {
    for i := 0 to |candidates|
      invariant forall j :: 0 <= j < i ==> !Verifies(cr, call, alg, candidates[j])
    {
      if HeaderFits(candidates[i], alg) {
        var res := cr.verify(call, candidates[i]);
        if SignatureHolds(res) {
          assert Verifies(cr, call, alg, candidates[i]);
          return Some(res);
        }
      }
    }
    return None;
  }

  method VerifyWithCachedKeys(cr: Crypto, call: Call, keys: seq<Jwk>) returns (v: Verdict)
    ensures v == CachedVerdict(cr, call, keys)
  {
    if keys == [] {
      return UnknownKid;
    }
    var allUnsupported, sawInvalid, fallback := true, false, InvalidSignature;
    for i := 0 to |keys|
      invariant forall j :: 0 <= j < i ==> !Signs(cr, call, keys[j])
      invariant sawInvalid == SomeInvalid(cr, call, keys[..i])
      invariant !sawInvalid ==> LastSupported(cr, call, keys[..i]) == if allUnsupported then UnsupportedKeyType else fallback
    {
      assert keys[..i + 1][..i] == keys[..i] && keys[..i + 1] == keys[..i] + [keys[i]];
      var res := cr.verify(call, keys[i]);
      if SignatureHolds(res) {
        assert Signs(cr, call, keys[i]);
        return res;
      }
      if res == InvalidSignature {
        sawInvalid := true;
        assert keys[..i + 1][i] == keys[i];
      } else if res != UnsupportedKeyType {
        allUnsupported := false;
        fallback := res;
      }
      assert SomeInvalid(cr, call, keys[..i]) ==> SomeInvalid(cr, call, keys[..i + 1]) by {
        assert forall j :: 0 <= j < i ==> keys[..i][j] == keys[..i + 1][j];
      }
    }
    assert keys[..|keys|] == keys;
    if sawInvalid {
      return InvalidSignature;
    }
    if allUnsupported {
      return UnsupportedKeyType;
    }
    return fallback;
  }
}
