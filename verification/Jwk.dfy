/** Published keys, and when two of them are the same key. */
module Jwks {
  import opened Seqs

  datatype Jwk = Jwk(kid: string, kty: string, alg: string, use: string,
                     n: string, e: string, crv: string, x: string, y: string)

  predicate KnownKty(k: Jwk) {
    k.kty == "RSA" || k.kty == "EC" || k.kty == "OKP"
  }

  predicate Same(a: Jwk, b: Jwk) {
    && a.kty == b.kty && a.alg == b.alg && a.use == b.use
    && if a.kty == "RSA" then a.n == b.n && a.e == b.e
       else (a.kty == "EC" || a.kty == "OKP") && a.crv == b.crv && a.x == b.x && a.y == b.y
  }

  lemma SameIsEquivalence(a: Jwk, b: Jwk, c: Jwk)
    ensures Same(a, a) <==> KnownKty(a)
    ensures Same(a, b) <==> Same(b, a)
    ensures Same(a, b) && Same(b, c) ==> Same(a, c)
  {
  }

  // Two keys of a known type are the same exactly if they differ at most in the
  // kid and in what does not belong to their type.
  lemma SameUpToTheKid(a: Jwk, b: Jwk)
    requires KnownKty(a)
    ensures Same(a, b) <==>
            if a.kty == "RSA" then a.(kid := "", crv := "", x := "", y := "") == b.(kid := "", crv := "", x := "", y := "")
            else a.(kid := "", n := "", e := "") == b.(kid := "", n := "", e := "")
  {
  }

  predicate Holds(keys: seq<Jwk>, k: Jwk) {
    exists i :: 0 <= i < |keys| && Same(keys[i], k)
  }

  predicate AllKnown(keys: seq<Jwk>) {
    forall i :: 0 <= i < |keys| ==> KnownKty(keys[i])
  }

  predicate Distinct(keys: seq<Jwk>) {
    forall i, j :: 0 <= i < j < |keys| ==> !Same(keys[i], keys[j])
  }

  // ---- Equality of key lists up to order ----

  function Count(keys: seq<Jwk>, k: Jwk): nat {
    if keys == [] then 0 else (if Same(keys[0], k) then 1 else 0) + Count(keys[1..], k)
  }

  ghost predicate SameCounts(a: seq<Jwk>, b: seq<Jwk>) {
    forall k :: Count(a, k) == Count(b, k)
  }

  // Index of the first key of `keys` that is `k`, or |keys|.
  function FirstSame(keys: seq<Jwk>, k: Jwk): (i: nat)
    ensures i <= |keys|
    ensures i < |keys| ==> Same(k, keys[i])
    ensures forall j :: 0 <= j < i ==> !Same(k, keys[j])
  {
    if keys == [] then 0 else if Same(k, keys[0]) then 0 else 1 + FirstSame(keys[1..], k)
  }

  function SameList(a: seq<Jwk>, b: seq<Jwk>): bool {
    if |a| != |b| then false
    else if a == [] then true
    else var i := FirstSame(b, a[0]); i < |b| && SameList(a[1..], Erase(b, i))
  }

  lemma {:induction false} CountErase(keys: seq<Jwk>, i: nat, k: Jwk)
    requires i < |keys|
    ensures Count(keys, k) == Count(Erase(keys, i), k) + if Same(keys[i], k) then 1 else 0
  {
    if i > 0 {
      CountErase(keys[1..], i - 1, k);
      assert Erase(keys, i)[1..] == Erase(keys[1..], i - 1);
    } else {
      assert Erase(keys, 0) == keys[1..];
    }
  }

  lemma {:induction false} CountPositive(keys: seq<Jwk>, k: Jwk)
    ensures Count(keys, k) > 0 <==> Holds(keys, k)
  {
    if keys != [] {
      CountPositive(keys[1..], k);
      if Holds(keys[1..], k) {
        var i :| 0 <= i < |keys[1..]| && Same(keys[1..][i], k);
        assert Same(keys[i + 1], k);
      }
      if Holds(keys, k) && !Same(keys[0], k) {
        var i :| 0 <= i < |keys| && Same(keys[i], k);
        assert Same(keys[1..][i - 1], k);
      }
    }
  }

  lemma {:induction false} SameListSound(a: seq<Jwk>, b: seq<Jwk>, k: Jwk)
    requires SameList(a, b)
    ensures Count(a, k) == Count(b, k)
  {
    if a != [] {
      var i := FirstSame(b, a[0]);
      SameListSound(a[1..], Erase(b, i), k);
      CountErase(b, i, k);
      SameIsEquivalence(a[0], b[i], k);
      SameIsEquivalence(b[i], a[0], k);
    }
  }

  lemma {:induction false} EqualCountsSameLength(a: seq<Jwk>, b: seq<Jwk>)
    requires AllKnown(a) && AllKnown(b)
    requires SameCounts(a, b)
    ensures |a| == |b| && SameList(a, b)
  {
    if a == [] {
      if b != [] {
        CountPositive(b, b[0]);
        SameIsEquivalence(b[0], b[0], b[0]);
      }
    } else {
      SameIsEquivalence(a[0], a[0], a[0]);
      CountPositive(b, a[0]);
      var i := FirstSame(b, a[0]);
      forall j | 0 <= j < |b| ensures Same(b[j], a[0]) <==> Same(a[0], b[j]) {
        SameIsEquivalence(b[j], a[0], a[0]);
      }
      assert Count(a, a[0]) == Count(b, a[0]);
      forall k ensures Count(a[1..], k) == Count(Erase(b, i), k) {
        CountErase(b, i, k);
        SameIsEquivalence(a[0], b[i], k);
        SameIsEquivalence(b[i], a[0], k);
        assert Count(a, k) == Count(b, k);
      }
      EqualCountsSameLength(a[1..], Erase(b, i));
    }
  }

  // On keys of a known type the list test is multiset equality of keys.
  lemma SameListIsMultisetEquality(a: seq<Jwk>, b: seq<Jwk>)
    requires AllKnown(a) && AllKnown(b)
    ensures SameList(a, b) <==> SameCounts(a, b)
  {
    if SameList(a, b) {
      forall k ensures Count(a, k) == Count(b, k) {
        SameListSound(a, b, k);
      }
    }
    if SameCounts(a, b) {
      EqualCountsSameLength(a, b);
    }
  }

  // The list comparison as it runs: it crosses off one match per key.
  method SameKeyMaterial(a: seq<Jwk>, b: seq<Jwk>) returns (same: bool)
    ensures same == SameList(a, b)
  {
    if |a| != |b| {
      return false;
    }
    var rem := b;
    for i := 0 to |a|
      invariant |rem| == |a| - i
      invariant SameList(a, b) == SameList(a[i..], rem)
    {
      var j := FirstSame(rem, a[i]);
      assert a[i..][1..] == a[i + 1..];
      if j == |rem| {
        return false;
      }
      rem := Erase(rem, j);
    }
    return true;
  }
}
