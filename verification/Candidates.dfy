/** From a published document to the keys that are stored for one kid: grouping,
    screening, reordering, and what the reordering guarantees under the cap. */
module Candidates {
  import opened Wrappers
  import opened Jwks
  import opened Signatures
  import opened JwksModel

  predicate ForSigning(k: Jwk) {
    k.use == "" || k.use == "sig"
  }

  // The signing keys a document files under one kid, in document order.
  function Filed(keys: seq<Jwk>, kid: string): (r: seq<Jwk>)
    ensures forall k :: k in r <==> k in keys && (k.use == "" || k.use == "sig") && k.kid == kid
  {
    if keys == [] then []
    else
      var front, last := keys[..|keys| - 1], keys[|keys| - 1];
      assert keys == front + [last];
      if ForSigning(last) && last.kid == kid then Filed(front, kid) + [last] else Filed(front, kid)
  }

  ghost predicate Groups(groups: map<string, seq<Jwk>>, keys: seq<Jwk>) {
    forall kid :: (kid in groups <==> Filed(keys, kid) != []) && (kid in groups ==> groups[kid] == Filed(keys, kid))
  }

  // Usable keys in order of first appearance, each key once.
  function Screen(cr: Crypto, raw: seq<Jwk>): seq<Jwk> {
    if raw == [] then []
    else
      var kept, last := Screen(cr, raw[..|raw| - 1]), raw[|raw| - 1];
      if cr.usable(last) && !Holds(kept, last) then kept + [last] else kept
  }

  // All keys of `a` are keys of `b`, as key material.
  ghost predicate Covers(b: seq<Jwk>, a: seq<Jwk>) {
    forall i :: 0 <= i < |a| ==> Holds(b, a[i])
  }

  function SwapToFront(keys: seq<Jwk>, i: nat): seq<Jwk>
    requires i < |keys|
  {
    keys[0 := keys[i]][i := keys[0]]
  }

  function Prioritized(cr: Crypto, call: Call, alg: string, keys: seq<Jwk>): seq<Jwk> {
    var i := FirstVerifying(cr, call, alg, keys);
    if |keys| <= 1 || i == |keys| then keys else SwapToFront(keys, i)
  }

  function Preverified(cr: Crypto, call: Call, alg: string, keys: seq<Jwk>): Option<Verdict> {
    if |keys| <= 1 then None else Selected(cr, call, alg, keys)
  }

  // The keys not among (or among) the given ones.
  function Sift(keys: seq<Jwk>, among: seq<Jwk>, known: bool): (r: seq<Jwk>)
    ensures forall k :: k in r <==> k in keys && Holds(among, k) == known
    ensures |r| <= |keys|
  {
    if keys == [] then []
    else
      var front, last := keys[..|keys| - 1], keys[|keys| - 1];
      assert keys == front + [last];
      if Holds(among, last) == known then Sift(front, among, known) + [last] else Sift(front, among, known)
  }

  function NewFirst(keys: seq<Jwk>, existing: seq<Jwk>): seq<Jwk> {
    if |keys| <= MAX_KEYS_PER_KID || existing == [] then keys
    else Sift(keys, existing, false) + Sift(keys, existing, true)
  }

  // What a refresh puts forward for its kid, given what is cached now.
  function Prepared(cr: Crypto, call: Call, alg: string, keys: seq<Jwk>, live: seq<Jwk>): seq<Jwk> {
    var p := Prioritized(cr, call, alg, keys);
    if Preverified(cr, call, alg, keys).Some? then p else NewFirst(p, live)
  }

  // ---- Screening ----

  lemma {:induction false} ScreenKeeps(cr: Crypto, raw: seq<Jwk>)
    ensures forall k :: k in Screen(cr, raw) ==> k in raw && cr.usable(k)
    ensures Distinct(Screen(cr, raw))
  {
    if raw != [] {
      var front, last := raw[..|raw| - 1], raw[|raw| - 1];
      ScreenKeeps(cr, front);
      assert raw == front + [last];
      var kept := Screen(cr, front);
      forall i | 0 <= i < |kept| && !Holds(kept, last) ensures !Same(kept[i], last) {
        assert Same(kept[i], last) ==> Holds(kept, last);
      }
    }
  }

  lemma {:induction false} ScreenCovers(cr: Crypto, raw: seq<Jwk>, k: Jwk)
    requires k in raw && cr.usable(k) && KnownKty(k)
    ensures Holds(Screen(cr, raw), k)
  {
    var front, last := raw[..|raw| - 1], raw[|raw| - 1];
    assert raw == front + [last];
    var kept := Screen(cr, front);
    if k in front {
      ScreenCovers(cr, front, k);
      HoldsMore(kept, last, k);
    } else {
      SameIsEquivalence(k, k, k);
      if !Holds(kept, k) {
        assert Screen(cr, raw)[|kept|] == k;
      }
    }
  }

  lemma HoldsMore(keys: seq<Jwk>, more: Jwk, k: Jwk)
    requires Holds(keys, k)
    ensures Holds(keys + [more], k)
  {
    var i :| 0 <= i < |keys| && Same(keys[i], k);
    assert (keys + [more])[i] == keys[i];
  }

  // A kid has something to store exactly when a key of it is usable.
  lemma SomethingUsable(cr: Crypto, raw: seq<Jwk>)
    requires AllKnown(raw)
    ensures Screen(cr, raw) != [] <==> exists k :: k in raw && cr.usable(k)
  {
    ScreenKeeps(cr, raw);
    if Screen(cr, raw) != [] {
      assert Screen(cr, raw)[0] in raw;
    }
    if exists k :: k in raw && cr.usable(k) {
      var k :| k in raw && cr.usable(k);
      ScreenCovers(cr, raw, k);
    }
  }

  // ---- Reordering loses nothing ----

  lemma SwapIsPermutation(keys: seq<Jwk>, i: nat)
    requires i < |keys|
    ensures multiset(SwapToFront(keys, i)) == multiset(keys)
  {
  }

  lemma {:induction false} SiftSplits(keys: seq<Jwk>, among: seq<Jwk>)
    ensures multiset(Sift(keys, among, false)) + multiset(Sift(keys, among, true)) == multiset(keys)
    ensures |Sift(keys, among, false)| + |Sift(keys, among, true)| == |keys|
  {
    if keys != [] {
      var front, last := keys[..|keys| - 1], keys[|keys| - 1];
      assert keys == front + [last];
      SiftSplits(front, among);
    }
  }

  lemma PreparedIsPermutation(cr: Crypto, call: Call, alg: string, keys: seq<Jwk>, live: seq<Jwk>)
    ensures multiset(Prioritized(cr, call, alg, keys)) == multiset(keys)
    ensures multiset(Prepared(cr, call, alg, keys, live)) == multiset(keys)
    ensures |Prepared(cr, call, alg, keys, live)| == |keys|
  {
    var i := FirstVerifying(cr, call, alg, keys);
    if |keys| > 1 && i < |keys| {
      SwapIsPermutation(keys, i);
    }
    var p := Prioritized(cr, call, alg, keys);
    SiftSplits(p, live);
    assert |multiset(Prepared(cr, call, alg, keys, live))| == |multiset(keys)|;
  }

  // ---- Retention under the cap of four ----

  function CountNew(keys: seq<Jwk>, live: seq<Jwk>): nat {
    |Sift(keys, live, false)|
  }

  function Min(a: nat, b: nat): nat {
    if a <= b then a else b
  }

  lemma {:induction false} SiftConcat(a: seq<Jwk>, b: seq<Jwk>, among: seq<Jwk>, known: bool)
    ensures Sift(a + b, among, known) == Sift(a, among, known) + Sift(b, among, known)
  {
    if b == [] {
      assert a + b == a;
    } else {
      var front, last := b[..|b| - 1], b[|b| - 1];
      assert b == front + [last] && a + b == (a + front) + [last];
      SiftConcat(a, front, among, known);
      SiftLast(front, last, among, known);
      SiftLast(a + front, last, among, known);
    }
  }

  lemma SiftLast(front: seq<Jwk>, last: Jwk, among: seq<Jwk>, known: bool)
    ensures Sift(front + [last], among, known)
         == Sift(front, among, known) + if Holds(among, last) == known then [last] else []
  {
    assert (front + [last])[..|front|] == front;
  }

  lemma {:induction false} SiftUniform(keys: seq<Jwk>, among: seq<Jwk>, are: bool, known: bool)
    requires forall k :: k in keys ==> Holds(among, k) == are
    ensures Sift(keys, among, known) == if are == known then keys else []
  {
    if keys != [] {
      var front, last := keys[..|keys| - 1], keys[|keys| - 1];
      assert keys == front + [last] && last in keys;
      assert forall k :: k in front ==> k in keys;
      SiftUniform(front, among, are, known);
    }
  }

  lemma NewOnesComeFirst(keys: seq<Jwk>, live: seq<Jwk>)
    requires live != []
    ensures CountNew(Trim(NewFirst(keys, live)), live) == Min(MAX_KEYS_PER_KID, CountNew(keys, live))
  {
    if |keys| > MAX_KEYS_PER_KID {
      var news, stale := Sift(keys, live, false), Sift(keys, live, true);
      SiftSplits(keys, live);
      var room := if |news| >= MAX_KEYS_PER_KID then 0 else MAX_KEYS_PER_KID - |news|;
      var kept := news[..MAX_KEYS_PER_KID - room];
      assert Trim(news + stale) == kept + stale[..room];
      assert forall k :: k in stale[..room] ==> k in stale;
      assert forall k :: k in kept ==> k in news;
      SiftConcat(kept, stale[..room], live, false);
      SiftUniform(kept, live, false, false);
      SiftUniform(stale[..room], live, true, false);
    }
  }

  // Of any number of candidates, a key the token verifies under is stored if
  // there is one; otherwise as many new keys as fit.
  lemma RetentionUnderCap(cr: Crypto, call: Call, alg: string, keys: seq<Jwk>, live: seq<Jwk>)
    ensures var stored := Trim(Prepared(cr, call, alg, keys, live));
            && (forall k :: k in stored ==> k in keys)
            && ((exists k :: k in keys && Verifies(cr, call, alg, k)) <==>
                (exists k :: k in stored && Verifies(cr, call, alg, k)))
            && (live != [] && (forall k :: k in keys ==> !Verifies(cr, call, alg, k)) ==>
                CountNew(stored, live) == Min(MAX_KEYS_PER_KID, CountNew(keys, live)))
  {
    var i := FirstVerifying(cr, call, alg, keys);
    var prepared := Prepared(cr, call, alg, keys, live);
    PreparedIsPermutation(cr, call, alg, keys, live);
    assert forall k :: k in prepared <==> k in multiset(prepared);
    assert forall k :: k in Trim(prepared) ==> k in prepared;
    if i < |keys| {
      assert keys[i] in keys && prepared[0] == keys[i] && Trim(prepared)[0] == keys[i];
    } else {
      NoKeyVerifies(cr, call, alg, keys);
      if live != [] {
        NewOnesComeFirst(keys, live);
      }
    }
  }

  lemma NoKeyVerifies(cr: Crypto, call: Call, alg: string, keys: seq<Jwk>)
    requires FirstVerifying(cr, call, alg, keys) == |keys|
    ensures forall k :: k in keys ==> !Verifies(cr, call, alg, k)
  {
  }

  // ---- The loops ----

  method GroupSigningKeysByKid(keys: seq<Jwk>) returns (groups: map<string, seq<Jwk>>)
    ensures Groups(groups, keys)
  {
    groups := map[];
    for i := 0 to |keys|
      invariant Groups(groups, keys[..i])
    {
      var k := keys[i];
      assert keys[..i + 1][..i] == keys[..i];
      if ForSigning(k) {
        groups := groups[k.kid := (if k.kid in groups then groups[k.kid] else []) + [k]];
      }
    }
    assert keys[..|keys|] == keys;
  }

  method ScreenUsableKeys(cr: Crypto, raw: seq<Jwk>) returns (valid: seq<Jwk>)
    ensures valid == Screen(cr, raw)
  {
    valid := [];
    for i := 0 to |raw|
      invariant valid == Screen(cr, raw[..i])
    {
      assert raw[..i + 1][..i] == raw[..i];
      if cr.usable(raw[i]) {
        var duplicate := AnySame(valid, raw[i]);
        if !duplicate {
          valid := valid + [raw[i]];
        }
      }
    }
    assert raw[..|raw|] == raw;
  }

  method AnySame(keys: seq<Jwk>, k: Jwk) returns (found: bool)
    ensures found == Holds(keys, k)
  {
    for i := 0 to |keys|
      invariant forall j :: 0 <= j < i ==> !Same(keys[j], k)
    {
      if Same(keys[i], k) {
        return true;
      }
    }
    return false;
  }

  method PrioritizeMatchingKey(cr: Crypto, call: Call, alg: string, given: seq<Jwk>)
    returns (candidates: seq<Jwk>, verified: Option<Verdict>)
    ensures candidates == Prioritized(cr, call, alg, given)
    ensures verified == Preverified(cr, call, alg, given)
  {
    candidates, verified := given, None;
    if |candidates| <= 1 {
      return;
    }
    for i := 0 to |candidates|
      invariant candidates == given && verified == None
      invariant forall j :: 0 <= j < i ==> !Verifies(cr, call, alg, given[j])
    {
      var res := SelectAndVerify(cr, call, alg, [candidates[i]]);
      if res.Some? && SignatureHolds(res.value) {
        if i > 0 {
          candidates := candidates[0 := candidates[i]][i := candidates[0]];
        }
        assert FirstVerifying(cr, call, alg, given) == i;
        assert candidates == SwapToFront(given, i);
        verified := res;
        return;
      }
    }
  }

  method Pick(given: seq<Jwk>, existing: seq<Jwk>, known: bool) returns (picked: seq<Jwk>)
    ensures picked == Sift(given, existing, known)
  {
    picked := [];
    for i := 0 to |given|
      invariant picked == Sift(given[..i], existing, known)
    {
      assert given[..i + 1][..i] == given[..i];
      var isOld := AnySame(existing, given[i]);
      if isOld == known {
        picked := picked + [given[i]];
      }
    }
    assert given[..|given|] == given;
  }

  method PrioritizeNewKeys(given: seq<Jwk>, existing: seq<Jwk>) returns (candidates: seq<Jwk>)
    ensures candidates == NewFirst(given, existing)
  {
    if |given| <= MAX_KEYS_PER_KID || existing == [] {
      return given;
    }
    var news := Pick(given, existing, false);
    var olds := Pick(given, existing, true);
    return news + olds;
  }
}
