/** What a refresh reports about the keys it stored, and whether that is true. */
module AuditReason {
  import opened Seqs
  import opened Wrappers
  import opened Jwks
  import opened Signatures
  import opened JwksModel
  import opened Candidates

  datatype Reason =
    | NoReason | Rotated | NoRotation | Throttled | BudgetThrottled | FetchFailed | ParseFailed
    | KidAbsent | KidEvicted | Revoked | Superseded

  predicate HasNew(candidates: seq<Jwk>, cached: seq<Jwk>) {
    exists i :: 0 <= i < |candidates| && !Holds(cached, candidates[i])
  }

  function CommitReason(candidates: seq<Jwk>, cached: seq<Jwk>, committed: bool): Reason {
    if !committed then Superseded
    else if HasNew(candidates, cached) then Rotated
    else if HasNew(cached, candidates) then Revoked
    else NoRotation
  }

  // ---- No key is trimmed when nothing is new ----

  lemma {:induction false} Pigeonhole(distinct: seq<Jwk>, holes: seq<Jwk>)
    requires Distinct(distinct) && Covers(holes, distinct)
    ensures |distinct| <= |holes|
  {
    if distinct != [] {
      var i :| 0 <= i < |holes| && Same(holes[i], distinct[0]);
      var rest, left := distinct[1..], Erase(holes, i);
      forall j | 0 <= j < |rest| ensures Holds(left, rest[j]) {
        assert rest[j] == distinct[j + 1] && Holds(holes, distinct[j + 1]);
        var m :| 0 <= m < |holes| && Same(holes[m], rest[j]);
        if m == i {
          SameIsEquivalence(holes[i], distinct[0], rest[j]);
          SameIsEquivalence(distinct[0], holes[i], rest[j]);
        }
        assert left[if m < i then m else m - 1] == holes[m];
      }
      Pigeonhole(rest, left);
    }
  }

  lemma NoNewMeansCovered(candidates: seq<Jwk>, cached: seq<Jwk>)
    ensures HasNew(candidates, cached) <==> !Covers(cached, candidates)
  {
    if !HasNew(candidates, cached) {
      forall i | 0 <= i < |candidates| ensures Holds(cached, candidates[i]) {
      }
    }
  }

  // The reported reason tells the truth about the stored keys: "no rotation"
  // means the same keys before and after, "revoked" means that the kid lost a
  // key and gained none. The cap of four cuts nothing in either case.
  lemma ReasonTellsTheTruth(screened: seq<Jwk>, candidates: seq<Jwk>, cached: seq<Jwk>)
    requires Distinct(screened) && AllKnown(screened) && multiset(candidates) == multiset(screened)
    requires |cached| <= MAX_KEYS_PER_KID
    ensures var stored := Trim(candidates);
            var reason := CommitReason(candidates, cached, true);
            && (reason.NoRotation? ==> Covers(cached, stored) && Covers(stored, cached))
            && (reason.Revoked? ==> Covers(cached, stored) && !Covers(stored, cached))
            && (reason.NoRotation? || reason.Revoked? ==> stored == candidates)
            && (reason.Rotated? <==> !Covers(cached, candidates))
  {
    NoNewMeansCovered(candidates, cached);
    NoNewMeansCovered(cached, candidates);
    if !HasNew(candidates, cached) {
      NoNewIsNotCut(screened, candidates, cached);
    }
  }

  // Candidates that are all cached are at most as many as the cached keys.
  lemma NoNewIsNotCut(screened: seq<Jwk>, candidates: seq<Jwk>, cached: seq<Jwk>)
    requires Distinct(screened) && AllKnown(screened) && multiset(candidates) == multiset(screened)
    requires |cached| <= MAX_KEYS_PER_KID && !HasNew(candidates, cached)
    ensures Trim(candidates) == candidates
  {
    forall i | 0 <= i < |screened| ensures Holds(cached, screened[i]) {
      assert screened[i] in multiset(candidates);
      var j :| 0 <= j < |candidates| && candidates[j] == screened[i];
      assert Holds(cached, candidates[j]);
    }
    Pigeonhole(screened, cached);
    assert |multiset(candidates)| == |multiset(screened)|;
  }

  // ---- "Rotated" means that a new key was published, not that one is stored ----

  // Four cached keys and a document with a fifth: if the token verifies under
  // the first of them, a reported rotation stores what was there before. That
  // key was not cached when the refresh began, or the token would have passed:
  // it takes another validation that merges it during the fetch.
  lemma RotatedMayStoreNothingNew(cr: Crypto, call: Call, alg: string, cached: seq<Jwk>, extra: Jwk)
    requires |cached| == MAX_KEYS_PER_KID && AllKnown(cached) && !Holds(cached, extra)
    requires Verifies(cr, call, alg, cached[0])
    ensures var candidates := Prepared(cr, call, alg, cached + [extra], cached);
            CommitReason(candidates, cached, true).Rotated? && Trim(candidates) == cached && Covers(cached, cached)
  {
    var keys := cached + [extra];
    assert keys[0] == cached[0] && FirstVerifying(cr, call, alg, keys) == 0;
    assert Prepared(cr, call, alg, keys, cached) == keys;
    assert keys[MAX_KEYS_PER_KID] == extra;
    forall i | 0 <= i < |cached| ensures Holds(cached, cached[i]) {
      SameIsEquivalence(cached[i], cached[i], cached[i]);
    }
  }

  // Whether a new key is stored, read off the published keys: any of them is
  // new, if they are at most four or none verifies the token; otherwise one of
  // the first four is, once the verifying key has changed places with the first.
  predicate NewKeyFits(cr: Crypto, call: Call, alg: string, keys: seq<Jwk>, cached: seq<Jwk>) {
    var i := FirstVerifying(cr, call, alg, keys);
    if |keys| <= MAX_KEYS_PER_KID || i == |keys| then HasNew(keys, cached)
    else if i < MAX_KEYS_PER_KID then exists j :: 0 <= j < MAX_KEYS_PER_KID && !Holds(cached, keys[j])
    else !Holds(cached, keys[i]) || exists j :: 1 <= j < MAX_KEYS_PER_KID && !Holds(cached, keys[j])
  }

  lemma NewIsAMember(keys: seq<Jwk>, cached: seq<Jwk>)
    ensures HasNew(keys, cached) <==> exists k :: k in keys && !Holds(cached, k)
  {
    if HasNew(keys, cached) {
      var i :| 0 <= i < |keys| && !Holds(cached, keys[i]);
      assert keys[i] in keys;
    }
    if k :| k in keys && !Holds(cached, k) {
      var i :| 0 <= i < |keys| && keys[i] == k;
      assert !Holds(cached, keys[i]);
    }
  }

  lemma PermutedHasNew(a: seq<Jwk>, b: seq<Jwk>, cached: seq<Jwk>)
    requires multiset(a) == multiset(b)
    ensures HasNew(a, cached) <==> HasNew(b, cached)
  {
    NewIsAMember(a, cached);
    NewIsAMember(b, cached);
    assert forall k :: k in a <==> k in multiset(a);
    assert forall k :: k in b <==> k in multiset(b);
  }

  // Without a verifying key beyond four, any new key published is stored.
  lemma NewStoredUnlessCut(cr: Crypto, call: Call, alg: string, keys: seq<Jwk>, cached: seq<Jwk>)
    requires cached != []
    requires |keys| <= MAX_KEYS_PER_KID || FirstVerifying(cr, call, alg, keys) == |keys|
    ensures HasNew(Trim(Prepared(cr, call, alg, keys, cached)), cached) <==> HasNew(keys, cached)
  {
    var prepared := Prepared(cr, call, alg, keys, cached);
    PreparedIsPermutation(cr, call, alg, keys, cached);
    PermutedHasNew(prepared, keys, cached);
    if |keys| > MAX_KEYS_PER_KID {
      NoKeyVerifies(cr, call, alg, keys);
      NewOnesComeFirst(keys, cached);
      NewIsAMember(keys, cached);
      NewIsAMember(Trim(prepared), cached);
      NewIsCounted(keys, cached);
      NewIsCounted(Trim(prepared), cached);
    }
  }

  lemma NewIsCounted(keys: seq<Jwk>, cached: seq<Jwk>)
    ensures CountNew(keys, cached) > 0 <==> HasNew(keys, cached)
  {
    NewIsAMember(keys, cached);
    var news := Sift(keys, cached, false);
    if |news| > 0 {
      assert news[0] in news;
    }
  }

  // With one, the first four after the exchange are.
  lemma NewStoredAfterExchange(cr: Crypto, call: Call, alg: string, keys: seq<Jwk>, cached: seq<Jwk>)
    requires |keys| > MAX_KEYS_PER_KID && FirstVerifying(cr, call, alg, keys) < |keys|
    ensures HasNew(Trim(Prepared(cr, call, alg, keys, cached)), cached) <==> NewKeyFits(cr, call, alg, keys, cached)
  {
    var i := FirstVerifying(cr, call, alg, keys);
    var stored := Trim(SwapToFront(keys, i));
    assert Trim(Prepared(cr, call, alg, keys, cached)) == stored;
    assert stored[0] == keys[i];
    assert forall j :: 1 <= j < MAX_KEYS_PER_KID ==> stored[j] == if j == i then keys[0] else keys[j];
    if i < MAX_KEYS_PER_KID {
      ExchangeWithin(stored, keys[..MAX_KEYS_PER_KID], i, cached);
    }
  }

  lemma ExchangeWithin(stored: seq<Jwk>, keys: seq<Jwk>, i: nat, cached: seq<Jwk>)
    requires i < |keys| && stored == SwapToFront(keys, i)
    ensures HasNew(stored, cached) <==> HasNew(keys, cached)
  {
    SwapIsPermutation(keys, i);
    PermutedHasNew(stored, keys, cached);
  }

  // A reported rotation is true of the stored keys exactly under that condition.
  lemma RotatedStoresANewKey(cr: Crypto, call: Call, alg: string, keys: seq<Jwk>, cached: seq<Jwk>)
    requires cached != []
    ensures var prepared := Prepared(cr, call, alg, keys, cached);
            && (CommitReason(prepared, cached, true).Rotated? <==> HasNew(keys, cached))
            && (!Covers(cached, Trim(prepared)) <==> NewKeyFits(cr, call, alg, keys, cached))
  {
    var prepared := Prepared(cr, call, alg, keys, cached);
    PreparedIsPermutation(cr, call, alg, keys, cached);
    PermutedHasNew(prepared, keys, cached);
    NoNewMeansCovered(Trim(prepared), cached);
    if |keys| <= MAX_KEYS_PER_KID || FirstVerifying(cr, call, alg, keys) == |keys| {
      NewStoredUnlessCut(cr, call, alg, keys, cached);
    } else {
      NewStoredAfterExchange(cr, call, alg, keys, cached);
    }
  }

  // In particular it is true when no published key that is already cached
  // verifies the token; a refresh begins because no cached key does.
  lemma UnmergedRotationIsTrue(cr: Crypto, call: Call, alg: string, keys: seq<Jwk>, cached: seq<Jwk>)
    requires cached != [] && forall k :: k in keys && Holds(cached, k) ==> !Verifies(cr, call, alg, k)
    ensures var prepared := Prepared(cr, call, alg, keys, cached);
            CommitReason(prepared, cached, true).Rotated? <==> !Covers(cached, Trim(prepared))
  {
    RotatedStoresANewKey(cr, call, alg, keys, cached);
    var i := FirstVerifying(cr, call, alg, keys);
    if i < |keys| {
      assert keys[i] in keys && !Holds(cached, keys[i]);
    }
    if NewKeyFits(cr, call, alg, keys, cached) {
      FittingIsNew(cr, call, alg, keys, cached);
    }
  }

  lemma FittingIsNew(cr: Crypto, call: Call, alg: string, keys: seq<Jwk>, cached: seq<Jwk>)
    requires NewKeyFits(cr, call, alg, keys, cached)
    ensures HasNew(keys, cached)
  {
  }

  // ---- The comparison as it runs ----

  method CompareKeys(candidates: seq<Jwk>, cached: seq<Jwk>) returns (hasNew: bool, hasRemoved: bool)
    ensures hasNew == HasNew(candidates, cached) && hasRemoved == HasNew(cached, candidates)
  {
    hasNew := AnyUnheld(candidates, cached);
    hasRemoved := AnyUnheld(cached, candidates);
  }

  method AnyUnheld(keys: seq<Jwk>, others: seq<Jwk>) returns (found: bool)
    ensures found == HasNew(keys, others)
  {
    for i := 0 to |keys|
      invariant forall j :: 0 <= j < i ==> Holds(others, keys[j])
    {
      var held := AnySame(others, keys[i]);
      if !held {
        return true;
      }
    }
    return false;
  }
}
