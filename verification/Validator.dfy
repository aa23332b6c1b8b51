/** One validation as it runs: the cache is updated in place, the candidate keys
    are collected and reordered by loops. The lock is dropped during the fetch,
    so the work before it and the work after it are separate methods. */
module Validator {
  import opened Wrappers
  import opened Jwks
  import opened Lru
  import M = JwksModel
  import opened JwksModel
  import opened JwksCacheImpl
  import opened Signatures
  import opened Candidates
  import opened AuditReason
  import opened ValidatorModel

  lemma RunTwo(c: Cache, a: Op, b: Op)
    ensures Run(c, [a, b]) == Apply(Apply(c, a), b)
  {
    RunSnoc(c, [a], b);
    RunOne(c, a);
    assert [a] + [b] == [a, b];
  }

  // ---- Up to the fetch ----

  method TryReserve(cache: JwksCache, call: Call, cached: Verdict) returns (o: Outcome)
    requires Valid(cache.State()) && call.header.Some?
    modifies cache
    ensures var c := old(cache.State()); var kid := call.header.value.kid;
            o == if !CanFetch(c, call.now) then Done(cached, BudgetThrottled)
                 else if !MayReserve(c, kid, call.now, call.uri) then Done(cached, Throttled)
                 else FetchForRefresh(c.nextId, cached)
    ensures cache.State() == Run(old(cache.State()), BeginOps(call, o))
  {
    var kid := call.header.value.kid;
    var can := cache.CanFetchJwks(call.now);
    if !can {
      return Done(cached, BudgetThrottled);
    }
    RunReserve(cache.State(), call, cached);
    var id := cache.TryReserveRefresh(kid, call.now, call.uri);
    if id == 0 {
      return Done(cached, Throttled);
    }
    cache.RecordJwksFetch(call.now);
    return FetchForRefresh(id, cached);
  }

  lemma RunReserve(c: Cache, call: Call, cached: Verdict)
    requires call.header.Some? && Valid(c)
    ensures var r := M.TryReserveRefresh(c, call.header.value.kid, call.now, call.uri);
            && (r.1 == 0 <==> !MayReserve(c, call.header.value.kid, call.now, call.uri))
            && (r.1 == 0 ==> r.0 == c)
            && (r.1 != 0 ==> r.1 == c.nextId)
            && (r.1 != 0 ==> Run(c, BeginOps(call, FetchForRefresh(r.1, cached))) == RecordFetch(r.0, call.now))
  {
    RunTwo(c, Reserve(call.header.value.kid, call.now, call.uri), Fetched(call.now));
  }

  method BeginValidation(cr: Crypto, cache: JwksCache, call: Call) returns (o: Outcome)
    requires Valid(cache.State())
    modifies cache
    ensures o == Begin(cr, old(cache.State()), call)
    ensures cache.State() == Run(old(cache.State()), BeginOps(call, o))
  {
    if call.header.None? {
      return Done(Malformed, NoReason);
    }
    var kid, alg := call.header.value.kid, call.header.value.alg;
    if Forbidden(alg) || !AlgorithmAllowed(alg, call.allowed) {
      return Done(DisallowedAlgorithm, NoReason);
    }
    if kid == "" {
      return Done(UnknownKid, NoReason);
    }
    var first := cache.Lookup(kid, call.now, call.uri);
    if first.Hit? {
      var matching := MatchingKeys(first.keys, alg);
      if matching != [] {
        var cached := VerifyWithCachedKeys(cr, call, matching);
        if !KeyUnusable(cached) {
          return Done(cached, NoReason);
        }
        o := TryReserve(cache, call, cached);
        return;
      }
      o := TryReserve(cache, call, NoMatchingKey);
      return;
    }
    if first.RateLimited? {
      return Done(JwksThrottled, Throttled);
    }
    var recent := cache.HasFreshJwksDocument(call.now, BUDGET_WINDOW_S, call.uri);
    if recent {
      return Done(UnknownKid, NoReason);
    }
    var can := cache.CanFetchJwks(call.now);
    if !can {
      return Done(JwksThrottled, BudgetThrottled);
    }
    RunOne(cache.State(), Fetched(call.now));
    cache.RecordJwksFetch(call.now);
    return FetchForMiss;
  }

  // ---- After the fetch of a refresh ----

  function KeysOf(r: LookupResult): seq<Jwk> {
    if r.Hit? then r.keys else []
  }

  method CommitCandidates(cr: Crypto, cache: JwksCache, call: Call, id: nat, screened: seq<Jwk>)
    returns (reason: Reason, verified: Option<Verdict>)
    requires Valid(cache.State()) && call.header.Some?
    modifies cache
    ensures Valid(cache.State())
    ensures var c, h := old(cache.State()), call.header.value;
            var live := Live(c, call.uri, h.kid);
            var prepared := Prepared(cr, call, h.alg, screened, live);
            var taken := CommitSucceeds(c, h.kid, id, prepared, call.now, call.uri);
            && cache.State() == Apply(c, Commit(h.kid, id, prepared, call.now, call.uri))
            && reason == CommitReason(prepared, live, taken)
            && verified == if taken then Preverified(cr, call, h.alg, screened) else None
  {
    var kid, candidates := call.header.value.kid, screened;
    candidates, verified := PrioritizeMatchingKey(cr, call, call.header.value.alg, candidates);
    var lookup := cache.Lookup(kid, call.now, call.uri);
    var live := KeysOf(lookup);
    if verified.None? {
      candidates := PrioritizeNewKeys(candidates, live);
    }
    var hasNew, hasRemoved := CompareKeys(candidates, live);
    var committed := cache.CommitRefresh(kid, id, candidates, call.now, call.uri);
    reason := if !committed then Superseded else if hasNew then Rotated else if hasRemoved then Revoked else NoRotation;
    if !committed {
      verified := None;
    }
  }

  method CommitTargetKid(cr: Crypto, cache: JwksCache, call: Call, id: nat, groups: map<string, seq<Jwk>>,
                         ghost keys: seq<Jwk>)
    returns (reason: Reason, verified: Option<Verdict>)
    requires Valid(cache.State()) && call.header.Some? && Groups(groups, keys)
    modifies cache
    ensures Valid(cache.State())
    ensures cache.State() == Run(old(cache.State()), TargetOps(cr, old(cache.State()), call, id, keys))
    ensures reason == TargetReason(cr, old(cache.State()), call, id, keys)
    ensures verified == CommittedVerdict(cr, old(cache.State()), call, id, keys)
  {
    ghost var c := cache.State();
    var kid := call.header.value.kid;
    if kid !in groups {
      RunOne(c, Absent(kid, id, call.now, call.uri));
      var evicted := cache.RecordKidAbsent(kid, id, call.now, call.uri);
      return if evicted then KidEvicted else KidAbsent, None;
    }
    var candidates := ScreenUsableKeys(cr, groups[kid]);
    if candidates == [] {
      return ParseFailed, None;
    }
    RunOne(c, Commit(kid, id, PreparedKeys(cr, c, call, keys), call.now, call.uri));
    reason, verified := CommitCandidates(cr, cache, call, id, candidates);
  }

  method CollectPresent(groups: map<string, seq<Jwk>>, order: seq<string>,
                        ghost keys: seq<Jwk>) returns (present: set<string>)
    requires Groups(groups, keys) && Enumerates(order, keys)
    ensures present == PresentKids(keys)
  {
    present := {};
    for i := 0 to |order|
      invariant present == set kid | kid in order[..i] && kid != ""
    {
      assert order[..i + 1] == order[..i] + [order[i]];
      if order[i] != "" {
        present := present + {order[i]};
      }
    }
    assert order[..|order|] == order;
    PresentAreEnumerated(order, keys);
  }

  lemma PresentAreEnumerated(order: seq<string>, keys: seq<Jwk>)
    requires Enumerates(order, keys)
    ensures PresentKids(keys) == set kid | kid in order && kid != ""
  {
    forall kid | kid in PresentKids(keys) ensures kid in order && kid != "" {
      var k :| k in keys && ForSigning(k) && k.kid != "" && k.kid == kid;
      assert k in Filed(keys, kid);
    }
    forall kid | kid in order && kid != "" ensures kid in PresentKids(keys) {
      var k := Filed(keys, kid)[0];
      assert k in Filed(keys, kid) && k in keys && k.kid == kid;
    }
  }

  method IngestSiblingKeys(cr: Crypto, cache: JwksCache, call: Call, groups: map<string, seq<Jwk>>, target: string,
                           order: seq<string>, ghost keys: seq<Jwk>)
    requires Valid(cache.State()) && Groups(groups, keys) && Enumerates(order, keys)
    modifies cache
    ensures Valid(cache.State())
    ensures cache.State() == Run(Apply(old(cache.State()), ReconcileOp(PresentKids(keys), call.now, call.uri, target)),
                                 PassiveOps(cr, call, keys, order, target))
  {
    var present := CollectPresent(groups, order, keys);
    cache.ReconcileAbsentKids(present, call.uri, target);
    IngestPassives(cr, cache, call, groups, target, order, keys);
  }

  method IngestPassives(cr: Crypto, cache: JwksCache, call: Call, groups: map<string, seq<Jwk>>, target: string,
                        order: seq<string>, ghost keys: seq<Jwk>)
    requires Valid(cache.State()) && Groups(groups, keys) && Enumerates(order, keys)
    modifies cache
    ensures Valid(cache.State())
    ensures cache.State() == Run(old(cache.State()), PassiveOps(cr, call, keys, order, target))
  {
    ghost var c := cache.State();
    for i := 0 to |order|
      invariant Valid(cache.State())
      invariant cache.State() == Run(c, PassiveOps(cr, call, keys, order[..i], target))
    {
      assert order[..i + 1][..i] == order[..i];
      var kid := order[i];
      assert kid in order;
      if kid != target {
        var usable := ScreenUsableKeys(cr, groups[kid]);
        if usable != [] {
          RunSnoc(c, PassiveOps(cr, call, keys, order[..i], target), Passive(kid, usable, call.now, call.uri));
          cache.OnPassiveFetchSuccess(kid, usable, call.now, call.uri);
        }
      }
    }
    assert order[..|order|] == order;
  }

  method ReverifyAfterCommit(cr: Crypto, cache: JwksCache, call: Call, verified: Option<Verdict>) returns (v: Verdict)
    requires call.header.Some?
    ensures v == if verified.Some? then verified.value else Reverified(cr, cache.State(), call)
  {
    if verified.Some? {
      return verified.value;
    }
    var recheck := cache.Lookup(call.header.value.kid, call.now, call.uri);
    if recheck.Hit? && recheck.keys != [] {
      var matching := MatchingKeys(recheck.keys, call.header.value.alg);
      if matching == [] {
        return NoMatchingKey;
      }
      var selected := SelectAndVerify(cr, call, call.header.value.alg, matching);
      if selected.Some? {
        return selected.value;
      }
    }
    return InvalidSignature;
  }

  // The operations of a refresh, group by group.
  lemma RunRefresh(cr: Crypto, c: Cache, call: Call, id: nat, keys: seq<Jwk>, order: seq<string>, c1: Cache,
                   c2: Cache, c3: Cache)
    requires call.header.Some? && keys != []
    requires c1 == Apply(c, FetchedOk(call.now, call.uri)) && c2 == Run(c1, TargetOps(cr, c, call, id, keys))
    requires c3 == Run(Apply(c2, ReconcileOp(PresentKids(keys), call.now, call.uri, call.header.value.kid)),
                       PassiveOps(cr, call, keys, order, call.header.value.kid))
    ensures c3 == Run(c, RefreshOps(cr, c, call, id, Document(keys), order))
  {
    var kid := call.header.value.kid;
    var a, b := [FetchedOk(call.now, call.uri)], TargetOps(cr, c, call, id, keys);
    var d, e := [ReconcileOp(PresentKids(keys), call.now, call.uri, kid)], PassiveOps(cr, call, keys, order, kid);
    RunConcat(c, a + b + d, e);
    RunConcat(c, a + b, d);
    RunConcat(c, a, b);
    RunOne(c, FetchedOk(call.now, call.uri));
    RunOne(c2, ReconcileOp(PresentKids(keys), call.now, call.uri, kid));
  }

  // Noting that a document arrived does not change what the refresh then does.
  lemma SameAfterFetchedOk(cr: Crypto, c: Cache, d: Cache, call: Call, id: nat, keys: seq<Jwk>)
    requires call.header.Some? && d == Apply(c, FetchedOk(call.now, call.uri))
    ensures TargetOps(cr, d, call, id, keys) == TargetOps(cr, c, call, id, keys)
    ensures TargetReason(cr, d, call, id, keys) == TargetReason(cr, c, call, id, keys)
    ensures CommittedVerdict(cr, d, call, id, keys) == CommittedVerdict(cr, c, call, id, keys)
  {
    var filed := Filed(keys, call.header.value.kid);
    assert d.hits == c.hits;
    assert PreparedKeys(cr, d, call, keys) == PreparedKeys(cr, c, call, keys);
    assert CommitTakes(cr, d, call, id, keys) == CommitTakes(cr, c, call, id, keys);
  }

  method StoreDocument(cr: Crypto, cache: JwksCache, call: Call, id: nat, keys: seq<Jwk>, order: seq<string>)
    returns (reason: Reason, verified: Option<Verdict>)
    requires Valid(cache.State()) && call.header.Some? && keys != [] && Enumerates(order, keys)
    modifies cache
    ensures Valid(cache.State())
    ensures cache.State() == Run(old(cache.State()), RefreshOps(cr, old(cache.State()), call, id, Document(keys), order))
    ensures reason == TargetReason(cr, old(cache.State()), call, id, keys)
    ensures verified == CommittedVerdict(cr, old(cache.State()), call, id, keys)
  {
    ghost var c := cache.State();
    cache.RecordJwksFetchSuccess(call.now, call.uri);
    ghost var c1 := cache.State();
    var groups := GroupSigningKeysByKid(keys);
    SameAfterFetchedOk(cr, c, c1, call, id, keys);
    reason, verified := CommitTargetKid(cr, cache, call, id, groups, keys);
    ghost var c2 := cache.State();
    IngestSiblingKeys(cr, cache, call, groups, call.header.value.kid, order, keys);
    RunRefresh(cr, c, call, id, keys, order, c1, c2, cache.State());
  }

  method FinishRefresh(cr: Crypto, cache: JwksCache, call: Call, id: nat, cached: Verdict, answer: Answer,
                       order: seq<string>)
    returns (v: Verdict, reason: Reason)
    requires Valid(cache.State()) && call.header.Some?
    requires answer.Document? ==> Enumerates(order, answer.keys)
    modifies cache
    ensures cache.State() == Run(old(cache.State()), RefreshOps(cr, old(cache.State()), call, id, answer, order))
    ensures v == RefreshVerdict(cr, old(cache.State()), call, id, cached, answer, order)
    ensures reason == RefreshReason(cr, old(cache.State()), call, id, answer)
  {
    if answer.Failed? {
      return cached, FetchFailed;
    }
    if answer.keys == [] {
      return cached, ParseFailed;
    }
    var verified;
    reason, verified := StoreDocument(cr, cache, call, id, answer.keys, order);
    v := ReverifyAfterCommit(cr, cache, call, verified);
  }

  // ---- After the fetch of a cold miss ----

  method IngestKid(cr: Crypto, cache: JwksCache, call: Call, raw: seq<Jwk>, kid: string, ghost keys: seq<Jwk>)
    returns (verified: Option<Verdict>)
    requires Valid(cache.State()) && call.header.Some? && raw == Filed(keys, kid)
    modifies cache
    ensures Valid(cache.State())
    ensures cache.State() == if Screen(cr, raw) == [] then old(cache.State())
                             else Apply(old(cache.State()), Passive(kid, ColdKeys(cr, call, keys, kid), call.now, call.uri))
    ensures verified == if kid == call.header.value.kid
                        then Preverified(cr, call, call.header.value.alg, Screen(cr, raw)) else None
  {
    verified := None;
    var usable := ScreenUsableKeys(cr, raw);
    if usable != [] {
      if kid == call.header.value.kid {
        usable, verified := PrioritizeMatchingKey(cr, call, call.header.value.alg, usable);
      }
      cache.OnPassiveFetchSuccess(kid, usable, call.now, call.uri);
    }
  }

  lemma OneMoreKid(cr: Crypto, c: Cache, call: Call, keys: seq<Jwk>, front: seq<string>, kid: string, d: Cache)
    requires call.header.Some? && d == Run(c, ColdPassiveOps(cr, call, keys, front))
    ensures Run(c, ColdPassiveOps(cr, call, keys, front + [kid]))
         == if Screen(cr, Filed(keys, kid)) == [] then d
            else Apply(d, Passive(kid, ColdKeys(cr, call, keys, kid), call.now, call.uri))
  {
    assert (front + [kid])[..|front|] == front;
    RunSnoc(c, ColdPassiveOps(cr, call, keys, front), Passive(kid, ColdKeys(cr, call, keys, kid), call.now, call.uri));
  }

  method IngestEach(cr: Crypto, cache: JwksCache, call: Call, groups: map<string, seq<Jwk>>, order: seq<string>,
                    ghost keys: seq<Jwk>)
    returns (verified: Option<Verdict>)
    requires Valid(cache.State()) && call.header.Some?
    requires forall i :: 0 <= i < |order| ==> order[i] in groups && groups[order[i]] == Filed(keys, order[i])
    modifies cache
    ensures Valid(cache.State())
    ensures cache.State() == Run(old(cache.State()), ColdPassiveOps(cr, call, keys, order))
    ensures verified == if call.header.value.kid in order
                        then Preverified(cr, call, call.header.value.alg, Screen(cr, Filed(keys, call.header.value.kid)))
                        else None
  {
    ghost var c := cache.State();
    var target := call.header.value.kid;
    ghost var found := Preverified(cr, call, call.header.value.alg, Screen(cr, Filed(keys, target)));
    verified := None;
    for i := 0 to |order|
      invariant Valid(cache.State())
      invariant cache.State() == Run(c, ColdPassiveOps(cr, call, keys, order[..i]))
      invariant verified == if target in order[..i] then found else None
    {
      var kid := order[i];
      assert order[..i + 1] == order[..i] + [kid];
      OneMoreKid(cr, c, call, keys, order[..i], kid, cache.State());
      var here := IngestKid(cr, cache, call, groups[kid], kid, keys);
      if kid == target {
        verified := here;
      }
    }
    assert order[..|order|] == order;
  }

  lemma UnfiledIsNotVerified(cr: Crypto, call: Call, alg: string, keys: seq<Jwk>, kid: string)
    requires Filed(keys, kid) == []
    ensures Preverified(cr, call, alg, Screen(cr, Filed(keys, kid))) == None
  {
  }

  method IngestAll(cr: Crypto, cache: JwksCache, call: Call, groups: map<string, seq<Jwk>>, order: seq<string>,
                   ghost keys: seq<Jwk>)
    returns (verified: Option<Verdict>)
    requires Valid(cache.State()) && call.header.Some? && Groups(groups, keys) && Enumerates(order, keys)
    modifies cache
    ensures Valid(cache.State())
    ensures cache.State() == Run(old(cache.State()), ColdPassiveOps(cr, call, keys, order))
    ensures verified == Preverified(cr, call, call.header.value.alg, Screen(cr, Filed(keys, call.header.value.kid)))
  {
    assert forall i :: 0 <= i < |order| ==> order[i] in order;
    verified := IngestEach(cr, cache, call, groups, order, keys);
    if call.header.value.kid !in order {
      UnfiledIsNotVerified(cr, call, call.header.value.alg, keys, call.header.value.kid);
    }
  }

  method SawShortRsa(cr: Crypto, filed: seq<Jwk>) returns (saw: bool)
    ensures saw <==> exists i :: 0 <= i < |filed| && filed[i].kty == "RSA" && cr.shortRsa(filed[i])
  {
    saw := false;
    for i := 0 to |filed|
      invariant saw <==> exists j :: 0 <= j < i && filed[j].kty == "RSA" && cr.shortRsa(filed[j])
    {
      if filed[i].kty == "RSA" && cr.shortRsa(filed[i]) {
        saw := true;
      }
    }
  }

  method NamesKid(keys: seq<Jwk>, kid: string) returns (named: bool)
    ensures named <==> exists i :: 0 <= i < |keys| && keys[i].kid == kid
  {
    for i := 0 to |keys|
      invariant forall j :: 0 <= j < i ==> keys[j].kid != kid
    {
      if keys[i].kid == kid {
        return true;
      }
    }
    return false;
  }

  method WhyNotEstablished(cr: Crypto, groups: map<string, seq<Jwk>>, keys: seq<Jwk>, kid: string) returns (v: Verdict)
    requires Groups(groups, keys)
    ensures v == NotEstablished(cr, keys, kid)
    ensures v == UnknownKid <==> forall k :: k in keys ==> k.kid != kid
    ensures v == NoMatchingKey <==> (exists k :: k in keys && k.kid == kid)
                                    && forall k :: k in keys && k.kid == kid ==> k.use != "" && k.use != "sig"
    ensures v == UnsupportedKeyType <==>
              exists k :: k in keys && k.kid == kid && (k.use == "" || k.use == "sig") && k.kty == "RSA" && cr.shortRsa(k)
    ensures v in {UnknownKid, NoMatchingKey, UnsupportedKeyType, UnusableKey}
  {
    if Filed(keys, kid) != [] {
      assert Filed(keys, kid)[0] in keys;
    }
    if kid in groups {
      var short := SawShortRsa(cr, groups[kid]);
      return if short then UnsupportedKeyType else UnusableKey;
    }
    var named := NamesKid(keys, kid);
    return if named then NoMatchingKey else UnknownKid;
  }

  method IngestDocument(cr: Crypto, cache: JwksCache, call: Call, groups: map<string, seq<Jwk>>,
                        keys: seq<Jwk>, order: seq<string>)
    returns (verified: Option<Verdict>)
    requires Valid(cache.State()) && call.header.Some? && Groups(groups, keys) && Enumerates(order, keys)
    modifies cache
    ensures Valid(cache.State())
    ensures cache.State() == Run(old(cache.State()), ColdIngestOps(cr, call, keys, order))
    ensures verified == Preverified(cr, call, call.header.value.alg, Screen(cr, Filed(keys, call.header.value.kid)))
  {
    RunConcat(cache.State(), [FetchedOk(call.now, call.uri)], ColdPassiveOps(cr, call, keys, order));
    RunOne(cache.State(), FetchedOk(call.now, call.uri));
    cache.RecordJwksFetchSuccess(call.now, call.uri);
    verified := IngestAll(cr, cache, call, groups, order, keys);
  }

  lemma PreverifiedHolds(cr: Crypto, call: Call, alg: string, keys: seq<Jwk>)
    ensures Preverified(cr, call, alg, keys).Some? ==> SignatureHolds(Preverified(cr, call, alg, keys).value)
  {
  }

  method FinishMiss(cr: Crypto, cache: JwksCache, call: Call, answer: Answer, order: seq<string>) returns (v: Verdict)
    requires Valid(cache.State()) && call.header.Some?
    requires answer.Document? ==> Enumerates(order, answer.keys)
    modifies cache
    ensures cache.State() == Run(old(cache.State()), ColdOps(cr, old(cache.State()), call, answer, order))
    ensures v == ColdVerdict(cr, old(cache.State()), call, answer, order)
  {
    ghost var c := cache.State();
    var kid, alg := call.header.value.kid, call.header.value.alg;
    if answer.Failed? {
      return JwksFetchFailed;
    }
    if answer.keys == [] {
      RunOne(c, RecordMiss(kid, call.now, call.uri));
      cache.OnFetchMiss(kid, call.now, call.uri);
      return UnknownKid;
    }
    var groups := GroupSigningKeysByKid(answer.keys);
    var verified := IngestDocument(cr, cache, call, groups, answer.keys, order);
    PreverifiedHolds(cr, call, alg, Screen(cr, Filed(answer.keys, kid)));
    var second := cache.Lookup(kid, call.now, call.uri);
    if !second.Hit? || second.keys == [] {
      RunSnoc(c, ColdIngestOps(cr, call, answer.keys, order), RecordMiss(kid, call.now, call.uri));
      cache.OnFetchMiss(kid, call.now, call.uri);
      v := WhyNotEstablished(cr, groups, answer.keys, kid);
      return;
    }
    if verified.Some? && SignatureHolds(verified.value) {
      return verified.value;
    }
    var matching := MatchingKeys(second.keys, alg);
    if matching == [] {
      return NoMatchingKey;
    }
    v := VerifyWithCachedKeys(cr, call, matching);
  }
}
