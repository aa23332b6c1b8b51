/** One validation as three atomic steps around its fetch: what each step does to
    the cache, as a list of cache operations, and the verdict it reaches. */
module ValidatorModel {
  import opened Wrappers
  import opened Jwks
  import opened Lru
  import opened JwksModel
  import opened Signatures
  import opened Candidates
  import opened AuditReason

  // What the fetch brings: nothing usable, or the keys parsed from a 200
  // response (none, if the body is not a key set).
  datatype Answer = Failed | Document(keys: seq<Jwk>)

  datatype Outcome =
    | Done(verdict: Verdict, reason: Reason)
    | FetchForRefresh(id: nat, cached: Verdict)
    | FetchForMiss

  // Published keys have a known type and a one-line, non-empty kid.
  predicate WellFormed(answer: Answer) {
    answer.Document? ==> forall i :: 0 <= i < |answer.keys| ==>
      KnownKty(answer.keys[i]) && answer.keys[i].kid != "" && '\n' !in answer.keys[i].kid
  }

  // The order in which the table of kids happens to be visited.
  ghost predicate Enumerates(order: seq<string>, keys: seq<Jwk>) {
    NoDup(order) && forall kid :: kid in order <==> Filed(keys, kid) != []
  }

  function Live(c: Cache, uri: string, kid: string): seq<Jwk> {
    if CacheKey(uri, kid) in c.hits then c.hits[CacheKey(uri, kid)].keys else []
  }

  // ---- Up to the fetch ----

  datatype Plan = Answered(verdict: Verdict, reason: Reason) | Refresh(cached: Verdict) | FetchDocument

  function FirstLook(cr: Crypto, c: Cache, call: Call): Plan {
    if call.header.None? then Answered(Malformed, NoReason)
    else
      var kid, alg := call.header.value.kid, call.header.value.alg;
      if Forbidden(alg) || !AlgorithmAllowed(alg, call.allowed) then Answered(DisallowedAlgorithm, NoReason)
      else if kid == "" then Answered(UnknownKid, NoReason)
      else match Lookup(c, kid, call.now, call.uri)
        case Hit(keys) =>
          var matching := Matching(keys, alg);
          if matching == [] then Refresh(NoMatchingKey)
          else
            var v := CachedVerdict(cr, call, matching);
            if KeyUnusable(v) then Refresh(v) else Answered(v, NoReason)
        case RateLimited(_) => Answered(JwksThrottled, Throttled)
        case Miss =>
          if HasFreshDocument(c, call.now, BUDGET_WINDOW_S, call.uri) then Answered(UnknownKid, NoReason)
          else FetchDocument
  }

  function Begin(cr: Crypto, c: Cache, call: Call): (o: Outcome)
    ensures !o.Done? ==> call.header.Some? && call.header.value.kid != ""
  {
    match FirstLook(cr, c, call)
    case Answered(v, reason) => Done(v, reason)
    case Refresh(cached) =>
      if !CanFetch(c, call.now) then Done(cached, BudgetThrottled)
      else if !MayReserve(c, call.header.value.kid, call.now, call.uri) then Done(cached, Throttled)
      else FetchForRefresh(c.nextId, cached)
    case FetchDocument =>
      if !CanFetch(c, call.now) then Done(JwksThrottled, BudgetThrottled) else FetchForMiss
  }

  function BeginOps(call: Call, o: Outcome): seq<Op>
    requires o.Done? || call.header.Some?
  {
    match o
    case Done(_, _) => []
    case FetchForRefresh(_, _) => [Reserve(call.header.value.kid, call.now, call.uri), Fetched(call.now)]
    case FetchForMiss => [Fetched(call.now)]
  }

  // ---- After the fetch of a refresh ----

  function PreparedKeys(cr: Crypto, c: Cache, call: Call, keys: seq<Jwk>): seq<Jwk>
    requires call.header.Some?
  {
    var h := call.header.value;
    Prepared(cr, call, h.alg, Screen(cr, Filed(keys, h.kid)), Live(c, call.uri, h.kid))
  }

  function TargetOps(cr: Crypto, c: Cache, call: Call, id: nat, keys: seq<Jwk>): seq<Op>
    requires call.header.Some?
  {
    var kid := call.header.value.kid;
    var filed := Filed(keys, kid);
    if filed == [] then [Absent(kid, id, call.now, call.uri)]
    else if Screen(cr, filed) == [] then []
    else [Commit(kid, id, PreparedKeys(cr, c, call, keys), call.now, call.uri)]
  }

  predicate CommitTakes(cr: Crypto, c: Cache, call: Call, id: nat, keys: seq<Jwk>)
    requires call.header.Some?
  {
    CommitSucceeds(c, call.header.value.kid, id, PreparedKeys(cr, c, call, keys), call.now, call.uri)
  }

  function TargetReason(cr: Crypto, c: Cache, call: Call, id: nat, keys: seq<Jwk>): Reason
    requires call.header.Some?
  {
    var kid := call.header.value.kid;
    var filed := Filed(keys, kid);
    if filed == [] then (if RecordKidAbsent(c, kid, id, call.now, call.uri).1 then KidEvicted else KidAbsent)
    else if Screen(cr, filed) == [] then ParseFailed
    else CommitReason(PreparedKeys(cr, c, call, keys), Live(c, call.uri, kid), CommitTakes(cr, c, call, id, keys))
  }

  // The verdict already reached while reordering, if its keys were committed.
  function CommittedVerdict(cr: Crypto, c: Cache, call: Call, id: nat, keys: seq<Jwk>): Option<Verdict>
    requires call.header.Some?
  {
    var screened := Screen(cr, Filed(keys, call.header.value.kid));
    if screened != [] && CommitTakes(cr, c, call, id, keys)
    then Preverified(cr, call, call.header.value.alg, screened) else None
  }

  function Reverified(cr: Crypto, c: Cache, call: Call): Verdict
    requires call.header.Some?
  {
    var matching := Matching(Live(c, call.uri, call.header.value.kid), call.header.value.alg);
    if Live(c, call.uri, call.header.value.kid) == [] then InvalidSignature
    else if matching == [] then NoMatchingKey
    else var v := Selected(cr, call, call.header.value.alg, matching); if v.Some? then v.value else InvalidSignature
  }

  function PresentKids(keys: seq<Jwk>): set<string> {
    set k | k in keys && ForSigning(k) && k.kid != "" :: k.kid
  }

  function PassiveOps(cr: Crypto, call: Call, keys: seq<Jwk>, order: seq<string>, skip: string): seq<Op> {
    if order == [] then []
    else
      var before, kid := PassiveOps(cr, call, keys, order[..|order| - 1], skip), order[|order| - 1];
      var usable := Screen(cr, Filed(keys, kid));
      if kid == skip || usable == [] then before else before + [Passive(kid, usable, call.now, call.uri)]
  }

  function RefreshOps(cr: Crypto, c: Cache, call: Call, id: nat, answer: Answer, order: seq<string>): seq<Op>
    requires call.header.Some?
  {
    if answer.Failed? || answer.keys == [] then []
    else
      var kid := call.header.value.kid;
      [FetchedOk(call.now, call.uri)] + TargetOps(cr, c, call, id, answer.keys)
      + [ReconcileOp(PresentKids(answer.keys), call.now, call.uri, kid)]
      + PassiveOps(cr, call, answer.keys, order, kid)
  }

  function RefreshVerdict(cr: Crypto, c: Cache, call: Call, id: nat, cached: Verdict, answer: Answer,
                          order: seq<string>): Verdict
    requires call.header.Some?
  {
    if answer.Failed? || answer.keys == [] then cached
    else
      var v := CommittedVerdict(cr, c, call, id, answer.keys);
      if v.Some? then v.value else Reverified(cr, Run(c, RefreshOps(cr, c, call, id, answer, order)), call)
  }

  function RefreshReason(cr: Crypto, c: Cache, call: Call, id: nat, answer: Answer): Reason
    requires call.header.Some?
  {
    if answer.Failed? then FetchFailed
    else if answer.keys == [] then ParseFailed
    else TargetReason(cr, c, call, id, answer.keys)
  }

  // ---- After the fetch of a cold miss ----

  function ColdKeys(cr: Crypto, call: Call, keys: seq<Jwk>, kid: string): seq<Jwk>
    requires call.header.Some?
  {
    var usable := Screen(cr, Filed(keys, kid));
    if kid == call.header.value.kid then Prioritized(cr, call, call.header.value.alg, usable) else usable
  }

  function ColdPassiveOps(cr: Crypto, call: Call, keys: seq<Jwk>, order: seq<string>): seq<Op>
    requires call.header.Some?
  {
    if order == [] then []
    else
      var before, kid := ColdPassiveOps(cr, call, keys, order[..|order| - 1]), order[|order| - 1];
      if Screen(cr, Filed(keys, kid)) == [] then before
      else before + [Passive(kid, ColdKeys(cr, call, keys, kid), call.now, call.uri)]
  }

  function ColdIngestOps(cr: Crypto, call: Call, keys: seq<Jwk>, order: seq<string>): seq<Op>
    requires call.header.Some?
  {
    [FetchedOk(call.now, call.uri)] + ColdPassiveOps(cr, call, keys, order)
  }

  function ColdOps(cr: Crypto, c: Cache, call: Call, answer: Answer, order: seq<string>): seq<Op>
    requires call.header.Some?
  {
    var kid := call.header.value.kid;
    if answer.Failed? then []
    else if answer.keys == [] then [RecordMiss(kid, call.now, call.uri)]
    else
      var ingest := ColdIngestOps(cr, call, answer.keys, order);
      if Live(Run(c, ingest), call.uri, kid) != [] then ingest
      else ingest + [RecordMiss(kid, call.now, call.uri)]
  }

  // Why a kid that the document did not establish was refused.
  function NotEstablished(cr: Crypto, keys: seq<Jwk>, kid: string): Verdict {
    var filed := Filed(keys, kid);
    if filed != [] then
      (if exists i :: 0 <= i < |filed| && filed[i].kty == "RSA" && cr.shortRsa(filed[i]) then UnsupportedKeyType
       else UnusableKey)
    else if exists i :: 0 <= i < |keys| && keys[i].kid == kid then NoMatchingKey
    else UnknownKid
  }

  function ColdVerdict(cr: Crypto, c: Cache, call: Call, answer: Answer, order: seq<string>): Verdict
    requires call.header.Some?
  {
    var kid, alg := call.header.value.kid, call.header.value.alg;
    if answer.Failed? then JwksFetchFailed
    else if answer.keys == [] then UnknownKid
    else
      var live := Live(Run(c, ColdIngestOps(cr, call, answer.keys, order)), call.uri, kid);
      var preverified := Preverified(cr, call, alg, Screen(cr, Filed(answer.keys, kid)));
      if live == [] then NotEstablished(cr, answer.keys, kid)
      else if preverified.Some? then preverified.value
      else
        var matching := Matching(live, alg);
        if matching == [] then NoMatchingKey else CachedVerdict(cr, call, matching)
  }
}
