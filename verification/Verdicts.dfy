/** Every good verdict rests on a key that was cached or has just been published. */
module Verdicts {
  import opened Wrappers
  import opened Jwks
  import opened Lru
  import opened JwksModel
  import opened Signatures
  import opened Candidates
  import opened AuditReason
  import opened ValidatorModel

  // A key of the list fits the token's header and gives this verdict.
  ghost predicate Backed(cr: Crypto, call: Call, keys: seq<Jwk>, v: Verdict)
    requires call.header.Some?
  {
    exists k :: k in keys && (k.use == "" || k.use == "sig") && (k.alg == "" || k.alg == call.header.value.alg)
                && cr.verify(call, k) == v
  }

  ghost predicate SomeVerifies(cr: Crypto, call: Call, keys: seq<Jwk>)
    requires call.header.Some?
  {
    exists k :: k in keys && Verifies(cr, call, call.header.value.alg, k)
  }

  lemma MatchingVerdict(cr: Crypto, call: Call, keys: seq<Jwk>)
    requires call.header.Some?
    ensures var m := Matching(keys, call.header.value.alg);
            && (SignatureHolds(CachedVerdict(cr, call, m)) <==> SomeVerifies(cr, call, keys))
            && (SignatureHolds(CachedVerdict(cr, call, m)) ==> Backed(cr, call, keys, CachedVerdict(cr, call, m)))
            && (Selected(cr, call, call.header.value.alg, m).Some? <==> SomeVerifies(cr, call, keys))
            && (Selected(cr, call, call.header.value.alg, m).Some? ==>
                  Backed(cr, call, keys, Selected(cr, call, call.header.value.alg, m).value))
  {
    var alg := call.header.value.alg;
    var m := Matching(keys, alg);
    CachedVerdictHasAKey(cr, call, m);
    var i := FirstVerifying(cr, call, alg, m);
    if i < |m| {
      assert m[i] in m;
    }
  }

  predicate Admissible(call: Call) {
    call.header.Some? && call.header.value.kid != ""
    && !Forbidden(call.header.value.alg) && AlgorithmAllowed(call.header.value.alg, call.allowed)
  }

  // Without a fetch, a good signature is reported exactly when the token's
  // algorithm is admitted and a key cached for its kid verifies it.
  lemma AnswerFromTheCache(cr: Crypto, c: Cache, call: Call)
    requires Valid(c)
    ensures var o := Begin(cr, c, call);
            && ((o.Done? && SignatureHolds(o.verdict)) <==>
                  Admissible(call) && SomeVerifies(cr, call, Live(c, call.uri, call.header.value.kid)))
            && (o.Done? && SignatureHolds(o.verdict) ==>
                  Backed(cr, call, Live(c, call.uri, call.header.value.kid), o.verdict))
            && (o.FetchForRefresh? ==> !SignatureHolds(o.cached))
  {
    if call.header.Some? {
      FirstLookSees(cr, c, call);
    }
  }

  lemma CachedIsSeen(cr: Crypto, c: Cache, call: Call)
    requires Admissible(call) && CacheKey(call.uri, call.header.value.kid) in c.hits
    ensures var look, live := FirstLook(cr, c, call), Live(c, call.uri, call.header.value.kid);
            && ((look.Answered? && SignatureHolds(look.verdict)) <==> SomeVerifies(cr, call, live))
            && (look.Answered? && SignatureHolds(look.verdict) ==> Backed(cr, call, live, look.verdict))
            && (look.Refresh? ==> !SignatureHolds(look.cached))
  {
    MatchingVerdict(cr, call, Live(c, call.uri, call.header.value.kid));
  }

  lemma UncachedIsNotGood(cr: Crypto, c: Cache, call: Call)
    requires call.header.Some? && CacheKey(call.uri, call.header.value.kid) !in c.hits
    ensures var look := FirstLook(cr, c, call); !look.Refresh? && (look.Answered? ==> !SignatureHolds(look.verdict))
    ensures !SomeVerifies(cr, call, Live(c, call.uri, call.header.value.kid))
  {
  }

  lemma FirstLookSees(cr: Crypto, c: Cache, call: Call)
    requires call.header.Some?
    ensures var look, live := FirstLook(cr, c, call), Live(c, call.uri, call.header.value.kid);
            && ((look.Answered? && SignatureHolds(look.verdict)) <==> Admissible(call) && SomeVerifies(cr, call, live))
            && (look.Answered? && SignatureHolds(look.verdict) ==> Backed(cr, call, live, look.verdict))
            && (look.Refresh? ==> !SignatureHolds(look.cached))
  {
    if CacheKey(call.uri, call.header.value.kid) !in c.hits {
      UncachedIsNotGood(cr, c, call);
    } else if Admissible(call) {
      CachedIsSeen(cr, c, call);
    }
  }

  ghost predicate FiledIn(cr: Crypto, keys: seq<Jwk>, kid: string, k: Jwk) {
    k in keys && k.kid == kid && (k.use == "" || k.use == "sig") && cr.usable(k)
  }

  // The verdict reached before the commit is that of a key the document files
  // under the kid, and the commit stores a key with that verdict.
  lemma CommittedVerdictIsStored(cr: Crypto, c: Cache, call: Call, id: nat, keys: seq<Jwk>) returns (k: Jwk)
    requires call.header.Some? && CommittedVerdict(cr, c, call, id, keys).Some?
    ensures var kid, alg := call.header.value.kid, call.header.value.alg;
            var v := CommittedVerdict(cr, c, call, id, keys).value;
            var after := CommitRefresh(c, kid, id, PreparedKeys(cr, c, call, keys), call.now, call.uri);
            && after.1 && SignatureHolds(v)
            && k in Live(after.0, call.uri, kid) && FiledIn(cr, keys, kid, k)
            && HeaderFits(k, alg) && cr.verify(call, k) == v
  {
    var kid, alg := call.header.value.kid, call.header.value.alg;
    var screened := Screen(cr, Filed(keys, kid));
    ScreenKeeps(cr, Filed(keys, kid));
    k := screened[FirstVerifying(cr, call, alg, screened)];
    assert k in screened && FiledIn(cr, keys, kid, k);
    assert PreparedKeys(cr, c, call, keys)[0] == k;
    assert Trim(PreparedKeys(cr, c, call, keys))[0] == k;
  }

  // The cache as the refresh leaves it.
  function AfterRefresh(cr: Crypto, c: Cache, call: Call, id: nat, answer: Answer, order: seq<string>): Cache
    requires call.header.Some?
  {
    Run(c, RefreshOps(cr, c, call, id, answer, order))
  }

  lemma ReverifiedVerdict(cr: Crypto, c: Cache, call: Call)
    requires call.header.Some?
    ensures var live, v := Live(c, call.uri, call.header.value.kid), Reverified(cr, c, call);
            && (SignatureHolds(v) <==> SomeVerifies(cr, call, live))
            && (SignatureHolds(v) ==> Backed(cr, call, live, v))
  {
    MatchingVerdict(cr, call, Live(c, call.uri, call.header.value.kid));
  }

  // A refresh turns a refusal into a good verdict exactly when its commit took
  // and a published key verified, or a key in the cache it leaves behind
  // verifies. Unless a commit took, the verdict is that of a key in that cache.
  lemma AnswerAfterRefresh(cr: Crypto, c: Cache, call: Call, id: nat, cached: Verdict, answer: Answer, order: seq<string>)
    requires call.header.Some? && !SignatureHolds(cached)
    ensures var v := RefreshVerdict(cr, c, call, id, cached, answer, order);
            var live := Live(AfterRefresh(cr, c, call, id, answer, order), call.uri, call.header.value.kid);
            var reported := answer.Document? && answer.keys != [];
            && (SignatureHolds(v) <==>
                  reported && (CommittedVerdict(cr, c, call, id, answer.keys).Some? || SomeVerifies(cr, call, live)))
            && (SignatureHolds(v) && CommittedVerdict(cr, c, call, id, answer.keys).None? ==> Backed(cr, call, live, v))
  {
    if answer.Document? && answer.keys != [] {
      if CommittedVerdict(cr, c, call, id, answer.keys).Some? {
        var k := CommittedVerdictIsStored(cr, c, call, id, answer.keys);
      } else {
        ReverifiedVerdict(cr, AfterRefresh(cr, c, call, id, answer, order), call);
      }
    }
  }

  // After a cold miss a good verdict is that of a key the document files under
  // the kid, or of a key cached for the kid when the document has been stored.
  lemma AnswerAfterMiss(cr: Crypto, c: Cache, call: Call, answer: Answer, order: seq<string>)
    requires call.header.Some?
    requires SignatureHolds(ColdVerdict(cr, c, call, answer, order))
    ensures answer.Document? && answer.keys != []
    ensures var kid, alg := call.header.value.kid, call.header.value.alg;
            var v := ColdVerdict(cr, c, call, answer, order);
            || (exists k :: FiledIn(cr, answer.keys, kid, k) && HeaderFits(k, alg) && cr.verify(call, k) == v)
            || Backed(cr, call, Live(Run(c, ColdIngestOps(cr, call, answer.keys, order)), call.uri, kid), v)
  {
    var kid, alg := call.header.value.kid, call.header.value.alg;
    MatchingVerdict(cr, call, Live(Run(c, ColdIngestOps(cr, call, answer.keys, order)), call.uri, kid));
    var screened := Screen(cr, Filed(answer.keys, kid));
    if Preverified(cr, call, alg, screened).Some? {
      ScreenKeeps(cr, Filed(answer.keys, kid));
      var k := screened[FirstVerifying(cr, call, alg, screened)];
      assert k in screened && FiledIn(cr, answer.keys, kid, k);
    }
  }

  // ---- Why a token is refused ----

  predicate NoneFits(keys: seq<Jwk>, alg: string) {
    forall k :: k in keys ==> (k.use != "" && k.use != "sig") || (k.alg != "" && k.alg != alg)
  }

  // A refresh that brings no document leaves the verdict of the cached keys.
  // Otherwise it refuses because of the algorithm if keys are cached for the kid
  // and none fits, and because of the signature in any other case.
  lemma RefusalAfterRefresh(cr: Crypto, c: Cache, call: Call, id: nat, cached: Verdict, answer: Answer, order: seq<string>)
    requires call.header.Some? && !SignatureHolds(cached)
    requires !SignatureHolds(RefreshVerdict(cr, c, call, id, cached, answer, order))
    ensures var live := Live(AfterRefresh(cr, c, call, id, answer, order), call.uri, call.header.value.kid);
            RefreshVerdict(cr, c, call, id, cached, answer, order) ==
            if answer.Failed? || answer.keys == [] then cached
            else if live != [] && NoneFits(live, call.header.value.alg) then NoMatchingKey
            else InvalidSignature
  {
    if answer.Document? && answer.keys != [] {
      if CommittedVerdict(cr, c, call, id, answer.keys).Some? {
        var k := CommittedVerdictIsStored(cr, c, call, id, answer.keys);
      } else {
        NoneFitsExactly(Live(AfterRefresh(cr, c, call, id, answer, order), call.uri, call.header.value.kid),
                        call.header.value.alg);
      }
    }
  }

  lemma NoneFitsExactly(keys: seq<Jwk>, alg: string)
    ensures Matching(keys, alg) == [] <==> NoneFits(keys, alg)
  {
    if Matching(keys, alg) != [] {
      assert Matching(keys, alg)[0] in keys && HeaderFits(Matching(keys, alg)[0], alg);
    }
  }

  // A cold miss that refuses says why: the fetch failed, the document was empty,
  // it did not establish the kid, no cached key fits, or no fitting key is good.
  lemma RefusalAfterMiss(cr: Crypto, c: Cache, call: Call, answer: Answer, order: seq<string>)
    requires call.header.Some? && !SignatureHolds(ColdVerdict(cr, c, call, answer, order))
    ensures var kid, alg := call.header.value.kid, call.header.value.alg;
            var v := ColdVerdict(cr, c, call, answer, order);
            if answer.Failed? then v == JwksFetchFailed
            else if answer.keys == [] then v == UnknownKid
            else
              var live := Live(Run(c, ColdIngestOps(cr, call, answer.keys, order)), call.uri, kid);
              if live == [] then v == NotEstablished(cr, answer.keys, kid)
              else if NoneFits(live, alg) then v == NoMatchingKey
              else !SomeVerifies(cr, call, live)
                   && ((exists k :: k in live && HeaderFits(k, alg) && cr.verify(call, k) == InvalidSignature)
                       ==> v == InvalidSignature)
  {
    var kid, alg := call.header.value.kid, call.header.value.alg;
    if answer.Document? && answer.keys != [] {
      var live := Live(Run(c, ColdIngestOps(cr, call, answer.keys, order)), call.uri, kid);
      NoneFitsExactly(live, alg);
      MatchingVerdict(cr, call, live);
      PreverifiedIsGood(cr, call, alg, Screen(cr, Filed(answer.keys, kid)));
      if k :| k in live && HeaderFits(k, alg) && cr.verify(call, k) == InvalidSignature {
        var m := Matching(live, alg);
        var j :| 0 <= j < |m| && m[j] == k;
      }
    }
  }

  lemma PreverifiedIsGood(cr: Crypto, call: Call, alg: string, keys: seq<Jwk>)
    ensures Preverified(cr, call, alg, keys).Some? ==> SignatureHolds(Preverified(cr, call, alg, keys).value)
  {
  }

  // What a reported reason says of a kid's keys before and after.
  ghost predicate Truthful(reason: Reason, before: seq<Jwk>, after: seq<Jwk>) {
    && (reason.NoRotation? ==> Covers(before, after) && Covers(after, before))
    && (reason.Revoked? ==> Covers(before, after) && !Covers(after, before))
    && (reason.Superseded? || reason.ParseFailed? || reason.KidAbsent? ==> after == before)
    && (reason.KidEvicted? ==> before != [] && after == [])
  }

  lemma LiveAfterCommit(c: Cache, kid: string, id: nat, keys: seq<Jwk>, now: int, uri: string)
    ensures Live(Apply(c, Commit(kid, id, keys, now, uri)), uri, kid)
         == if CommitSucceeds(c, kid, id, keys, now, uri) then Trim(keys) else Live(c, uri, kid)
  {
  }

  lemma ScreenedAreKnown(cr: Crypto, keys: seq<Jwk>, kid: string)
    requires WellFormed(Document(keys))
    ensures AllKnown(Screen(cr, Filed(keys, kid))) && Distinct(Screen(cr, Filed(keys, kid)))
  {
    var screened := Screen(cr, Filed(keys, kid));
    ScreenKeeps(cr, Filed(keys, kid));
    forall i | 0 <= i < |screened| ensures KnownKty(screened[i]) {
      assert screened[i] in screened && screened[i] in keys;
    }
  }

  lemma PreparedReasonIsTruthful(cr: Crypto, call: Call, alg: string, screened: seq<Jwk>, live: seq<Jwk>, taken: bool)
    requires AllKnown(screened) && Distinct(screened) && |live| <= MAX_KEYS_PER_KID
    ensures var prepared := Prepared(cr, call, alg, screened, live);
            Truthful(CommitReason(prepared, live, taken), live, if taken then Trim(prepared) else live)
  {
    var prepared := Prepared(cr, call, alg, screened, live);
    PreparedIsPermutation(cr, call, alg, screened, live);
    ReasonTellsTheTruth(screened, prepared, live);
  }

  lemma CommitReportsTheTruth(cr: Crypto, c: Cache, call: Call, id: nat, keys: seq<Jwk>)
    requires Valid(c) && call.header.Some? && WellFormed(Document(keys))
    ensures var kid := call.header.value.kid;
            var prepared := PreparedKeys(cr, c, call, keys);
            Truthful(CommitReason(prepared, Live(c, call.uri, kid), CommitTakes(cr, c, call, id, keys)),
                     Live(c, call.uri, kid),
                     Live(Apply(c, Commit(kid, id, prepared, call.now, call.uri)), call.uri, kid))
  {
    var kid := call.header.value.kid;
    ScreenedAreKnown(cr, keys, kid);
    PreparedReasonIsTruthful(cr, call, call.header.value.alg, Screen(cr, Filed(keys, kid)), Live(c, call.uri, kid),
                             CommitTakes(cr, c, call, id, keys));
    LiveAfterCommit(c, kid, id, PreparedKeys(cr, c, call, keys), call.now, call.uri);
  }

  lemma RunTarget(cr: Crypto, c: Cache, call: Call, id: nat, keys: seq<Jwk>)
    requires call.header.Some?
    ensures var ops := TargetOps(cr, c, call, id, keys);
            Run(c, ops) == if ops == [] then c else Apply(c, ops[0])
  {
    var ops := TargetOps(cr, c, call, id, keys);
    if ops != [] {
      RunOne(c, ops[0]);
      assert ops == [ops[0]];
    }
  }

  // The reason a refresh reports is true of the stored keys.
  lemma RefreshReportsTheTruth(cr: Crypto, c: Cache, call: Call, id: nat, keys: seq<Jwk>)
    requires Valid(c) && call.header.Some? && WellFormed(Document(keys)) && keys != []
    ensures var kid := call.header.value.kid;
            var reason := RefreshReason(cr, c, call, id, Document(keys));
            && Truthful(reason, Live(c, call.uri, kid),
                        Live(Run(c, TargetOps(cr, c, call, id, keys)), call.uri, kid))
            && (reason.KidAbsent? || reason.KidEvicted? <==> Filed(keys, kid) == [])
  {
    var filed := Filed(keys, call.header.value.kid);
    RunTarget(cr, c, call, id, keys);
    if filed != [] && Screen(cr, filed) != [] {
      CommitReportsTheTruth(cr, c, call, id, keys);
    }
  }
}
