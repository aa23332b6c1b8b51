/** When a validation sends a refresh, and when it is held back, in the seconds
    the cache compares. */
module FetchRules {
  import opened Wrappers
  import opened Jwks
  import opened JwksModel
  import opened Signatures
  import opened AuditReason
  import opened ValidatorModel
  import opened Verdicts
  import opened Protocol

  // ---- Which algorithms are admitted ----

  // With no list configured the six signature algorithms pass, with a list its
  // members, and an HMAC algorithm, "none" or no algorithm at all never.
  lemma AdmittedAlgorithms(cr: Crypto, c: Cache, call: Call)
    requires call.header.Some?
    ensures var kid, alg := call.header.value.kid, call.header.value.alg;
            var admitted := && alg != "" && alg != "none" && !(|alg| >= 2 && alg[0] == 'H' && alg[1] == 'S')
                            && if call.allowed == []
                               then alg in ["RS256", "RS384", "RS512", "ES256", "ES384", "EdDSA"]
                               else alg in call.allowed;
            && (Admissible(call) <==> kid != "" && admitted)
            && (!admitted ==> Begin(cr, c, call) == Done(DisallowedAlgorithm, NoReason))
            && (admitted && kid == "" ==> Begin(cr, c, call) == Done(UnknownKid, NoReason))
  {
    var alg := call.header.value.alg;
    assert "HS" <= alg <==> |alg| >= 2 && alg[0] == 'H' && alg[1] == 'S' by {
      if |alg| >= 2 && alg[0] == 'H' && alg[1] == 'S' {
        assert alg[..2] == "HS";
      }
    }
  }

  // ---- When the cached keys leave the verdict open ----

  // None of these keys is good, and either there is none, or some signature is
  // bad, or the last key of a supported type cannot be used.
  ghost predicate LeavesOpen(cr: Crypto, call: Call, keys: seq<Jwk>) {
    && (forall k :: k in keys ==> cr.verify(call, k) !in {Ok, Expired, NotYetValid, WrongIssuer, WrongAudience})
    && (|| keys == []
        || (exists k :: k in keys && cr.verify(call, k) == InvalidSignature)
        || exists i :: 0 <= i < |keys| && cr.verify(call, keys[i]) == UnusableKey
                       && forall j :: i < j < |keys| ==> cr.verify(call, keys[j]) == UnsupportedKeyType)
  }

  lemma {:induction false} LastSupportedIsUnusable(cr: Crypto, call: Call, keys: seq<Jwk>)
    ensures LastSupported(cr, call, keys) == UnusableKey <==>
            exists i :: 0 <= i < |keys| && cr.verify(call, keys[i]) == UnusableKey
                        && forall j :: i < j < |keys| ==> cr.verify(call, keys[j]) == UnsupportedKeyType
    ensures LastSupported(cr, call, keys) == InvalidSignature ==>
            exists k :: k in keys && cr.verify(call, k) == InvalidSignature
  {
    if keys != [] {
      var front, last := keys[..|keys| - 1], keys[|keys| - 1];
      LastSupportedIsUnusable(cr, call, front);
      assert forall i :: 0 <= i < |front| ==> keys[i] == front[i];
      assert last in keys && forall k :: k in front ==> k in keys;
    }
  }

  lemma OpenExactly(cr: Crypto, call: Call, keys: seq<Jwk>)
    ensures LeavesOpen(cr, call, keys) <==> keys == [] || KeyUnusable(CachedVerdict(cr, call, keys))
  {
    var i := FirstSigning(cr, call, keys);
    LastSupportedIsUnusable(cr, call, keys);
    if i < |keys| {
      assert keys[i] in keys && Signs(cr, call, keys[i]);
    }
    if k :| k in keys && cr.verify(call, k) == InvalidSignature {
      var j :| 0 <= j < |keys| && keys[j] == k;
      assert SomeInvalid(cr, call, keys);
    }
  }

  // ---- When they settle it ----

  // The key may sign for the token, and its signature is good.
  ghost predicate Good(cr: Crypto, call: Call, k: Jwk)
    requires call.header.Some?
  {
    && (k.use == "" || k.use == "sig") && (k.alg == "" || k.alg == call.header.value.alg)
    && cr.verify(call, k) in {Ok, Expired, NotYetValid, WrongIssuer, WrongAudience}
  }

  lemma {:induction false} FirstFitting(cr: Crypto, call: Call, keys: seq<Jwk>, i: nat)
    requires call.header.Some? && i < |keys| && Good(cr, call, keys[i])
    requires forall j :: 0 <= j < i ==> !Good(cr, call, keys[j])
    ensures var m := Matching(keys, call.header.value.alg);
            var n := FirstSigning(cr, call, m);
            n < |m| && m[n] == keys[i]
  {
    if i > 0 {
      assert forall j :: 0 <= j < i - 1 ==> !Good(cr, call, keys[1..][j]);
      FirstFitting(cr, call, keys[1..], i - 1);
      assert !Good(cr, call, keys[0]);
      var rest := Matching(keys[1..], call.header.value.alg);
      assert ([keys[0]] + rest)[1..] == rest;
    }
  }

  // If a cached key is good, the first such key gives the verdict, and nothing
  // is fetched. If none is, no good verdict is reached without a fetch.
  lemma FirstGoodKeyDecides(cr: Crypto, c: Cache, call: Call, i: nat)
    requires Admissible(call) && KeyFor(call) in c.hits && i <= |c.hits[KeyFor(call)].keys|
    requires var keys := c.hits[KeyFor(call)].keys;
             && (i < |keys| ==> Good(cr, call, keys[i]))
             && forall j :: 0 <= j < i ==> !Good(cr, call, keys[j])
    ensures var keys, o := c.hits[KeyFor(call)].keys, Begin(cr, c, call);
            if i < |keys| then o == Done(cr.verify(call, keys[i]), NoReason)
            else o.Done? ==> o.verdict !in {Ok, Expired, NotYetValid, WrongIssuer, WrongAudience}
  {
    var keys := c.hits[KeyFor(call)].keys;
    if i < |keys| {
      FirstFitting(cr, call, keys, i);
    } else {
      MatchingVerdict(cr, call, keys);
      forall k | k in keys ensures !Verifies(cr, call, call.header.value.alg, k) {
        var j :| 0 <= j < |keys| && keys[j] == k;
      }
      LooksForARefresh(cr, c, call);
    }
  }

  // ---- When a refresh goes out ----

  // The cached keys of the kid leave the verdict open.
  ghost predicate NeedsRefresh(cr: Crypto, c: Cache, call: Call) {
    && Admissible(call) && KeyFor(call) in c.hits
    && LeavesOpen(cr, call, Matching(c.hits[KeyFor(call)].keys, call.header.value.alg))
  }

  lemma LooksForARefresh(cr: Crypto, c: Cache, call: Call)
    ensures NeedsRefresh(cr, c, call) <==> FirstLook(cr, c, call).Refresh?
  {
    if Admissible(call) && KeyFor(call) in c.hits {
      OpenExactly(cr, call, Matching(c.hits[KeyFor(call)].keys, call.header.value.alg));
    }
  }

  // A validation sends a refresh exactly when the keys cached for its kid leave
  // the verdict open, the last fetch of all is two seconds ago or the clock was
  // reset since, and so is the last attempt for the kid by the floor. The
  // refresh holds the next identifier.
  lemma RefreshFetchExactly(cr: Crypto, c: Cache, call: Call)
    ensures Begin(cr, c, call).FetchForRefresh? <==>
            && NeedsRefresh(cr, c, call)
            && (c.lastGlobalFetch <= 0 || call.now < c.lastGlobalFetch - 60 || call.now >= c.lastGlobalFetch + 2)
            && var last := c.hits[KeyFor(call)].lastAttempt;
               (call.now < last - 60 || call.now >= last + c.minRefresh)
    ensures Begin(cr, c, call).FetchForRefresh? ==> Begin(cr, c, call).id == c.nextId
  {
    LooksForARefresh(cr, c, call);
  }

  // Held back by the budget, or by the floor of its kid, it answers with the
  // verdict of the cached keys and says which of the two it was.
  lemma HeldBackExactly(cr: Crypto, c: Cache, call: Call)
    requires NeedsRefresh(cr, c, call)
    ensures var o, last := Begin(cr, c, call), c.hits[KeyFor(call)].lastAttempt;
            var early := c.lastGlobalFetch > 0 && c.lastGlobalFetch - 60 <= call.now < c.lastGlobalFetch + 2;
            && (o.Done? <==> early || last - 60 <= call.now < last + c.minRefresh)
            && (o.Done? ==> o.reason == (if early then BudgetThrottled else Throttled) && !SignatureHolds(o.verdict))
  {
    LooksForARefresh(cr, c, call);
    var keys := Matching(c.hits[KeyFor(call)].keys, call.header.value.alg);
    OpenExactly(cr, call, keys);
  }

  // ---- What the grant leaves ----

  // Once sent, the entry carries the identifier and the time of the grant, and
  // the budget the time of the fetch. Keys and counter stay.
  lemma RefreshIsOnRecord(cr: Crypto, w: World, tid: nat, call: Call)
    requires tid !in w.pending && Begin(cr, w.cache, call).FetchForRefresh?
    ensures var c, key, d := w.cache, KeyFor(call), Next(cr, w, Start(tid, call)).cache;
            && key in c.hits && key in d.hits
            && d.hits[key] == Entry(c.hits[key].keys, c.hits[key].fetchedAt, call.now, c.nextId, c.hits[key].absent)
            && (forall k :: k != key ==> (k in d.hits <==> k in c.hits) && (k in d.hits ==> d.hits[k] == c.hits[k]))
            && d.nextId == c.nextId + 1
            && d.lastGlobalFetch == (if c.lastGlobalFetch > 0 && call.now < c.lastGlobalFetch - 60 then call.now
                                     else if call.now > c.lastGlobalFetch then call.now else c.lastGlobalFetch)
            && Next(cr, w, Start(tid, call)).pending[tid].Refreshing?
            && Next(cr, w, Start(tid, call)).pending[tid].id == c.nextId
  {
    var c := w.cache;
    var reserve, fetched := Reserve(call.header.value.kid, call.now, call.uri), Fetched(call.now);
    LooksForARefresh(cr, c, call);
    assert BeginOps(call, Begin(cr, c, call)) == [reserve] + [fetched];
    RunSnoc(c, [reserve], fetched);
    RunOne(c, reserve);
  }
}
