/** A cold miss establishes its kid: whichever way the published kids are visited,
    a usable kid ends up cached and not recorded as missing, if they all fit. */
module ColdMiss {
  import opened Wrappers
  import opened Jwks
  import opened Lru
  import opened JwksModel
  import opened JwksTrace
  import opened Signatures
  import opened Candidates
  import opened ValidatorModel

  // The document has a usable signing key for the kid.
  predicate Stored(cr: Crypto, keys: seq<Jwk>, kid: string) {
    Screen(cr, Filed(keys, kid)) != []
  }

  function StoredKids(cr: Crypto, keys: seq<Jwk>): set<string> {
    set k | k in keys && Stored(cr, keys, k.kid) :: k.kid
  }

  function StoredAmong(cr: Crypto, keys: seq<Jwk>, order: seq<string>): set<string> {
    set kid | kid in order && Stored(cr, keys, kid)
  }

  lemma {:induction false} OpsPerStoredKid(cr: Crypto, call: Call, keys: seq<Jwk>, order: seq<string>)
    requires call.header.Some? && NoDup(order)
    ensures |ColdPassiveOps(cr, call, keys, order)| == |StoredAmong(cr, keys, order)|
  {
    if order != [] {
      var front, kid := order[..|order| - 1], order[|order| - 1];
      DropLastKeepsNoDup(order, front, kid);
      assert order == front + [kid];
      OpsPerStoredKid(cr, call, keys, front);
      assert kid !in StoredAmong(cr, keys, front);
      assert StoredAmong(cr, keys, order)
          == if Stored(cr, keys, kid) then StoredAmong(cr, keys, front) + {kid} else StoredAmong(cr, keys, front);
    } else {
      assert StoredAmong(cr, keys, order) == {};
    }
  }

  lemma AllStoredAreVisited(cr: Crypto, keys: seq<Jwk>, order: seq<string>)
    requires Enumerates(order, keys)
    ensures StoredAmong(cr, keys, order) == StoredKids(cr, keys)
  {
    forall kid | kid in order && Stored(cr, keys, kid) ensures kid in StoredKids(cr, keys) {
      var k := Filed(keys, kid)[0];
      assert k in Filed(keys, kid) && k in keys && k.kid == kid;
    }
    forall kid | kid in StoredKids(cr, keys) ensures kid in order {
      assert Filed(keys, kid) != [];
    }
  }

  // ---- Positions in the LRU list ----

  predicate At(c: Cache, k: string, p: nat) {
    p < |c.hitLru| && c.hitLru[p] == k
  }

  lemma PassiveInsert(c: Cache, kid: string, keys: seq<Jwk>, now: int, uri: string)
    requires Valid(c) && keys != [] && CacheKey(uri, kid) !in c.hits
    ensures var k, d := CacheKey(uri, kid), OnPassiveFetchSuccess(c, kid, keys, now, uri);
            && Valid(d) && d.maxEntries == c.maxEntries
            && d.hitLru == Kept([k] + c.hitLru, c.maxEntries)
            && At(d, k, 0) && k in d.hits && d.hits[k].keys == Trim(keys)
            && d.misses == c.misses - {k}
            && forall other :: other != k && other in d.hits ==> other in c.hits && d.hits[other] == c.hits[other]
  {
    var k := CacheKey(uri, kid);
    PassiveKeepsValid(c, kid, keys, now, uri);
    var e := DropMiss(RecordFetchSuccess(c, now, uri), k);
    InsertOutcome(e, k, Entry(Trim(keys), now, now, 0, 0), k);
  }

  lemma PassiveMerge(c: Cache, kid: string, keys: seq<Jwk>, now: int, uri: string)
    requires Valid(c) && CacheKey(uri, kid) in c.hits
    ensures var k, d := CacheKey(uri, kid), OnPassiveFetchSuccess(c, kid, keys, now, uri);
            && Valid(d) && d.maxEntries == c.maxEntries && d.hitLru == c.hitLru && d.hits.Keys == c.hits.Keys
            && d.misses == c.misses
            && forall other :: other != k && other in c.hits ==> d.hits[other] == c.hits[other]
  {
    PassiveKeepsValid(c, kid, keys, now, uri);
  }

  // The kid at position p is cached with these keys and not recorded as missing.
  ghost predicate Settled(c: Cache, k: string, p: nat, keys: seq<Jwk>) {
    At(c, k, p) && k in c.hits && c.hits[k].keys == keys && k !in c.misses
  }

  // Another published kid moves a settled one back by at most one place.
  lemma OtherKidMovesByOne(c: Cache, kid: string, keys: seq<Jwk>, now: int, uri: string, k: string, p: nat, held: seq<Jwk>)
    requires Valid(c) && keys != [] && CacheKey(uri, kid) != k
    requires Settled(c, k, p, held) && p + 1 < c.maxEntries
    ensures var d := OnPassiveFetchSuccess(c, kid, keys, now, uri);
            Valid(d) && d.maxEntries == c.maxEntries && (Settled(d, k, p, held) || Settled(d, k, p + 1, held))
  {
    var o := CacheKey(uri, kid);
    if o in c.hits {
      PassiveMerge(c, kid, keys, now, uri);
    } else {
      PassiveInsert(c, kid, keys, now, uri);
      MovedByOne(c, OnPassiveFetchSuccess(c, kid, keys, now, uri), o, k, p, held);
    }
  }

  lemma MovedByOne(c: Cache, d: Cache, o: string, k: string, p: nat, held: seq<Jwk>)
    requires Settled(c, k, p, held) && p + 1 < c.maxEntries && o != k
    requires Valid(d) && d.hitLru == Kept([o] + c.hitLru, c.maxEntries) && d.misses == c.misses - {o}
    requires k in d.hits ==> d.hits[k] == c.hits[k]
    ensures Settled(d, k, p + 1, held)
  {
    assert ([o] + c.hitLru)[p + 1] == k;
    assert d.hitLru[p + 1] == k && d.hitLru[p + 1] in d.hitLru;
  }

  lemma VisitStep(cr: Crypto, c: Cache, call: Call, keys: seq<Jwk>, front: seq<string>, kid: string)
    requires call.header.Some?
    ensures var d, stored := Run(c, ColdPassiveOps(cr, call, keys, front)), ColdKeys(cr, call, keys, kid);
            Run(c, ColdPassiveOps(cr, call, keys, front + [kid]))
            == if Stored(cr, keys, kid) then OnPassiveFetchSuccess(d, kid, stored, call.now, call.uri) else d
  {
    assert (front + [kid])[..|front|] == front;
    RunSnoc(c, ColdPassiveOps(cr, call, keys, front), Passive(kid, ColdKeys(cr, call, keys, kid), call.now, call.uri));
  }

  // ---- Any order of visits ----

  ghost predicate Reached(cr: Crypto, c: Cache, call: Call, keys: seq<Jwk>, order: seq<string>)
    requires call.header.Some?
  {
    var kid := call.header.value.kid;
    var k := CacheKey(call.uri, kid);
    var ops := ColdPassiveOps(cr, call, keys, order);
    var d := Run(c, ops);
    && Valid(d) && d.maxEntries == c.maxEntries
    && if kid in order && Stored(cr, keys, kid)
       then exists p :: 0 <= p < |ops| && Settled(d, k, p, Trim(ColdKeys(cr, call, keys, kid)))
       else k !in d.hits
  }

  lemma {:induction false} VisitsSettleTheKid(cr: Crypto, c: Cache, call: Call, keys: seq<Jwk>, order: seq<string>)
    requires Valid(c) && call.header.Some? && NoDup(order)
    requires CacheKey(call.uri, call.header.value.kid) !in c.hits
    requires |ColdPassiveOps(cr, call, keys, order)| <= c.maxEntries
    ensures Reached(cr, c, call, keys, order)
  {
    if order != [] {
      var front, kid := order[..|order| - 1], order[|order| - 1];
      DropLastKeepsNoDup(order, front, kid);
      assert order == front + [kid];
      VisitsSettleTheKid(cr, c, call, keys, front);
      if Stored(cr, keys, kid) {
        LastVisit(cr, c, call, keys, front, kid);
      } else {
        NoVisit(cr, c, call, keys, front, kid);
      }
    }
  }

  lemma NoVisit(cr: Crypto, c: Cache, call: Call, keys: seq<Jwk>, front: seq<string>, kid: string)
    requires call.header.Some? && !Stored(cr, keys, kid) && Reached(cr, c, call, keys, front)
    ensures Reached(cr, c, call, keys, front + [kid])
  {
    assert (front + [kid])[..|front|] == front;
    assert ColdPassiveOps(cr, call, keys, front + [kid]) == ColdPassiveOps(cr, call, keys, front);
  }

  lemma KidsDifferKeysDiffer(uri: string, a: string, b: string)
    ensures CacheKey(uri, a) == CacheKey(uri, b) <==> a == b
  {
    if uri != "" && CacheKey(uri, a) == CacheKey(uri, b) {
      assert CacheKey(uri, a)[|uri| + 1..] == a && CacheKey(uri, b)[|uri| + 1..] == b;
    }
  }

  lemma PrioritizedNonEmpty(cr: Crypto, call: Call, keys: seq<Jwk>, kid: string)
    requires call.header.Some? && Stored(cr, keys, kid)
    ensures ColdKeys(cr, call, keys, kid) != []
  {
  }

  lemma LastVisit(cr: Crypto, c: Cache, call: Call, keys: seq<Jwk>, front: seq<string>, kid: string)
    requires Valid(c) && call.header.Some? && kid !in front && Stored(cr, keys, kid)
    requires Reached(cr, c, call, keys, front)
    requires |ColdPassiveOps(cr, call, keys, front)| < c.maxEntries
    ensures Reached(cr, c, call, keys, front + [kid])
  {
    var target := call.header.value.kid;
    var k := CacheKey(call.uri, target);
    var ops, order := ColdPassiveOps(cr, call, keys, front), front + [kid];
    var stored := ColdKeys(cr, call, keys, kid);
    var op := Passive(kid, stored, call.now, call.uri);
    assert order[..|order| - 1] == front;
    assert ColdPassiveOps(cr, call, keys, order) == ops + [op];
    RunSnoc(c, ops, op);
    PrioritizedNonEmpty(cr, call, keys, kid);
    KidsDifferKeysDiffer(call.uri, kid, target);
    var d := Run(c, ops);
    if kid == target {
      PassiveInsert(d, kid, stored, call.now, call.uri);
      assert Settled(Run(c, ops + [op]), k, 0, Trim(stored));
    } else if target in front && Stored(cr, keys, target) {
      var held := Trim(ColdKeys(cr, call, keys, target));
      var p :| 0 <= p < |ops| && Settled(d, k, p, held);
      OtherKidMovesByOne(d, kid, stored, call.now, call.uri, k, p, held);
    } else if CacheKey(call.uri, kid) in d.hits {
      PassiveMerge(d, kid, stored, call.now, call.uri);
    } else {
      PassiveInsert(d, kid, stored, call.now, call.uri);
    }
  }

  lemma IngestRuns(cr: Crypto, c: Cache, call: Call, keys: seq<Jwk>, order: seq<string>)
    requires call.header.Some?
    ensures Run(c, ColdIngestOps(cr, call, keys, order))
         == Run(Apply(c, FetchedOk(call.now, call.uri)), ColdPassiveOps(cr, call, keys, order))
  {
    var first := FetchedOk(call.now, call.uri);
    RunConcat(c, [first], ColdPassiveOps(cr, call, keys, order));
    RunOne(c, first);
  }

  // The miss is recorded exactly if the kid is not live once all kids are visited.
  lemma ColdEnds(cr: Crypto, c: Cache, call: Call, keys: seq<Jwk>, order: seq<string>, d: Cache)
    requires call.header.Some? && keys != []
    requires d == Run(Apply(c, FetchedOk(call.now, call.uri)), ColdPassiveOps(cr, call, keys, order))
    ensures var kid := call.header.value.kid;
            Run(c, ColdOps(cr, c, call, Document(keys), order))
            == if Live(d, call.uri, kid) != [] then d else Apply(d, RecordMiss(kid, call.now, call.uri))
  {
    IngestRuns(cr, c, call, keys, order);
    RunSnoc(c, ColdIngestOps(cr, call, keys, order), RecordMiss(call.header.value.kid, call.now, call.uri));
  }

  lemma StoredMeansFiled(cr: Crypto, keys: seq<Jwk>, kid: string)
    requires Stored(cr, keys, kid)
    ensures Filed(keys, kid) != [] && keys != []
  {
  }

  // The kid is cached once all kids of the document are visited.
  lemma VisitsEstablish(cr: Crypto, start: Cache, call: Call, keys: seq<Jwk>, order: seq<string>, d: Cache)
    requires Valid(start) && call.header.Some? && Enumerates(order, keys)
    requires CacheKey(call.uri, call.header.value.kid) !in start.hits
    requires Stored(cr, keys, call.header.value.kid) && |StoredKids(cr, keys)| <= start.maxEntries
    requires d == Run(start, ColdPassiveOps(cr, call, keys, order))
    ensures var kid, k := call.header.value.kid, CacheKey(call.uri, call.header.value.kid);
            k in d.hits && d.hits[k].keys == Trim(ColdKeys(cr, call, keys, kid)) && k !in d.misses
  {
    OpsPerStoredKid(cr, call, keys, order);
    AllStoredAreVisited(cr, keys, order);
    VisitsSettleTheKid(cr, start, call, keys, order);
    StoredMeansFiled(cr, keys, call.header.value.kid);
  }

  // On a cold miss, a kid with a usable signing key in a document of at most
  // as many usable kids as the cache holds is cached afterwards, with the
  // document's keys, and is not recorded as missing, for every order of visits.
  lemma ColdMissEstablishesTheKid(cr: Crypto, c: Cache, call: Call, keys: seq<Jwk>, order: seq<string>)
    requires Valid(c) && call.header.Some? && Enumerates(order, keys)
    requires CacheKey(call.uri, call.header.value.kid) !in c.hits
    requires Stored(cr, keys, call.header.value.kid)
    requires |StoredKids(cr, keys)| <= c.maxEntries
    ensures var kid := call.header.value.kid;
            var d := Run(c, ColdOps(cr, c, call, Document(keys), order));
            && Lookup(d, kid, call.now, call.uri) == Hit(Trim(ColdKeys(cr, call, keys, kid)))
            && CacheKey(call.uri, kid) !in d.misses
  {
    var kid := call.header.value.kid;
    var start := Apply(c, FetchedOk(call.now, call.uri));
    StartIsLike(c, call, start);
    var d := Run(start, ColdPassiveOps(cr, call, keys, order));
    VisitsEstablish(cr, start, call, keys, order, d);
    EstablishedIsKept(cr, c, call, keys, order, d);
    HeldMeansHit(d, kid, call.now, call.uri);
  }

  lemma EstablishedIsKept(cr: Crypto, c: Cache, call: Call, keys: seq<Jwk>, order: seq<string>, d: Cache)
    requires call.header.Some? && Stored(cr, keys, call.header.value.kid)
    requires d == Run(Apply(c, FetchedOk(call.now, call.uri)), ColdPassiveOps(cr, call, keys, order))
    requires var kid := call.header.value.kid;
             CacheKey(call.uri, kid) in d.hits
             && d.hits[CacheKey(call.uri, kid)].keys == Trim(ColdKeys(cr, call, keys, kid))
    ensures Run(c, ColdOps(cr, c, call, Document(keys), order)) == d
  {
    var kid := call.header.value.kid;
    StoredMeansFiled(cr, keys, kid);
    PrioritizedNonEmpty(cr, call, keys, kid);
    HeldMeansHit(d, kid, call.now, call.uri);
    ColdEnds(cr, c, call, keys, order, d);
  }

  lemma HeldMeansHit(d: Cache, kid: string, now: int, uri: string)
    requires CacheKey(uri, kid) in d.hits
    ensures Lookup(d, kid, now, uri) == Hit(d.hits[CacheKey(uri, kid)].keys)
    ensures Live(d, uri, kid) == d.hits[CacheKey(uri, kid)].keys
  {
  }

  // ---- The two conditions are needed ----

  // Noting the document's arrival changes neither table nor list.
  lemma StartIsLike(c: Cache, call: Call, start: Cache)
    requires start == Apply(c, FetchedOk(call.now, call.uri))
    ensures start.hits == c.hits && start.hitLru == c.hitLru && start.maxEntries == c.maxEntries
    ensures Valid(c) ==> Valid(start)
  {
  }

  ghost predicate Uncached(c: Cache, call: Call, order: seq<string>) {
    forall kid :: kid in order ==> CacheKey(call.uri, kid) !in c.hits
  }

  // The first kid visited, once `n` kids have been stored.
  predicate PushedBack(c: Cache, k: string, n: nat) {
    if n <= c.maxEntries then n > 0 && At(c, k, n - 1) && k in c.hits else k !in c.hits
  }

  lemma AnotherInsert(c: Cache, kid: string, keys: seq<Jwk>, now: int, uri: string, k: string, n: nat)
    requires Valid(c) && keys != [] && CacheKey(uri, kid) !in c.hits && CacheKey(uri, kid) != k
    requires PushedBack(c, k, n)
    ensures PushedBack(OnPassiveFetchSuccess(c, kid, keys, now, uri), k, n + 1)
  {
    var o := CacheKey(uri, kid);
    PassiveInsert(c, kid, keys, now, uri);
    var d := OnPassiveFetchSuccess(c, kid, keys, now, uri);
    if n <= c.maxEntries {
      assert ([o] + c.hitLru)[n] == k;
      if n < c.maxEntries {
        assert d.hitLru[n] == k;
      } else {
        PushDropsEvictee(o, c.hitLru, c.maxEntries, k);
      }
    }
  }

  // Visited first, with no published kid cached yet, the kid is pushed back one
  // place by every kid after it.
  lemma {:induction false} LaterKidsPushBack(cr: Crypto, c: Cache, call: Call, keys: seq<Jwk>,
                                             order: seq<string>, all: seq<string>)
    requires Valid(c) && call.header.Some? && NoDup(all) && order <= all && Uncached(c, call, all)
    requires order != [] && order[0] == call.header.value.kid && Stored(cr, keys, order[0])
    ensures var ops := ColdPassiveOps(cr, call, keys, order);
            var d := Run(c, ops);
            && Valid(d) && d.maxEntries == c.maxEntries
            && PushedBack(d, CacheKey(call.uri, order[0]), |ops|)
            && forall i :: |order| <= i < |all| ==> CacheKey(call.uri, all[i]) !in d.hits
  {
    var front, kid := order[..|order| - 1], order[|order| - 1];
    var ops, stored := ColdPassiveOps(cr, call, keys, front), ColdKeys(cr, call, keys, kid);
    var d := Run(c, ops);
    forall i | |order| <= i < |all|
      ensures CacheKey(call.uri, all[i]) != CacheKey(call.uri, kid) && CacheKey(call.uri, all[i]) !in c.hits
    {
      KidsDifferKeysDiffer(call.uri, all[i], kid);
      assert all[|order| - 1] == kid && all[i] in all;
    }
    if front == [] {
      assert kid in all;
    } else {
      LaterKidsPushBack(cr, c, call, keys, front, all);
      assert all[|front|] == kid && all[0] == order[0];
      KidsDifferKeysDiffer(call.uri, kid, order[0]);
    }
    if Stored(cr, keys, kid) {
      PrioritizedNonEmpty(cr, call, keys, kid);
      RunSnoc(c, ops, Passive(kid, stored, call.now, call.uri));
      PassiveInsert(d, kid, stored, call.now, call.uri);
      if front != [] {
        AnotherInsert(d, kid, stored, call.now, call.uri, CacheKey(call.uri, order[0]), |ops|);
      }
    }
  }

  predicate LostAndMissing(c: Cache, call: Call, kid: string) {
    CacheKey(call.uri, kid) !in c.hits && CacheKey(call.uri, kid) in c.misses
  }

  lemma NowMissing(c: Cache, call: Call, kid: string)
    requires Valid(c) && CacheKey(call.uri, kid) !in c.hits
    ensures LostAndMissing(Apply(c, RecordMiss(kid, call.now, call.uri)), call, kid)
  {
    var k := CacheKey(call.uri, kid);
    assert Kept([k] + Without(c.missLru, k), c.maxEntries)[0] == k;
  }

  lemma LostUnlessLive(cr: Crypto, c: Cache, call: Call, keys: seq<Jwk>, order: seq<string>, d: Cache)
    requires call.header.Some? && keys != [] && Valid(d)
    requires d == Run(Apply(c, FetchedOk(call.now, call.uri)), ColdPassiveOps(cr, call, keys, order))
    requires CacheKey(call.uri, call.header.value.kid) !in d.hits
    ensures LostAndMissing(Run(c, ColdOps(cr, c, call, Document(keys), order)), call, call.header.value.kid)
  {
    ColdEnds(cr, c, call, keys, order, d);
    NowMissing(d, call, call.header.value.kid);
  }

  lemma NoRoomLosesTheKid(cr: Crypto, c: Cache, start: Cache, call: Call, keys: seq<Jwk>, order: seq<string>)
    requires start == Apply(c, FetchedOk(call.now, call.uri))
    requires Valid(start) && call.header.Some? && NoDup(order) && Uncached(start, call, order)
    requires order != [] && order[0] == call.header.value.kid && Stored(cr, keys, order[0])
    requires |ColdPassiveOps(cr, call, keys, order)| > start.maxEntries
    ensures LostAndMissing(Run(c, ColdOps(cr, c, call, Document(keys), order)), call, order[0])
  {
    StoredMeansFiled(cr, keys, order[0]);
    LaterKidsPushBack(cr, start, call, keys, order, order);
    LostUnlessLive(cr, c, call, keys, order, Run(start, ColdPassiveOps(cr, call, keys, order)));
  }

  // With no published kid cached yet and the token's kid visited first, the kid
  // is a hit afterwards exactly when the usable kids fit into the cache, and is
  // recorded as missing otherwise.
  lemma ColdMissNeedsRoom(cr: Crypto, c: Cache, call: Call, keys: seq<Jwk>, order: seq<string>)
    requires Valid(c) && call.header.Some? && Enumerates(order, keys) && Uncached(c, call, order)
    requires order != [] && order[0] == call.header.value.kid && Stored(cr, keys, order[0])
    ensures var d := Run(c, ColdOps(cr, c, call, Document(keys), order));
            && (Lookup(d, order[0], call.now, call.uri).Hit? <==> |StoredKids(cr, keys)| <= c.maxEntries)
            && (CacheKey(call.uri, order[0]) in d.misses <==> |StoredKids(cr, keys)| > c.maxEntries)
  {
    assert order[0] in order;
    if |StoredKids(cr, keys)| <= c.maxEntries {
      ColdMissEstablishesTheKid(cr, c, call, keys, order);
    } else {
      OpsPerStoredKid(cr, call, keys, order);
      AllStoredAreVisited(cr, keys, order);
      var start := Apply(c, FetchedOk(call.now, call.uri));
      StartIsLike(c, call, start);
      NoRoomLosesTheKid(cr, c, start, call, keys, order);
    }
  }

  // A kid that another thread cached during the fetch and that has since
  // reached the back of a full list is lost to a sibling visited after it, and
  // is then recorded as missing although the document publishes it.
  lemma AnAlreadyCachedKidMayBeLost(cr: Crypto, c: Cache, call: Call, keys: seq<Jwk>, order: seq<string>)
    requires Valid(c) && call.header.Some? && Enumerates(order, keys)
    requires |order| == 2 && order[0] == call.header.value.kid
    requires Stored(cr, keys, order[0]) && Stored(cr, keys, order[1])
    requires CacheKey(call.uri, order[0]) in c.hits && Evictee(c.hitLru, c.maxEntries, CacheKey(call.uri, order[0]))
    requires CacheKey(call.uri, order[1]) !in c.hits
    ensures LostAndMissing(Run(c, ColdOps(cr, c, call, Document(keys), order)), call, order[0])
  {
    var start := Apply(c, FetchedOk(call.now, call.uri));
    StartIsLike(c, call, start);
    SiblingVisitedAfter(cr, c, start, call, keys, order);
  }

  lemma SiblingVisitedAfter(cr: Crypto, c: Cache, start: Cache, call: Call, keys: seq<Jwk>, order: seq<string>)
    requires start == Apply(c, FetchedOk(call.now, call.uri))
    requires Valid(start) && call.header.Some?
    requires |order| == 2 && order[0] == call.header.value.kid && order[1] != order[0]
    requires Stored(cr, keys, order[0]) && Stored(cr, keys, order[1])
    requires CacheKey(call.uri, order[0]) in start.hits && CacheKey(call.uri, order[1]) !in start.hits
    requires Evictee(start.hitLru, start.maxEntries, CacheKey(call.uri, order[0]))
    ensures LostAndMissing(Run(c, ColdOps(cr, c, call, Document(keys), order)), call, order[0])
  {
    var d := OnPassiveFetchSuccess(start, order[0], ColdKeys(cr, call, keys, order[0]), call.now, call.uri);
    var e := OnPassiveFetchSuccess(d, order[1], ColdKeys(cr, call, keys, order[1]), call.now, call.uri);
    FirstOfTwo(cr, start, call, keys, order, d);
    SecondOfTwo(cr, start, call, keys, order[..1], order[1], d, e);
    assert order[..1] + [order[1]] == order;
    SiblingPushesOut(cr, start, call, keys, order[1], d, e);
    StoredMeansFiled(cr, keys, order[0]);
    LostUnlessLive(cr, c, call, keys, order, e);
  }

  lemma SecondOfTwo(cr: Crypto, c: Cache, call: Call, keys: seq<Jwk>, front: seq<string>, kid: string, d: Cache, e: Cache)
    requires call.header.Some? && Stored(cr, keys, kid) && Run(c, ColdPassiveOps(cr, call, keys, front)) == d
    requires e == OnPassiveFetchSuccess(d, kid, ColdKeys(cr, call, keys, kid), call.now, call.uri)
    ensures Run(c, ColdPassiveOps(cr, call, keys, front + [kid])) == e
  {
    VisitStep(cr, c, call, keys, front, kid);
  }

  lemma FirstOfTwo(cr: Crypto, c: Cache, call: Call, keys: seq<Jwk>, order: seq<string>, d: Cache)
    requires call.header.Some? && |order| == 2 && Stored(cr, keys, order[0])
    requires d == OnPassiveFetchSuccess(c, order[0], ColdKeys(cr, call, keys, order[0]), call.now, call.uri)
    ensures Run(c, ColdPassiveOps(cr, call, keys, order[..1])) == d
  {
    VisitStep(cr, c, call, keys, order[..0], order[0]);
    assert order[..0] + [order[0]] == order[..1];
  }

  lemma SiblingPushesOut(cr: Crypto, c: Cache, call: Call, keys: seq<Jwk>, sibling: string, d: Cache, e: Cache)
    requires Valid(c) && call.header.Some? && sibling != call.header.value.kid
    requires Stored(cr, keys, sibling)
    requires CacheKey(call.uri, call.header.value.kid) in c.hits && CacheKey(call.uri, sibling) !in c.hits
    requires Evictee(c.hitLru, c.maxEntries, CacheKey(call.uri, call.header.value.kid))
    requires var kid := call.header.value.kid;
             d == OnPassiveFetchSuccess(c, kid, ColdKeys(cr, call, keys, kid), call.now, call.uri)
    requires e == OnPassiveFetchSuccess(d, sibling, ColdKeys(cr, call, keys, sibling), call.now, call.uri)
    ensures Valid(e) && CacheKey(call.uri, call.header.value.kid) !in e.hits
  {
    var kid := call.header.value.kid;
    KidsDifferKeysDiffer(call.uri, kid, sibling);
    PrioritizedNonEmpty(cr, call, keys, sibling);
    PassiveMerge(c, kid, ColdKeys(cr, call, keys, kid), call.now, call.uri);
    PassiveInsert(d, sibling, ColdKeys(cr, call, keys, sibling), call.now, call.uri);
    PushDropsEvictee(CacheKey(call.uri, sibling), d.hitLru, d.maxEntries, CacheKey(call.uri, kid));
  }
}
