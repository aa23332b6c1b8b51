/** When a refresh accepts its token: whichever way the sibling kids of its
    document are visited, and when some order makes it refuse. */
module RefreshOrders {
  import opened Wrappers
  import opened Jwks
  import opened Lru
  import opened Seqs
  import opened JwksModel
  import opened JwksTrace
  import opened Signatures
  import opened Candidates
  import opened ValidatorModel
  import opened Verdicts
  import opened Protocol
  import opened ColdMiss
  import opened ColdOrders

  // ---- The siblings of a refresh are visited like those of a cold miss ----

  lemma {:induction false} WithoutLast(front: seq<string>, last: string, k: string)
    ensures Without(front + [last], k) == if last == k then Without(front, k) else Without(front, k) + [last]
  {
    if front == [] {
      assert [last][1..] == [];
    } else {
      assert (front + [last])[1..] == front[1..] + [last];
      WithoutLast(front[1..], last, k);
    }
  }

  lemma {:induction false} SiblingsAreVisits(cr: Crypto, call: Call, keys: seq<Jwk>, order: seq<string>)
    requires call.header.Some?
    ensures var kid := call.header.value.kid;
            PassiveOps(cr, call, keys, order, kid) == ColdPassiveOps(cr, call, keys, Without(order, kid))
  {
    if order != [] {
      var front, last, kid := order[..|order| - 1], order[|order| - 1], call.header.value.kid;
      assert order == front + [last];
      SiblingsAreVisits(cr, call, keys, front);
      WithoutLast(front, last, kid);
      if last != kid {
        assert (Without(front, kid) + [last])[..|Without(front, kid)|] == Without(front, kid);
      }
    }
  }

  lemma {:induction false} WithoutAppended(a: seq<string>, b: seq<string>, k: string)
    requires k !in a
    ensures Without(a + b, k) == a + Without(b, k)
  {
    if a == [] {
      assert a + b == b;
    } else {
      assert (a + b)[1..] == a[1..] + b && a == [a[0]] + a[1..];
      WithoutAppended(a[1..], b, k);
    }
  }

  // ---- The cache once the commit has taken and absences are counted ----

  // The kid stands first, with the committed keys.
  ghost predicate CommittedFirst(c: Cache, d: Cache, key: string, keys: seq<Jwk>) {
    Valid(d) && d.maxEntries == c.maxEntries && CachedAt(d, key, 0) && d.hits[key].keys == Trim(keys)
  }

  lemma CommitPutsFirst(c: Cache, d: Cache, kid: string, id: nat, keys: seq<Jwk>, now: int, uri: string)
    requires Valid(c) && CommitSucceeds(c, kid, id, keys, now, uri) && d == Apply(c, Commit(kid, id, keys, now, uri))
    ensures CommittedFirst(c, d, CacheKey(uri, kid), keys)
  {
    StepKeepsValid(c, Commit(kid, id, keys, now, uri));
  }

  lemma TargetIsNotSwept(c: Cache, d: Cache, e: Cache, present: set<string>, now: int, kid: string, uri: string,
                         keys: seq<Jwk>)
    requires Valid(d) && kid != "" && CommittedFirst(c, d, CacheKey(uri, kid), keys)
    requires e == Apply(d, ReconcileOp(present, now, uri, kid))
    ensures CommittedFirst(c, e, CacheKey(uri, kid), keys)
  {
    var key := CacheKey(uri, kid);
    StepKeepsValid(d, ReconcileOp(present, now, uri, kid));
    KidOfItsKey(uri, kid);
    assert key in e.hits && e.hits[key] == d.hits[key];
    FirstStays(d.hitLru, e.hits.Keys);
  }

  lemma KidOfItsKey(uri: string, kid: string)
    ensures InScope(uri, CacheKey(uri, kid)) ==> KidOf(uri, CacheKey(uri, kid)) == kid
  {
    if uri != "" {
      assert CacheKey(uri, kid)[|uri| + 1..] == kid;
    }
  }

  lemma FirstStays(list: seq<string>, keep: set<string>)
    requires list != [] && list[0] in keep
    ensures Only(list, keep) != [] && Only(list, keep)[0] == list[0]
  {
  }

  // The two states between the arrival of the document and its siblings.
  lemma RefreshRuns(cr: Crypto, c: Cache, call: Call, id: nat, keys: seq<Jwk>, order: seq<string>, d: Cache, e: Cache)
    requires Named(call) && keys != [] && CommitTakes(cr, c, call, id, keys)
    requires Screen(cr, Filed(keys, call.header.value.kid)) != []
    requires var kid := call.header.value.kid;
             && d == Apply(Apply(c, FetchedOk(call.now, call.uri)),
                           Commit(kid, id, PreparedKeys(cr, c, call, keys), call.now, call.uri))
             && e == Apply(d, ReconcileOp(PresentKids(keys), call.now, call.uri, kid))
    ensures AfterRefresh(cr, c, call, id, Document(keys), order)
         == VisitAll(cr, e, call, keys, Without(order, call.header.value.kid))
  {
    var kid := call.header.value.kid;
    var first, sweep := FetchedOk(call.now, call.uri), ReconcileOp(PresentKids(keys), call.now, call.uri, kid);
    var target, rest := TargetOps(cr, c, call, id, keys), PassiveOps(cr, call, keys, order, kid);
    StoredMeansFiled(cr, keys, kid);
    assert target == [Commit(kid, id, PreparedKeys(cr, c, call, keys), call.now, call.uri)];
    ThreeThenMore(c, first, target[0], sweep, rest);
    assert RefreshOps(cr, c, call, id, Document(keys), order) == [first] + [target[0]] + [sweep] + rest;
    SiblingsAreVisits(cr, call, keys, order);
  }

  lemma ThreeThenMore(c: Cache, x: Op, y: Op, z: Op, rest: seq<Op>)
    ensures Run(c, [x] + [y] + [z] + rest) == Run(Apply(Apply(Apply(c, x), y), z), rest)
  {
    RunConcat(c, [x] + [y] + [z], rest);
    RunSnoc(c, [x] + [y], z);
    RunSnoc(c, [x], y);
    RunOne(c, x);
  }

  // ---- Visiting the siblings ----

  lemma {:induction false} SiblingsLeaveTheEntry(cr: Crypto, c: Cache, call: Call, keys: seq<Jwk>, order: seq<string>)
    requires Valid(c) && call.header.Some? && call.header.value.kid !in order
    ensures var d, key := VisitAll(cr, c, call, keys, order), TargetKey(call);
            Valid(d) && (key in d.hits ==> key in c.hits && d.hits[key] == c.hits[key])
  {
    if order != [] {
      var front, kid := order[..|order| - 1], order[|order| - 1];
      assert order == front + [kid];
      SiblingsLeaveTheEntry(cr, c, call, keys, front);
      OneMoreVisit(cr, c, call, keys, front, kid);
      SiblingLeavesTheEntry(cr, VisitAll(cr, c, call, keys, front), call, keys, kid);
    }
  }

  lemma SiblingLeavesTheEntry(cr: Crypto, c: Cache, call: Call, keys: seq<Jwk>, kid: string)
    requires Valid(c) && call.header.Some? && kid != call.header.value.kid
    ensures var d, key := VisitOne(cr, c, call, keys, kid), TargetKey(call);
            Valid(d) && (key in d.hits ==> key in c.hits && d.hits[key] == c.hits[key])
  {
    if Stored(cr, keys, kid) {
      var op := Passive(kid, ColdKeys(cr, call, keys, kid), call.now, call.uri);
      KidsDifferKeysDiffer(call.uri, kid, call.header.value.kid);
      StepKeepsValid(c, op);
      IngestElsewhere(c, op, TargetKey(call));
    }
  }

  lemma PushersFromTheFront(cr: Crypto, c: Cache, call: Call, keys: seq<Jwk>)
    requires call.header.Some? && Stored(cr, keys, call.header.value.kid)
    ensures |Pushers(cr, c, call, keys, {}, 0)| == |StoredKids(cr, keys)| - 1
  {
    var kid := call.header.value.kid;
    StoredIsListed(cr, keys, kid);
    DroppingNeverAdds(StoredKids(cr, keys), kid);
    assert Pushers(cr, c, call, keys, {}, 0) == StoredKids(cr, keys) - {kid};
  }

  // ---- The verdict ----

  ghost predicate Accepts(cr: Crypto, c: Cache, call: Call, id: nat, cached: Verdict, keys: seq<Jwk>, order: seq<string>)
    requires call.header.Some?
  {
    SignatureHolds(RefreshVerdict(cr, c, call, id, cached, Document(keys), order))
  }

  // With two candidates the verdict is reached before the siblings are stored.
  lemma TwoCandidatesSuffice(cr: Crypto, c: Cache, call: Call, id: nat, cached: Verdict, keys: seq<Jwk>, order: seq<string>)
    requires Named(call) && keys != [] && CommitTakes(cr, c, call, id, keys)
    requires var usable := Screen(cr, Filed(keys, call.header.value.kid));
             |usable| >= 2 && SomeVerifies(cr, call, usable)
    ensures Accepts(cr, c, call, id, cached, keys, order)
  {
    var alg, usable := call.header.value.alg, Screen(cr, Filed(keys, call.header.value.kid));
    var i := FirstVerifying(cr, call, alg, usable);
    if i == |usable| {
      NoKeyVerifies(cr, call, alg, usable);
    }
  }

  // With one, the token is verified again, against the cache as it is then.
  lemma OneCandidateIsReverified(cr: Crypto, c: Cache, call: Call, id: nat, cached: Verdict, keys: seq<Jwk>,
                                 order: seq<string>, d: Cache)
    requires Named(call) && keys != [] && d == AfterRefresh(cr, c, call, id, Document(keys), order)
    requires |Screen(cr, Filed(keys, call.header.value.kid))| == 1
    ensures Accepts(cr, c, call, id, cached, keys, order) <==>
            SomeVerifies(cr, call, Live(d, call.uri, call.header.value.kid))
  {
    ReverifiedVerdict(cr, d, call);
  }

  lemma CommittedKeyVerifies(cr: Crypto, c: Cache, call: Call, keys: seq<Jwk>)
    requires call.header.Some? && SomeVerifies(cr, call, Screen(cr, Filed(keys, call.header.value.kid)))
    ensures SomeVerifies(cr, call, Trim(PreparedKeys(cr, c, call, keys)))
  {
    RetentionUnderCap(cr, call, call.header.value.alg, Screen(cr, Filed(keys, call.header.value.kid)),
                      Live(c, call.uri, call.header.value.kid));
  }

  lemma AcceptsWithRoom(cr: Crypto, c: Cache, e: Cache, call: Call, id: nat, cached: Verdict, keys: seq<Jwk>,
                        order: seq<string>)
    requires Named(call) && keys != [] && Enumerates(order, keys) && Stored(cr, keys, call.header.value.kid)
    requires CommittedFirst(c, e, TargetKey(call), PreparedKeys(cr, c, call, keys))
    requires AfterRefresh(cr, c, call, id, Document(keys), order)
          == VisitAll(cr, e, call, keys, Without(order, call.header.value.kid))
    requires |StoredKids(cr, keys)| <= c.maxEntries && |Screen(cr, Filed(keys, call.header.value.kid))| == 1
    requires SomeVerifies(cr, call, Trim(PreparedKeys(cr, c, call, keys)))
    ensures Accepts(cr, c, call, id, cached, keys, order)
  {
    var siblings := Without(order, call.header.value.kid);
    PushersFromTheFront(cr, e, call, keys);
    var q := SurvivesWithRoom(cr, e, call, keys, siblings, 0);
    SiblingsLeaveTheEntry(cr, e, call, keys, siblings);
    OneCandidateIsReverified(cr, c, call, id, cached, keys, order, VisitAll(cr, e, call, keys, siblings));
  }

  lemma RefusesOnceLost(cr: Crypto, c: Cache, e: Cache, call: Call, id: nat, cached: Verdict, keys: seq<Jwk>,
                        order: seq<string>)
    requires Named(call) && keys != [] && |Screen(cr, Filed(keys, call.header.value.kid))| == 1
    requires AfterRefresh(cr, c, call, id, Document(keys), order)
          == VisitAll(cr, e, call, keys, Without(order, call.header.value.kid))
    requires TargetKey(call) !in VisitAll(cr, e, call, keys, Without(order, call.header.value.kid)).hits
    ensures !Accepts(cr, c, call, id, cached, keys, order)
  {
    OneCandidateIsReverified(cr, c, call, id, cached, keys, order,
                             VisitAll(cr, e, call, keys, Without(order, call.header.value.kid)));
  }

  // Without room, some order of the siblings pushes the kid out.
  lemma LosingSiblings(cr: Crypto, c: Cache, e: Cache, call: Call, keys: seq<Jwk>) returns (order: seq<string>)
    requires Named(call) && Stored(cr, keys, call.header.value.kid) && |StoredKids(cr, keys)| > c.maxEntries
    requires Valid(e) && e.maxEntries == c.maxEntries && CachedAt(e, TargetKey(call), 0)
    ensures Enumerates(order, keys)
    ensures TargetKey(call) !in VisitAll(cr, e, call, keys, Without(order, call.header.value.kid)).hits
  {
    var kid := call.header.value.kid;
    PushersFromTheFront(cr, e, call, keys);
    assert Members([]) == {};
    assert VisitAll(cr, e, call, keys, []) == e;
    var part := PushOut(cr, e, call, keys, [], 0);
    var more := Complete(part, keys);
    LostStaysLost(cr, e, call, keys, part, Without(more, kid));
    order := part + more;
    WithoutAppended(part, more, kid);
  }

  // Once its commit has taken and a usable published key with a fitting header
  // verifies the token, a refresh accepts in every order of visits exactly when
  // the document has two usable keys for the kid, or all its usable kids fit
  // into the cache.
  lemma RefreshAcceptsInEveryOrder(cr: Crypto, c: Cache, call: Call, id: nat, cached: Verdict, keys: seq<Jwk>)
    requires Valid(c) && Named(call) && keys != [] && CommitTakes(cr, c, call, id, keys)
    requires SomeVerifies(cr, call, Screen(cr, Filed(keys, call.header.value.kid)))
    ensures (forall order :: Enumerates(order, keys) ==> Accepts(cr, c, call, id, cached, keys, order))
       <==> |Screen(cr, Filed(keys, call.header.value.kid))| >= 2 || |StoredKids(cr, keys)| <= c.maxEntries
  {
    var kid, prepared := call.header.value.kid, PreparedKeys(cr, c, call, keys);
    if |Screen(cr, Filed(keys, kid))| >= 2 {
      forall order | Enumerates(order, keys) ensures Accepts(cr, c, call, id, cached, keys, order) {
        TwoCandidatesSuffice(cr, c, call, id, cached, keys, order);
      }
    } else {
      var start := Apply(c, FetchedOk(call.now, call.uri));
      StartIsLike(c, call, start);
      var d := Apply(start, Commit(kid, id, prepared, call.now, call.uri));
      var e := Apply(d, ReconcileOp(PresentKids(keys), call.now, call.uri, kid));
      OneCandidate(cr, c, start, d, e, call, id, cached, keys);
    }
  }

  lemma OneCandidate(cr: Crypto, c: Cache, start: Cache, d: Cache, e: Cache, call: Call, id: nat,
                     cached: Verdict, keys: seq<Jwk>)
    requires Valid(c) && Named(call) && keys != [] && CommitTakes(cr, c, call, id, keys)
    requires var usable := Screen(cr, Filed(keys, call.header.value.kid)); |usable| == 1 && SomeVerifies(cr, call, usable)
    requires Valid(start) && start.hits == c.hits && start.maxEntries == c.maxEntries
    requires var kid := call.header.value.kid;
             && start == Apply(c, FetchedOk(call.now, call.uri))
             && d == Apply(start, Commit(kid, id, PreparedKeys(cr, c, call, keys), call.now, call.uri))
             && e == Apply(d, ReconcileOp(PresentKids(keys), call.now, call.uri, kid))
    ensures (forall order :: Enumerates(order, keys) ==> Accepts(cr, c, call, id, cached, keys, order))
       <==> |StoredKids(cr, keys)| <= c.maxEntries
  {
    var kid, prepared := call.header.value.kid, PreparedKeys(cr, c, call, keys);
    CommitPutsFirst(start, d, kid, id, prepared, call.now, call.uri);
    TargetIsNotSwept(start, d, e, PresentKids(keys), call.now, kid, call.uri, prepared);
    CommittedKeyVerifies(cr, c, call, keys);
    if |StoredKids(cr, keys)| <= c.maxEntries {
      forall order | Enumerates(order, keys) ensures Accepts(cr, c, call, id, cached, keys, order) {
        RefreshRuns(cr, c, call, id, keys, order, d, e);
        AcceptsWithRoom(cr, c, e, call, id, cached, keys, order);
      }
    } else {
      var order := LosingSiblings(cr, c, e, call, keys);
      RefreshRuns(cr, c, call, id, keys, order, d, e);
      RefusesOnceLost(cr, c, e, call, id, cached, keys, order);
    }
  }
}
