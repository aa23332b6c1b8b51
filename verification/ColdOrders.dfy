/** Every order of visits: exactly when a cold miss leaves its kid cached. */
module ColdOrders {
  import opened Wrappers
  import opened Jwks
  import opened Lru
  import opened Seqs
  import opened JwksModel
  import opened JwksTrace
  import opened Signatures
  import opened Candidates
  import opened ValidatorModel
  import opened ColdMiss

  predicate CachedAt(c: Cache, k: string, p: nat) {
    At(c, k, p) && k in c.hits
  }

  function TargetKey(call: Call): string
    requires call.header.Some?
  {
    CacheKey(call.uri, call.header.value.kid)
  }

  // The siblings that can still push an entry at position q back: published,
  // usable, not yet visited and not cached ahead of it.
  function Pushers(cr: Crypto, c: Cache, call: Call, keys: seq<Jwk>, visited: set<string>, q: nat): set<string>
    requires call.header.Some? && q <= |c.hitLru|
  {
    set s | && s in StoredKids(cr, keys) && s != call.header.value.kid && s !in visited
            && CacheKey(call.uri, s) !in c.hitLru[..q]
  }

  // ---- One visit ----

  function VisitOne(cr: Crypto, c: Cache, call: Call, keys: seq<Jwk>, kid: string): Cache
    requires call.header.Some?
  {
    if Stored(cr, keys, kid) then OnPassiveFetchSuccess(c, kid, ColdKeys(cr, call, keys, kid), call.now, call.uri) else c
  }

  function VisitAll(cr: Crypto, c: Cache, call: Call, keys: seq<Jwk>, order: seq<string>): Cache
    requires call.header.Some?
  {
    Run(c, ColdPassiveOps(cr, call, keys, order))
  }

  lemma OneMoreVisit(cr: Crypto, c: Cache, call: Call, keys: seq<Jwk>, front: seq<string>, kid: string)
    requires call.header.Some?
    ensures VisitAll(cr, c, call, keys, front + [kid]) == VisitOne(cr, VisitAll(cr, c, call, keys, front), call, keys, kid)
  {
    VisitStep(cr, c, call, keys, front, kid);
  }

  lemma InsertPushes(c: Cache, kid: string, keys: seq<Jwk>, now: int, uri: string, k: string, q: nat)
    requires Valid(c) && keys != [] && CacheKey(uri, kid) !in c.hits && CachedAt(c, k, q)
    ensures var d := OnPassiveFetchSuccess(c, kid, keys, now, uri);
            && Valid(d) && d.maxEntries == c.maxEntries
            && (q + 1 < c.maxEntries ==> CachedAt(d, k, q + 1) && d.hitLru[..q + 1] == [CacheKey(uri, kid)] + c.hitLru[..q])
            && (q + 1 >= c.maxEntries ==> k !in d.hits)
  {
    var o := CacheKey(uri, kid);
    PassiveInsert(c, kid, keys, now, uri);
    var d := OnPassiveFetchSuccess(c, kid, keys, now, uri);
    if q + 1 < c.maxEntries {
      OnePlaceBack(c.hitLru, o, q, c.maxEntries);
      assert d.hitLru[q + 1] in d.hitLru;
    } else {
      assert ([o] + c.hitLru)[q + 1] == k;
      PushDropsEvictee(o, c.hitLru, c.maxEntries, k);
      assert c.hitLru[q] in c.hitLru;
    }
  }

  lemma OnePlaceBack(list: seq<string>, o: string, q: nat, size: nat)
    requires q < |list| && q + 1 < size
    ensures var moved := Kept([o] + list, size);
            q + 1 < |moved| && moved[q + 1] == list[q] && moved[..q + 1] == [o] + list[..q]
  {
    assert ([o] + list)[..q + 1] == [o] + list[..q];
  }

  predicate Pushes(cr: Crypto, c: Cache, call: Call, keys: seq<Jwk>, kid: string)
    requires call.header.Some?
  {
    kid != call.header.value.kid && Stored(cr, keys, kid) && CacheKey(call.uri, kid) !in c.hits
  }

  // A visit that pushes nothing leaves the kid where it is.
  lemma QuietVisit(cr: Crypto, c: Cache, call: Call, keys: seq<Jwk>, kid: string, visited: set<string>, q: nat)
    requires Valid(c) && call.header.Some? && CachedAt(c, TargetKey(call), q) && !Pushes(cr, c, call, keys, kid)
    ensures var d := VisitOne(cr, c, call, keys, kid);
            && Valid(d) && d.maxEntries == c.maxEntries && CachedAt(d, TargetKey(call), q)
            && Pushers(cr, d, call, keys, visited + {kid}, q) == Pushers(cr, c, call, keys, visited, q) - {kid}
  {
    if Stored(cr, keys, kid) {
      PassiveMerge(c, kid, ColdKeys(cr, call, keys, kid), call.now, call.uri);
    }
  }

  lemma StoredIsListed(cr: Crypto, keys: seq<Jwk>, kid: string)
    requires Stored(cr, keys, kid)
    ensures kid in StoredKids(cr, keys)
  {
    StoredMeansFiled(cr, keys, kid);
    var k := Filed(keys, kid)[0];
    assert k in Filed(keys, kid) && k in keys && k.kid == kid;
  }

  // A visit that pushes moves the kid back by one, or off the list, and is one
  // pusher fewer.
  lemma PushingVisit(cr: Crypto, c: Cache, call: Call, keys: seq<Jwk>, kid: string, visited: set<string>, q: nat)
    requires Valid(c) && call.header.Some? && CachedAt(c, TargetKey(call), q) && Pushes(cr, c, call, keys, kid)
    requires kid !in visited
    ensures var d := VisitOne(cr, c, call, keys, kid);
            && Valid(d) && d.maxEntries == c.maxEntries
            && kid in Pushers(cr, c, call, keys, visited, q)
            && (q + 1 < c.maxEntries ==>
                  && CachedAt(d, TargetKey(call), q + 1)
                  && Pushers(cr, d, call, keys, visited + {kid}, q + 1) == Pushers(cr, c, call, keys, visited, q) - {kid})
            && (q + 1 >= c.maxEntries ==> TargetKey(call) !in d.hits)
  {
    StoredIsListed(cr, keys, kid);
    PrioritizedNonEmpty(cr, call, keys, kid);
    assert forall x :: x in c.hitLru[..q] ==> x in c.hitLru;
    InsertPushes(c, kid, ColdKeys(cr, call, keys, kid), call.now, call.uri, TargetKey(call), q);
    if q + 1 < c.maxEntries {
      SamePushers(cr, c, VisitOne(cr, c, call, keys, kid), call, keys, kid, visited, q);
    }
  }

  lemma SamePushers(cr: Crypto, c: Cache, d: Cache, call: Call, keys: seq<Jwk>, kid: string, visited: set<string>, q: nat)
    requires call.header.Some? && q <= |c.hitLru| && q + 1 <= |d.hitLru|
    requires d.hitLru[..q + 1] == [CacheKey(call.uri, kid)] + c.hitLru[..q]
    ensures Pushers(cr, d, call, keys, visited + {kid}, q + 1) == Pushers(cr, c, call, keys, visited, q) - {kid}
  {
    forall s ensures CacheKey(call.uri, s) == CacheKey(call.uri, kid) <==> s == kid {
      KidsDifferKeysDiffer(call.uri, s, kid);
    }
    assert forall x :: x in d.hitLru[..q + 1] <==> x == CacheKey(call.uri, kid) || x in c.hitLru[..q];
  }

  // ---- With room for every pusher, the kid survives every order ----

  lemma {:induction false} SurvivesWithRoom(cr: Crypto, c: Cache, call: Call, keys: seq<Jwk>, order: seq<string>, p: nat)
    returns (q: nat)
    requires Valid(c) && call.header.Some? && NoDup(order) && CachedAt(c, TargetKey(call), p)
    requires p + |Pushers(cr, c, call, keys, {}, p)| < c.maxEntries
    ensures var d := VisitAll(cr, c, call, keys, order);
            && Valid(d) && d.maxEntries == c.maxEntries && CachedAt(d, TargetKey(call), q)
            && q + |Pushers(cr, d, call, keys, Members(order), q)| < c.maxEntries
  {
    if order == [] {
      q := p;
      assert Members(order) == {};
    } else {
      var front, kid := order[..|order| - 1], order[|order| - 1];
      DropLastKeepsNoDup(order, front, kid);
      assert order == front + [kid] && Members(order) == Members(front) + {kid};
      q := SurvivesWithRoom(cr, c, call, keys, front, p);
      OneMoreVisit(cr, c, call, keys, front, kid);
      q := SurvivesOneVisit(cr, VisitAll(cr, c, call, keys, front), call, keys, kid, Members(front), q);
    }
  }

  lemma SurvivesOneVisit(cr: Crypto, c: Cache, call: Call, keys: seq<Jwk>, kid: string, visited: set<string>, p: nat)
    returns (q: nat)
    requires Valid(c) && call.header.Some? && CachedAt(c, TargetKey(call), p) && kid !in visited
    requires p + |Pushers(cr, c, call, keys, visited, p)| < c.maxEntries
    ensures var d := VisitOne(cr, c, call, keys, kid);
            && Valid(d) && d.maxEntries == c.maxEntries && CachedAt(d, TargetKey(call), q)
            && q + |Pushers(cr, d, call, keys, visited + {kid}, q)| < c.maxEntries
  {
    DroppingNeverAdds(Pushers(cr, c, call, keys, visited, p), kid);
    if Pushes(cr, c, call, keys, kid) {
      PushingVisit(cr, c, call, keys, kid, visited, p);
      q := p + 1;
    } else {
      QuietVisit(cr, c, call, keys, kid, visited, p);
      q := p;
    }
  }

  // ---- Without, some order pushes it out ----

  function EntryKeys(uri: string, kids: set<string>): set<string> {
    set s | s in kids :: CacheKey(uri, s)
  }

  lemma {:induction false} EntryKeysCount(uri: string, kids: set<string>)
    ensures |EntryKeys(uri, kids)| == |kids|
  {
    if kids == {} {
      assert EntryKeys(uri, kids) == {};
    } else {
      var s :| s in kids;
      EntryKeysCount(uri, kids - {s});
      forall t | t in kids - {s} ensures CacheKey(uri, t) != CacheKey(uri, s) {
        KidsDifferKeysDiffer(uri, t, s);
      }
      assert EntryKeys(uri, kids) == EntryKeys(uri, kids - {s}) + {CacheKey(uri, s)};
    }
  }

  // More pushers than places behind the kid: one of them is not cached.
  lemma SomePusherIsUncached(cr: Crypto, c: Cache, call: Call, keys: seq<Jwk>, visited: set<string>, q: nat)
    returns (s: string)
    requires Valid(c) && call.header.Some? && CachedAt(c, TargetKey(call), q)
    requires q + |Pushers(cr, c, call, keys, visited, q)| >= c.maxEntries
    ensures s in Pushers(cr, c, call, keys, visited, q) && CacheKey(call.uri, s) !in c.hits
  {
    var pushers, behind := Pushers(cr, c, call, keys, visited, q), c.hitLru[q + 1..];
    if s :| s in pushers && CacheKey(call.uri, s) !in c.hits {
      return s;
    }
    forall x | x in EntryKeys(call.uri, pushers) ensures x in Members(behind) {
      var t :| t in pushers && CacheKey(call.uri, t) == x;
      KidsDifferKeysDiffer(call.uri, t, call.header.value.kid);
      StandsBehind(c.hitLru, x, q);
    }
    EntryKeysCount(call.uri, pushers);
    SubsetCount(EntryKeys(call.uri, pushers), Members(behind));
    MembersCount(behind);
    assert false;
  }

  lemma StandsBehind(list: seq<string>, x: string, q: nat)
    requires q < |list| && x in list && x !in list[..q] && x != list[q]
    ensures x in list[q + 1..]
  {
    var i :| 0 <= i < |list| && list[i] == x;
    if i > q {
      assert list[q + 1..][i - q - 1] == x;
    }
  }

  ghost predicate PartOfOrder(order: seq<string>, keys: seq<Jwk>) {
    NoDup(order) && forall s :: s in order ==> Filed(keys, s) != []
  }

  lemma ExtendOrder(order: seq<string>, keys: seq<Jwk>, s: string)
    requires PartOfOrder(order, keys) && s !in order && Filed(keys, s) != []
    ensures PartOfOrder(order + [s], keys) && Members(order + [s]) == Members(order) + {s}
  {
  }

  lemma PusherIsFiled(cr: Crypto, keys: seq<Jwk>, s: string)
    requires s in StoredKids(cr, keys)
    ensures Stored(cr, keys, s) && Filed(keys, s) != []
  {
    StoredMeansFiled(cr, keys, s);
  }

  // The kid stands at position q, with as many pushers as places behind it.
  ghost predicate Crowded(cr: Crypto, c: Cache, call: Call, keys: seq<Jwk>, visited: set<string>, q: nat)
    requires call.header.Some?
  {
    Valid(c) && CachedAt(c, TargetKey(call), q) && q + |Pushers(cr, c, call, keys, visited, q)| >= c.maxEntries
  }

  lemma CrowdedOneOn(cr: Crypto, c: Cache, call: Call, keys: seq<Jwk>, visited: set<string>, q: nat) returns (s: string)
    requires call.header.Some? && Crowded(cr, c, call, keys, visited, q)
    ensures s != call.header.value.kid && s !in visited && Filed(keys, s) != []
    ensures var d := VisitOne(cr, c, call, keys, s);
            && Valid(d) && d.maxEntries == c.maxEntries
            && if q + 1 < c.maxEntries then Crowded(cr, d, call, keys, visited + {s}, q + 1) else TargetKey(call) !in d.hits
  {
    s := SomePusherIsUncached(cr, c, call, keys, visited, q);
    PusherIsFiled(cr, keys, s);
    PushingVisit(cr, c, call, keys, s, visited, q);
    DroppingNeverAdds(Pushers(cr, c, call, keys, visited, q), s);
  }

  ghost predicate CrowdedAfter(cr: Crypto, c: Cache, call: Call, keys: seq<Jwk>, front: seq<string>, q: nat)
    requires call.header.Some?
  {
    var d := VisitAll(cr, c, call, keys, front);
    d.maxEntries == c.maxEntries && Crowded(cr, d, call, keys, Members(front), q)
  }

  ghost predicate LostAfter(cr: Crypto, c: Cache, call: Call, keys: seq<Jwk>, order: seq<string>)
    requires call.header.Some?
  {
    Valid(VisitAll(cr, c, call, keys, order)) && TargetKey(call) !in VisitAll(cr, c, call, keys, order).hits
  }

  lemma PushOnce(cr: Crypto, c: Cache, call: Call, keys: seq<Jwk>, front: seq<string>, q: nat) returns (longer: seq<string>)
    requires call.header.Some? && PartOfOrder(front, keys) && CrowdedAfter(cr, c, call, keys, front, q)
    ensures PartOfOrder(longer, keys) && front <= longer
    ensures call.header.value.kid in longer ==> call.header.value.kid in front
    ensures if q + 1 < c.maxEntries then CrowdedAfter(cr, c, call, keys, longer, q + 1)
            else LostAfter(cr, c, call, keys, longer)
  {
    var s := CrowdedOneOn(cr, VisitAll(cr, c, call, keys, front), call, keys, Members(front), q);
    ExtendOrder(front, keys, s);
    OneMoreVisit(cr, c, call, keys, front, s);
    longer := front + [s];
  }

  // While there are as many pushers as places, visit one that is not cached.
  lemma {:induction false} PushOut(cr: Crypto, c: Cache, call: Call, keys: seq<Jwk>, front: seq<string>, q: nat)
    returns (order: seq<string>)
    requires call.header.Some? && PartOfOrder(front, keys) && CrowdedAfter(cr, c, call, keys, front, q)
    ensures PartOfOrder(order, keys) && front <= order && (call.header.value.kid in order ==> call.header.value.kid in front)
    ensures LostAfter(cr, c, call, keys, order)
    decreases c.maxEntries - q
  {
    order := PushOnce(cr, c, call, keys, front, q);
    if q + 1 < c.maxEntries {
      order := PushOut(cr, c, call, keys, order, q + 1);
    }
  }

  // ---- Once lost, lost for the rest of the visits ----

  lemma LostVisit(cr: Crypto, c: Cache, call: Call, keys: seq<Jwk>, kid: string)
    requires Valid(c) && call.header.Some? && TargetKey(call) !in c.hits
    requires kid != call.header.value.kid || !Stored(cr, keys, kid)
    ensures Valid(VisitOne(cr, c, call, keys, kid)) && TargetKey(call) !in VisitOne(cr, c, call, keys, kid).hits
  {
    if Stored(cr, keys, kid) {
      PrioritizedNonEmpty(cr, call, keys, kid);
      KidsDifferKeysDiffer(call.uri, kid, call.header.value.kid);
      if CacheKey(call.uri, kid) in c.hits {
        PassiveMerge(c, kid, ColdKeys(cr, call, keys, kid), call.now, call.uri);
      } else {
        PassiveInsert(c, kid, ColdKeys(cr, call, keys, kid), call.now, call.uri);
      }
    }
  }

  lemma {:induction false} LostStaysLost(cr: Crypto, c: Cache, call: Call, keys: seq<Jwk>,
                                         front: seq<string>, more: seq<string>)
    requires call.header.Some? && Valid(VisitAll(cr, c, call, keys, front))
    requires TargetKey(call) !in VisitAll(cr, c, call, keys, front).hits
    requires forall s :: s in more ==> s != call.header.value.kid || !Stored(cr, keys, s)
    ensures Valid(VisitAll(cr, c, call, keys, front + more))
    ensures TargetKey(call) !in VisitAll(cr, c, call, keys, front + more).hits
  {
    if more == [] {
      assert front + more == front;
    } else {
      var init, s := more[..|more| - 1], more[|more| - 1];
      assert more == init + [s] && front + more == (front + init) + [s];
      LostStaysLost(cr, c, call, keys, front, init);
      OneMoreVisit(cr, c, call, keys, front + init, s);
      LostVisit(cr, VisitAll(cr, c, call, keys, front + init), call, keys, s);
    }
  }

  function FiledKids(keys: seq<Jwk>): set<string> {
    set k | k in keys && ForSigning(k) :: k.kid
  }

  lemma FiledKidsAre(keys: seq<Jwk>, kid: string)
    ensures kid in FiledKids(keys) <==> Filed(keys, kid) != []
  {
    if Filed(keys, kid) != [] {
      var k := Filed(keys, kid)[0];
      assert k in Filed(keys, kid);
    }
    if kid in FiledKids(keys) {
      var k :| k in keys && ForSigning(k) && k.kid == kid;
      assert k in Filed(keys, kid);
    }
  }

  lemma {:induction false} ListOf(kids: set<string>) returns (list: seq<string>)
    ensures NoDup(list) && forall s :: s in list <==> s in kids
  {
    if kids == {} {
      list := [];
    } else {
      var s :| s in kids;
      var rest := ListOf(kids - {s});
      list := [s] + rest;
    }
  }

  lemma JoinedOrder(a: seq<string>, b: seq<string>)
    requires NoDup(a) && NoDup(b) && forall s :: s in b ==> s !in a
    ensures NoDup(a + b)
  {
    var all := a + b;
    forall i, j | 0 <= i < j < |all| ensures all[i] != all[j] {
      if i < |a| <= j {
        assert all[j] == b[j - |a|] && all[j] in b && all[i] in a;
      }
    }
  }

  // Any part of an order can be completed.
  lemma Complete(front: seq<string>, keys: seq<Jwk>) returns (more: seq<string>)
    requires PartOfOrder(front, keys)
    ensures Enumerates(front + more, keys) && forall s :: s in more ==> s !in front
  {
    more := ListOf(FiledKids(keys) - Members(front));
    JoinedOrder(front, more);
    forall kid ensures kid in front + more <==> Filed(keys, kid) != [] {
      FiledKidsAre(keys, kid);
    }
  }

  // ---- The verdict of all orders ----

  ghost predicate HitAfter(cr: Crypto, c: Cache, call: Call, keys: seq<Jwk>, order: seq<string>)
    requires call.header.Some?
  {
    Lookup(Run(c, ColdOps(cr, c, call, Document(keys), order)), call.header.value.kid, call.now, call.uri).Hit?
  }

  lemma HitWhenCached(cr: Crypto, c: Cache, call: Call, keys: seq<Jwk>, order: seq<string>, d: Cache)
    requires Valid(d) && call.header.Some? && keys != []
    requires d == Run(Apply(c, FetchedOk(call.now, call.uri)), ColdPassiveOps(cr, call, keys, order))
    ensures HitAfter(cr, c, call, keys, order) <==> TargetKey(call) in d.hits
  {
    assert Run(c, ColdOps(cr, c, call, Document(keys), order)).hits == d.hits by {
      ColdEnds(cr, c, call, keys, order, d);
      MissKeepsHits(d, call.header.value.kid, call.now, call.uri);
    }
  }

  lemma MissKeepsHits(d: Cache, kid: string, now: int, uri: string)
    ensures Apply(d, RecordMiss(kid, now, uri)).hits == d.hits
  {
  }

  lemma HitMeansCached(cr: Crypto, c: Cache, start: Cache, call: Call, keys: seq<Jwk>, order: seq<string>)
    requires Valid(start) && call.header.Some? && keys != [] && start == Apply(c, FetchedOk(call.now, call.uri))
    ensures HitAfter(cr, c, call, keys, order) <==> TargetKey(call) in VisitAll(cr, start, call, keys, order).hits
  {
    RunKeepsValid(start, ColdPassiveOps(cr, call, keys, order));
    HitWhenCached(cr, c, call, keys, order, VisitAll(cr, start, call, keys, order));
  }

  lemma LosingOrder(cr: Crypto, c: Cache, start: Cache, call: Call, keys: seq<Jwk>, front: seq<string>, q: nat)
    returns (order: seq<string>)
    requires Valid(start) && call.header.Some? && keys != [] && start == Apply(c, FetchedOk(call.now, call.uri))
    requires PartOfOrder(front, keys) && (call.header.value.kid in front || !Stored(cr, keys, call.header.value.kid))
    requires CrowdedAfter(cr, start, call, keys, front, q)
    ensures Enumerates(order, keys) && !HitAfter(cr, c, call, keys, order)
  {
    var part := PushOut(cr, start, call, keys, front, q);
    var more := Complete(part, keys);
    LostStaysLost(cr, start, call, keys, part, more);
    order := part + more;
    HitMeansCached(cr, c, start, call, keys, order);
  }

  // A kid cached when the document is processed stays a hit in every order
  // exactly when the entries ahead of it and the siblings that can come before
  // it leave it a place.
  lemma CachedKidSurvivesEveryOrder(cr: Crypto, c: Cache, call: Call, keys: seq<Jwk>, p: nat)
    requires Valid(c) && call.header.Some? && keys != [] && CachedAt(c, TargetKey(call), p)
    ensures (forall order :: Enumerates(order, keys) ==> HitAfter(cr, c, call, keys, order))
       <==> p + |Pushers(cr, c, call, keys, {}, p)| < c.maxEntries
  {
    var start := Apply(c, FetchedOk(call.now, call.uri));
    StartIsLike(c, call, start);
    assert Pushers(cr, start, call, keys, {}, p) == Pushers(cr, c, call, keys, {}, p);
    if p + |Pushers(cr, c, call, keys, {}, p)| < c.maxEntries {
      forall order | Enumerates(order, keys) ensures HitAfter(cr, c, call, keys, order) {
        var q := SurvivesWithRoom(cr, start, call, keys, order, p);
        HitMeansCached(cr, c, start, call, keys, order);
      }
    } else {
      var order := LosingOrderOfCached(cr, c, start, call, keys, p);
    }
  }

  lemma QuietFirstVisit(cr: Crypto, start: Cache, call: Call, keys: seq<Jwk>, p: nat, front: seq<string>)
    requires Valid(start) && call.header.Some? && CachedAt(start, TargetKey(call), p) && front == [call.header.value.kid]
    ensures var d := VisitAll(cr, start, call, keys, front);
            && Valid(d) && CachedAt(d, TargetKey(call), p) && d.maxEntries == start.maxEntries
            && Pushers(cr, d, call, keys, Members(front), p) == Pushers(cr, start, call, keys, {}, p)
  {
    var kid := call.header.value.kid;
    assert [] + [kid] == front && Members(front) == {} + {kid};
    OneMoreVisit(cr, start, call, keys, [], kid);
    QuietVisit(cr, start, call, keys, kid, {}, p);
  }

  lemma LosingOrderOfCached(cr: Crypto, c: Cache, start: Cache, call: Call, keys: seq<Jwk>, p: nat)
    returns (order: seq<string>)
    requires Valid(start) && call.header.Some? && keys != [] && start == Apply(c, FetchedOk(call.now, call.uri))
    requires CachedAt(start, TargetKey(call), p) && p + |Pushers(cr, start, call, keys, {}, p)| >= start.maxEntries
    ensures Enumerates(order, keys) && !HitAfter(cr, c, call, keys, order)
  {
    var kid := call.header.value.kid;
    if Filed(keys, kid) != [] {
      QuietFirstVisit(cr, start, call, keys, p, [kid]);
      order := LosingOrder(cr, c, start, call, keys, [kid], p);
    } else {
      UnfiledIsNotStored(cr, keys, kid);
      assert Members([]) == {};
      order := LosingOrder(cr, c, start, call, keys, [], p);
    }
  }

  lemma UnfiledIsNotStored(cr: Crypto, keys: seq<Jwk>, kid: string)
    requires Filed(keys, kid) == []
    ensures !Stored(cr, keys, kid)
  {
  }

  // A kid not cached yet, with a usable published key, is a hit after every
  // order exactly when the usable published kids fit into the cache.
  lemma UncachedKidHitsInEveryOrder(cr: Crypto, c: Cache, call: Call, keys: seq<Jwk>)
    requires Valid(c) && call.header.Some? && TargetKey(call) !in c.hits && Stored(cr, keys, call.header.value.kid)
    ensures (forall order :: Enumerates(order, keys) ==> HitAfter(cr, c, call, keys, order))
       <==> |StoredKids(cr, keys)| <= c.maxEntries
  {
    if |StoredKids(cr, keys)| <= c.maxEntries {
      forall order | Enumerates(order, keys) ensures HitAfter(cr, c, call, keys, order) {
        ColdMissEstablishesTheKid(cr, c, call, keys, order);
      }
    } else {
      var start := Apply(c, FetchedOk(call.now, call.uri));
      StartIsLike(c, call, start);
      var order := LosingOrderOfUncached(cr, c, start, call, keys);
    }
  }

  lemma PushingFirstVisit(cr: Crypto, start: Cache, call: Call, keys: seq<Jwk>, front: seq<string>)
    requires Valid(start) && call.header.Some? && front == [call.header.value.kid]
    requires TargetKey(call) !in start.hits && Stored(cr, keys, front[0])
    ensures var d := VisitAll(cr, start, call, keys, front);
            && Valid(d) && CachedAt(d, TargetKey(call), 0) && d.maxEntries == start.maxEntries
            && Pushers(cr, d, call, keys, Members(front), 0) == StoredKids(cr, keys) - {front[0]}
  {
    var kid := front[0];
    assert [] + [kid] == front;
    OneMoreVisit(cr, start, call, keys, [], kid);
    PrioritizedNonEmpty(cr, call, keys, kid);
    PassiveInsert(start, kid, ColdKeys(cr, call, keys, kid), call.now, call.uri);
  }

  lemma LosingOrderOfUncached(cr: Crypto, c: Cache, start: Cache, call: Call, keys: seq<Jwk>) returns (order: seq<string>)
    requires Valid(start) && call.header.Some? && start == Apply(c, FetchedOk(call.now, call.uri))
    requires TargetKey(call) !in start.hits && Stored(cr, keys, call.header.value.kid)
    requires |StoredKids(cr, keys)| > start.maxEntries
    ensures Enumerates(order, keys) && !HitAfter(cr, c, call, keys, order)
  {
    var kid := call.header.value.kid;
    StoredMeansFiled(cr, keys, kid);
    StoredIsListed(cr, keys, kid);
    PushingFirstVisit(cr, start, call, keys, [kid]);
    DroppingNeverAdds(StoredKids(cr, keys), kid);
    order := LosingOrder(cr, c, start, call, keys, [kid], 0);
  }

  // A kid that is neither cached nor published with a usable key is no hit in
  // any order.
  lemma UnpublishedKidNeverHits(cr: Crypto, c: Cache, call: Call, keys: seq<Jwk>, order: seq<string>)
    requires Valid(c) && call.header.Some? && keys != []
    requires TargetKey(call) !in c.hits && !Stored(cr, keys, call.header.value.kid)
    ensures !HitAfter(cr, c, call, keys, order)
  {
    var start := Apply(c, FetchedOk(call.now, call.uri));
    StartIsLike(c, call, start);
    assert [] + order == order;
    LostStaysLost(cr, start, call, keys, [], order);
    HitMeansCached(cr, c, start, call, keys, order);
  }
}
