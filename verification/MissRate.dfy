/** How often a kid that is not cached is fetched for: the floor per kid on the
    miss path, what it is counted from, and where it does not hold. */
module MissRate {
  import opened Wrappers
  import opened Jwks
  import opened Lru
  import opened JwksModel
  import opened JwksTrace
  import opened JwksWindows
  import opened Signatures
  import opened ValidatorModel
  import opened Verdicts
  import opened Protocol

  // ---- The miss a run has on record for a kid ----

  predicate Records(op: Op, key: string) {
    op.RecordMiss? && CacheKey(op.uri, op.kid) == key
  }

  // Keys arrive for the kid, or newer misses push the record out.
  predicate Forgets(c: Cache, op: Op, key: string) {
    key in c.misses && key !in Apply(c, op).misses
  }

  function LastMiss(c: Cache, ops: seq<Op>, key: string): Option<int> {
    if ops == [] then None
    else
      var front, last := ops[..|ops| - 1], ops[|ops| - 1];
      if Records(last, key) then Some(last.now)
      else if Forgets(Run(c, front), last, key) then None
      else LastMiss(c, front, key)
  }

  lemma RecordedNow(c: Cache, op: Op, key: string)
    requires Valid(c) && Records(op, key)
    ensures key in Apply(c, op).misses && Apply(c, op).misses[key] == op.now
  {
    assert Kept([key] + Without(c.missLru, key), c.maxEntries)[0] == key;
  }

  lemma NotRecordedNow(c: Cache, op: Op, key: string)
    requires Valid(c) && !Records(op, key) && key in Apply(c, op).misses
    ensures key in c.misses && Apply(c, op).misses[key] == c.misses[key]
  {
    if op.RecordMiss? {
      MissElsewhere(c, op, key);
    } else if op.Ingest? || op.Passive? {
      ArrivalRecordsNothing(c, op, key);
    }
  }

  lemma ArrivalRecordsNothing(c: Cache, op: Op, key: string)
    requires (op.Ingest? || op.Passive?) && key in Apply(c, op).misses
    ensures key in c.misses && Apply(c, op).misses[key] == c.misses[key]
  {
  }

  lemma {:induction false} MissesOfARun(c: Cache, ops: seq<Op>, key: string)
    requires Valid(c) && c.misses == map[]
    ensures var d, last := Run(c, ops), LastMiss(c, ops, key);
            (key in d.misses <==> last.Some?) && (key in d.misses ==> d.misses[key] == last.value)
  {
    if ops != [] {
      var front, last := ops[..|ops| - 1], ops[|ops| - 1];
      RunKeepsValid(c, front);
      MissesOfARun(c, front, key);
      if Records(last, key) {
        RecordedNow(Run(c, front), last, key);
      } else if key in Run(c, ops).misses {
        NotRecordedNow(Run(c, front), last, key);
      }
    }
  }

  // ---- When a validation fetches for a kid that is not cached ----

  // Nothing but the floor of the kid itself holds the fetch back: the last fetch
  // of all is two seconds ago, and so is the last document from the address.
  predicate OtherwiseFree(c: Cache, call: Call) {
    && Admissible(call) && KeyFor(call) !in c.hits
    && (c.lastGlobalFetch <= 0 || call.now < c.lastGlobalFetch - 60 || call.now >= c.lastGlobalFetch + 2)
    && !(0 < ArrivalStamp(c, call.uri) <= call.now < ArrivalStamp(c, call.uri) + 2)
  }

  predicate Throttled(c: Cache, call: Call)
    requires call.header.Some?
  {
    KeyFor(call) in c.misses && c.misses[KeyFor(call)] - 60 <= call.now < c.misses[KeyFor(call)] + c.minRefresh
  }

  lemma ColdFetchExactly(cr: Crypto, c: Cache, call: Call)
    requires Valid(c)
    ensures Begin(cr, c, call).FetchForMiss? <==> OtherwiseFree(c, call) && !Throttled(c, call)
  {
    if call.header.Some? {
      MissExactly(c, call.header.value.kid, call.now, call.uri);
    }
  }

  lemma MissExactly(c: Cache, kid: string, now: int, uri: string)
    requires Valid(c)
    ensures var key := CacheKey(uri, kid);
            Lookup(c, kid, now, uri).Miss? <==>
            key !in c.hits && !(key in c.misses && c.misses[key] - 60 <= now < c.misses[key] + c.minRefresh)
  {
  }

  // Over every interleaving: if nothing else holds it back, a validation fetches
  // for an uncached kid exactly unless a miss of the kid is on record and its
  // clock reading is less than the floor ago. So the floor holds from every miss
  // that is still on record, and from nothing else.
  lemma FloorHoldsExactly(cr: Crypto, w: World, steps: seq<Protocol.Step>, call: Call)
    requires Initial(w) && w.cache.misses == map[] && OtherwiseFree(After(cr, w, steps).cache, call)
    ensures var c, last := After(cr, w, steps).cache, LastMiss(w.cache, Trace(cr, w, steps), KeyFor(call));
            Begin(cr, c, call).FetchForMiss? <==>
            !(last.Some? && last.value - 60 <= call.now < last.value + c.minRefresh)
  {
    EveryRunIsATrace(cr, w, steps);
    MissesOfARun(w.cache, Trace(cr, w, steps), KeyFor(call));
    ColdFetchExactly(cr, After(cr, w, steps).cache, call);
  }

  // An answer puts a miss on record exactly when a document came in and the kid
  // is not cached once it has been stored. A failed fetch records nothing.
  lemma WhenAMissIsRecorded(cr: Crypto, c: Cache, call: Call, answer: Answer, order: seq<string>)
    requires call.header.Some?
    ensures (exists op :: op in ColdOps(cr, c, call, answer, order) && op.RecordMiss?) <==>
            && answer.Document?
            && (answer.keys == []
                || Live(Run(c, ColdIngestOps(cr, call, answer.keys, order)), call.uri, call.header.value.kid) == [])
  {
    if answer.Document? {
      ColdOnesArePassive(cr, call, answer.keys, order);
      var miss := RecordMiss(call.header.value.kid, call.now, call.uri);
      var ops := ColdOps(cr, c, call, answer, order);
      assert ops != [] && (ops[|ops| - 1] == miss ==> miss in ops);
    }
  }

  // The failing input: two fetches for one kid two seconds apart, whatever the
  // floor, because the first is still pending, or has failed.
  lemma TwoColdFetches(cr: Crypto, w: World, first: nat, call: Call, later: Call)
    requires Valid(w.cache) && first !in w.pending && Begin(cr, w.cache, call).FetchForMiss?
    requires call.now > 0 && later == call.(now := call.now + 2)
    requires KeyFor(call) !in w.cache.misses
    requires !(0 < ArrivalStamp(w.cache, later.uri) <= later.now < ArrivalStamp(w.cache, later.uri) + 2)
    requires w.cache.lastGlobalFetch <= call.now
    ensures var asked := Next(cr, w, Start(first, call));
            var failed := Next(cr, asked, Finish(first, Failed, []));
            && asked.pending[first] == Missed(call)
            && Begin(cr, asked.cache, later).FetchForMiss? && Begin(cr, failed.cache, later).FetchForMiss?
  {
    ColdFetchExactly(cr, w.cache, call);
    RunOne(w.cache, Fetched(call.now));
    StepKeepsValid(w.cache, Fetched(call.now));
    var asked := Next(cr, w, Start(first, call));
    assert asked.cache == RecordFetch(w.cache, call.now);
    assert Next(cr, asked, Finish(first, Failed, [])).cache == asked.cache;
    ColdFetchExactly(cr, asked.cache, later);
  }
}
