/** Time windows of the cache: throttled misses, fresh documents, and stamps that
    do not slip back. */
module JwksWindows {
  import opened Wrappers
  import opened Jwks
  import opened Seqs
  import opened Lru
  import opened JwksMerge
  import opened JwksModel
  import opened JwksTrace
  import opened Signatures
  import opened ValidatorModel

  // A recorded miss throttles look-ups of its kid exactly within the window:
  // up to the floor later, and when the clock has gone back by a minute or less.
  lemma MissThrottles(c: Cache, kid: string, stamp: int, uri: string, now: int)
    requires Valid(c) && CacheKey(uri, kid) !in c.hits
    ensures var r := Lookup(OnFetchMiss(c, kid, stamp, uri), kid, now, uri);
            && (r.RateLimited? <==> stamp - 60 <= now < stamp + c.minRefresh)
            && (r.RateLimited? ==> r.retryAfter == if now < stamp then c.minRefresh else stamp + c.minRefresh - now)
            && !r.Hit?
  {
    var k := CacheKey(uri, kid);
    assert Kept([k] + Without(c.missLru, k), c.maxEntries)[0] == k;
  }

  // While it is recorded and within the window, no validation fetches for the kid.
  lemma ThrottledMissFetchesNothing(cr: Crypto, c: Cache, call: Call)
    requires call.header.Some? && CacheKey(call.uri, call.header.value.kid) !in c.hits
    requires CacheKey(call.uri, call.header.value.kid) in c.misses
    requires var stamp := c.misses[CacheKey(call.uri, call.header.value.kid)];
             stamp - 60 <= call.now < stamp + c.minRefresh
    ensures Begin(cr, c, call).Done?
  {
  }

  // A miss is forgotten in two ways only: keys arrive for its kid, or a newer
  // miss pushes it off a full list.
  lemma WhyAMissIsForgotten(c: Cache, op: Op, key: string)
    requires Valid(c) && key in c.misses && key !in Apply(c, op).misses
    ensures || ((op.Ingest? || op.Passive?) && op.keys != [] && CacheKey(op.uri, op.kid) == key && key in Apply(c, op).hits)
            || (op.RecordMiss? && Evictee(c.missLru, c.maxEntries, key))
  {
    if op.RecordMiss? {
      MissElsewhere(c, op, key);
    } else if op.Ingest? || op.Passive? {
      KeysArrive(c, op, key);
    }
  }

  lemma OtherMissesStay(c: Cache, op: Op, key: string)
    requires (op.Ingest? || op.Passive?) && key in c.misses
    requires op.keys == [] || CacheKey(op.uri, op.kid) != key
    ensures key in Apply(c, op).misses
  {
  }

  lemma IngestedIsCached(c: Cache, op: Op)
    requires Valid(c) && (op.Ingest? || op.Passive?) && op.keys != []
    ensures CacheKey(op.uri, op.kid) in Apply(c, op).hits
  {
    var k := CacheKey(op.uri, op.kid);
    if k !in c.hits {
      NewKidOutcome(c, op, k);
    }
  }

  lemma KeysArrive(c: Cache, op: Op, key: string)
    requires Valid(c) && (op.Ingest? || op.Passive?) && key in c.misses && key !in Apply(c, op).misses
    ensures op.keys != [] && CacheKey(op.uri, op.kid) == key && key in Apply(c, op).hits
  {
    if op.keys == [] || CacheKey(op.uri, op.kid) != key {
      OtherMissesStay(c, op, key);
    } else {
      IngestedIsCached(c, op);
    }
  }

  // The arrival of a document makes its own address fresh, for the window and
  // from that moment on, and leaves the other addresses as they are.
  lemma FreshnessIsPerAddress(c: Cache, stamp: int, uri: string, now: int, window: int, other: string)
    ensures HasFreshDocument(RecordFetchSuccess(c, stamp, uri), now, window, uri) <==> 0 < stamp <= now < stamp + window
    ensures var d := RecordFetchSuccess(c, stamp, uri);
            other != uri ==> HasFreshDocument(d, now, window, other) == HasFreshDocument(c, now, window, other)
  {
  }

  // Validations for other addresses go as before.
  lemma ArrivalElsewhere(cr: Crypto, c: Cache, call: Call, stamp: int, uri: string)
    requires call.uri != uri
    ensures Begin(cr, RecordFetchSuccess(c, stamp, uri), call) == Begin(cr, c, call)
  {
    FreshnessIsPerAddress(c, stamp, uri, call.now, BUDGET_WINDOW_S, call.uri);
    SameLook(cr, c, RecordFetchSuccess(c, stamp, uri), call);
  }

  lemma SameLook(cr: Crypto, c: Cache, d: Cache, call: Call)
    requires d.hits == c.hits && d.misses == c.misses && d.minRefresh == c.minRefresh
    requires HasFreshDocument(d, call.now, BUDGET_WINDOW_S, call.uri)
          == HasFreshDocument(c, call.now, BUDGET_WINDOW_S, call.uri)
    ensures FirstLook(cr, d, call) == FirstLook(cr, c, call)
  {
  }

  // The operation notes the arrival of a document from the address.
  predicate Arrives(c: Cache, op: Op, uri: string) {
    || (op.FetchedOk? && op.uri == uri)
    || (op.Ingest? && op.keys != [] && op.uri == uri)
    || (op.Passive? && op.keys != [] && op.uri == uri && CacheKey(uri, op.kid) !in c.hits)
  }

  // The clock reading of the last arrival, which need not be the latest one.
  function LastArrival(c: Cache, ops: seq<Op>, uri: string): Option<int> {
    if ops == [] then None
    else
      var front, last := ops[..|ops| - 1], ops[|ops| - 1];
      if Arrives(Run(c, front), last, uri) then ClockOf(last) else LastArrival(c, front, uri)
  }

  function ArrivalStamp(c: Cache, uri: string): int {
    if uri == "" then c.lastFetch else if uri in c.lastFetchByUri then c.lastFetchByUri[uri] else 0
  }

  lemma ArrivalMovesStamp(c: Cache, op: Op, uri: string)
    ensures ArrivalStamp(Apply(c, op), uri) == if Arrives(c, op, uri) then ClockOf(op).value else ArrivalStamp(c, uri)
  {
    if op.Ingest? || op.Passive? {
      KeysMoveStamp(c, op, uri);
    }
  }

  lemma KeysMoveStamp(c: Cache, op: Op, uri: string)
    requires op.Ingest? || op.Passive?
    ensures ArrivalStamp(Apply(c, op), uri) == if Arrives(c, op, uri) then op.now else ArrivalStamp(c, uri)
  {
  }

  // A document counts as fresh exactly by the last arrival from its address.
  lemma {:induction false} FreshExactly(c: Cache, ops: seq<Op>, uri: string, now: int, window: int)
    ensures ArrivalStamp(Run(c, ops), uri)
         == if LastArrival(c, ops, uri).Some? then LastArrival(c, ops, uri).value else ArrivalStamp(c, uri)
    ensures HasFreshDocument(Run(c, ops), now, window, uri)
       <==> var last := LastArrival(c, ops, uri);
            if last.Some? then 0 < last.value <= now < last.value + window else HasFreshDocument(c, now, window, uri)
  {
    if ops != [] {
      FreshExactly(c, ops[..|ops| - 1], uri, now, window);
      ArrivalMovesStamp(Run(c, ops[..|ops| - 1]), ops[|ops| - 1], uri);
    }
  }

  lemma {:induction false} LaterArrivals(c: Cache, ops: seq<Op>, i: nat, uri: string)
    requires i < |ops| && Arrives(State(c, ops, i), ops[i], uri)
    ensures exists m :: && i <= m < |ops| && Arrives(State(c, ops, m), ops[m], uri)
                        && LastArrival(c, ops, uri) == ClockOf(ops[m])
    decreases |ops|
  {
    var n := |ops| - 1;
    var front := ops[..n];
    if Arrives(State(c, ops, n), ops[n], uri) {
      assert ops[..n] == front;
    } else {
      assert front[..i] == ops[..i];
      LaterArrivals(c, front, i, uri);
      var m :| i <= m < n && Arrives(State(c, front, m), front[m], uri) && LastArrival(c, front, uri) == ClockOf(front[m]);
      assert front[..m] == ops[..m];
    }
  }

  // After a document has arrived at step i, no kid missing from the cache makes
  // a validation fetch from its address within the window, however the run goes
  // on, as long as no later arrival carries an earlier clock reading, or one
  // ahead of the validation.
  lemma DocumentStopsColdMisses(cr: Crypto, c: Cache, ops: seq<Op>, i: nat, call: Call)
    requires i < |ops| && Arrives(State(c, ops, i), ops[i], call.uri)
    requires 0 < ClockOf(ops[i]).value <= call.now < ClockOf(ops[i]).value + BUDGET_WINDOW_S
    requires forall m :: i < m < |ops| && Arrives(State(c, ops, m), ops[m], call.uri) ==>
               ClockOf(ops[i]).value <= ClockOf(ops[m]).value <= call.now
    ensures !Begin(cr, Run(c, ops), call).FetchForMiss?
  {
    LaterArrivals(c, ops, i, call.uri);
    FreshExactly(c, ops, call.uri, call.now, BUDGET_WINDOW_S);
    FreshStopsColdMisses(cr, Run(c, ops), call);
  }

  lemma FreshStopsColdMisses(cr: Crypto, c: Cache, call: Call)
    requires HasFreshDocument(c, call.now, BUDGET_WINDOW_S, call.uri)
    ensures !Begin(cr, c, call).FetchForMiss?
  {
  }

  // The condition is needed: an arrival with an earlier clock reading takes the
  // place of a later one and ends its freshness inside the window.
  lemma EarlierArrivalEndsFreshness(c: Cache, uri: string, first: int, second: int, now: int)
    requires second + BUDGET_WINDOW_S <= now && 0 < first <= now < first + BUDGET_WINDOW_S
    ensures var d := RecordFetchSuccess(c, first, uri);
            && second < first && HasFreshDocument(d, now, BUDGET_WINDOW_S, uri)
            && !HasFreshDocument(RecordFetchSuccess(d, second, uri), now, BUDGET_WINDOW_S, uri)
  {
    FreshnessIsPerAddress(c, first, uri, now, BUDGET_WINDOW_S, uri);
    FreshnessIsPerAddress(RecordFetchSuccess(c, first, uri), second, uri, now, BUDGET_WINDOW_S, uri);
  }

  // ---- Stamps, and what they do not protect ----

  // The time of the document the last commit or ingest took did not fall, or
  // the clock was reset.
  predicate NoOlder(before: int, after: int) {
    after >= before || before - after > CLOCK_RESET_S
  }

  lemma ArrivalKeepsStamp(c: Cache, op: Op, key: string)
    requires Valid(c) && key in c.hits && key in Apply(c, op).hits && (op.Ingest? || op.Passive?)
    ensures c.hits[key].fetchedAt <= Apply(c, op).hits[key].fetchedAt
  {
    if CacheKey(op.uri, op.kid) != key {
      IngestElsewhere(c, op, key);
    }
  }

  lemma CommitStampDoesNotFall(c: Cache, op: Op, key: string)
    requires Valid(c) && key in c.hits && key in Apply(c, op).hits
    ensures NoOlder(c.hits[key].fetchedAt, Apply(c, op).hits[key].fetchedAt)
  {
    if op.Ingest? || op.Passive? {
      ArrivalKeepsStamp(c, op, key);
    } else if !op.Commit? {
      OthersKeepStamp(c, op, key);
    }
  }

  lemma OthersKeepStamp(c: Cache, op: Op, key: string)
    requires key in c.hits && key in Apply(c, op).hits && !(op.Ingest? || op.Passive? || op.Commit?)
    ensures Apply(c, op).hits[key].fetchedAt == c.hits[key].fetchedAt
  {
  }

  function StampOf(c: Cache, key: string): int {
    if key in c.hits then c.hits[key].fetchedAt else 0
  }

  function StampsOf(c: Cache, ops: seq<Op>, key: string): (r: seq<int>)
    ensures |r| == |ops| + 1 && forall m :: 0 <= m <= |ops| ==> r[m] == StampOf(State(c, ops, m), key)
  {
    seq(|ops| + 1, m requires 0 <= m <= |ops| => StampOf(State(c, ops, m), key))
  }

  lemma OneStampOn(c: Cache, ops: seq<Op>, m: nat, key: string)
    requires Valid(c) && m < |ops| && key in State(c, ops, m).hits && key in State(c, ops, m + 1).hits
    ensures NoOlder(StampOf(State(c, ops, m), key), StampOf(State(c, ops, m + 1), key))
  {
    StateStep(c, ops, m);
    CommitStampDoesNotFall(State(c, ops, m), ops[m], key);
  }

  // While a kid stays cached and no step resets its clock, its commit stamp
  // never falls.
  lemma StampsRiseWithoutReset(c: Cache, ops: seq<Op>, i: nat, j: nat, key: string)
    requires Valid(c) && i <= j <= |ops|
    requires forall m :: i <= m <= j ==> key in State(c, ops, m).hits
    requires forall m :: i <= m < j ==> StampsOf(c, ops, key)[m] - StampsOf(c, ops, key)[m + 1] <= CLOCK_RESET_S
    ensures StampsOf(c, ops, key)[i] <= StampsOf(c, ops, key)[j]
  {
    var stamps := StampsOf(c, ops, key);
    forall m | i <= m < j ensures stamps[m] <= stamps[m + 1] {
      OneStampOn(c, ops, m, key);
    }
    RisingChain(stamps, i, j);
  }

  predicate KeysChange(c: Cache, op: Op, key: string)
    requires key in c.hits && key in Apply(c, op).hits
  {
    Apply(c, op).hits[key].keys != c.hits[key].keys
  }

  function ClockOf(op: Op): Option<int> {
    match op
    case SetFloor(_) => None
    case _ => Some(op.now)
  }

  // The operation read its clock before the entry's last commit or ingest. Keys
  // merged into the entry since leave that stamp alone, so they can be newer.
  predicate BehindStamp(c: Cache, op: Op, key: string)
    requires key in c.hits
  {
    ClockOf(op).Some? && ClockOf(op).value < c.hits[key].fetchedAt
  }

  lemma AbsenceKeepsKeys(c: Cache, op: Op, key: string)
    requires key in c.hits && key in Apply(c, op).hits && (op.ReconcileOp? || op.Absent?)
    ensures !KeysChange(c, op, key)
  {
  }

  lemma OtherOpsKeepKeys(c: Cache, op: Op, key: string)
    requires key in c.hits && key in Apply(c, op).hits
    requires !(op.Ingest? || op.Passive? || op.Commit? || op.ReconcileOp? || op.Absent?)
    ensures !KeysChange(c, op, key)
  {
  }

  lemma ArrivalElsewhereKeepsKeys(c: Cache, op: Op, key: string)
    requires Valid(c) && key in c.hits && key in Apply(c, op).hits
    requires (op.Ingest? || op.Passive?) && CacheKey(op.uri, op.kid) != key
    ensures !KeysChange(c, op, key)
  {
    IngestElsewhere(c, op, key);
  }

  lemma CommitBehindStampChanges(c: Cache, op: Op, key: string)
    requires key in c.hits && key in Apply(c, op).hits && op.Commit? && BehindStamp(c, op, key)
    ensures KeysChange(c, op, key) <==>
            && CacheKey(op.uri, op.kid) == key && op.id != 0 && op.id == c.hits[key].reservation && op.keys != []
            && RelateClock(op.now, c.hits[key].fetchedAt).Reset? && Trim(op.keys) != c.hits[key].keys
  {
  }

  lemma MergeChanges(c: Cache, op: Op, key: string)
    requires Valid(c) && key in c.hits && key in Apply(c, op).hits && op.Passive? && AllKnown(op.keys)
    requires CacheKey(op.uri, op.kid) == key
    ensures KeysChange(c, op, key) <==> exists k :: k in op.keys && !Holds(c.hits[key].keys, k)
  {
    MergeChangesExactly(c.hits[key].keys, op.keys);
  }

  // Exactly when an operation from before the stamp changes the keys of a cached
  // kid: a merge that brings a key not held, a commit after a clock reset, or an
  // authoritative ingest, which validations never issue for a cached kid.
  lemma BehindStampChangesExactly(c: Cache, op: Op, key: string)
    requires Valid(c) && key in c.hits && key in Apply(c, op).hits
    requires BehindStamp(c, op, key) && (op.Passive? ==> AllKnown(op.keys))
    ensures KeysChange(c, op, key) <==>
            match op
            case Passive(kid, keys, _, uri) =>
              CacheKey(uri, kid) == key && exists k :: k in keys && !Holds(c.hits[key].keys, k)
            case Commit(kid, id, keys, now, uri) =>
              && CacheKey(uri, kid) == key && id != 0 && id == c.hits[key].reservation && keys != []
              && RelateClock(now, c.hits[key].fetchedAt).Reset? && Trim(keys) != c.hits[key].keys
            case Ingest(kid, keys, _, uri) =>
              CacheKey(uri, kid) == key && keys != [] && Trim(keys) != c.hits[key].keys
            case _ => false
  {
    if op.Commit? {
      CommitBehindStampChanges(c, op, key);
    } else if op.Ingest? || op.Passive? {
      if CacheKey(op.uri, op.kid) != key {
        ArrivalElsewhereKeepsKeys(c, op, key);
      } else if op.Passive? {
        MergeChanges(c, op, key);
      }
    } else if op.ReconcileOp? || op.Absent? {
      AbsenceKeepsKeys(c, op, key);
    } else {
      OtherOpsKeepKeys(c, op, key);
    }
  }

  // So a sibling document that comes in late pushes newer keys out, and leaves
  // the stamp as it was: here the oldest of four keys for any older key.
  lemma LateSiblingEvictsANewerKey(c: Cache, kid: string, uri: string, stale: Jwk, now: int)
    requires Valid(c) && CacheKey(uri, kid) in c.hits && now < c.hits[CacheKey(uri, kid)].fetchedAt
    requires var have := c.hits[CacheKey(uri, kid)].keys;
             |have| == MAX_KEYS_PER_KID && Distinct(have) && AllKnown(have) && !Holds(have, stale)
    ensures var before := c.hits[CacheKey(uri, kid)];
            var after := Apply(c, Passive(kid, [stale], now, uri)).hits[CacheKey(uri, kid)];
            && after.keys == before.keys[1..] + [stale] && !Holds(after.keys, before.keys[0])
            && after.fetchedAt == before.fetchedAt
  {
    var have := c.hits[CacheKey(uri, kid)].keys;
    OneNewKey(have, stale);
    CachedKeySurvivesExactly(have, [stale], 0);
    assert (have + [stale])[1..] == have[1..] + [stale];
  }
}
