/** How old a cached key is, by the clock reading of the operation that last
    brought it, and exactly which operations take a key newer than themselves. */
module KeyAge {
  import opened Wrappers
  import opened Jwks
  import opened Lru
  import opened JwksModel
  import opened JwksMerge
  import opened JwksTrace
  import opened JwksWindows
  import opened Candidates
  import opened AuditReason
  import opened Signatures
  import opened ValidatorModel
  import opened Verdicts
  import opened Protocol

  predicate HeldAt(c: Cache, key: string, k: Jwk) {
    key in c.hits && Holds(c.hits[key].keys, k)
  }

  // ---- The operation that last brought a key ----

  predicate Carries(op: Op, key: string, k: Jwk) {
    (op.Ingest? || op.Passive? || op.Commit?) && CacheKey(op.uri, op.kid) == key && Holds(op.keys, k)
  }

  // A refused commit brings nothing, and what the cap cuts is not brought.
  predicate BringsIn(c: Cache, op: Op, key: string, k: Jwk) {
    && Carries(op, key, k)
    && (op.Commit? ==> CommitSucceeds(c, op.kid, op.id, op.keys, op.now, op.uri))
    && HeldAt(Apply(c, op), key, k)
  }

  predicate Merges(c: Cache, op: Op, key: string) {
    op.Passive? && key in c.hits
  }

  datatype Origin = Origin(at: int, merged: bool)

  function OriginOf(c: Cache, ops: seq<Op>, key: string, k: Jwk): Option<Origin> {
    if ops == [] then None
    else
      var front, last := ops[..|ops| - 1], ops[|ops| - 1];
      if BringsIn(Run(c, front), last, key, k) then Some(Origin(last.now, Merges(Run(c, front), last, key)))
      else OriginOf(c, front, key, k)
  }

  lemma HeldInTrim(keys: seq<Jwk>, k: Jwk)
    requires Holds(Trim(keys), k)
    ensures Holds(keys, k)
  {
    var i :| 0 <= i < |Trim(keys)| && Same(Trim(keys)[i], k);
    assert keys[i] == Trim(keys)[i];
  }

  lemma MergedIsOldOrCarried(have: seq<Jwk>, more: seq<Jwk>, k: Jwk)
    requires have != [] && Holds(Merged(have, more), k)
    ensures Holds(have, k) || Holds(more, k)
  {
    var all := have + Appended(have, more);
    SurvivesExactly(have, more, k);
    var i :| 0 <= i < |all| && Same(all[i], k);
    if i < |have| {
      assert have[i] == all[i];
    } else {
      AppendedAreNew(have, more, 0, i - |have|);
      var j :| 0 <= j < |more| && more[j] == all[i];
      assert Same(more[j], k);
    }
  }

  lemma ArrivalHeld(c: Cache, op: Op, key: string, k: Jwk)
    requires Valid(c) && (op.Ingest? || op.Passive?) && HeldAt(Apply(c, op), key, k) && !BringsIn(c, op, key, k)
    ensures HeldAt(c, key, k) && Apply(c, op).hits[key].fetchedAt >= c.hits[key].fetchedAt
  {
    if op.keys != [] {
      if CacheKey(op.uri, op.kid) !in c.hits {
        NewKidOutcome(c, op, key);
        if CacheKey(op.uri, op.kid) == key {
          HeldInTrim(op.keys, k);
        }
      } else if CacheKey(op.uri, op.kid) == key {
        ArrivalInPlace(c, op, key, k);
      } else {
        IngestElsewhere(c, op, key);
      }
    }
  }

  lemma ArrivalInPlace(c: Cache, op: Op, key: string, k: Jwk)
    requires Valid(c) && (op.Ingest? || op.Passive?) && op.keys != [] && CacheKey(op.uri, op.kid) == key && key in c.hits
    requires HeldAt(Apply(c, op), key, k)
    ensures Holds(c.hits[key].keys, k) || Holds(op.keys, k)
    ensures op.Ingest? ==> Holds(op.keys, k)
    ensures Apply(c, op).hits[key].fetchedAt >= c.hits[key].fetchedAt
  {
    if op.Passive? {
      MergedIsOldOrCarried(c.hits[key].keys, op.keys, k);
    } else {
      HeldInTrim(op.keys, k);
    }
  }

  lemma CommitHeld(c: Cache, op: Op, key: string, k: Jwk)
    requires op.Commit? && HeldAt(Apply(c, op), key, k) && !BringsIn(c, op, key, k)
    ensures HeldAt(c, key, k) && Apply(c, op).hits[key].fetchedAt >= c.hits[key].fetchedAt
  {
    if Commits(c, op, key, op.id) {
      HeldInTrim(op.keys, k);
    }
  }

  // A key held after an operation that did not bring it was held before.
  lemma HeldBefore(c: Cache, op: Op, key: string, k: Jwk)
    requires Valid(c) && HeldAt(Apply(c, op), key, k) && !BringsIn(c, op, key, k)
    ensures HeldAt(c, key, k) && Apply(c, op).hits[key].fetchedAt >= c.hits[key].fetchedAt
  {
    if op.Ingest? || op.Passive? {
      ArrivalHeld(c, op, key, k);
    } else if op.Commit? {
      CommitHeld(c, op, key, k);
    } else {
      OthersInventNothing(c, op, key);
      OthersKeepStamp(c, op, key);
      if op.ReconcileOp? || op.Absent? {
        AbsenceKeepsKeys(c, op, key);
      } else {
        OtherOpsKeepKeys(c, op, key);
      }
    }
  }

  lemma OthersInventNothing(c: Cache, op: Op, key: string)
    requires !(op.Ingest? || op.Passive? || op.Commit?) && key in Apply(c, op).hits
    ensures key in c.hits
  {
  }

  lemma UnmergedSetsStamp(c: Cache, op: Op, key: string, k: Jwk)
    requires Valid(c) && BringsIn(c, op, key, k) && !Merges(c, op, key)
    ensures Apply(c, op).hits[key].fetchedAt >= op.now
  {
    if (op.Ingest? || op.Passive?) && key !in c.hits {
      assert op.keys != [];
      NewKidOutcome(c, op, key);
    }
  }

  // Every cached key has been brought; and unless a merge brought it last, the
  // entry's stamp is no earlier than the moment it was brought.
  lemma {:induction false} OriginIsKnown(c: Cache, ops: seq<Op>, key: string, k: Jwk)
    requires Valid(c) && c.hits == map[] && HeldAt(Run(c, ops), key, k)
    ensures var o := OriginOf(c, ops, key, k);
            o.Some? && (!o.value.merged ==> o.value.at <= Run(c, ops).hits[key].fetchedAt)
  {
    if ops != [] {
      var front, last := ops[..|ops| - 1], ops[|ops| - 1];
      RunKeepsValid(c, front);
      if !BringsIn(Run(c, front), last, key, k) {
        HeldBefore(Run(c, front), last, key, k);
        OriginIsKnown(c, front, key, k);
      } else if !Merges(Run(c, front), last, key) {
        UnmergedSetsStamp(Run(c, front), last, key, k);
      }
    }
  }

  // ---- Exactly how a key is lost ----

  predicate Displaces(c: Cache, op: Op, key: string, i: nat)
    requires key in c.hits && i < |c.hits[key].keys|
  {
    var have := c.hits[key].keys;
    match op
    case Passive(kid, keys, _, uri) =>
      CacheKey(uri, kid) == key && |have| - i + |Appended(have, keys)| > MAX_KEYS_PER_KID
    case Commit(kid, id, keys, now, uri) =>
      CacheKey(uri, kid) == key && CommitSucceeds(c, kid, id, keys, now, uri) && !Holds(Trim(keys), have[i])
    case Ingest(kid, keys, _, uri) =>
      CacheKey(uri, kid) == key && keys != [] && !Holds(Trim(keys), have[i])
    case _ => false
  }

  // The whole kid goes, by capacity or by its second absence.
  predicate KidLeaves(c: Cache, op: Op, key: string)
    requires key in c.hits
  {
    PushedOut(c, op, key) || (Observe(c, op, key).NotSeen? && c.hits[key].absent == 1)
  }

  ghost predicate CleanEntry(c: Cache, key: string) {
    key in c.hits ==> Distinct(c.hits[key].keys) && AllKnown(c.hits[key].keys)
  }

  lemma KeptIsHeld(have: seq<Jwk>, i: nat)
    requires i < |have| && AllKnown(have)
    ensures Holds(have, have[i])
  {
    SameIsEquivalence(have[i], have[i], have[i]);
  }

  lemma KeyIsLostExactly(c: Cache, op: Op, key: string, i: nat)
    requires Valid(c) && key in c.hits && i < |c.hits[key].keys| && CleanEntry(c, key)
    ensures !HeldAt(Apply(c, op), key, c.hits[key].keys[i]) <==> KidLeaves(c, op, key) || Displaces(c, op, key, i)
  {
    WhyAKidLeaves(c, op, key);
    if key in Apply(c, op).hits {
      KeptIsHeld(c.hits[key].keys, i);
      if op.Ingest? || op.Passive? {
        LostToAnArrival(c, op, key, i);
      } else if op.ReconcileOp? || op.Absent? {
        AbsenceKeepsKeys(c, op, key);
      } else if !op.Commit? {
        OtherOpsKeepKeys(c, op, key);
      }
    }
  }

  lemma LostToAnArrival(c: Cache, op: Op, key: string, i: nat)
    requires Valid(c) && key in c.hits && i < |c.hits[key].keys| && CleanEntry(c, key) && (op.Ingest? || op.Passive?)
    requires key in Apply(c, op).hits
    ensures !Holds(Apply(c, op).hits[key].keys, c.hits[key].keys[i]) <==> Displaces(c, op, key, i)
  {
    var have := c.hits[key].keys;
    KeptIsHeld(have, i);
    if CacheKey(op.uri, op.kid) != key {
      ArrivalElsewhereKeepsKeys(c, op, key);
    } else if op.Passive? {
      CachedKeySurvivesExactly(have, op.keys, i);
    }
  }

  // ---- Keys taken by something older ----

  // The operation read its clock before the cached key was last brought.
  predicate OlderThanKey(c: Cache, ops: seq<Op>, op: Op, key: string, k: Jwk) {
    var o := OriginOf(c, ops, key, k);
    ClockOf(op).Some? && o.Some? && ClockOf(op).value < o.value.at
  }

  predicate TakesNewer(c: Cache, ops: seq<Op>, op: Op, key: string, k: Jwk) {
    OlderThanKey(c, ops, op, key, k) && HeldAt(Run(c, ops), key, k) && !HeldAt(Apply(Run(c, ops), op), key, k)
  }

  // An operation takes a key that was brought after its own clock reading
  // exactly when it displaces the key or its kid leaves. A commit does so only
  // for a key that a merge brought last, or after a reset of the clock.
  lemma NewerKeyTakenExactly(c: Cache, ops: seq<Op>, op: Op, key: string, i: nat, d: Cache)
    requires Valid(c) && c.hits == map[] && d == Run(c, ops)
    requires key in d.hits && i < |d.hits[key].keys| && CleanEntry(d, key)
    ensures var k := d.hits[key].keys[i];
            && OriginOf(c, ops, key, k).Some?
            && (TakesNewer(c, ops, op, key, k) <==>
                  OlderThanKey(c, ops, op, key, k) && (KidLeaves(d, op, key) || Displaces(d, op, key, i)))
            && (TakesNewer(c, ops, op, key, k) && op.Commit? ==>
                  OriginOf(c, ops, key, k).value.merged || RelateClock(op.now, d.hits[key].fetchedAt).Reset?)
  {
    RunKeepsValid(c, ops);
    KeptIsHeld(d.hits[key].keys, i);
    OriginIsKnown(c, ops, key, d.hits[key].keys[i]);
    KeyIsLostExactly(d, op, key, i);
  }

  // The failing input without any clock reset: a refresh that began earlier
  // commits after a later document has merged a key, takes that key, and
  // reports it as revoked.
  lemma EarlierCommitTakesAMergedKey(c: Cache, kid: string, uri: string, id: nat, k1: Jwk, k2: Jwk, early: int, later: int)
    requires Valid(c) && KnownKty(k1) && KnownKty(k2) && !Same(k1, k2) && early < later && id != 0
    requires var key := CacheKey(uri, kid);
             key in c.hits && c.hits[key].keys == [k1] && c.hits[key].reservation == id && c.hits[key].fetchedAt <= early
    ensures var key := CacheKey(uri, kid);
            var merge, commit := Passive(kid, [k2], later, uri), Commit(kid, id, [k1], early, uri);
            var d := Apply(c, merge);
            && BringsIn(c, merge, key, k2) && d.hits[key].keys == [k1, k2]
            && CommitSucceeds(d, kid, id, [k1], early, uri) && !RelateClock(early, d.hits[key].fetchedAt).Reset?
            && Apply(d, commit).hits[key].keys == [k1] && !HeldAt(Apply(d, commit), key, k2)
            && CommitReason([k1], d.hits[key].keys, true).Revoked?
  {
    var key := CacheKey(uri, kid);
    var d := Apply(c, Passive(kid, [k2], later, uri));
    assert !Holds([k1], k2);
    OneNewKey([k1], k2);
    assert AddMissing([k1], [k2]) == [k1, k2];
    SameIsEquivalence(k1, k1, k2);
    SameIsEquivalence(k2, k2, k1);
    assert d.hits[key].keys == [k1, k2];
    assert [k1, k2][0] == k1 && [k1, k2][1] == k2;
    assert Same([k2][0], k2);
    assert !HasNew([k1], [k1, k2]) && !Holds([k1], [k1, k2][1]);
  }

  // ---- In every run the cached keys are distinct and of known type ----

  predicate CleanKeys(keys: seq<Jwk>) {
    Distinct(keys) && AllKnown(keys)
  }

  predicate CleanOp(op: Op) {
    op.Ingest? || op.Passive? || op.Commit? ==> CleanKeys(op.keys)
  }

  lemma {:induction false} AddingKeepsClean(have: seq<Jwk>, more: seq<Jwk>)
    requires CleanKeys(have) && AllKnown(more)
    ensures CleanKeys(AddMissing(have, more))
    decreases more
  {
    if more != [] {
      AddingKeepsClean(if Holds(have, more[0]) then have else have + [more[0]], more[1..]);
    }
  }

  lemma ArrivalKeepsClean(c: Cache, op: Op, key: string)
    requires Valid(c) && CleanEntry(c, key) && CleanOp(op) && (op.Ingest? || op.Passive?)
    ensures CleanEntry(Apply(c, op), key)
  {
    if op.keys != [] {
      if CacheKey(op.uri, op.kid) !in c.hits {
        NewKidOutcome(c, op, key);
      } else if CacheKey(op.uri, op.kid) != key {
        IngestElsewhere(c, op, key);
      } else if op.Passive? {
        AddingKeepsClean(c.hits[key].keys, op.keys);
      }
    }
  }

  lemma OpKeepsClean(c: Cache, op: Op, key: string)
    requires Valid(c) && CleanEntry(c, key) && CleanOp(op)
    ensures CleanEntry(Apply(c, op), key)
  {
    if op.Ingest? || op.Passive? {
      ArrivalKeepsClean(c, op, key);
    } else if !op.Commit? && key in Apply(c, op).hits {
      OthersInventNothing(c, op, key);
      if op.ReconcileOp? || op.Absent? {
        AbsenceKeepsKeys(c, op, key);
      } else {
        OtherOpsKeepKeys(c, op, key);
      }
    }
  }

  lemma {:induction false} CleanOpsKeepClean(c: Cache, ops: seq<Op>, key: string)
    requires Valid(c) && c.hits == map[] && forall op :: op in ops ==> CleanOp(op)
    ensures CleanEntry(Run(c, ops), key)
  {
    if ops != [] {
      var front, last := ops[..|ops| - 1], ops[|ops| - 1];
      assert last in ops && forall op :: op in front ==> op in ops;
      CleanOpsKeepClean(c, front, key);
      RunKeepsValid(c, front);
      OpKeepsClean(Run(c, front), last, key);
    }
  }

  lemma PermutedIsClean(a: seq<Jwk>, b: seq<Jwk>)
    requires CleanKeys(a) && multiset(a) == multiset(b)
    ensures CleanKeys(b)
  {
    forall i | 0 <= i < |b| ensures KnownKty(b[i]) {
      assert b[i] in multiset(b) && b[i] in a;
    }
    forall i, j | 0 <= i < j < |b| ensures !Same(b[i], b[j]) {
      TwoPlaces(a, b, i, j);
    }
  }

  lemma TwoPlaces(a: seq<Jwk>, b: seq<Jwk>, i: nat, j: nat)
    requires CleanKeys(a) && multiset(a) == multiset(b) && i < j < |b|
    ensures !Same(b[i], b[j])
  {
    assert b[i] in multiset(b) && b[j] in multiset(b);
    var m :| 0 <= m < |a| && a[m] == b[i];
    var n :| 0 <= n < |a| && a[n] == b[j];
    SameIsEquivalence(a[m], a[n], a[m]);
    if b[i] == b[j] {
      OnceOnly(a, b[i]);
      Twice(b, i, j);
    }
  }

  lemma {:induction false} OnceOnly(a: seq<Jwk>, k: Jwk)
    requires CleanKeys(a)
    ensures multiset(a)[k] <= 1
  {
    if a != [] {
      var front, last := a[..|a| - 1], a[|a| - 1];
      assert a == front + [last];
      OnceOnly(front, k);
      forall i | 0 <= i < |front| ensures front[i] != last {
        assert front[i] == a[i];
        SameIsEquivalence(last, last, last);
      }
    }
  }

  lemma Twice(b: seq<Jwk>, i: nat, j: nat)
    requires i < j < |b| && b[i] == b[j]
    ensures multiset(b)[b[i]] >= 2
  {
    assert b == b[..j] + [b[j]] + b[j + 1..];
    assert b[..j][i] == b[i];
  }

  lemma {:induction false} PassivesAreClean(cr: Crypto, call: Call, keys: seq<Jwk>, order: seq<string>, skip: string, op: Op)
    requires WellFormed(Document(keys)) && op in PassiveOps(cr, call, keys, order, skip)
    ensures CleanOp(op)
  {
    var front, kid := order[..|order| - 1], order[|order| - 1];
    if op in PassiveOps(cr, call, keys, front, skip) {
      PassivesAreClean(cr, call, keys, front, skip, op);
    } else {
      ScreenedAreKnown(cr, keys, kid);
    }
  }

  lemma {:induction false} ColdOnesAreClean(cr: Crypto, call: Call, keys: seq<Jwk>, order: seq<string>, op: Op)
    requires call.header.Some? && WellFormed(Document(keys)) && op in ColdPassiveOps(cr, call, keys, order)
    ensures CleanOp(op)
  {
    var front, kid := order[..|order| - 1], order[|order| - 1];
    if op in ColdPassiveOps(cr, call, keys, front) {
      ColdOnesAreClean(cr, call, keys, front, op);
    } else {
      var usable := Screen(cr, Filed(keys, kid));
      ScreenedAreKnown(cr, keys, kid);
      PreparedIsPermutation(cr, call, call.header.value.alg, usable, []);
      PermutedIsClean(usable, Prioritized(cr, call, call.header.value.alg, usable));
    }
  }

  lemma CommitIsClean(cr: Crypto, c: Cache, call: Call, id: nat, keys: seq<Jwk>, op: Op)
    requires call.header.Some? && WellFormed(Document(keys)) && op in TargetOps(cr, c, call, id, keys)
    ensures CleanOp(op)
  {
    var kid := call.header.value.kid;
    ScreenedAreKnown(cr, keys, kid);
    PreparedIsPermutation(cr, call, call.header.value.alg, Screen(cr, Filed(keys, kid)), Live(c, call.uri, kid));
    PermutedIsClean(Screen(cr, Filed(keys, kid)), PreparedKeys(cr, c, call, keys));
  }

  lemma FinishIsClean(cr: Crypto, c: Cache, p: Pending, answer: Answer, order: seq<string>, op: Op)
    requires WellFormed(answer) && op in FinishOps(cr, c, p, answer, order)
    ensures CleanOp(op)
  {
    if p.call.header.Some? && answer.Document? {
      if p.Refreshing? {
        if op in TargetOps(cr, c, p.call, p.id, answer.keys) {
          CommitIsClean(cr, c, p.call, p.id, answer.keys, op);
        } else if op in PassiveOps(cr, p.call, answer.keys, order, p.call.header.value.kid) {
          PassivesAreClean(cr, p.call, answer.keys, order, p.call.header.value.kid, op);
        }
      } else if op in ColdPassiveOps(cr, p.call, answer.keys, order) {
        ColdOnesAreClean(cr, p.call, answer.keys, order, op);
      }
    }
  }

  lemma {:induction false} RunsAreClean(cr: Crypto, w: World, steps: seq<Step>)
    requires Possible(cr, w, steps)
    ensures forall op :: op in Trace(cr, w, steps) ==> CleanOp(op)
  {
    if steps != [] {
      var front, last := steps[..|steps| - 1], steps[|steps| - 1];
      RunsAreClean(cr, w, front);
      var v := After(cr, w, front);
      forall op | op in StepOps(cr, v, last) ensures CleanOp(op) {
        if last.Finish? && last.tid in v.pending {
          FinishIsClean(cr, v.cache, v.pending[last.tid], last.answer, last.order, op);
        }
      }
    }
  }

  // Over every interleaving: the m-th operation of the run takes a cached key
  // brought after its own clock reading exactly as stated above.
  lemma NewerKeyTakenInARun(cr: Crypto, w: World, steps: seq<Step>, m: nat, key: string, i: nat, d: Cache)
    requires Initial(w) && Possible(cr, w, steps) && m < |Trace(cr, w, steps)|
    requires d == State(w.cache, Trace(cr, w, steps), m) && key in d.hits && i < |d.hits[key].keys|
    ensures var ops, k := Trace(cr, w, steps), d.hits[key].keys[i];
            && OriginOf(w.cache, ops[..m], key, k).Some?
            && (TakesNewer(w.cache, ops[..m], ops[m], key, k) <==>
                  && OlderThanKey(w.cache, ops[..m], ops[m], key, k)
                  && (KidLeaves(d, ops[m], key) || Displaces(d, ops[m], key, i)))
            && (TakesNewer(w.cache, ops[..m], ops[m], key, k) && ops[m].Commit? ==>
                  OriginOf(w.cache, ops[..m], key, k).value.merged || RelateClock(ops[m].now, d.hits[key].fetchedAt).Reset?)
  {
    var ops := Trace(cr, w, steps);
    RunsAreClean(cr, w, steps);
    CleanOpsKeepClean(w.cache, ops[..m], key);
    NewerKeyTakenExactly(w.cache, ops[..m], ops[m], key, i, d);
  }
}
