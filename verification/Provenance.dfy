/** Where cached keys come from, and with them every good verdict of a run. */
module Provenance {
  import opened Wrappers
  import opened Jwks
  import opened JwksModel
  import opened JwksTrace
  import opened Signatures
  import opened Candidates
  import opened AuditReason
  import opened ValidatorModel
  import opened Protocol
  import opened Verdicts

  // The operation brings the key for the entry.
  predicate Brings(op: Op, key: string, k: Jwk) {
    (op.Ingest? || op.Passive? || op.Commit?) && CacheKey(op.uri, op.kid) == key && k in op.keys
  }

  predicate Cached(c: Cache, key: string, k: Jwk) {
    key in c.hits && k in c.hits[key].keys
  }

  lemma {:induction false} AddedKeysAreOldOrNew(have: seq<Jwk>, more: seq<Jwk>)
    ensures forall k :: k in AddMissing(have, more) ==> k in have || k in more
    decreases more
  {
    if more != [] {
      AddedKeysAreOldOrNew(if Holds(have, more[0]) then have else have + [more[0]], more[1..]);
      assert forall k :: k in more[1..] ==> k in more;
    }
  }

  lemma IngestCaches(c: Cache, op: Op, key: string, k: Jwk)
    requires Valid(c) && (op.Ingest? || op.Passive?) && CacheKey(op.uri, op.kid) !in c.hits
    requires Cached(Apply(c, op), key, k)
    ensures Cached(c, key, k) || Brings(op, key, k)
  {
    if op.keys != [] {
      NewKidOutcome(c, op, key);
    }
  }

  lemma OpCaches(c: Cache, op: Op, key: string, k: Jwk)
    requires Valid(c) && Cached(Apply(c, op), key, k)
    ensures Cached(c, key, k) || Brings(op, key, k)
  {
    if (op.Ingest? || op.Passive?) && CacheKey(op.uri, op.kid) !in c.hits {
      IngestCaches(c, op, key, k);
    } else if op.Passive? {
      MergeCaches(c, op, key, k);
    } else if !op.Ingest? && !op.Commit? {
      OthersCacheNothing(c, op, key, k);
    }
  }

  lemma OthersCacheNothing(c: Cache, op: Op, key: string, k: Jwk)
    requires !(op.Ingest? || op.Passive? || op.Commit?) && Cached(Apply(c, op), key, k)
    ensures Cached(c, key, k)
  {
  }

  lemma MergeCaches(c: Cache, op: Op, key: string, k: Jwk)
    requires op.Passive? && CacheKey(op.uri, op.kid) in c.hits && Cached(Apply(c, op), key, k)
    ensures Cached(c, key, k) || Brings(op, key, k)
  {
    if CacheKey(op.uri, op.kid) == key {
      AddedKeysAreOldOrNew(c.hits[key].keys, op.keys);
    }
  }

  lemma {:induction false} OpsCache(c: Cache, ops: seq<Op>, key: string, k: Jwk)
    requires Valid(c) && Cached(Run(c, ops), key, k)
    ensures Cached(c, key, k) || exists op :: op in ops && Brings(op, key, k)
  {
    if ops != [] {
      var front, last := ops[..|ops| - 1], ops[|ops| - 1];
      RunKeepsValid(c, front);
      OpCaches(Run(c, front), last, key, k);
      assert last in ops && forall op :: op in front ==> op in ops;
      if Cached(Run(c, front), key, k) {
        OpsCache(c, front, key, k);
      }
    }
  }

  // ---- What a fetched document brings ----

  // The document files the key, usable and for signing, under the entry's kid.
  predicate Publishes(cr: Crypto, uri: string, answer: Answer, key: string, k: Jwk) {
    && answer.Document? && k in answer.keys && (k.use == "" || k.use == "sig") && cr.usable(k)
    && key == CacheKey(uri, k.kid)
  }

  lemma {:induction false} PassivesPublish(cr: Crypto, call: Call, keys: seq<Jwk>, order: seq<string>,
                                           skip: string, op: Op, key: string, k: Jwk)
    requires op in PassiveOps(cr, call, keys, order, skip) && Brings(op, key, k)
    ensures Publishes(cr, call.uri, Document(keys), key, k)
  {
    var front, kid := order[..|order| - 1], order[|order| - 1];
    if op in PassiveOps(cr, call, keys, front, skip) {
      PassivesPublish(cr, call, keys, front, skip, op, key, k);
    } else {
      ScreenKeeps(cr, Filed(keys, kid));
    }
  }

  lemma {:induction false} ColdOnesPublish(cr: Crypto, call: Call, keys: seq<Jwk>, order: seq<string>, op: Op,
                                           key: string, k: Jwk)
    requires call.header.Some? && op in ColdPassiveOps(cr, call, keys, order) && Brings(op, key, k)
    ensures Publishes(cr, call.uri, Document(keys), key, k)
  {
    var front, kid := order[..|order| - 1], order[|order| - 1];
    if op in ColdPassiveOps(cr, call, keys, front) {
      ColdOnesPublish(cr, call, keys, front, op, key, k);
    } else {
      var usable := Screen(cr, Filed(keys, kid));
      ScreenKeeps(cr, Filed(keys, kid));
      PreparedIsPermutation(cr, call, call.header.value.alg, usable, []);
      assert k in multiset(ColdKeys(cr, call, keys, kid));
    }
  }

  lemma CommitPublishes(cr: Crypto, c: Cache, call: Call, id: nat, keys: seq<Jwk>, op: Op, key: string, k: Jwk)
    requires call.header.Some? && op in TargetOps(cr, c, call, id, keys) && Brings(op, key, k)
    ensures Publishes(cr, call.uri, Document(keys), key, k)
  {
    PreparedAreScreened(cr, c, call, keys, k);
    ScreenKeeps(cr, Filed(keys, call.header.value.kid));
  }

  lemma PreparedAreScreened(cr: Crypto, c: Cache, call: Call, keys: seq<Jwk>, k: Jwk)
    requires call.header.Some? && k in PreparedKeys(cr, c, call, keys)
    ensures k in Screen(cr, Filed(keys, call.header.value.kid))
  {
    var kid := call.header.value.kid;
    PreparedIsPermutation(cr, call, call.header.value.alg, Screen(cr, Filed(keys, kid)), Live(c, call.uri, kid));
    assert k in multiset(PreparedKeys(cr, c, call, keys));
  }

  lemma FinishPublishes(cr: Crypto, c: Cache, p: Pending, answer: Answer, order: seq<string>, op: Op, key: string, k: Jwk)
    requires op in FinishOps(cr, c, p, answer, order) && Brings(op, key, k)
    ensures Publishes(cr, p.call.uri, answer, key, k)
  {
    match p
    case Refreshing(call, id, _) =>
      if op in TargetOps(cr, c, call, id, answer.keys) {
        CommitPublishes(cr, c, call, id, answer.keys, op, key, k);
      } else {
        PassivesPublish(cr, call, answer.keys, order, call.header.value.kid, op, key, k);
      }
    case Missed(call) =>
      ColdOnesPublish(cr, call, answer.keys, order, op, key, k);
  }

  // The step brings a document that publishes the key for the entry.
  predicate StepPublishes(cr: Crypto, w: World, s: Step, key: string, k: Jwk) {
    s.Finish? && s.tid in w.pending && Publishes(cr, w.pending[s.tid].call.uri, s.answer, key, k)
  }

  // Some step of the run has published the key for the entry.
  predicate Published(cr: Crypto, w: World, steps: seq<Step>, key: string, k: Jwk) {
    if steps == [] then false
    else
      var front := steps[..|steps| - 1];
      Published(cr, w, front, key, k) || StepPublishes(cr, After(cr, w, front), steps[|steps| - 1], key, k)
  }

  lemma StepCaches(cr: Crypto, w: World, s: Step, key: string, k: Jwk)
    requires Valid(w.cache) && Cached(Next(cr, w, s).cache, key, k)
    ensures Cached(w.cache, key, k) || StepPublishes(cr, w, s, key, k)
  {
    OpsCache(w.cache, StepOps(cr, w, s), key, k);
    if !Cached(w.cache, key, k) {
      var op :| op in StepOps(cr, w, s) && Brings(op, key, k);
      FinishPublishes(cr, w.cache, w.pending[s.tid], s.answer, s.order, op, key, k);
    }
  }

  // In every interleaving, a cached key was published, for signing and usable,
  // under the entry's kid, in a document fetched from the entry's address.
  lemma {:induction false} CachedKeysWerePublished(cr: Crypto, w: World, steps: seq<Step>, key: string, k: Jwk)
    requires Initial(w) && Cached(After(cr, w, steps).cache, key, k)
    ensures Published(cr, w, steps, key, k)
  {
    if steps != [] {
      var front := steps[..|steps| - 1];
      EveryRunIsATrace(cr, w, front);
      StepCaches(cr, After(cr, w, front), steps[|steps| - 1], key, k);
      if Cached(After(cr, w, front).cache, key, k) {
        CachedKeysWerePublished(cr, w, front, key, k);
      }
    }
  }

  // ---- Verdicts of a run ----

  // The verdict a step reaches, and the validation it reaches it for.
  datatype Reached = Reached(call: Call, verdict: Verdict)

  function StepVerdict(cr: Crypto, w: World, s: Step): Option<Reached> {
    match s
    case Start(_, call) =>
      var o := Begin(cr, w.cache, call);
      if o.Done? then Some(Reached(call, o.verdict)) else None
    case Finish(tid, answer, order) =>
      if tid !in w.pending || w.pending[tid].call.header.None? then None
      else (match w.pending[tid]
            case Refreshing(call, id, cached) =>
              Some(Reached(call, RefreshVerdict(cr, w.cache, call, id, cached, answer, order)))
            case Missed(call) => Some(Reached(call, ColdVerdict(cr, w.cache, call, answer, order))))
    case Configure(_) => None
  }

  // A refresh is pending only for a token that the cached keys refused.
  ghost predicate PendingWereRefused(w: World) {
    forall tid | tid in w.pending :: w.pending[tid].Refreshing? ==> !SignatureHolds(w.pending[tid].cached)
  }

  lemma {:induction false} RefreshesWereRefused(cr: Crypto, w: World, steps: seq<Step>)
    requires Initial(w)
    ensures PendingWereRefused(After(cr, w, steps))
  {
    if steps != [] {
      var front, last := steps[..|steps| - 1], steps[|steps| - 1];
      RefreshesWereRefused(cr, w, front);
      EveryRunIsATrace(cr, w, front);
      if last.Start? {
        AnswerFromTheCache(cr, After(cr, w, front).cache, last.call);
      }
    }
  }

  // A published key for the token's kid, with a fitting header, gave the verdict.
  ghost predicate Justified(cr: Crypto, w: World, steps: seq<Step>, r: Reached) {
    r.call.header.Some? &&
    exists k :: Published(cr, w, steps, KeyFor(r.call), k)
                && HeaderFits(k, r.call.header.value.alg) && cr.verify(r.call, k) == r.verdict
  }

  // The key behind a good verdict: cached before or after the step, or
  // published by it.
  lemma StepVerdictHasAKey(cr: Crypto, w: World, s: Step) returns (k: Jwk)
    requires Valid(w.cache) && PendingWereRefused(w)
    requires StepVerdict(cr, w, s).Some? && SignatureHolds(StepVerdict(cr, w, s).value.verdict)
    ensures var r := StepVerdict(cr, w, s).value;
            && r.call.header.Some? && HeaderFits(k, r.call.header.value.alg) && cr.verify(r.call, k) == r.verdict
            && (Cached(w.cache, KeyFor(r.call), k) || Cached(Next(cr, w, s).cache, KeyFor(r.call), k)
                || StepPublishes(cr, w, s, KeyFor(r.call), k))
  {
    var r := StepVerdict(cr, w, s).value;
    match s {
      case Start(_, call) =>
        AnswerFromTheCache(cr, w.cache, call);
        k := LiveKeyBehind(cr, w.cache, call, r.verdict);
      case Finish(tid, answer, order) =>
        match w.pending[tid] {
          case Refreshing(call, id, cached) => k := RefreshVerdictHasAKey(cr, w.cache, call, id, cached, answer, order);
          case Missed(call) => k := ColdVerdictHasAKey(cr, w.cache, call, answer, order);
        }
    }
  }

  lemma RefreshVerdictHasAKey(cr: Crypto, c: Cache, call: Call, id: nat, cached: Verdict, answer: Answer, order: seq<string>)
    returns (k: Jwk)
    requires call.header.Some? && !SignatureHolds(cached)
    requires SignatureHolds(RefreshVerdict(cr, c, call, id, cached, answer, order))
    ensures HeaderFits(k, call.header.value.alg)
    ensures cr.verify(call, k) == RefreshVerdict(cr, c, call, id, cached, answer, order)
    ensures Cached(AfterRefresh(cr, c, call, id, answer, order), KeyFor(call), k)
            || Publishes(cr, call.uri, answer, KeyFor(call), k)
  {
    AnswerAfterRefresh(cr, c, call, id, cached, answer, order);
    if CommittedVerdict(cr, c, call, id, answer.keys).Some? {
      k := CommittedVerdictIsStored(cr, c, call, id, answer.keys);
    } else {
      k := LiveKeyBehind(cr, AfterRefresh(cr, c, call, id, answer, order), call,
                         RefreshVerdict(cr, c, call, id, cached, answer, order));
    }
  }

  lemma LiveKeyBehind(cr: Crypto, c: Cache, call: Call, v: Verdict) returns (k: Jwk)
    requires call.header.Some? && Backed(cr, call, Live(c, call.uri, call.header.value.kid), v)
    ensures Cached(c, KeyFor(call), k) && HeaderFits(k, call.header.value.alg) && cr.verify(call, k) == v
  {
    k :| k in Live(c, call.uri, call.header.value.kid) && HeaderFits(k, call.header.value.alg) && cr.verify(call, k) == v;
  }

  lemma ColdVerdictHasAKey(cr: Crypto, c: Cache, call: Call, answer: Answer, order: seq<string>) returns (k: Jwk)
    requires call.header.Some? && SignatureHolds(ColdVerdict(cr, c, call, answer, order))
    ensures HeaderFits(k, call.header.value.alg) && cr.verify(call, k) == ColdVerdict(cr, c, call, answer, order)
    ensures Cached(Run(c, ColdOps(cr, c, call, answer, order)), KeyFor(call), k)
            || Publishes(cr, call.uri, answer, KeyFor(call), k)
  {
    var v, kid, alg := ColdVerdict(cr, c, call, answer, order), call.header.value.kid, call.header.value.alg;
    AnswerAfterMiss(cr, c, call, answer, order);
    if Backed(cr, call, Live(Run(c, ColdIngestOps(cr, call, answer.keys, order)), call.uri, kid), v) {
      k := LiveKeyBehind(cr, Run(c, ColdIngestOps(cr, call, answer.keys, order)), call, v);
    } else {
      k :| FiledIn(cr, answer.keys, kid, k) && HeaderFits(k, alg) && cr.verify(call, k) == v;
    }
  }

  // In every interleaving, every good verdict, on any of the three paths, is
  // that of a key with a fitting header which a document fetched from the
  // configured address has published under the token's own kid.
  lemma GoodVerdictsRestOnPublishedKeys(cr: Crypto, w: World, steps: seq<Step>)
    requires Initial(w) && steps != []
    requires var r := StepVerdict(cr, After(cr, w, steps[..|steps| - 1]), steps[|steps| - 1]);
             r.Some? && SignatureHolds(r.value.verdict)
    ensures Justified(cr, w, steps, StepVerdict(cr, After(cr, w, steps[..|steps| - 1]), steps[|steps| - 1]).value)
  {
    var front, s := steps[..|steps| - 1], steps[|steps| - 1];
    var v := After(cr, w, front);
    EveryRunIsATrace(cr, w, front);
    RefreshesWereRefused(cr, w, front);
    var k := StepVerdictHasAKey(cr, v, s);
    var key := KeyFor(StepVerdict(cr, v, s).value.call);
    if Cached(v.cache, key, k) {
      CachedKeysWerePublished(cr, w, front, key, k);
    } else if Cached(Next(cr, v, s).cache, key, k) {
      CachedKeysWerePublished(cr, w, steps, key, k);
    }
  }

  // ---- What a commit revokes ----

  lemma CommitLeavesItsKeys(c: Cache, op: Op, key: string, id: nat, k: Jwk)
    requires Commits(c, op, key, id) && Cached(Apply(c, op), key, k)
    ensures k in op.keys
  {
  }

  lemma CachedSinceACommit(c: Cache, ops: seq<Op>, m: nat, key: string, id: nat, k: Jwk)
    requires Valid(c) && m < |ops| && Commits(State(c, ops, m), ops[m], key, id) && Cached(Run(c, ops), key, k)
    ensures k in ops[m].keys || exists n :: m < n < |ops| && Brings(ops[n], key, k)
  {
    var d, rest := Run(c, ops[..m + 1]), ops[m + 1..];
    StateStep(c, ops, m);
    RunFrom(c, ops, m + 1, d, rest);
    CachedSince(State(c, ops, m), ops[m], d, rest, key, id, k);
    if k !in ops[m].keys {
      BroughtLater(ops, m + 1, rest, key, k);
    }
  }

  lemma RunFrom(c: Cache, ops: seq<Op>, n: nat, d: Cache, rest: seq<Op>)
    requires n <= |ops| && d == Run(c, ops[..n]) && rest == ops[n..]
    ensures Run(c, ops) == Run(d, rest)
  {
    assert ops == ops[..n] + rest;
    RunConcat(c, ops[..n], rest);
  }

  lemma BroughtLater(ops: seq<Op>, n: nat, rest: seq<Op>, key: string, k: Jwk)
    requires n <= |ops| && rest == ops[n..] && exists x :: 0 <= x < |rest| && Brings(rest[x], key, k)
    ensures exists m :: n <= m < |ops| && Brings(ops[m], key, k)
  {
    var x :| 0 <= x < |rest| && Brings(rest[x], key, k);
    assert ops[n + x] == rest[x];
  }

  lemma CachedSince(c: Cache, op: Op, d: Cache, rest: seq<Op>, key: string, id: nat, k: Jwk)
    requires Valid(d) && Commits(c, op, key, id) && d == Apply(c, op) && Cached(Run(d, rest), key, k)
    ensures k in op.keys || exists x :: 0 <= x < |rest| && Brings(rest[x], key, k)
  {
    OpsCache(d, rest, key, k);
    if Cached(d, key, k) {
      CommitLeavesItsKeys(c, op, key, id, k);
    }
  }

  // In every interleaving, once a commit has taken effect, every later good
  // verdict for its kid is that of a key it stored, of a key stored since, or of
  // a key the document of that very step publishes: what the commit left out
  // vouches for nothing until it is published again.
  lemma VerdictsAfterACommit(cr: Crypto, w: World, steps: seq<Step>, s: Step, m: nat, id: nat) returns (k: Jwk)
    requires Initial(w)
    requires var r := StepVerdict(cr, After(cr, w, steps), s);
             r.Some? && r.value.call.header.Some? && SignatureHolds(r.value.verdict)
    requires var ops, r := Trace(cr, w, steps), StepVerdict(cr, After(cr, w, steps), s).value;
             m < |ops| && Commits(State(w.cache, ops, m), ops[m], KeyFor(r.call), id)
    ensures var v, ops := After(cr, w, steps), Trace(cr, w, steps);
            var r := StepVerdict(cr, v, s).value;
            && HeaderFits(k, r.call.header.value.alg) && cr.verify(r.call, k) == r.verdict
            && (|| k in ops[m].keys
                || (exists n :: m < n < |ops| && Brings(ops[n], KeyFor(r.call), k))
                || StepPublishes(cr, v, s, KeyFor(r.call), k))
  {
    var v := After(cr, w, steps);
    EveryRunIsATrace(cr, w, steps);
    RefreshesWereRefused(cr, w, steps);
    k := StepVerdictHasAKey(cr, v, s);
    var key := KeyFor(StepVerdict(cr, v, s).value.call);
    if Cached(Next(cr, v, s).cache, key, k) {
      StepCaches(cr, v, s, key, k);
    }
    if Cached(v.cache, key, k) {
      CachedSinceACommit(w.cache, Trace(cr, w, steps), m, key, id, k);
    }
  }
}
