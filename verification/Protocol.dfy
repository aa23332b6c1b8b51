/** Any number of validations at once: the lock is dropped during a fetch, so
    other validations run between the two halves of one. */
module Protocol {
  import opened Wrappers
  import opened Jwks
  import opened JwksModel
  import opened JwksTrace
  import opened Signatures
  import opened ValidatorModel

  datatype Pending = Refreshing(call: Call, id: nat, cached: Verdict) | Missed(call: Call)

  datatype World = World(cache: Cache, pending: map<nat, Pending>)

  // A validation up to its fetch, one from its fetch on, or a new setting.
  datatype Step =
    | Start(tid: nat, call: Call)
    | Finish(tid: nat, answer: Answer, order: seq<string>)
    | Configure(minRefresh: int)

  ghost predicate Enabled(w: World, s: Step) {
    match s
    case Start(tid, _) => tid !in w.pending
    case Finish(tid, answer, order) =>
      tid in w.pending && WellFormed(answer) && (answer.Document? ==> Enumerates(order, answer.keys))
    case Configure(_) => true
  }

  function FinishOps(cr: Crypto, c: Cache, p: Pending, answer: Answer, order: seq<string>): seq<Op> {
    if p.call.header.None? then []
    else match p
      case Refreshing(call, id, _) => RefreshOps(cr, c, call, id, answer, order)
      case Missed(call) => ColdOps(cr, c, call, answer, order)
  }

  function StepOps(cr: Crypto, w: World, s: Step): seq<Op> {
    match s
    case Start(tid, call) => BeginOps(call, Begin(cr, w.cache, call))
    case Finish(tid, answer, order) =>
      if tid in w.pending then FinishOps(cr, w.cache, w.pending[tid], answer, order) else []
    case Configure(seconds) => [SetFloor(seconds)]
  }

  function NowPending(cr: Crypto, w: World, s: Step): map<nat, Pending> {
    match s
    case Start(tid, call) =>
      (match Begin(cr, w.cache, call)
       case Done(_, _) => w.pending
       case FetchForRefresh(id, cached) => w.pending[tid := Refreshing(call, id, cached)]
       case FetchForMiss => w.pending[tid := Missed(call)])
    case Finish(tid, _, _) => w.pending - {tid}
    case Configure(_) => w.pending
  }

  function Next(cr: Crypto, w: World, s: Step): World {
    World(Run(w.cache, StepOps(cr, w, s)), NowPending(cr, w, s))
  }

  function After(cr: Crypto, w: World, steps: seq<Step>): World {
    if steps == [] then w else Next(cr, After(cr, w, steps[..|steps| - 1]), steps[|steps| - 1])
  }

  ghost predicate Possible(cr: Crypto, w: World, steps: seq<Step>) {
    steps == [] || (Possible(cr, w, steps[..|steps| - 1])
                    && Enabled(After(cr, w, steps[..|steps| - 1]), steps[|steps| - 1]))
  }

  // All cache operations of a run, in the order in which they happen.
  function Trace(cr: Crypto, w: World, steps: seq<Step>): seq<Op> {
    if steps == [] then []
    else
      var front := steps[..|steps| - 1];
      Trace(cr, w, front) + StepOps(cr, After(cr, w, front), steps[|steps| - 1])
  }

  ghost predicate Initial(w: World) {
    Valid(w.cache) && w.cache.hits == map[] && w.cache.lastGlobalFetch <= 0 && w.pending == map[]
  }

  // Every interleaving drives the cache through one sequence of operations, so
  // what holds of all sequences holds of all interleavings.
  lemma {:induction false} EveryRunIsATrace(cr: Crypto, w: World, steps: seq<Step>)
    ensures After(cr, w, steps).cache == Run(w.cache, Trace(cr, w, steps))
    ensures Valid(w.cache) ==> Valid(After(cr, w, steps).cache)
  {
    if steps != [] {
      var front := steps[..|steps| - 1];
      EveryRunIsATrace(cr, w, front);
      RunConcat(w.cache, Trace(cr, w, front), StepOps(cr, After(cr, w, front), steps[|steps| - 1]));
    }
    if Valid(w.cache) {
      RunKeepsValid(w.cache, Trace(cr, w, steps));
    }
  }

  // ---- What a pending refresh may rely on ----

  function KeyFor(call: Call): string
    requires call.header.Some?
  {
    CacheKey(call.uri, call.header.value.kid)
  }

  predicate Named(call: Call) {
    call.header.Some? && call.header.value.kid != ""
  }

  // The identifier was handed out, is never current for another kid, and while
  // it is current the entry still carries the time of this very grant.
  ghost predicate HoldsGrant(c: Cache, p: Pending) {
    && Named(p.call)
    && (p.Refreshing? ==>
          && 0 < p.id < c.nextId
          && forall key :: Current(c, key, p.id) ==> key == KeyFor(p.call) && c.hits[key].lastAttempt == p.call.now)
  }

  ghost predicate GrantsHeld(w: World) {
    Valid(w.cache) && forall tid :: tid in w.pending ==> HoldsGrant(w.cache, w.pending[tid])
  }

  // ---- Absence reports come from the holder, with the time of its grant ----

  predicate StampKept(c: Cache, op: Op) {
    op.Absent? && CacheKey(op.uri, op.kid) in c.hits
    && (op.id == 0 || c.hits[CacheKey(op.uri, op.kid)].reservation == op.id)
    ==> c.hits[CacheKey(op.uri, op.kid)].lastAttempt == op.now
  }

  ghost predicate StampsKept(c: Cache, ops: seq<Op>) {
    forall m :: 0 <= m < |ops| ==> StampKept(State(c, ops, m), ops[m])
  }

  lemma InsertKeepsOthers(c: Cache, op: Op, key: string)
    requires Valid(c) && (op.Ingest? || op.Passive?) && key in c.hits && key in Apply(c, op).hits
    ensures Apply(c, op).hits[key].lastAttempt == c.hits[key].lastAttempt
  {
    if CacheKey(op.uri, op.kid) !in c.hits {
      FetchSuccessElsewhere(c, op, key);
    }
  }

  lemma OtherOpsKeepStamp(c: Cache, op: Op, key: string)
    requires key in c.hits && key in Apply(c, op).hits && !(op.Ingest? || op.Passive? || op.Reserve? || op.Absent?)
    ensures Apply(c, op).hits[key].lastAttempt == c.hits[key].lastAttempt
  {
  }

  // While a kid stays cached, the time of its last attempt moves by grants only.
  lemma StampMovesByGrantOnly(c: Cache, op: Op, key: string)
    requires Valid(c) && key in c.hits && key in Apply(c, op).hits && StampKept(c, op)
    ensures Apply(c, op).hits[key].lastAttempt == if Grants(c, op, key, c.nextId) then op.now else c.hits[key].lastAttempt
  {
    if op.Ingest? || op.Passive? {
      InsertKeepsOthers(c, op, key);
    } else if !(op.Reserve? || op.Absent?) {
      OtherOpsKeepStamp(c, op, key);
    }
  }

  lemma OneOpKeepsGrant(c: Cache, op: Op, p: Pending)
    requires Valid(c) && HoldsGrant(c, p) && StampKept(c, op)
    ensures HoldsGrant(Apply(c, op), p)
  {
    if p.Refreshing? {
      IdsGrow(c, op, "");
      forall key | Current(Apply(c, op), key, p.id)
        ensures key == KeyFor(p.call) && Apply(c, op).hits[key].lastAttempt == p.call.now
      {
        OnlyGrantInstalls(c, op, key, p.id);
        assert Current(c, key, p.id);
        StampMovesByGrantOnly(c, op, key);
        StillCurrentNotGranted(c, op, key, p.id);
      }
    }
  }

  lemma StillCurrentNotGranted(c: Cache, op: Op, key: string, id: nat)
    requires Current(Apply(c, op), key, id) && id < c.nextId
    ensures !Grants(c, op, key, c.nextId)
  {
  }

  lemma {:induction false} OpsKeepGrant(c: Cache, ops: seq<Op>, n: nat, p: Pending)
    requires Valid(c) && HoldsGrant(c, p) && n <= |ops| && StampsKept(c, ops)
    ensures HoldsGrant(State(c, ops, n), p)
  {
    if n > 0 {
      OpsKeepGrant(c, ops, n - 1, p);
      StateStep(c, ops, n - 1);
      OneOpKeepsGrant(State(c, ops, n - 1), ops[n - 1], p);
    }
  }

  // ---- Every step keeps every grant ----

  // Validations ingest by merging only: an ingest that replaces the keys of a
  // cached kid is not among their operations.
  lemma {:induction false} NoValidationReplaces(cr: Crypto, w: World, steps: seq<Step>)
    ensures forall op :: op in Trace(cr, w, steps) ==> !op.Ingest?
  {
    if steps != [] {
      var front, last := steps[..|steps| - 1], steps[|steps| - 1];
      NoValidationReplaces(cr, w, front);
      var v := After(cr, w, front);
      if last.Finish? && last.tid in v.pending {
        FinishNeverReplaces(cr, v.cache, v.pending[last.tid], last.answer, last.order);
      }
    }
  }

  lemma FinishNeverReplaces(cr: Crypto, c: Cache, p: Pending, answer: Answer, order: seq<string>)
    ensures forall op :: op in FinishOps(cr, c, p, answer, order) ==> !op.Ingest?
  {
    if p.call.header.Some? && answer.Document? {
      PassivesArePassive(cr, p.call, answer.keys, order, p.call.header.value.kid);
      ColdOnesArePassive(cr, p.call, answer.keys, order);
    }
  }

  lemma {:induction false} PassivesArePassive(cr: Crypto, call: Call, keys: seq<Jwk>, order: seq<string>, skip: string)
    ensures forall op :: op in PassiveOps(cr, call, keys, order, skip) ==>
              op.Passive? && op.kid != skip && op.uri == call.uri
  {
    if order != [] {
      PassivesArePassive(cr, call, keys, order[..|order| - 1], skip);
    }
  }

  lemma {:induction false} ColdOnesArePassive(cr: Crypto, call: Call, keys: seq<Jwk>, order: seq<string>)
    requires call.header.Some?
    ensures forall op :: op in ColdPassiveOps(cr, call, keys, order) ==> op.Passive? && op.uri == call.uri
  {
    if order != [] {
      ColdOnesArePassive(cr, call, keys, order[..|order| - 1]);
    }
  }

  // Of four parts, only the second may report an absence.
  lemma AbsenceStandsSecond(first: Op, target: seq<Op>, sweep: Op, rest: seq<Op>, m: nat)
    requires !first.Absent? && |target| <= 1 && !sweep.Absent? && forall op :: op in rest ==> op.Passive?
    requires var ops := [first] + target + [sweep] + rest; m < |ops| && ops[m].Absent?
    ensures m == 1 && |target| == 1 && target[0].Absent?
    ensures var ops := [first] + target + [sweep] + rest; ops[0] == first && ops[1] == target[0]
  {
    var ops, n := [first] + target + [sweep] + rest, |target| + 2;
    forall k | n <= k < |ops| ensures ops[k].Passive? {
      assert ops[k] == rest[k - n];
    }
  }

  lemma WhereRefreshReportsAbsence(cr: Crypto, c: Cache, call: Call, id: nat, answer: Answer, order: seq<string>, m: nat)
    requires Named(call) && m < |RefreshOps(cr, c, call, id, answer, order)|
    requires RefreshOps(cr, c, call, id, answer, order)[m].Absent?
    ensures var ops := RefreshOps(cr, c, call, id, answer, order);
            && m == 1 && ops[0] == FetchedOk(call.now, call.uri)
            && ops[1] == Absent(call.header.value.kid, id, call.now, call.uri)
  {
    var kid := call.header.value.kid;
    PassivesArePassive(cr, call, answer.keys, order, kid);
    AbsenceStandsSecond(FetchedOk(call.now, call.uri), TargetOps(cr, c, call, id, answer.keys),
                        ReconcileOp(PresentKids(answer.keys), call.now, call.uri, kid),
                        PassiveOps(cr, call, answer.keys, order, kid), m);
  }

  lemma ColdReportsNoAbsence(cr: Crypto, c: Cache, call: Call, answer: Answer, order: seq<string>)
    requires call.header.Some?
    ensures forall op :: op in ColdOps(cr, c, call, answer, order) ==> !op.Absent?
  {
    if answer.Document? {
      ColdOnesArePassive(cr, call, answer.keys, order);
    }
  }

  // The only absence report of a refresh is the holder's own, right after the
  // document's arrival has been noted.
  lemma WhereAbsenceIs(cr: Crypto, c: Cache, p: Pending, answer: Answer, order: seq<string>, m: nat)
    requires Named(p.call) && m < |FinishOps(cr, c, p, answer, order)|
    requires FinishOps(cr, c, p, answer, order)[m].Absent?
    ensures p.Refreshing? && m == 1
    ensures var ops := FinishOps(cr, c, p, answer, order);
            ops[0] == FetchedOk(p.call.now, p.call.uri)
            && ops[1] == Absent(p.call.header.value.kid, p.id, p.call.now, p.call.uri)
  {
    if p.Refreshing? {
      WhereRefreshReportsAbsence(cr, c, p.call, p.id, answer, order, m);
    } else {
      ColdReportsNoAbsence(cr, c, p.call, answer, order);
    }
  }

  lemma FinishKeepsStamps(cr: Crypto, w: World, s: Step)
    requires GrantsHeld(w) && Enabled(w, s)
    ensures StampsKept(w.cache, StepOps(cr, w, s))
  {
    var ops := StepOps(cr, w, s);
    forall m | 0 <= m < |ops| ensures StampKept(State(w.cache, ops, m), ops[m]) {
      if ops[m].Absent? {
        var p := w.pending[s.tid];
        assert HoldsGrant(w.cache, p);
        WhereAbsenceIs(cr, w.cache, p, s.answer, s.order, m);
        StateStep(w.cache, ops, 0);
        assert Run(w.cache, ops[..0]) == w.cache;
        assert State(w.cache, ops, 1).hits == w.cache.hits;
        if AbsenceCounts(w.cache, ops[m].kid, p.id, ops[m].uri) {
          assert Current(w.cache, KeyFor(p.call), p.id);
        }
      }
    }
  }

  lemma FreshGrantIsHeld(c: Cache, call: Call, cached: Verdict)
    requires Valid(c) && Named(call) && MayReserve(c, call.header.value.kid, call.now, call.uri)
    ensures HoldsGrant(Apply(Apply(c, Reserve(call.header.value.kid, call.now, call.uri)), Fetched(call.now)),
                       Refreshing(call, c.nextId, cached))
  {
  }

  lemma StartHolds(cr: Crypto, c: Cache, call: Call)
    requires Valid(c) && Begin(cr, c, call).FetchForRefresh?
    ensures var o := Begin(cr, c, call);
            HoldsGrant(Run(c, BeginOps(call, o)), Refreshing(call, o.id, o.cached))
  {
    var ops := BeginOps(call, Begin(cr, c, call));
    StateStep(c, ops, 0);
    StateStep(c, ops, 1);
    assert ops[..0] == [] && ops[..2] == ops;
    FreshGrantIsHeld(c, call, Begin(cr, c, call).cached);
  }

  lemma StepKeepsGrants(cr: Crypto, w: World, s: Step)
    requires GrantsHeld(w) && Enabled(w, s)
    ensures GrantsHeld(Next(cr, w, s))
  {
    var ops := StepOps(cr, w, s);
    RunKeepsValid(w.cache, ops);
    FinishKeepsStamps(cr, w, s);
    assert ops[..|ops|] == ops;
    var d := Next(cr, w, s);
    forall tid | tid in d.pending ensures HoldsGrant(d.cache, d.pending[tid]) {
      if tid in w.pending && d.pending[tid] == w.pending[tid] {
        assert HoldsGrant(w.cache, w.pending[tid]);
        OpsKeepGrant(w.cache, ops, |ops|, w.pending[tid]);
      } else if d.pending[tid].Refreshing? {
        StartHolds(cr, w.cache, s.call);
      }
    }
  }

  // In every interleaving, every pending refresh holds its own grant.
  lemma {:induction false} GrantsAreHeld(cr: Crypto, w: World, steps: seq<Step>)
    requires Initial(w) && Possible(cr, w, steps)
    ensures GrantsHeld(After(cr, w, steps))
  {
    if steps != [] {
      GrantsAreHeld(cr, w, steps[..|steps| - 1]);
      StepKeepsGrants(cr, After(cr, w, steps[..|steps| - 1]), steps[|steps| - 1]);
    }
  }

  // ---- Commits of a run ----

  // The identifiers of two pending refreshes differ.
  ghost predicate GrantsDiffer(w: World) {
    forall s, t | s in w.pending && t in w.pending && s != t ::
      w.pending[s].Refreshing? && w.pending[t].Refreshing? ==> w.pending[s].id != w.pending[t].id
  }

  lemma {:induction false} NoSharedGrants(cr: Crypto, w: World, steps: seq<Step>)
    requires Initial(w) && Possible(cr, w, steps)
    ensures GrantsDiffer(After(cr, w, steps))
  {
    if steps != [] {
      var front := steps[..|steps| - 1];
      NoSharedGrants(cr, w, front);
      GrantsAreHeld(cr, w, front);
      var v := After(cr, w, front);
      assert forall t :: t in v.pending ==> HoldsGrant(v.cache, v.pending[t]);
    }
  }

  // In every interleaving, a commit that takes effect was granted for that very
  // kid, its grant stayed current ever since, and nothing overtook it.
  lemma CommitOfARun(cr: Crypto, w: World, steps: seq<Step>, j: nat, key: string, id: nat) returns (g: nat)
    requires Initial(w)
    requires var ops := Trace(cr, w, steps); j < |ops| && Commits(State(w.cache, ops, j), ops[j], key, id)
    ensures GrantedAndKept(w.cache, Trace(cr, w, steps), g, j, key, id)
    ensures forall m :: g < m < j ==> !Overtakes(State(w.cache, Trace(cr, w, steps), m), Trace(cr, w, steps)[m], key)
  {
    var ops := Trace(cr, w, steps);
    CommitNeedsUnbrokenGrant(w.cache, ops, j, key, id);
    g :| GrantedAndKept(w.cache, ops, g, j, key, id);
    forall m | g < m < j ensures !Overtakes(State(w.cache, ops, m), ops[m], key) {
      GrantIsOld(w.cache, ops, g, m, key, id);
      if Overtakes(State(w.cache, ops, m), ops[m], key) {
        OvertakenNeverCommits(w.cache, ops, m, j, key, id);
      }
    }
  }

  lemma GrantIsOld(c: Cache, ops: seq<Op>, g: nat, m: nat, key: string, id: nat)
    requires g < m <= |ops| && Grants(State(c, ops, g), ops[g], key, id)
    ensures id < State(c, ops, m).nextId
  {
    StateStep(c, ops, g);
    IdsGrowAlong(c, ops, g + 1, m);
  }

  // In every interleaving, an identifier commits at most once, and later
  // commits of a kid carry larger identifiers.
  lemma CommitsOfARun(cr: Crypto, w: World, steps: seq<Step>, i: nat, j: nat, key1: string, key2: string, id1: nat, id2: nat)
    requires Initial(w)
    requires var ops := Trace(cr, w, steps);
             && i < j < |ops|
             && Commits(State(w.cache, ops, i), ops[i], key1, id1)
             && Commits(State(w.cache, ops, j), ops[j], key2, id2)
    ensures id1 != id2 && (key1 == key2 ==> id1 < id2)
  {
    var ops := Trace(cr, w, steps);
    if id1 == id2 {
      CommitsAtMostOnce(w.cache, ops, i, j, key1, key2, id1);
    }
    if key1 == key2 {
      CommitIdsIncrease(w.cache, ops, i, j, key1, id1, id2);
    }
  }
}
