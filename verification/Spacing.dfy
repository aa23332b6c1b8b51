/** Rate limits over whole runs: how far apart the refreshes of one kid, and the
    fetches of all validations together, must be. */
module Spacing {
  import opened Wrappers
  import opened Seqs
  import opened Jwks
  import opened JwksModel
  import opened JwksTrace
  import opened Signatures
  import opened ValidatorModel
  import opened Protocol

  // ---- Refreshes of one kid ----

  // A grant that the clock's having gone back by more than a minute allowed.
  predicate ByClockReset(c: Cache, op: Op, key: string) {
    key in c.hits && Grants(c, op, key, c.nextId) && RelateClock(op.now, c.hits[key].lastAttempt).Reset?
  }

  ghost predicate CachedThroughout(c: Cache, ops: seq<Op>, i: nat, j: nat, key: string)
    requires j <= |ops|
  {
    forall m :: i <= m <= j ==> key in State(c, ops, m).hits
  }

  ghost predicate NoResetGrants(c: Cache, ops: seq<Op>, i: nat, j: nat, key: string)
    requires j <= |ops|
  {
    forall m :: i < m < j ==> !ByClockReset(State(c, ops, m), ops[m], key)
  }

  lemma GrantMeansSpaced(c: Cache, op: Op, key: string)
    requires Grants(c, op, key, c.nextId)
    ensures key in c.hits
    ensures op.now >= c.hits[key].lastAttempt + c.minRefresh || ByClockReset(c, op, key)
  {
  }

  lemma StampStep(c: Cache, op: Op, key: string)
    requires Valid(c) && key in c.hits && key in Apply(c, op).hits && StampKept(c, op) && !ByClockReset(c, op, key)
    ensures Apply(c, op).hits[key].lastAttempt >= c.hits[key].lastAttempt
  {
    StampMovesByGrantOnly(c, op, key);
    if Grants(c, op, key, c.nextId) {
      GrantMeansSpaced(c, op, key);
    }
  }

  lemma StampRisesAt(c: Cache, ops: seq<Op>, m: nat, key: string)
    requires Valid(c) && m < |ops| && StampKept(State(c, ops, m), ops[m]) && !ByClockReset(State(c, ops, m), ops[m], key)
    requires key in State(c, ops, m).hits && key in State(c, ops, m + 1).hits
    ensures StampOf(State(c, ops, m + 1), key) >= StampOf(State(c, ops, m), key)
  {
    StateStep(c, ops, m);
    StampStep(State(c, ops, m), ops[m], key);
  }

  lemma GrantSetsStamp(c: Cache, ops: seq<Op>, i: nat, key: string)
    requires i < |ops| && Grants(State(c, ops, i), ops[i], key, State(c, ops, i).nextId)
    ensures StampOf(State(c, ops, i + 1), key) == ops[i].now
  {
    StateStep(c, ops, i);
  }

  function StampOf(c: Cache, key: string): int {
    if key in c.hits then c.hits[key].lastAttempt else 0
  }

  function StampsOf(c: Cache, ops: seq<Op>, m: nat, key: string): (r: seq<int>)
    requires m <= |ops|
    ensures |r| == m + 1 && forall x :: 0 <= x <= m ==> r[x] == StampOf(State(c, ops, x), key)
  {
    seq(m + 1, x requires 0 <= x <= m => StampOf(State(c, ops, x), key))
  }

  lemma StampsRise(c: Cache, ops: seq<Op>, i: nat, m: nat, key: string)
    requires Valid(c) && i <= m <= |ops| && StampsKept(c, ops)
    requires CachedThroughout(c, ops, i, m, key) && NoResetGrants(c, ops, i, m, key)
    ensures var stamps := StampsOf(c, ops, m, key); forall x :: i < x < m ==> stamps[x] <= stamps[x + 1]
  {
    forall x | i < x < m ensures StampsOf(c, ops, m, key)[x] <= StampsOf(c, ops, m, key)[x + 1] {
      StampRisesAt(c, ops, x, key);
    }
  }

  lemma StampOnlyRises(c: Cache, ops: seq<Op>, i: nat, m: nat, key: string)
    requires Valid(c) && i < m <= |ops| && StampsKept(c, ops)
    requires Grants(State(c, ops, i), ops[i], key, State(c, ops, i).nextId)
    requires CachedThroughout(c, ops, i, m, key) && NoResetGrants(c, ops, i, m, key)
    ensures StampOf(State(c, ops, m), key) >= ops[i].now
  {
    StampsRise(c, ops, i, m, key);
    GrantSetsStamp(c, ops, i, key);
    RisingChain(StampsOf(c, ops, m, key), i + 1, m);
  }

  // While a kid stays cached, any two grants for it are at least the configured
  // floor apart, unless the clock was reset.
  lemma GrantsAreSpaced(c: Cache, ops: seq<Op>, i: nat, j: nat, key: string)
    requires Valid(c) && i < j < |ops| && StampsKept(c, ops)
    requires Grants(State(c, ops, i), ops[i], key, State(c, ops, i).nextId)
    requires Grants(State(c, ops, j), ops[j], key, State(c, ops, j).nextId)
    requires CachedThroughout(c, ops, i, j, key) && NoResetGrants(c, ops, i, j + 1, key)
    ensures ops[j].now >= ops[i].now + State(c, ops, j).minRefresh
  {
    StampOnlyRises(c, ops, i, j, key);
    GrantMeansSpaced(State(c, ops, j), ops[j], key);
  }

  lemma StampKeptInFront(c: Cache, a: seq<Op>, b: seq<Op>, m: nat)
    requires StampsKept(c, a) && m < |a|
    ensures StampKept(State(c, a + b, m), (a + b)[m])
  {
    assert (a + b)[..m] == a[..m];
    assert StampKept(State(c, a, m), a[m]);
  }

  lemma StateBehind(c: Cache, a: seq<Op>, b: seq<Op>, n: nat)
    requires n <= |b|
    ensures State(c, a + b, |a| + n) == State(Run(c, a), b, n)
  {
    assert (a + b)[..|a| + n] == a + b[..n];
    RunConcat(c, a, b[..n]);
  }

  lemma StampKeptBehind(c: Cache, a: seq<Op>, b: seq<Op>, n: nat, m: nat)
    requires n < |b| && m == |a| + n && StampKept(State(Run(c, a), b, n), b[n])
    ensures StampKept(State(c, a + b, m), (a + b)[m])
  {
    StateBehind(c, a, b, n);
    assert (a + b)[m] == b[n];
  }

  lemma StampKeptAt(c: Cache, ops: seq<Op>, n: nat)
    requires StampsKept(c, ops) && n < |ops|
    ensures StampKept(State(c, ops, n), ops[n])
  {
  }

  lemma StampsKeptAppended(c: Cache, a: seq<Op>, b: seq<Op>)
    requires StampsKept(c, a) && StampsKept(Run(c, a), b)
    ensures StampsKept(c, a + b)
  {
    forall m | 0 <= m < |a + b| ensures StampKept(State(c, a + b, m), (a + b)[m]) {
      if m < |a| {
        StampKeptInFront(c, a, b, m);
      } else {
        StampKeptAt(Run(c, a), b, m - |a|);
        StampKeptBehind(c, a, b, m - |a|, m);
      }
    }
  }

  lemma {:induction false} RunsKeepStamps(cr: Crypto, w: World, steps: seq<Step>)
    requires Initial(w) && Possible(cr, w, steps)
    ensures StampsKept(w.cache, Trace(cr, w, steps))
  {
    if steps != [] {
      var front := steps[..|steps| - 1];
      var v := After(cr, w, front);
      RunsKeepStamps(cr, w, front);
      GrantsAreHeld(cr, w, front);
      FinishKeepsStamps(cr, v, steps[|steps| - 1]);
      EveryRunIsATrace(cr, w, front);
      StampsKeptAppended(w.cache, Trace(cr, w, front), StepOps(cr, v, steps[|steps| - 1]));
    }
  }

  // The same over every interleaving: the holders' absence records never let a
  // refresh come earlier.
  lemma RefreshesAreSpaced(cr: Crypto, w: World, steps: seq<Step>, i: nat, j: nat, key: string)
    requires Initial(w) && Possible(cr, w, steps)
    requires var ops := Trace(cr, w, steps);
             && i < j < |ops|
             && Grants(State(w.cache, ops, i), ops[i], key, State(w.cache, ops, i).nextId)
             && Grants(State(w.cache, ops, j), ops[j], key, State(w.cache, ops, j).nextId)
             && CachedThroughout(w.cache, ops, i, j, key) && NoResetGrants(w.cache, ops, i, j + 1, key)
    ensures var ops := Trace(cr, w, steps);
            ops[j].now >= ops[i].now + State(w.cache, ops, j).minRefresh >= ops[i].now + 1
  {
    var ops := Trace(cr, w, steps);
    RunsKeepStamps(cr, w, steps);
    GrantsAreSpaced(w.cache, ops, i, j, key);
    StateStep(w.cache, ops, j);
  }

  // ---- All fetches together ----

  // The clock readings of the validations that went out to fetch, in order.
  function FetchStamps(cr: Crypto, w: World, steps: seq<Step>): seq<int> {
    if steps == [] then []
    else
      var front, last := steps[..|steps| - 1], steps[|steps| - 1];
      FetchStamps(cr, w, front) + NewStamp(cr, After(cr, w, front), last)
  }

  function NewStamp(cr: Crypto, w: World, s: Step): seq<int> {
    if s.Start? && !Begin(cr, w.cache, s.call).Done? then [s.call.now] else []
  }

  // What the budget remembers of the fetches so far.
  predicate Remembers(c: Cache, stamps: seq<int>) {
    if stamps != [] && stamps[|stamps| - 1] > 0 then c.lastGlobalFetch == stamps[|stamps| - 1] else c.lastGlobalFetch <= 0
  }

  lemma {:induction false} OnlyFetchesSpend(c: Cache, ops: seq<Op>)
    requires forall op :: op in ops ==> !op.Fetched?
    ensures Run(c, ops).lastGlobalFetch == c.lastGlobalFetch
  {
    if ops != [] {
      var front, last := ops[..|ops| - 1], ops[|ops| - 1];
      assert last in ops && forall op :: op in front ==> op in ops;
      OnlyFetchesSpend(c, front);
    }
  }

  lemma FinishingSpendsNothing(cr: Crypto, c: Cache, p: Pending, answer: Answer, order: seq<string>)
    ensures forall op :: op in FinishOps(cr, c, p, answer, order) ==> !op.Fetched?
  {
    if p.call.header.Some? && answer.Document? {
      if p.Refreshing? {
        PassivesArePassive(cr, p.call, answer.keys, order, p.call.header.value.kid);
      } else {
        ColdOnesArePassive(cr, p.call, answer.keys, order);
      }
    }
  }

  lemma OtherStepsSpendNothing(cr: Crypto, w: World, s: Step)
    requires s.Start? ==> Begin(cr, w.cache, s.call).Done?
    ensures Next(cr, w, s).cache.lastGlobalFetch == w.cache.lastGlobalFetch
  {
    if s.Finish? && s.tid in w.pending {
      FinishingSpendsNothing(cr, w.cache, w.pending[s.tid], s.answer, s.order);
    }
    OnlyFetchesSpend(w.cache, StepOps(cr, w, s));
  }

  lemma FetchIsRemembered(cr: Crypto, c: Cache, call: Call)
    requires !Begin(cr, c, call).Done?
    ensures CanFetch(c, call.now)
    ensures Run(c, BeginOps(call, Begin(cr, c, call))).lastGlobalFetch == RecordFetch(c, call.now).lastGlobalFetch
  {
    var ops := BeginOps(call, Begin(cr, c, call));
    StateStep(c, ops, 0);
    assert ops[..0] == [];
    if |ops| == 2 {
      StateStep(c, ops, 1);
    }
    assert ops[..|ops|] == ops;
  }

  // Two fetches in a row are at least two seconds apart, unless the clock went
  // back by more than a minute.
  predicate Apart(earlier: int, later: int) {
    earlier > 0 ==> later >= earlier + BUDGET_WINDOW_S || later < earlier - CLOCK_RESET_S
  }

  ghost predicate AllApart(stamps: seq<int>) {
    forall k :: 0 <= k < |stamps| - 1 ==> Apart(stamps[k], stamps[k + 1])
  }

  lemma OneMoreFetch(c: Cache, stamps: seq<int>, now: int)
    requires Remembers(c, stamps) && AllApart(stamps) && CanFetch(c, now)
    ensures Remembers(RecordFetch(c, now), stamps + [now]) && AllApart(stamps + [now])
  {
  }

  lemma StepKeepsApart(cr: Crypto, w: World, s: Step, stamps: seq<int>)
    requires Remembers(w.cache, stamps) && AllApart(stamps)
    ensures Remembers(Next(cr, w, s).cache, stamps + NewStamp(cr, w, s)) && AllApart(stamps + NewStamp(cr, w, s))
  {
    if s.Start? && !Begin(cr, w.cache, s.call).Done? {
      FetchIsRemembered(cr, w.cache, s.call);
      OneMoreFetch(w.cache, stamps, s.call.now);
    } else {
      OtherStepsSpendNothing(cr, w, s);
      assert stamps + NewStamp(cr, w, s) == stamps;
    }
  }

  // In every interleaving, for any number of kids, addresses and threads, the
  // fetches of both paths keep the global budget.
  lemma {:induction false} FetchesAreApart(cr: Crypto, w: World, steps: seq<Step>)
    requires Initial(w)
    ensures AllApart(FetchStamps(cr, w, steps))
    ensures Remembers(After(cr, w, steps).cache, FetchStamps(cr, w, steps))
  {
    if steps != [] {
      var front := steps[..|steps| - 1];
      FetchesAreApart(cr, w, front);
      StepKeepsApart(cr, After(cr, w, front), steps[|steps| - 1], FetchStamps(cr, w, front));
    }
  }

  // So without resets the n-th fetch after another is at least 2n seconds later.
  lemma NFetchesTake2nSeconds(cr: Crypto, w: World, steps: seq<Step>, i: nat, j: nat)
    requires Initial(w)
    requires var stamps := FetchStamps(cr, w, steps);
             && i <= j < |stamps| && stamps[i] > 0
             && forall k :: i <= k < j ==> !RelateClock(stamps[k + 1], stamps[k]).Reset?
    ensures var stamps := FetchStamps(cr, w, steps);
            stamps[j] >= stamps[i] + BUDGET_WINDOW_S * (j - i)
  {
    FetchesAreApart(cr, w, steps);
    SpreadOut(FetchStamps(cr, w, steps), i, j);
  }

  lemma {:induction false} SpreadOut(stamps: seq<int>, i: nat, j: nat)
    requires AllApart(stamps) && i <= j < |stamps| && stamps[i] > 0
    requires forall k :: i <= k < j ==> !RelateClock(stamps[k + 1], stamps[k]).Reset?
    ensures stamps[j] >= stamps[i] + BUDGET_WINDOW_S * (j - i)
    decreases j
  {
    if i < j {
      SpreadOut(stamps, i, j - 1);
      assert Apart(stamps[j - 1], stamps[j - 1 + 1]);
    }
  }
}
