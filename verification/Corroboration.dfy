/** One document counts at most once against any kid; cold misses never count. */
module Corroboration {
  import opened Wrappers
  import opened Seqs
  import opened Jwks
  import opened JwksModel
  import opened JwksTrace
  import opened Signatures
  import opened Candidates
  import opened ValidatorModel
  import opened Protocol

  // How often a sequence of operations observes the kid behind `key` absent.
  function Absences(c: Cache, ops: seq<Op>, key: string): nat {
    if ops == [] then 0
    else
      var front := ops[..|ops| - 1];
      Absences(c, front, key) + if Observe(Run(c, front), ops[|ops| - 1], key).NotSeen? then 1 else 0
  }

  lemma {:induction false} AbsencesConcat(c: Cache, a: seq<Op>, b: seq<Op>, key: string)
    ensures Absences(c, a + b, key) == Absences(c, a, key) + Absences(Run(c, a), b, key)
  {
    if b == [] {
      assert a + b == a;
    } else {
      var front := b[..|b| - 1];
      assert (a + b)[..|a + b| - 1] == a + front;
      AbsencesConcat(c, a, front, key);
      RunConcat(c, a, front);
    }
  }

  // Only reconciling and absence reports can observe an absence.
  predicate Speaks(op: Op, key: string) {
    (op.Absent? && CacheKey(op.uri, op.kid) == key) || (op.ReconcileOp? && Judged(op.uri, op.exclude, key))
  }

  lemma {:induction false} SilentOps(c: Cache, ops: seq<Op>, key: string)
    requires forall op :: op in ops ==> !Speaks(op, key)
    ensures Absences(c, ops, key) == 0
  {
    if ops != [] {
      assert ops[|ops| - 1] in ops && forall op :: op in ops[..|ops| - 1] ==> op in ops;
      SilentOps(c, ops[..|ops| - 1], key);
    }
  }

  lemma AtMostOneEach(c: Cache, op: Op, key: string)
    ensures Absences(c, [op], key) <= if Speaks(op, key) then 1 else 0
  {
    assert [op][..0] == [];
    assert Run(c, []) == c;
  }

  // The document's judgement of the siblings leaves out the token's own kid.
  lemma TargetIsNotJudged(uri: string, kid: string)
    requires kid != ""
    ensures !Judged(uri, kid, CacheKey(uri, kid))
  {
    if uri != "" {
      assert CacheKey(uri, kid)[|uri| + 1..] == kid;
    }
  }

  lemma TargetCountsOnce(cr: Crypto, c: Cache, d: Cache, call: Call, id: nat, keys: seq<Jwk>, key: string)
    requires call.header.Some?
    ensures Absences(d, TargetOps(cr, c, call, id, keys), key) <= if key == KeyFor(call) then 1 else 0
  {
    var ops := TargetOps(cr, c, call, id, keys);
    if ops != [] {
      AtMostOneEach(d, ops[0], key);
      assert ops == [ops[0]];
    }
  }

  lemma PassivesAreSilent(cr: Crypto, c: Cache, call: Call, keys: seq<Jwk>, order: seq<string>, skip: string, key: string)
    ensures Absences(c, PassiveOps(cr, call, keys, order, skip), key) == 0
  {
    PassivesArePassive(cr, call, keys, order, skip);
    SilentOps(c, PassiveOps(cr, call, keys, order, skip), key);
  }

  // One refresh document counts at most once against any kid.
  lemma DocumentCountsOnce(cr: Crypto, c: Cache, call: Call, id: nat, answer: Answer, order: seq<string>, key: string)
    requires Named(call)
    ensures Absences(c, RefreshOps(cr, c, call, id, answer, order), key) <= 1
  {
    if answer.Document? && answer.keys != [] {
      var kid := call.header.value.kid;
      var first, reconcile := FetchedOk(call.now, call.uri), ReconcileOp(PresentKids(answer.keys), call.now, call.uri, kid);
      var target, rest := TargetOps(cr, c, call, id, answer.keys), PassiveOps(cr, call, answer.keys, order, kid);
      AbsencesConcat(c, [first] + target + [reconcile], rest, key);
      AbsencesConcat(c, [first] + target, [reconcile], key);
      AbsencesConcat(c, [first], target, key);
      AtMostOneEach(c, first, key);
      TargetCountsOnce(cr, c, Run(c, [first]), call, id, answer.keys, key);
      AtMostOneEach(Run(c, [first] + target), reconcile, key);
      TargetIsNotJudged(call.uri, kid);
      PassivesAreSilent(cr, Run(c, [first] + target + [reconcile]), call, answer.keys, order, kid, key);
    }
  }

  // A cold miss never counts against any kid.
  lemma ColdMissesNeverCount(cr: Crypto, c: Cache, call: Call, answer: Answer, order: seq<string>, key: string)
    requires call.header.Some?
    ensures Absences(c, ColdOps(cr, c, call, answer, order), key) == 0
  {
    if answer.Document? {
      ColdOnesArePassive(cr, call, answer.keys, order);
    }
    SilentOps(c, ColdOps(cr, c, call, answer, order), key);
  }

  lemma BeginsNeverCount(c: Cache, call: Call, o: Outcome, key: string)
    requires o.Done? || call.header.Some?
    ensures Absences(c, BeginOps(call, o), key) == 0
  {
    SilentOps(c, BeginOps(call, o), key);
  }

  predicate BringsDocument(w: World, s: Step) {
    s.Finish? && s.answer.Document? && s.tid in w.pending && w.pending[s.tid].Refreshing?
  }

  // The documents that refreshes have fetched in a run so far.
  function Documents(cr: Crypto, w: World, steps: seq<Step>): nat {
    if steps == [] then 0
    else
      var front := steps[..|steps| - 1];
      Documents(cr, w, front) + if BringsDocument(After(cr, w, front), steps[|steps| - 1]) then 1 else 0
  }

  lemma StepCountsOnce(cr: Crypto, w: World, s: Step, key: string)
    requires GrantsHeld(w) && Enabled(w, s)
    ensures Absences(w.cache, StepOps(cr, w, s), key) <= if BringsDocument(w, s) then 1 else 0
  {
    match s
    case Start(tid, call) => BeginsNeverCount(w.cache, call, Begin(cr, w.cache, call), key);
    case Configure(n) => AtMostOneEach(w.cache, SetFloor(n), key);
    case Finish(tid, answer, order) =>
      assert HoldsGrant(w.cache, w.pending[tid]);
      match w.pending[tid] {
        case Refreshing(call, id, _) => DocumentCountsOnce(cr, w.cache, call, id, answer, order, key);
        case Missed(call) => ColdMissesNeverCount(cr, w.cache, call, answer, order, key);
      }
  }

  // In every interleaving, a kid has been counted absent at most once per
  // document that a refresh fetched.
  lemma {:induction false} AbsencesNeedDocuments(cr: Crypto, w: World, steps: seq<Step>, key: string)
    requires Initial(w) && Possible(cr, w, steps)
    ensures Absences(w.cache, Trace(cr, w, steps), key) <= Documents(cr, w, steps)
  {
    if steps != [] {
      var front := steps[..|steps| - 1];
      AbsencesNeedDocuments(cr, w, front, key);
      GrantsAreHeld(cr, w, front);
      EveryRunIsATrace(cr, w, front);
      StepCountsOnce(cr, After(cr, w, front), steps[|steps| - 1], key);
      AbsencesConcat(w.cache, Trace(cr, w, front), StepOps(cr, After(cr, w, front), steps[|steps| - 1]), key);
    }
  }

  // ---- The two documents behind an eviction ----

  predicate SawAbsent(c: Cache, ops: seq<Op>, a: nat, key: string)
    requires a < |ops|
  {
    Observe(State(c, ops, a), ops[a], key).NotSeen?
  }

  predicate SawPresent(c: Cache, ops: seq<Op>, a: nat, key: string)
    requires a < |ops|
  {
    Observe(State(c, ops, a), ops[a], key).Seen?
  }

  ghost predicate NeverPresent(c: Cache, ops: seq<Op>, a: nat, m: nat, key: string)
    requires m <= |ops|
  {
    forall n :: a < n < m ==> !SawPresent(c, ops, n, key)
  }

  lemma CountOneOn(c: Cache, ops: seq<Op>, m: nat, key: string)
    requires m < |ops|
    ensures AbsencesSince(c, ops[..m + 1], key)
         == if SawPresent(c, ops, m, key) then 0
            else AbsencesSince(c, ops[..m], key) + if SawAbsent(c, ops, m, key) then 1 else 0
  {
    assert ops[..m + 1][..m] == ops[..m] && ops[..m + 1][m] == ops[m];
  }

  // The same counting on the sightings alone.
  function Since(sightings: seq<Sighting>): nat {
    if sightings == [] then 0
    else match sightings[|sightings| - 1]
      case Seen => 0
      case NotSeen => Since(sightings[..|sightings| - 1]) + 1
      case NoNews => Since(sightings[..|sightings| - 1])
  }

  lemma {:induction false} WhereCounted(sightings: seq<Sighting>) returns (a: nat)
    requires Since(sightings) > 0
    ensures a < |sightings| && sightings[a].NotSeen?
    ensures forall n :: a < n < |sightings| ==> !sightings[n].Seen?
  {
    var last := |sightings| - 1;
    if sightings[last].NotSeen? {
      a := last;
    } else {
      a := WhereCounted(sightings[..last]);
    }
  }

  function Sightings(c: Cache, ops: seq<Op>, key: string): (r: seq<Sighting>)
    ensures |r| == |ops| && forall m :: 0 <= m < |ops| ==> r[m] == Observe(State(c, ops, m), ops[m], key)
  {
    seq(|ops|, m requires 0 <= m < |ops| => Observe(State(c, ops, m), ops[m], key))
  }

  lemma {:induction false} SinceAgrees(c: Cache, ops: seq<Op>, m: nat, key: string)
    requires m <= |ops|
    ensures AbsencesSince(c, ops[..m], key) == Since(Sightings(c, ops, key)[..m])
    decreases m
  {
    if m > 0 {
      SinceAgrees(c, ops, m - 1, key);
      CountOneOn(c, ops, m - 1, key);
      assert Sightings(c, ops, key)[..m][..m - 1] == Sightings(c, ops, key)[..m - 1];
    }
  }

  // An absence still counted was observed, and no presence since.
  lemma WhereItWasCounted(c: Cache, ops: seq<Op>, m: nat, key: string) returns (a: nat)
    requires m <= |ops| && AbsencesSince(c, ops[..m], key) > 0
    ensures a < m && SawAbsent(c, ops, a, key) && NeverPresent(c, ops, a, m, key)
  {
    SinceAgrees(c, ops, m, key);
    var sightings := Sightings(c, ops, key)[..m];
    a := WhereCounted(sightings);
    forall n | a < n < m ensures !SawPresent(c, ops, n, key) {
      assert !sightings[n].Seen?;
    }
  }

  // Operation m of the run belongs to step i.
  predicate InStep(cr: Crypto, w: World, steps: seq<Step>, i: nat, m: nat)
    requires i < |steps|
  {
    |Trace(cr, w, steps[..i])| <= m < |Trace(cr, w, steps[..i + 1])|
  }

  lemma TraceStep(cr: Crypto, w: World, steps: seq<Step>, i: nat)
    requires i < |steps|
    ensures Trace(cr, w, steps[..i + 1]) == Trace(cr, w, steps[..i]) + StepOps(cr, After(cr, w, steps[..i]), steps[i])
  {
    assert steps[..i + 1][..i] == steps[..i];
  }

  lemma {:induction false} EarlierTraceIsPrefix(cr: Crypto, w: World, steps: seq<Step>, i: nat)
    requires i <= |steps|
    ensures Trace(cr, w, steps[..i]) <= Trace(cr, w, steps)
    decreases |steps| - i
  {
    if i == |steps| {
      assert steps[..i] == steps;
    } else {
      TraceStep(cr, w, steps, i);
      EarlierTraceIsPrefix(cr, w, steps, i + 1);
    }
  }

  function Starts(cr: Crypto, w: World, steps: seq<Step>): (r: seq<int>)
    ensures |r| == |steps| + 1 && forall i :: 0 <= i <= |steps| ==> r[i] == |Trace(cr, w, steps[..i])|
  {
    seq(|steps| + 1, i requires 0 <= i <= |steps| => |Trace(cr, w, steps[..i])|)
  }

  lemma EveryOpHasAStep(cr: Crypto, w: World, steps: seq<Step>, m: nat) returns (i: nat)
    requires m < |Trace(cr, w, steps)|
    ensures i < |steps| && InStep(cr, w, steps, i, m)
  {
    assert steps[..|steps|] == steps;
    i := FindInterval(Starts(cr, w, steps), m);
  }

  lemma SliceOfPart(whole: seq<Op>, before: seq<Op>, ops: seq<Op>, m: nat)
    requires before + ops <= whole && |before| <= m < |before| + |ops|
    ensures whole[m] == ops[m - |before|] && whole[..m] == before + ops[..m - |before|]
  {
    assert whole[m] == (before + ops)[m];
  }

  lemma StateInPart(c: Cache, before: seq<Op>, ops: seq<Op>, whole: seq<Op>, m: nat)
    requires before + ops <= whole && |before| <= m < |before| + |ops|
    ensures State(c, whole, m) == State(Run(c, before), ops, m - |before|)
  {
    SliceOfPart(whole, before, ops, m);
    RunConcat(c, before, ops[..m - |before|]);
  }

  // What step i contributes, as part of the whole run.
  lemma StepInTrace(cr: Crypto, w: World, steps: seq<Step>, i: nat, m: nat)
    requires i < |steps| && InStep(cr, w, steps, i, m)
    ensures var before := Trace(cr, w, steps[..i]);
            var v := After(cr, w, steps[..i]);
            var ops := StepOps(cr, v, steps[i]);
            && m < |Trace(cr, w, steps)| && m - |before| < |ops|
            && Trace(cr, w, steps)[m] == ops[m - |before|]
            && State(w.cache, Trace(cr, w, steps), m) == State(v.cache, ops, m - |before|)
  {
    var before, whole := Trace(cr, w, steps[..i]), Trace(cr, w, steps);
    var v := After(cr, w, steps[..i]);
    var ops := StepOps(cr, v, steps[i]);
    TraceStep(cr, w, steps, i);
    EarlierTraceIsPrefix(cr, w, steps, i + 1);
    EveryRunIsATrace(cr, w, steps[..i]);
    SliceOfPart(whole, before, ops, m);
    StateInPart(w.cache, before, ops, whole, m);
  }

  lemma OneMoreCounts(c: Cache, ops: seq<Op>, n: nat, key: string)
    requires n < |ops|
    ensures Absences(c, ops[..n + 1], key) == Absences(c, ops[..n], key) + if SawAbsent(c, ops, n, key) then 1 else 0
  {
    assert ops[..n + 1][..n] == ops[..n] && ops[..n + 1][n] == ops[n];
  }

  lemma PartCountsLess(c: Cache, ops: seq<Op>, n: nat, key: string)
    requires n <= |ops|
    ensures Absences(c, ops[..n], key) <= Absences(c, ops, key)
  {
    assert ops == ops[..n] + ops[n..];
    AbsencesConcat(c, ops[..n], ops[n..], key);
  }

  lemma OneAbsenceCounts(c: Cache, ops: seq<Op>, a: nat, key: string)
    requires a < |ops| && SawAbsent(c, ops, a, key)
    ensures Absences(c, ops, key) >= 1
  {
    OneMoreCounts(c, ops, a, key);
    PartCountsLess(c, ops, a + 1, key);
  }

  lemma {:induction false} PrefixIsPossible(cr: Crypto, w: World, steps: seq<Step>, i: nat)
    requires Possible(cr, w, steps) && i <= |steps|
    ensures Possible(cr, w, steps[..i])
    decreases |steps|
  {
    if i == |steps| {
      assert steps[..i] == steps;
    } else {
      var front := steps[..|steps| - 1];
      assert front[..i] == steps[..i];
      PrefixIsPossible(cr, w, front, i);
    }
  }

  lemma LastIsEnabled(cr: Crypto, w: World, steps: seq<Step>, front: seq<Step>, last: Step)
    requires Possible(cr, w, steps) && steps == front + [last]
    ensures Possible(cr, w, front) && Enabled(After(cr, w, front), last)
  {
    assert steps[..|steps| - 1] == front;
  }

  lemma PossibleSoFar(cr: Crypto, w: World, steps: seq<Step>, i: nat)
    requires Possible(cr, w, steps) && i < |steps|
    ensures Possible(cr, w, steps[..i]) && Enabled(After(cr, w, steps[..i]), steps[i])
  {
    OneStepLonger(steps, i);
    PrefixIsPossible(cr, w, steps, i + 1);
    LastIsEnabled(cr, w, steps[..i + 1], steps[..i], steps[i]);
  }

  lemma OneStepLonger(steps: seq<Step>, i: nat)
    requires i < |steps|
    ensures steps[..i + 1] == steps[..i] + [steps[i]]
  {
  }

  // Step i brought a document of a refresh and counted the kid absent, once.
  predicate CountsAgainst(cr: Crypto, w: World, steps: seq<Step>, i: nat, key: string)
    requires i < |steps|
  {
    var v := After(cr, w, steps[..i]);
    BringsDocument(v, steps[i]) && Absences(v.cache, StepOps(cr, v, steps[i]), key) == 1
  }

  lemma StepOfARunCountsOnce(cr: Crypto, w: World, steps: seq<Step>, i: nat, key: string)
    requires Initial(w) && Possible(cr, w, steps) && i < |steps|
    ensures var v := After(cr, w, steps[..i]);
            Absences(v.cache, StepOps(cr, v, steps[i]), key) <= if BringsDocument(v, steps[i]) then 1 else 0
  {
    PossibleSoFar(cr, w, steps, i);
    GrantsAreHeld(cr, w, steps[..i]);
    StepCountsOnce(cr, After(cr, w, steps[..i]), steps[i], key);
  }

  // Seen within its step, an operation of the run observes the same.
  lemma SameSightInStep(cr: Crypto, w: World, steps: seq<Step>, i: nat, m: nat, key: string, c: Cache, ops: seq<Op>, n: nat)
    requires i < |steps| && InStep(cr, w, steps, i, m)
    requires c == After(cr, w, steps[..i]).cache && ops == StepOps(cr, After(cr, w, steps[..i]), steps[i])
    requires n == |Trace(cr, w, steps[..i])|
    ensures m < |Trace(cr, w, steps)| && m - n < |ops|
    ensures SawAbsent(w.cache, Trace(cr, w, steps), m, key) <==> SawAbsent(c, ops, m - n, key)
  {
    StepInTrace(cr, w, steps, i, m);
  }

  lemma SightInStep(cr: Crypto, w: World, steps: seq<Step>, i: nat, m: nat, key: string)
    returns (c: Cache, ops: seq<Op>, a: nat)
    requires i < |steps| && InStep(cr, w, steps, i, m)
    requires m < |Trace(cr, w, steps)| && SawAbsent(w.cache, Trace(cr, w, steps), m, key)
    ensures c == After(cr, w, steps[..i]).cache && ops == StepOps(cr, After(cr, w, steps[..i]), steps[i])
    ensures a < |ops| && SawAbsent(c, ops, a, key)
  {
    var n := |Trace(cr, w, steps[..i])|;
    c, ops := After(cr, w, steps[..i]).cache, StepOps(cr, After(cr, w, steps[..i]), steps[i]);
    a := m - n;
    SameSightInStep(cr, w, steps, i, m, key, c, ops, n);
  }

  lemma AbsenceHasADocument(cr: Crypto, w: World, steps: seq<Step>, i: nat, m: nat, key: string)
    requires Initial(w) && Possible(cr, w, steps) && i < |steps| && InStep(cr, w, steps, i, m)
    requires m < |Trace(cr, w, steps)| && SawAbsent(w.cache, Trace(cr, w, steps), m, key)
    ensures CountsAgainst(cr, w, steps, i, key)
  {
    var c, ops, a := SightInStep(cr, w, steps, i, m, key);
    CountsItself(cr, w, steps, i, key, c, ops, a);
  }

  lemma CountsItself(cr: Crypto, w: World, steps: seq<Step>, i: nat, key: string, c: Cache, ops: seq<Op>, a: nat)
    requires Initial(w) && Possible(cr, w, steps) && i < |steps|
    requires c == After(cr, w, steps[..i]).cache && ops == StepOps(cr, After(cr, w, steps[..i]), steps[i])
    requires a < |ops| && SawAbsent(c, ops, a, key)
    ensures CountsAgainst(cr, w, steps, i, key)
  {
    OneAbsenceCounts(c, ops, a, key);
    StepOfARunCountsOnce(cr, w, steps, i, key);
  }

  lemma CountsRise(c: Cache, ops: seq<Op>, a: nat, b: nat, key: string)
    requires a <= b <= |ops|
    ensures Absences(c, ops[..a], key) <= Absences(c, ops[..b], key)
  {
    var part := ops[..b];
    assert part[..a] == ops[..a];
    PartCountsLess(c, part, a, key);
  }

  lemma TwoAbsencesAddTwo(c: Cache, ops: seq<Op>, a: nat, b: nat, key: string)
    requires a < b < |ops| && SawAbsent(c, ops, a, key) && SawAbsent(c, ops, b, key)
    ensures Absences(c, ops[..b + 1], key) >= Absences(c, ops[..a], key) + 2
  {
    OneMoreCounts(c, ops, a, key);
    CountsRise(c, ops, a + 1, b, key);
    OneMoreCounts(c, ops, b, key);
  }

  lemma TwoFrom(c: Cache, ops: seq<Op>, s: nat, a: nat, m: nat, key: string)
    requires s <= a < m < |ops| && SawAbsent(c, ops, a, key) && SawAbsent(c, ops, m, key)
    ensures Absences(c, ops[..m + 1], key) >= Absences(c, ops[..s], key) + 2
  {
    CountsRise(c, ops, s, a, key);
    TwoAbsencesAddTwo(c, ops, a, m, key);
  }

  lemma TwoUpTo(c: Cache, ops: seq<Op>, s: nat, a: nat, m: nat, e: nat, key: string)
    requires s <= a < m < e <= |ops| && SawAbsent(c, ops, a, key) && SawAbsent(c, ops, m, key)
    ensures Absences(c, ops[..e], key) >= Absences(c, ops[..s], key) + 2
  {
    TwoFrom(c, ops, s, a, m, key);
    CountsRise(c, ops, m + 1, e, key);
  }

  lemma StepAddsOne(cr: Crypto, w: World, steps: seq<Step>, i: nat, key: string)
    requires Initial(w) && Possible(cr, w, steps) && i < |steps|
    ensures Absences(w.cache, Trace(cr, w, steps[..i + 1]), key) <= Absences(w.cache, Trace(cr, w, steps[..i]), key) + 1
  {
    StepOfARunCountsOnce(cr, w, steps, i, key);
    TraceStep(cr, w, steps, i);
    EveryRunIsATrace(cr, w, steps[..i]);
    AbsencesConcat(w.cache, Trace(cr, w, steps[..i]), StepOps(cr, After(cr, w, steps[..i]), steps[i]), key);
  }

  lemma AtMostOneIn(c: Cache, ops: seq<Op>, before: seq<Op>, after: seq<Op>, a: nat, m: nat, key: string)
    requires before <= ops && after <= ops && |before| <= a < m < |after|
    requires Absences(c, after, key) <= Absences(c, before, key) + 1
    requires SawAbsent(c, ops, a, key)
    ensures !SawAbsent(c, ops, m, key)
  {
    assert ops[..|before|] == before && ops[..|after|] == after;
    if SawAbsent(c, ops, m, key) {
      TwoUpTo(c, ops, |before|, a, m, |after|, key);
    }
  }

  lemma AbsencesOfOneStep(cr: Crypto, w: World, steps: seq<Step>, i: nat, a: nat, m: nat, key: string)
    requires Initial(w) && Possible(cr, w, steps) && i < |steps| && a < m < |Trace(cr, w, steps)|
    requires InStep(cr, w, steps, i, a) && InStep(cr, w, steps, i, m)
    requires SawAbsent(w.cache, Trace(cr, w, steps), a, key)
    ensures !SawAbsent(w.cache, Trace(cr, w, steps), m, key)
  {
    EarlierTraceIsPrefix(cr, w, steps, i);
    EarlierTraceIsPrefix(cr, w, steps, i + 1);
    StepAddsOne(cr, w, steps, i, key);
    AtMostOneIn(w.cache, Trace(cr, w, steps), Trace(cr, w, steps[..i]), Trace(cr, w, steps[..i + 1]), a, m, key);
  }

  lemma LaterOpLaterStep(cr: Crypto, w: World, steps: seq<Step>, i: nat, j: nat, a: nat, m: nat)
    requires i < |steps| && j < |steps| && a <= m && InStep(cr, w, steps, i, a) && InStep(cr, w, steps, j, m)
    ensures i <= j
  {
    if j < i {
      EarlierTraceIsShorter(cr, w, steps, j + 1, i);
    }
  }

  lemma EarlierTraceIsShorter(cr: Crypto, w: World, steps: seq<Step>, j: nat, i: nat)
    requires j <= i <= |steps|
    ensures |Trace(cr, w, steps[..j])| <= |Trace(cr, w, steps[..i])|
  {
    var part := steps[..i];
    assert part[..j] == steps[..j];
    EarlierTraceIsPrefix(cr, w, part, j);
  }

  // Operation m takes the kid out of the cache, and not for want of room.
  predicate TakesOut(c: Cache, ops: seq<Op>, m: nat, key: string)
    requires m < |ops|
  {
    && key in State(c, ops, m).hits && key !in State(c, ops, m + 1).hits
    && !PushedOut(State(c, ops, m), ops[m], key)
  }

  lemma LeavingIsTheSecondAbsence(c: Cache, ops: seq<Op>, m: nat, key: string)
    requires Valid(c) && c.hits == map[] && m < |ops| && TakesOut(c, ops, m, key)
    ensures SawAbsent(c, ops, m, key) && AbsencesSince(c, ops[..m], key) == 1
  {
    StateStep(c, ops, m);
    WhyAKidLeaves(State(c, ops, m), ops[m], key);
    CounterCountsAbsences(c, ops[..m], key);
  }

  // In every interleaving, a kid that is taken out of the cache by a step was
  // counted absent by the refresh document of that step and by that of an
  // earlier step, and nothing in between observed it present.
  lemma EvictionNeedsTwoDocuments(cr: Crypto, w: World, steps: seq<Step>, m: nat, key: string)
    returns (i: nat, j: nat, a: nat)
    requires Initial(w) && Possible(cr, w, steps)
    requires m < |Trace(cr, w, steps)| && TakesOut(w.cache, Trace(cr, w, steps), m, key)
    ensures i < j < |steps| && CountsAgainst(cr, w, steps, i, key) && CountsAgainst(cr, w, steps, j, key)
    ensures InStep(cr, w, steps, j, m) && InStep(cr, w, steps, i, a) && a < m
    ensures SawAbsent(w.cache, Trace(cr, w, steps), a, key)
    ensures NeverPresent(w.cache, Trace(cr, w, steps), a, m, key)
  {
    var ops := Trace(cr, w, steps);
    LeavingIsTheSecondAbsence(w.cache, ops, m, key);
    a := WhereItWasCounted(w.cache, ops, m, key);
    i := EveryOpHasAStep(cr, w, steps, a);
    j := EveryOpHasAStep(cr, w, steps, m);
    LaterOpLaterStep(cr, w, steps, i, j, a, m);
    if i == j {
      AbsencesOfOneStep(cr, w, steps, i, a, m, key);
    }
    AbsenceHasADocument(cr, w, steps, i, a, key);
    AbsenceHasADocument(cr, w, steps, j, m, key);
  }
}
