/** What holds of every sequence of cache operations, whoever issues them. */
module JwksTrace {
  import Wrappers
  import opened Jwks
  import opened Lru
  import opened JwksModel

  function State(c: Cache, ops: seq<Op>, i: nat): Cache
    requires i <= |ops|
  {
    Run(c, ops[..i])
  }

  lemma StateStep(c: Cache, ops: seq<Op>, i: nat)
    requires i < |ops|
    ensures State(c, ops, i + 1) == Apply(State(c, ops, i), ops[i])
    ensures Valid(c) ==> Valid(State(c, ops, i)) && Valid(State(c, ops, i + 1))
  {
    assert ops[..i + 1][..i] == ops[..i];
    if Valid(c) {
      RunKeepsValid(c, ops[..i]);
      RunKeepsValid(c, ops[..i + 1]);
    }
  }

  // ---- Reservations ----

  predicate Current(c: Cache, key: string, id: nat) {
    key in c.hits && c.hits[key].reservation == id
  }

  // The kid is cached, and its last attempt is the floor ago or the clock has
  // gone back by more than a minute since.
  predicate Grants(c: Cache, op: Op, key: string, id: nat) {
    && op.Reserve? && CacheKey(op.uri, op.kid) == key && id == c.nextId && key in c.hits
    && (op.now < c.hits[key].lastAttempt - 60 || op.now >= c.hits[key].lastAttempt + c.minRefresh)
  }

  // The identifier is the current one of the entry, there are keys to store, and
  // the clock is not a minute or less behind the last commit.
  predicate Commits(c: Cache, op: Op, key: string, id: nat) {
    && op.Commit? && CacheKey(op.uri, op.kid) == key && op.id == id && id != 0 && op.keys != []
    && key in c.hits && c.hits[key].reservation == id
    && (op.now >= c.hits[key].fetchedAt || op.now < c.hits[key].fetchedAt - 60)
  }

  ghost predicate NoReservations(c: Cache) {
    forall k :: k in c.hits ==> c.hits[k].reservation == 0
  }

  lemma KeysInstallNothing(c: Cache, op: Op, key: string, id: nat)
    requires Valid(c) && id != 0 && Current(Apply(c, op), key, id) && (op.Ingest? || op.Passive?)
    ensures Current(c, key, id)
  {
    if op.keys != [] && CacheKey(op.uri, op.kid) !in c.hits {
      NewKidOutcome(c, op, key);
    }
  }

  // A reservation becomes current in one way only: by being granted.
  lemma OnlyGrantInstalls(c: Cache, op: Op, key: string, id: nat)
    requires Valid(c) && id != 0 && Current(Apply(c, op), key, id)
    ensures Current(c, key, id) || Grants(c, op, key, id)
  {
    if op.Ingest? || op.Passive? {
      KeysInstallNothing(c, op, key, id);
    } else if !op.Reserve? {
      OthersInstallNothing(c, op, key, id);
    }
  }

  lemma OthersInstallNothing(c: Cache, op: Op, key: string, id: nat)
    requires id != 0 && Current(Apply(c, op), key, id) && !(op.Ingest? || op.Passive? || op.Reserve?)
    ensures Current(c, key, id)
  {
  }

  lemma IdsGrow(c: Cache, op: Op, key: string)
    ensures Apply(c, op).nextId == c.nextId + if exists k :: Grants(c, op, k, c.nextId) then 1 else 0
  {
    if op.Reserve? {
      assert MayReserve(c, op.kid, op.now, op.uri) ==> Grants(c, op, CacheKey(op.uri, op.kid), c.nextId);
    }
  }

  lemma {:induction false} IdsGrowAlong(c: Cache, ops: seq<Op>, i: nat, j: nat)
    requires i <= j <= |ops|
    ensures State(c, ops, i).nextId <= State(c, ops, j).nextId
    decreases j
  {
    if i < j {
      IdsGrowAlong(c, ops, i, j - 1);
      StateStep(c, ops, j - 1);
      IdsGrow(State(c, ops, j - 1), ops[j - 1], "");
    }
  }

  lemma {:induction false} DeadStaysDead(c: Cache, ops: seq<Op>, i: nat, j: nat, key: string, id: nat)
    requires Valid(c) && i <= j <= |ops| && id != 0
    requires id < State(c, ops, i).nextId && !Current(State(c, ops, i), key, id)
    ensures !Current(State(c, ops, j), key, id)
    decreases j
  {
    if i < j {
      DeadStaysDead(c, ops, i, j - 1, key, id);
      IdsGrowAlong(c, ops, i, j - 1);
      StateStep(c, ops, j - 1);
      if Current(State(c, ops, j), key, id) {
        OnlyGrantInstalls(State(c, ops, j - 1), ops[j - 1], key, id);
      }
    }
  }

  // The grant of `id` for `key` at step j, current without a gap up to i.
  ghost predicate GrantedAndKept(c: Cache, ops: seq<Op>, j: nat, i: nat, key: string, id: nat)
    requires i <= |ops|
  {
    && j < i
    && Grants(State(c, ops, j), ops[j], key, id)
    && forall m :: j < m <= i ==> Current(State(c, ops, m), key, id)
  }

  lemma CurrentOneStepAgo(c: Cache, ops: seq<Op>, i: nat, key: string, id: nat)
    requires Valid(c) && i < |ops| && id != 0 && Current(State(c, ops, i + 1), key, id)
    ensures Current(State(c, ops, i), key, id) || Grants(State(c, ops, i), ops[i], key, id)
  {
    StateStep(c, ops, i);
    OnlyGrantInstalls(State(c, ops, i), ops[i], key, id);
  }

  lemma JustGranted(c: Cache, ops: seq<Op>, j: nat, key: string, id: nat)
    requires j < |ops| && Grants(State(c, ops, j), ops[j], key, id) && Current(State(c, ops, j + 1), key, id)
    ensures GrantedAndKept(c, ops, j, j + 1, key, id)
  {
  }

  lemma KeptOneMore(c: Cache, ops: seq<Op>, j: nat, i: nat, key: string, id: nat)
    requires i < |ops| && GrantedAndKept(c, ops, j, i, key, id) && Current(State(c, ops, i + 1), key, id)
    ensures GrantedAndKept(c, ops, j, i + 1, key, id)
  {
  }

  lemma NoneAtTheStart(c: Cache, ops: seq<Op>, key: string, id: nat)
    requires NoReservations(c) && id != 0
    ensures !Current(State(c, ops, 0), key, id)
  {
  }

  lemma {:induction false} CurrentWasGranted(c: Cache, ops: seq<Op>, i: nat, key: string, id: nat) returns (j: nat)
    requires Valid(c) && NoReservations(c) && i <= |ops| && id != 0
    requires Current(State(c, ops, i), key, id)
    ensures GrantedAndKept(c, ops, j, i, key, id)
    decreases i
  {
    NoneAtTheStart(c, ops, key, id);
    CurrentOneStepAgo(c, ops, i - 1, key, id);
    if Current(State(c, ops, i - 1), key, id) {
      j := CurrentWasGranted(c, ops, i - 1, key, id);
      KeptOneMore(c, ops, j, i - 1, key, id);
    } else {
      j := i - 1;
      JustGranted(c, ops, j, key, id);
    }
  }

  // A commit that takes effect was granted for that very key, and its
  // reservation stayed current at every moment in between.
  lemma CommitNeedsUnbrokenGrant(c: Cache, ops: seq<Op>, i: nat, key: string, id: nat)
    requires Valid(c) && NoReservations(c) && i < |ops|
    requires Commits(State(c, ops, i), ops[i], key, id)
    ensures exists j :: GrantedAndKept(c, ops, j, i, key, id)
  {
    var j := CurrentWasGranted(c, ops, i, key, id);
  }

  lemma SameIdSameGrant(c: Cache, ops: seq<Op>, i: nat, j: nat, key1: string, key2: string, id: nat)
    requires i < |ops| && j < |ops|
    requires Grants(State(c, ops, i), ops[i], key1, id) && Grants(State(c, ops, j), ops[j], key2, id)
    ensures i == j && key1 == key2
  {
    var a, b := if i < j then i else j, if i < j then j else i;
    if a < b {
      StateStep(c, ops, a);
      IdsGrowAlong(c, ops, a + 1, b);
    }
  }

  lemma CommitSpends(c: Cache, ops: seq<Op>, a: nat, key: string, id: nat)
    requires Valid(c) && a < |ops| && Commits(State(c, ops, a), ops[a], key, id)
    ensures !Current(State(c, ops, a + 1), key, id)
  {
    StateStep(c, ops, a);
  }

  // Each identifier commits at most once, for whichever key.
  lemma CommitsAtMostOnce(c: Cache, ops: seq<Op>, i: nat, j: nat, key1: string, key2: string, id: nat)
    requires Valid(c) && NoReservations(c) && i < |ops| && j < |ops|
    requires Commits(State(c, ops, i), ops[i], key1, id) && Commits(State(c, ops, j), ops[j], key2, id)
    ensures i == j
  {
    var g1 := CurrentWasGranted(c, ops, i, key1, id);
    var g2 := CurrentWasGranted(c, ops, j, key2, id);
    SameIdSameGrant(c, ops, g1, g2, key1, key2, id);
    if i < j {
      CommitSpends(c, ops, i, key1, id);
    } else if j < i {
      CommitSpends(c, ops, j, key2, id);
    }
  }

  // Later commits of one key carry larger identifiers.
  lemma CommitIdsIncrease(c: Cache, ops: seq<Op>, i: nat, j: nat, key: string, id1: nat, id2: nat)
    requires Valid(c) && NoReservations(c) && i < j < |ops|
    requires Commits(State(c, ops, i), ops[i], key, id1) && Commits(State(c, ops, j), ops[j], key, id2)
    ensures id1 < id2
  {
    var g1 := CurrentWasGranted(c, ops, i, key, id1);
    var g2 := CurrentWasGranted(c, ops, j, key, id2);
    if g2 < i {
      assert Current(State(c, ops, i), key, id2);
      CommitsAtMostOnce(c, ops, i, j, key, key, id1);
    } else {
      StateStep(c, ops, g1);
      IdsGrowAlong(c, ops, g1 + 1, g2);
    }
  }

  // What overtakes the reservations granted so far for a key.
  ghost predicate Overtakes(c: Cache, op: Op, key: string) {
    || Grants(c, op, key, c.nextId)
    || (op.Absent? && CacheKey(op.uri, op.kid) == key && key in c.hits && (op.id == 0 || c.hits[key].reservation == op.id))
    || key !in c.hits || key !in Apply(c, op).hits
    || (op.Ingest? && CacheKey(op.uri, op.kid) == key && op.keys != [] && !SameList(c.hits[key].keys, op.keys))
    || (exists id :: Commits(c, op, key, id))
  }

  // An overtaken reservation can never commit.
  lemma OvertakenNeverCommits(c: Cache, ops: seq<Op>, m: nat, i: nat, key: string, id: nat)
    requires Valid(c) && m < i < |ops| && id != 0
    requires id < State(c, ops, m).nextId && Overtakes(State(c, ops, m), ops[m], key)
    ensures !Commits(State(c, ops, i), ops[i], key, id)
  {
    StateStep(c, ops, m);
    IdsGrow(State(c, ops, m), ops[m], key);
    DeadAfterOvertaking(State(c, ops, m), ops[m], key, id);
    DeadStaysDead(c, ops, m + 1, i, key, id);
  }

  // And only an overtaken one is lost: a reservation stays current exactly until
  // something overtakes it.
  lemma LostExactlyWhenOvertaken(c: Cache, op: Op, key: string, id: nat)
    requires Valid(c) && id != 0 && Current(c, key, id)
    ensures Current(Apply(c, op), key, id) <==> !Overtakes(c, op, key)
  {
    if Overtakes(c, op, key) {
      DeadAfterOvertaking(c, op, key, id);
    } else if op.Commit? {
      CommitOvertakesNothing(c, op, key, id);
    } else if op.Ingest? || op.Passive? {
      KeysOvertakeNothing(c, op, key, id);
    } else {
      OthersOvertakeNothing(c, op, key, id);
    }
  }

  lemma CommitOvertakesNothing(c: Cache, op: Op, key: string, id: nat)
    requires Current(c, key, id) && op.Commit? && !Overtakes(c, op, key)
    ensures Current(Apply(c, op), key, id)
  {
    assert !Commits(c, op, key, op.id);
  }

  lemma OthersOvertakeNothing(c: Cache, op: Op, key: string, id: nat)
    requires Current(c, key, id) && !(op.Commit? || op.Ingest? || op.Passive?) && !Overtakes(c, op, key)
    ensures Current(Apply(c, op), key, id)
  {
  }

  lemma KeysOvertakeNothing(c: Cache, op: Op, key: string, id: nat)
    requires Valid(c) && Current(c, key, id) && (op.Ingest? || op.Passive?) && !Overtakes(c, op, key)
    ensures Current(Apply(c, op), key, id)
  {
    if op.keys != [] && CacheKey(op.uri, op.kid) !in c.hits {
      NewKidOutcome(c, op, key);
    }
  }

  lemma DeadAfterOvertaking(c: Cache, op: Op, key: string, id: nat)
    requires Valid(c) && id != 0 && id < c.nextId && Overtakes(c, op, key)
    ensures !Current(Apply(c, op), key, id)
  {
    if Current(Apply(c, op), key, id) {
      OnlyGrantInstalls(c, op, key, id);
    }
  }

  // ---- Two absences before eviction ----

  datatype Sighting = Seen | NotSeen | NoNews

  // What an operation observes about the kid behind `key`.
  function Observe(c: Cache, op: Op, key: string): Sighting {
    match op
    case Ingest(kid, keys, now, uri) => if CacheKey(uri, kid) == key && keys != [] then Seen else NoNews
    case Passive(kid, keys, now, uri) => if CacheKey(uri, kid) == key && keys != [] then Seen else NoNews
    case Commit(kid, id, keys, now, uri) => if Commits(c, op, key, id) then Seen else NoNews
    case ReconcileOp(present, _, uri, exclude) =>
      if !InScope(uri, key) || (exclude != "" && KidOf(uri, key) == exclude) then NoNews
      else if KidOf(uri, key) in present then Seen else NotSeen
    case Absent(kid, id, now, uri) =>
      if CacheKey(uri, kid) == key && key in c.hits && (id == 0 || c.hits[key].reservation == id) then NotSeen else NoNews
    case _ => NoNews
  }

  // Absences observed since the kid was last observed present.
  function AbsencesSince(c: Cache, ops: seq<Op>, key: string): nat {
    if ops == [] then 0
    else
      var front := ops[..|ops| - 1];
      match Observe(Run(c, front), ops[|ops| - 1], key)
      case Seen => 0
      case NotSeen => AbsencesSince(c, front, key) + 1
      case NoNews => AbsencesSince(c, front, key)
  }

  // A full table pushes out the entry at its back to admit another kid.
  predicate PushedOut(c: Cache, op: Op, key: string) {
    && (op.Ingest? || op.Passive?) && op.keys != []
    && CacheKey(op.uri, op.kid) !in c.hits
    && Evictee(c.hitLru, c.maxEntries, key)
  }

  lemma InsertOutcome(c: Cache, k: string, e: Entry, key: string)
    requires Valid(c) && k !in c.hits
    ensures key in Insert(c, k, e).hits
       <==> key == k || (key in c.hits && !Evictee(c.hitLru, c.maxEntries, key))
    ensures k in Insert(c, k, e).hits && Insert(c, k, e).hits[k] == e
    ensures key != k && key in Insert(c, k, e).hits ==> Insert(c, k, e).hits[key] == c.hits[key]
  {
    PushDropsEvictee(k, c.hitLru, c.maxEntries, key);
    PushDropsEvictee(k, c.hitLru, c.maxEntries, k);
  }

  // The entries after keys have arrived for a kid that was not cached.
  lemma NewKidOutcome(c: Cache, op: Op, key: string)
    requires Valid(c) && (op.Ingest? || op.Passive?) && op.keys != [] && CacheKey(op.uri, op.kid) !in c.hits
    ensures var k, d := CacheKey(op.uri, op.kid), Apply(c, op);
            && (key in d.hits <==> key == k || (key in c.hits && !Evictee(c.hitLru, c.maxEntries, key)))
            && (key in d.hits && key == k ==> d.hits[key] == Entry(Trim(op.keys), op.now, op.now, 0, 0))
            && (key in d.hits && key != k ==> d.hits[key] == c.hits[key])
  {
    var k := CacheKey(op.uri, op.kid);
    var d := DropMiss(RecordFetchSuccess(c, op.now, op.uri), k);
    InsertOutcome(d, k, Entry(Trim(op.keys), op.now, op.now, 0, 0), key);
  }

  // An ingest that replaces: a cached kid keeps the time of its last attempt,
  // and its reservation only if the keys are those it had. Its stamp does not
  // fall. A new kid starts with the time of the ingest and no reservation.
  lemma IngestOutcome(c: Cache, kid: string, keys: seq<Jwk>, now: int, uri: string)
    requires Valid(c) && keys != []
    ensures var key, d := CacheKey(uri, kid), Apply(c, Ingest(kid, keys, now, uri));
            var four := if |keys| > 4 then keys[..4] else keys;
            && key in d.hits && key !in d.misses
            && d.hits[key] == (if key !in c.hits then Entry(four, now, now, 0, 0)
                               else var e := c.hits[key];
                                    Entry(four, if now > e.fetchedAt then now else e.fetchedAt, e.lastAttempt,
                                          if SameList(e.keys, keys) then e.reservation else 0, 0))
  {
    if CacheKey(uri, kid) !in c.hits {
      NewKidOutcome(c, Ingest(kid, keys, now, uri), CacheKey(uri, kid));
    }
  }

  lemma ArrivingKeysRemove(c: Cache, op: Op, key: string)
    requires Valid(c) && key in c.hits && (op.Ingest? || op.Passive?)
    ensures key !in Apply(c, op).hits <==> PushedOut(c, op, key)
  {
    if op.keys != [] && CacheKey(op.uri, op.kid) !in c.hits {
      NewKidOutcome(c, op, key);
    }
  }

  lemma AbsenceRemoves(c: Cache, op: Op, key: string)
    requires Valid(c) && key in c.hits && (op.ReconcileOp? || op.Absent?)
    ensures key !in Apply(c, op).hits <==> Observe(c, op, key).NotSeen? && c.hits[key].absent == 1
  {
  }

  lemma OthersRemoveNothing(c: Cache, op: Op, key: string)
    requires key in c.hits && !(op.Ingest? || op.Passive? || op.ReconcileOp? || op.Absent?)
    ensures key in Apply(c, op).hits && !Observe(c, op, key).NotSeen?
  {
  }

  // A kid leaves the cache in two ways only: pushed out by capacity, or
  // observed absent while its counter already stands at one.
  lemma WhyAKidLeaves(c: Cache, op: Op, key: string)
    requires Valid(c) && key in c.hits
    ensures key !in Apply(c, op).hits
       <==> PushedOut(c, op, key) || (Observe(c, op, key).NotSeen? && c.hits[key].absent == 1)
  {
    if op.Ingest? || op.Passive? {
      ArrivingKeysRemove(c, op, key);
    } else if op.ReconcileOp? || op.Absent? {
      AbsenceRemoves(c, op, key);
    } else {
      OthersRemoveNothing(c, op, key);
    }
  }

  ghost predicate CounterFollows(c: Cache, op: Op, key: string) {
    key in Apply(c, op).hits ==>
      var now := Apply(c, op).hits[key].absent;
      match Observe(c, op, key)
      case Seen => now == 0
      case NotSeen => key in c.hits && now == c.hits[key].absent + 1
      case NoNews => key in c.hits && now == c.hits[key].absent
  }

  lemma NewKidResetsCounter(c: Cache, op: Op, key: string)
    requires Valid(c) && (op.Ingest? || op.Passive?) && op.keys != [] && CacheKey(op.uri, op.kid) !in c.hits
    ensures CounterFollows(c, op, key)
  {
    NewKidOutcome(c, op, key);
  }

  lemma IngestResetsCounter(c: Cache, op: Op, key: string)
    requires Valid(c) && (op.Ingest? || op.Passive?)
    ensures CounterFollows(c, op, key)
  {
    if op.keys != [] && CacheKey(op.uri, op.kid) !in c.hits {
      NewKidResetsCounter(c, op, key);
    }
  }

  lemma AbsenceMovesCounter(c: Cache, op: Op, key: string)
    requires op.ReconcileOp? || op.Absent?
    ensures CounterFollows(c, op, key)
  {
  }

  lemma OthersKeepCounter(c: Cache, op: Op, key: string)
    requires !(op.Ingest? || op.Passive? || op.ReconcileOp? || op.Absent?)
    ensures CounterFollows(c, op, key)
  {
  }

  lemma CounterFollowsObservation(c: Cache, op: Op, key: string)
    requires Valid(c)
    ensures CounterFollows(c, op, key)
  {
    if op.Ingest? || op.Passive? {
      IngestResetsCounter(c, op, key);
    } else if op.ReconcileOp? || op.Absent? {
      AbsenceMovesCounter(c, op, key);
    } else {
      OthersKeepCounter(c, op, key);
    }
  }

  // The counter of every cached kid is the number of absences observed since
  // the kid was last observed present, and it is 0 or 1 between operations.
  lemma {:induction false} CounterCountsAbsences(c: Cache, ops: seq<Op>, key: string)
    requires Valid(c) && c.hits == map[]
    requires key in Run(c, ops).hits
    ensures Run(c, ops).hits[key].absent == AbsencesSince(c, ops, key) <= 1
  {
    RunKeepsValid(c, ops);
    if ops != [] {
      var front, last := ops[..|ops| - 1], ops[|ops| - 1];
      RunKeepsValid(c, front);
      CounterFollowsObservation(Run(c, front), last, key);
      if key in Run(c, front).hits {
        CounterCountsAbsences(c, front, key);
      }
    }
  }

  // ---- URIs do not disturb each other ----

  predicate OneLine(s: string) {
    '\n' !in s
  }

  function UriOf(op: Op): Wrappers.Option<string> {
    match op
    case Fetched(_) => Wrappers.None
    case SetFloor(_) => Wrappers.None
    case Ingest(_, _, _, uri) => Wrappers.Some(uri)
    case Passive(_, _, _, uri) => Wrappers.Some(uri)
    case ReconcileOp(_, _, uri, _) => Wrappers.Some(uri)
    case Absent(_, _, _, uri) => Wrappers.Some(uri)
    case Reserve(_, _, uri) => Wrappers.Some(uri)
    case Commit(_, _, _, _, uri) => Wrappers.Some(uri)
    case RecordMiss(_, _, uri) => Wrappers.Some(uri)
    case FetchedOk(_, uri) => Wrappers.Some(uri)
  }

  predicate KidOneLine(op: Op) {
    (op.Ingest? || op.Passive? || op.Absent? || op.Reserve? || op.Commit? || op.RecordMiss?) ==> OneLine(op.kid)
  }

  function FirstLine(s: string): nat {
    if s == "" || s[0] == '\n' then 0 else 1 + FirstLine(s[1..])
  }

  lemma {:induction false} FirstLineEnds(line: string, rest: string)
    requires OneLine(line)
    ensures FirstLine(line + "\n" + rest) == |line| == FirstLine(line)
  {
    if line != "" {
      assert (line + "\n" + rest)[1..] == line[1..] + "\n" + rest;
      FirstLineEnds(line[1..], rest);
    }
  }

  // The prefix test recognises exactly the entries of its own URI.
  lemma ScopeIsTheUri(uri: string, other: string, kid: string)
    requires OneLine(uri) && OneLine(other) && OneLine(kid)
    ensures InScope(uri, CacheKey(other, kid)) <==> uri == other
    ensures uri == other ==> KidOf(uri, CacheKey(other, kid)) == kid
  {
    var key := CacheKey(other, kid);
    if other != "" {
      FirstLineEnds(other, kid);
      assert key[|other|] == '\n' && key[..|other|] == other && key[|other| + 1..] == kid;
    } else {
      FirstLineEnds(kid, "");
    }
    if uri != "" && uri + "\n" <= key {
      FirstLineEnds(uri, key[|uri| + 1..]);
      assert key == uri + "\n" + key[|uri| + 1..];
      assert key[..|uri|] == uri;
    }
  }

  lemma CacheKeyIsInjective(uri1: string, kid1: string, uri2: string, kid2: string)
    requires OneLine(uri1) && OneLine(kid1) && OneLine(uri2) && OneLine(kid2)
    ensures CacheKey(uri1, kid1) == CacheKey(uri2, kid2) <==> uri1 == uri2 && kid1 == kid2
  {
    ScopeIsTheUri(uri1, uri1, kid1);
    ScopeIsTheUri(uri1, uri2, kid2);
  }

  ghost predicate Untouched(c: Cache, op: Op, key: string) {
    var d := Apply(c, op);
    && (key in d.hits ==> key in c.hits && d.hits[key] == c.hits[key])
    && (key in c.hits && key !in d.hits ==> PushedOut(c, op, key))
    && (key in d.misses ==> key in c.misses && d.misses[key] == c.misses[key])
    && (key in c.misses && key !in d.misses ==>
          op.RecordMiss? && Evictee(c.missLru, c.maxEntries, key))
  }

  lemma FetchSuccessElsewhere(c: Cache, op: Op, key: string)
    requires Valid(c) && (op.Ingest? || op.Passive?) && CacheKey(op.uri, op.kid) != key
    requires CacheKey(op.uri, op.kid) !in c.hits
    ensures Untouched(c, op, key)
  {
    if op.keys != [] {
      NewKidOutcome(c, op, key);
    }
  }

  lemma IngestElsewhere(c: Cache, op: Op, key: string)
    requires Valid(c) && (op.Ingest? || op.Passive?) && CacheKey(op.uri, op.kid) != key
    ensures Untouched(c, op, key)
  {
    if CacheKey(op.uri, op.kid) !in c.hits {
      FetchSuccessElsewhere(c, op, key);
    }
  }

  lemma MissElsewhere(c: Cache, op: Op, key: string)
    requires Valid(c) && op.RecordMiss? && CacheKey(op.uri, op.kid) != key
    ensures Untouched(c, op, key)
  {
    var d := Apply(c, op);
    assert d.hits == c.hits;
    MissOutcome(c, CacheKey(op.uri, op.kid), op.now, key, d.misses);
  }

  // An operation for one URI leaves every entry and every recorded miss of the
  // other URIs as they are, except that a full table may push one out.
  lemma OtherUrisUntouched(c: Cache, op: Op, uri: string, kid: string)
    requires Valid(c) && OneLine(uri) && OneLine(kid) && KidOneLine(op)
    requires UriOf(op).Some? && OneLine(UriOf(op).value) && UriOf(op).value != uri
    ensures Untouched(c, op, CacheKey(uri, kid))
  {
    var key := CacheKey(uri, kid);
    if op.ReconcileOp? {
      ScopeIsTheUri(op.uri, uri, kid);
    } else if !op.FetchedOk? {
      CacheKeyIsInjective(op.uri, op.kid, uri, kid);
      if op.Ingest? || op.Passive? {
        IngestElsewhere(c, op, key);
      } else if op.RecordMiss? {
        MissElsewhere(c, op, key);
      }
    }
  }

  lemma MissOutcome(c: Cache, k: string, now: int, key: string, misses: map<string, int>)
    requires Valid(c) && key != k
    requires misses == Restrict(c.misses[k := now], Kept([k] + Without(c.missLru, k), c.maxEntries))
    ensures key in misses ==> key in c.misses && misses[key] == c.misses[key]
    ensures key in c.misses && key !in misses ==> Evictee(c.missLru, c.maxEntries, key)
  {
    PushDropsEvictee(k, Without(c.missLru, k), c.maxEntries, key);
    if k !in c.missLru {
      WithoutIsOnly(c.missLru, k, c.misses.Keys);
      OnlyEverything(c.missLru, c.misses.Keys);
    }
  }
}
