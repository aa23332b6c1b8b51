/** The JWKS cache as a value, and what each operation makes of it. */
module JwksModel {
  import opened Wrappers
  import opened Jwks
  import opened Lru

  const MAX_KEYS_PER_KID := 4
  const BUDGET_WINDOW_S := 2
  const CLOCK_RESET_S := 60

  datatype ClockRel = Forward | MinorRewind | Reset

  function RelateClock(now: int, stamp: int): ClockRel {
    if now >= stamp then Forward else if stamp - now <= CLOCK_RESET_S then MinorRewind else Reset
  }

  datatype Entry = Entry(keys: seq<Jwk>, fetchedAt: int, lastAttempt: int, reservation: nat, absent: nat)

  datatype Cache = Cache(
    minRefresh: int, maxEntries: nat,
    lastGlobalFetch: int, lastFetch: int, lastFetchByUri: map<string, int>,
    nextId: nat,
    hitLru: seq<string>, hits: map<string, Entry>,
    missLru: seq<string>, misses: map<string, int>)

  datatype LookupResult = Hit(keys: seq<Jwk>) | Miss | RateLimited(retryAfter: int)

  // ---- Names of entries ----

  function CacheKey(uri: string, kid: string): string {
    if uri == "" then kid else uri + "\n" + kid
  }

  predicate InScope(uri: string, key: string) {
    if uri == "" then '\n' !in key else uri + "\n" <= key
  }

  function KidOf(uri: string, key: string): string
    requires InScope(uri, key)
  {
    if uri == "" then key else key[|uri| + 1..]
  }

  // ---- Consistency of the tables ----

  predicate EntryOk(e: Entry, nextId: nat) {
    1 <= |e.keys| <= MAX_KEYS_PER_KID && e.reservation < nextId && e.absent <= 1
  }

  ghost predicate Valid(c: Cache) {
    && 1 <= c.minRefresh <= 3600 && c.maxEntries >= 1 && c.nextId >= 1
    && ListsKeys(c.hitLru, c.hits) && |c.hitLru| <= c.maxEntries
    && ListsKeys(c.missLru, c.misses) && |c.missLru| <= c.maxEntries
    && forall k :: k in c.hits ==> EntryOk(c.hits[k], c.nextId)
  }

  function Clamp(seconds: int): int {
    if seconds < 1 then 1 else if seconds > 3600 then 3600 else seconds
  }

  function Empty(minRefresh: int, maxEntries: nat): Cache {
    Cache(Clamp(minRefresh), if maxEntries == 0 then 1 else maxEntries, 0, 0, map[], 1, [], map[], [], map[])
  }

  // ---- Questions ----

  function Lookup(c: Cache, kid: string, now: int, uri: string): LookupResult {
    var k := CacheKey(uri, kid);
    if k in c.hits then Hit(c.hits[k].keys)
    else if k in c.misses then
      match RelateClock(now, c.misses[k])
      case Forward => if now - c.misses[k] < c.minRefresh then RateLimited(c.minRefresh - (now - c.misses[k])) else Miss
      case MinorRewind => RateLimited(c.minRefresh)
      case Reset => Miss
    else Miss
  }

  // Too soon after `stamp`, or the clock went back a little.
  predicate WithinWindow(now: int, stamp: int, window: int) {
    stamp - CLOCK_RESET_S <= now < stamp + window
  }

  predicate CanFetch(c: Cache, now: int) {
    c.lastGlobalFetch <= 0 || !WithinWindow(now, c.lastGlobalFetch, BUDGET_WINDOW_S)
  }

  predicate HasFreshDocument(c: Cache, now: int, window: int, uri: string) {
    var last := if uri == "" then c.lastFetch else if uri in c.lastFetchByUri then c.lastFetchByUri[uri] else 0;
    last > 0 && last <= now < last + window
  }

  // ---- Steps ----

  function Max(a: int, b: int): int {
    if a >= b then a else b
  }

  function Trim(keys: seq<Jwk>): seq<Jwk> {
    if |keys| <= MAX_KEYS_PER_KID then keys else keys[..MAX_KEYS_PER_KID]
  }

  function RecordFetch(c: Cache, now: int): Cache {
    c.(lastGlobalFetch := if c.lastGlobalFetch > 0 && RelateClock(now, c.lastGlobalFetch).Reset? then now
                          else Max(c.lastGlobalFetch, now))
  }

  function RecordFetchSuccess(c: Cache, now: int, uri: string): Cache {
    if uri == "" then c.(lastFetch := now) else c.(lastFetchByUri := c.lastFetchByUri[uri := now])
  }

  function DropMiss(c: Cache, k: string): Cache {
    c.(misses := c.misses - {k}, missLru := Without(c.missLru, k))
  }

  function Touch(c: Cache, k: string, e: Entry): Cache {
    c.(hits := c.hits[k := e], hitLru := [k] + Without(c.hitLru, k))
  }

  // A new entry goes to the front; what no longer fits falls off the back.
  function Insert(c: Cache, k: string, e: Entry): Cache {
    var lru := Kept([k] + c.hitLru, c.maxEntries);
    c.(hitLru := lru, hits := Restrict(c.hits[k := e], lru))
  }

  function OnFetchSuccess(c: Cache, kid: string, keys: seq<Jwk>, now: int, uri: string): Cache {
    if keys == [] then c
    else
      var k := CacheKey(uri, kid);
      var d := DropMiss(RecordFetchSuccess(c, now, uri), k);
      if k in d.hits then
        var e := d.hits[k];
        Touch(d, k, e.(keys := Trim(keys), reservation := if SameList(e.keys, keys) then e.reservation else 0,
                       fetchedAt := Max(e.fetchedAt, now), absent := 0))
      else Insert(d, k, Entry(Trim(keys), now, now, 0, 0))
  }

  function AddMissing(have: seq<Jwk>, more: seq<Jwk>): seq<Jwk>
    decreases more
  {
    if more == [] then have
    else AddMissing(if Holds(have, more[0]) then have else have + [more[0]], more[1..])
  }

  function KeepNewest(keys: seq<Jwk>): seq<Jwk> {
    if |keys| <= MAX_KEYS_PER_KID then keys else keys[|keys| - MAX_KEYS_PER_KID..]
  }

  function OnPassiveFetchSuccess(c: Cache, kid: string, keys: seq<Jwk>, now: int, uri: string): Cache {
    var k := CacheKey(uri, kid);
    if keys == [] then c
    else if k in c.hits then
      c.(hits := c.hits[k := c.hits[k].(keys := KeepNewest(AddMissing(c.hits[k].keys, keys)), absent := 0)])
    else OnFetchSuccess(c, kid, keys, now, uri)
  }

  // The entries a document from `uri` says something about.
  predicate Judged(uri: string, exclude: string, key: string) {
    InScope(uri, key) && (exclude == "" || KidOf(uri, key) != exclude)
  }

  predicate Missing(present: set<string>, uri: string, exclude: string, key: string) {
    Judged(uri, exclude, key) && KidOf(uri, key) !in present
  }

  function Recounted(e: Entry, key: string, present: set<string>, uri: string, exclude: string): Entry {
    if !Judged(uri, exclude, key) then e
    else e.(absent := if KidOf(uri, key) in present then 0 else e.absent + 1)
  }

  function Reconcile(c: Cache, present: set<string>, uri: string, exclude: string): Cache {
    var hits := map k | k in c.hits && !(Missing(present, uri, exclude, k) && c.hits[k].absent >= 1) ::
                  Recounted(c.hits[k], k, present, uri, exclude);
    c.(hits := hits, hitLru := Only(c.hitLru, hits.Keys))
  }

  predicate AbsenceCounts(c: Cache, kid: string, id: nat, uri: string) {
    var k := CacheKey(uri, kid);
    k in c.hits && (id == 0 || c.hits[k].reservation == id)
  }

  function RecordKidAbsent(c: Cache, kid: string, id: nat, now: int, uri: string): (Cache, bool) {
    var k := CacheKey(uri, kid);
    if !AbsenceCounts(c, kid, id, uri) then (c, false)
    else if c.hits[k].absent >= 1 then (c.(hits := c.hits - {k}, hitLru := Without(c.hitLru, k)), true)
    else (c.(hits := c.hits[k := c.hits[k].(reservation := 0, lastAttempt := now, absent := 1)]), false)
  }

  predicate MayReserve(c: Cache, kid: string, now: int, uri: string) {
    var k := CacheKey(uri, kid);
    k in c.hits && !WithinWindow(now, c.hits[k].lastAttempt, c.minRefresh)
  }

  // Identifier 0 means: not granted.
  function TryReserveRefresh(c: Cache, kid: string, now: int, uri: string): (Cache, nat) {
    var k := CacheKey(uri, kid);
    if !MayReserve(c, kid, now, uri) then (c, 0)
    else (c.(nextId := c.nextId + 1, hits := c.hits[k := c.hits[k].(lastAttempt := now, reservation := c.nextId)]), c.nextId)
  }

  predicate CommitSucceeds(c: Cache, kid: string, id: nat, keys: seq<Jwk>, now: int, uri: string) {
    var k := CacheKey(uri, kid);
    id != 0 && keys != [] && k in c.hits && c.hits[k].reservation == id
    && !RelateClock(now, c.hits[k].fetchedAt).MinorRewind?
  }

  function CommitRefresh(c: Cache, kid: string, id: nat, keys: seq<Jwk>, now: int, uri: string): (Cache, bool) {
    var k := CacheKey(uri, kid);
    if !CommitSucceeds(c, kid, id, keys, now, uri) then (c, false)
    else (Touch(c, k, c.hits[k].(keys := Trim(keys), fetchedAt := now, reservation := 0, absent := 0)), true)
  }

  function OnFetchMiss(c: Cache, kid: string, now: int, uri: string): Cache {
    var k := CacheKey(uri, kid);
    var lru := Kept([k] + Without(c.missLru, k), c.maxEntries);
    c.(missLru := lru, misses := Restrict(c.misses[k := now], lru))
  }

  // ---- Operations as data ----

  datatype Op =
    | Ingest(kid: string, keys: seq<Jwk>, now: int, uri: string)
    | Passive(kid: string, keys: seq<Jwk>, now: int, uri: string)
    | ReconcileOp(present: set<string>, now: int, uri: string, exclude: string)
    | Absent(kid: string, id: nat, now: int, uri: string)
    | Reserve(kid: string, now: int, uri: string)
    | Commit(kid: string, id: nat, keys: seq<Jwk>, now: int, uri: string)
    | RecordMiss(kid: string, now: int, uri: string)
    | Fetched(now: int)
    | FetchedOk(now: int, uri: string)
    | SetFloor(seconds: int)

  function Apply(c: Cache, op: Op): Cache {
    match op
    case Ingest(kid, keys, now, uri) => OnFetchSuccess(c, kid, keys, now, uri)
    case Passive(kid, keys, now, uri) => OnPassiveFetchSuccess(c, kid, keys, now, uri)
    case ReconcileOp(present, _, uri, exclude) => Reconcile(c, present, uri, exclude)
    case Absent(kid, id, now, uri) => RecordKidAbsent(c, kid, id, now, uri).0
    case Reserve(kid, now, uri) => TryReserveRefresh(c, kid, now, uri).0
    case Commit(kid, id, keys, now, uri) => CommitRefresh(c, kid, id, keys, now, uri).0
    case RecordMiss(kid, now, uri) => OnFetchMiss(c, kid, now, uri)
    case Fetched(now) => RecordFetch(c, now)
    case FetchedOk(now, uri) => RecordFetchSuccess(c, now, uri)
    case SetFloor(seconds) => c.(minRefresh := Clamp(seconds))
  }

  function Run(c: Cache, ops: seq<Op>): Cache {
    if ops == [] then c else Apply(Run(c, ops[..|ops| - 1]), ops[|ops| - 1])
  }

  lemma RunSnoc(c: Cache, ops: seq<Op>, op: Op)
    ensures Run(c, ops + [op]) == Apply(Run(c, ops), op)
  {
    assert (ops + [op])[..|ops|] == ops;
  }

  lemma RunOne(c: Cache, op: Op)
    ensures Run(c, [op]) == Apply(c, op)
  {
    RunSnoc(c, [], op);
    assert [] + [op] == [op];
  }

  lemma {:induction false} RunConcat(c: Cache, a: seq<Op>, b: seq<Op>)
    ensures Run(c, a + b) == Run(Run(c, a), b)
  {
    if b == [] {
      assert a + b == a;
    } else {
      var front := b[..|b| - 1];
      assert (a + b)[..|a + b| - 1] == a + front;
      RunConcat(c, a, front);
    }
  }

  // ---- Every operation keeps the cache consistent ----

  lemma InsertKeepsValid(c: Cache, k: string, e: Entry)
    requires Valid(c) && k !in c.hits && EntryOk(e, c.nextId)
    ensures Valid(Insert(c, k, e))
  {
    var full := [k] + c.hitLru;
    assert NoDup(full);
    var lru := Kept(full, c.maxEntries);
    assert forall x :: x in lru ==> x in full;
  }

  lemma IngestKeepsValid(c: Cache, kid: string, keys: seq<Jwk>, now: int, uri: string)
    requires Valid(c)
    ensures Valid(OnFetchSuccess(c, kid, keys, now, uri))
  {
    if keys != [] {
      var k := CacheKey(uri, kid);
      var d := DropMiss(RecordFetchSuccess(c, now, uri), k);
      assert Valid(d);
      if k !in d.hits {
        InsertKeepsValid(d, k, Entry(Trim(keys), now, now, 0, 0));
      }
    }
  }

  lemma {:induction false} AddMissingGrows(have: seq<Jwk>, more: seq<Jwk>)
    ensures |have| <= |AddMissing(have, more)| && AddMissing(have, more)[..|have|] == have
    decreases more
  {
    if more != [] {
      AddMissingGrows(if Holds(have, more[0]) then have else have + [more[0]], more[1..]);
    }
  }

  lemma PassiveKeepsValid(c: Cache, kid: string, keys: seq<Jwk>, now: int, uri: string)
    requires Valid(c)
    ensures Valid(OnPassiveFetchSuccess(c, kid, keys, now, uri))
  {
    var k := CacheKey(uri, kid);
    if k in c.hits {
      AddMissingGrows(c.hits[k].keys, keys);
    } else {
      IngestKeepsValid(c, kid, keys, now, uri);
    }
  }

  lemma MissKeepsValid(c: Cache, kid: string, now: int, uri: string)
    requires Valid(c)
    ensures Valid(OnFetchMiss(c, kid, now, uri))
  {
    var k := CacheKey(uri, kid);
    var full := [k] + Without(c.missLru, k);
    assert NoDup(full);
    var lru := Kept(full, c.maxEntries);
    assert forall x :: x in lru ==> x in full;
  }

  lemma ReconcileKeepsValid(c: Cache, present: set<string>, uri: string, exclude: string)
    requires Valid(c)
    ensures Valid(Reconcile(c, present, uri, exclude))
  {
  }

  lemma AbsenceKeepsValid(c: Cache, kid: string, id: nat, now: int, uri: string)
    requires Valid(c)
    ensures Valid(RecordKidAbsent(c, kid, id, now, uri).0)
  {
  }

  lemma ReserveKeepsValid(c: Cache, kid: string, now: int, uri: string)
    requires Valid(c)
    ensures Valid(TryReserveRefresh(c, kid, now, uri).0)
  {
  }

  lemma TouchKeepsValid(c: Cache, k: string, e: Entry)
    requires Valid(c) && k in c.hits && EntryOk(e, c.nextId)
    ensures Valid(Touch(c, k, e))
  {
    var lru := [k] + Without(c.hitLru, k);
    assert forall x :: x in lru <==> x == k || x in Without(c.hitLru, k);
  }

  lemma CommitKeepsValid(c: Cache, kid: string, id: nat, keys: seq<Jwk>, now: int, uri: string)
    requires Valid(c)
    ensures Valid(CommitRefresh(c, kid, id, keys, now, uri).0)
  {
    var k := CacheKey(uri, kid);
    if CommitSucceeds(c, kid, id, keys, now, uri) {
      TouchKeepsValid(c, k, c.hits[k].(keys := Trim(keys), fetchedAt := now, reservation := 0, absent := 0));
    }
  }

  lemma StepKeepsValid(c: Cache, op: Op)
    requires Valid(c)
    ensures Valid(Apply(c, op))
  {
    match op
    case Ingest(kid, keys, now, uri) => IngestKeepsValid(c, kid, keys, now, uri);
    case Passive(kid, keys, now, uri) => PassiveKeepsValid(c, kid, keys, now, uri);
    case RecordMiss(kid, now, uri) => MissKeepsValid(c, kid, now, uri);
    case ReconcileOp(present, _, uri, exclude) => ReconcileKeepsValid(c, present, uri, exclude);
    case Absent(kid, id, now, uri) => AbsenceKeepsValid(c, kid, id, now, uri);
    case Reserve(kid, now, uri) => ReserveKeepsValid(c, kid, now, uri);
    case Commit(kid, id, keys, now, uri) => CommitKeepsValid(c, kid, id, keys, now, uri);
    case Fetched(_) =>
    case FetchedOk(_, _) =>
    case SetFloor(_) =>
  }

  // The tables agree with their lists, stay within capacity, no kid keeps more
  // than four keys and no counter rests above one, after any operations.
  lemma {:induction false} RunKeepsValid(c: Cache, ops: seq<Op>)
    requires Valid(c)
    ensures Valid(Run(c, ops))
  {
    if ops != [] {
      RunKeepsValid(c, ops[..|ops| - 1]);
      StepKeepsValid(Run(c, ops[..|ops| - 1]), ops[|ops| - 1]);
    }
  }
}
