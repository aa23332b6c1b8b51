/** The decision cache as a value, and what it means: a map whose entries expire,
    limited to the most recently used ones. */
module DecisionModel {
  import opened Wrappers
  import opened Seqs
  import Policy

  type Principal = Policy.Principal

  datatype Entry = Entry(key: string, principal: Principal, expiresAt: int)

  // Entries in most-recently-used order.
  datatype Cache = Cache(maxEntries: nat, ttl: int, entries: seq<Entry>)

  ghost predicate Valid(c: Cache) {
    c.maxEntries >= 1 && |c.entries| <= c.maxEntries && DistinctKeys(c.entries)
  }

  predicate DistinctKeys(entries: seq<Entry>) {
    forall i, j :: 0 <= i < j < |entries| ==> entries[i].key != entries[j].key
  }

  function Find(entries: seq<Entry>, key: string): (i: nat)
    ensures i <= |entries| && (i < |entries| ==> entries[i].key == key)
    ensures forall j :: 0 <= j < i ==> entries[j].key != key
  {
    if entries == [] || entries[0].key == key then 0 else 1 + Find(entries[1..], key)
  }

  predicate Has(c: Cache, key: string) {
    Find(c.entries, key) < |c.entries|
  }

  function Lifetime(ttl: int, p: Principal, now: int): int {
    if p.exp > 0 && p.exp - now < ttl then p.exp - now else ttl
  }

  function Lookup(c: Cache, key: string, now: int): (Cache, Option<Principal>) {
    var i := Find(c.entries, key);
    if i == |c.entries| then (c, None)
    else if c.entries[i].expiresAt <= now then (c.(entries := Erase(c.entries, i)), None)
    else (c.(entries := [c.entries[i]] + Erase(c.entries, i)), Some(c.entries[i].principal))
  }

  function Store(c: Cache, key: string, p: Principal, now: int): Cache {
    var life := Lifetime(c.ttl, p, now);
    var i := Find(c.entries, key);
    var e := Entry(key, p, now + life);
    if life <= 0 then c
    else if i < |c.entries| then c.(entries := [e] + Erase(c.entries, i))
    else c.(entries := Kept([e] + c.entries, c.maxEntries))
  }

  function Kept(entries: seq<Entry>, max: nat): seq<Entry> {
    if |entries| <= max then entries else entries[..max]
  }

  // ---- Histories ----

  datatype Op = Look(key: string, now: int) | Put(key: string, principal: Principal, now: int)

  function Apply(c: Cache, op: Op): Cache {
    match op
    case Look(key, now) => Lookup(c, key, now).0
    case Put(key, p, now) => Store(c, key, p, now)
  }

  function Run(c: Cache, ops: seq<Op>): Cache {
    if ops == [] then c else Apply(Run(c, ops[..|ops| - 1]), ops[|ops| - 1])
  }

  lemma StepKeepsValid(c: Cache, op: Op)
    requires Valid(c)
    ensures Valid(Apply(c, op)) && Apply(c, op).maxEntries == c.maxEntries && Apply(c, op).ttl == c.ttl
  {
    var i := Find(c.entries, op.key);
    if i < |c.entries| {
      EraseKeepsDistinct(c.entries, i);
    }
  }

  lemma EraseKeepsDistinct(entries: seq<Entry>, i: nat)
    requires DistinctKeys(entries) && i < |entries|
    ensures DistinctKeys(Erase(entries, i))
    ensures forall j :: 0 <= j < |Erase(entries, i)| ==> Erase(entries, i)[j].key != entries[i].key
    ensures forall e :: e in Erase(entries, i) ==> e in entries
  {
    var rest := Erase(entries, i);
    forall j | 0 <= j < |rest| ensures rest[j] == entries[if j < i then j else j + 1] {
    }
  }

  lemma {:induction false} RunKeepsValid(c: Cache, ops: seq<Op>)
    requires Valid(c)
    ensures Valid(Run(c, ops)) && Run(c, ops).maxEntries == c.maxEntries && Run(c, ops).ttl == c.ttl
  {
    if ops != [] {
      RunKeepsValid(c, ops[..|ops| - 1]);
      StepKeepsValid(Run(c, ops[..|ops| - 1]), ops[|ops| - 1]);
    }
  }

  // What a decision is good for: the default lifetime, but never past the
  // principal's own expiry if that is known.
  predicate GoodWhenStored(ttl: int, p: Principal, now: int) {
    ttl > 0 && (p.exp <= 0 || now < p.exp)
  }

  function GoodUntil(ttl: int, p: Principal, now: int): int {
    if 0 < p.exp < now + ttl then p.exp else now + ttl
  }

  // The last decision stored for the key that was still good when it came.
  function LastPut(ttl: int, ops: seq<Op>, key: string): (r: Option<Op>)
    ensures r.Some? ==> r.value.Put? && r.value.key == key
  {
    if ops == [] then None
    else
      var op := ops[|ops| - 1];
      if op.Put? && op.key == key && GoodWhenStored(ttl, op.principal, op.now) then Some(op)
      else LastPut(ttl, ops[..|ops| - 1], key)
  }

  function EntryOf(ttl: int, put: Op): Entry
    requires put.Put?
  {
    Entry(put.key, put.principal, GoodUntil(ttl, put.principal, put.now))
  }

  ghost predicate ComesFrom(ttl: int, ops: seq<Op>, e: Entry) {
    var put := LastPut(ttl, ops, e.key);
    put.Some? && e == EntryOf(ttl, put.value)
  }

  lemma WhereEntriesComeFrom(c: Cache, op: Op, e: Entry)
    requires Valid(c) && e in Apply(c, op).entries
    ensures if op.Put? && op.key == e.key && GoodWhenStored(c.ttl, op.principal, op.now)
            then e == EntryOf(c.ttl, op) else e in c.entries
  {
    var i := Find(c.entries, op.key);
    if i < |c.entries| {
      EraseKeepsDistinct(c.entries, i);
    }
  }

  // Every entry is that of the last good decision stored for its key.
  lemma {:induction false} EntriesAreLastPuts(c: Cache, ops: seq<Op>, e: Entry)
    requires Valid(c) && c.entries == [] && e in Run(c, ops).entries
    ensures ComesFrom(c.ttl, ops, e)
  {
    if ops != [] {
      var front, op := ops[..|ops| - 1], ops[|ops| - 1];
      RunKeepsValid(c, front);
      WhereEntriesComeFrom(Run(c, front), op, e);
      if !(op.Put? && op.key == e.key && GoodWhenStored(c.ttl, op.principal, op.now)) {
        EntriesAreLastPuts(c, front, e);
      }
    }
  }

  // A look-up hits exactly if the key is present and its last good decision has
  // neither outlived the default lifetime nor its principal. The hit returns
  // that principal.
  lemma HitsAreFresh(c: Cache, ops: seq<Op>, key: string, now: int)
    requires Valid(c) && c.entries == []
    ensures var put, hit := LastPut(c.ttl, ops, key), Lookup(Run(c, ops), key, now).1;
            && (Has(Run(c, ops), key) ==> put.Some?)
            && (hit.Some? <==> && Has(Run(c, ops), key) && now < put.value.now + c.ttl
                               && (put.value.principal.exp > 0 ==> now < put.value.principal.exp))
            && (hit.Some? ==> hit.value == put.value.principal)
  {
    var d := Run(c, ops);
    RunKeepsValid(c, ops);
    if Has(d, key) {
      EntriesAreLastPuts(c, ops, d.entries[Find(d.entries, key)]);
    }
  }

  // ---- Why a stored key is missing ----

  // The operation makes its key the most recently used one.
  predicate Uses(c: Cache, op: Op) {
    match op
    case Look(key, now) => Lookup(c, key, now).1.Some?
    case Put(key, p, now) => GoodWhenStored(c.ttl, p, now)
  }

  // The other keys used since the key itself was last used.
  function UsedSince(c: Cache, ops: seq<Op>, key: string): set<string> {
    if ops == [] then {}
    else
      var front, op := ops[..|ops| - 1], ops[|ops| - 1];
      if !Uses(Run(c, front), op) then UsedSince(c, front, key)
      else if op.key == key then {}
      else UsedSince(c, front, key) + {op.key}
  }

  // Everything ahead of an entry has been used since the entry was.
  ghost predicate AheadWasUsed(c: Cache, ops: seq<Op>) {
    forall i, j :: 0 <= i < j < |Run(c, ops).entries| ==>
      Run(c, ops).entries[i].key in UsedSince(c, ops, Run(c, ops).entries[j].key)
  }

  // Where the entry at position j stood before the operation (the used one,
  // now in front, aside).
  function Stood(c: Cache, op: Op, j: nat): nat {
    var k := Find(c.entries, op.key);
    if Uses(c, op) then (if k < j || j == 0 then j else j - 1)
    else if Apply(c, op) != c && j >= k then j + 1
    else j
  }

  lemma StoodThere(c: Cache, op: Op, j: nat)
    requires Valid(c) && j < |Apply(c, op).entries| && (Uses(c, op) ==> j > 0)
    ensures Stood(c, op, j) < |c.entries| && c.entries[Stood(c, op, j)].key == Apply(c, op).entries[j].key
    ensures Uses(c, op) ==> Apply(c, op).entries[0].key == op.key && c.entries[Stood(c, op, j)].key != op.key
  {
  }

  lemma StepKeepsOrder(c: Cache, front: seq<Op>, op: Op)
    requires Valid(c) && AheadWasUsed(c, front)
    ensures AheadWasUsed(c, front + [op])
  {
    var before, ops := Run(c, front), front + [op];
    assert ops[..|front|] == front;
    RunKeepsValid(c, front);
    var after := Apply(before, op);
    forall i, j | 0 <= i < j < |after.entries| ensures after.entries[i].key in UsedSince(c, ops, after.entries[j].key) {
      StoodThere(before, op, j);
      if !Uses(before, op) || i > 0 {
        StoodThere(before, op, i);
        assert Stood(before, op, i) < Stood(before, op, j);
      }
    }
  }

  // The most-recently-used list is in order of last use.
  lemma {:induction false} ListIsInOrderOfUse(c: Cache, ops: seq<Op>)
    requires Valid(c) && c.entries == []
    ensures AheadWasUsed(c, ops)
  {
    if ops != [] {
      var front := ops[..|ops| - 1];
      assert ops == front + [ops[|ops| - 1]];
      ListIsInOrderOfUse(c, front);
      StepKeepsOrder(c, front, ops[|ops| - 1]);
    }
  }

  function KeysOf(entries: seq<Entry>): set<string> {
    set e | e in entries :: e.key
  }

  lemma {:induction false} DistinctKeysCount(entries: seq<Entry>)
    requires DistinctKeys(entries)
    ensures |KeysOf(entries)| == |entries|
  {
    if entries != [] {
      var front, last := entries[..|entries| - 1], entries[|entries| - 1];
      assert entries == front + [last];
      DistinctKeysCount(front);
      assert KeysOf(entries) == KeysOf(front) + {last.key};
      assert last.key !in KeysOf(front);
    }
  }

  predicate Pushed(c: Cache, op: Op, key: string) {
    && Uses(c, op) && op.key != key && !Has(c, op.key)
    && |c.entries| == c.maxEntries > 0 && c.entries[c.maxEntries - 1].key == key
  }

  // An entry for another key stays, unless a full list is pushed into.
  lemma OthersStay(c: Cache, op: Op, i: nat) returns (j: nat)
    requires Valid(c) && i < |c.entries| && c.entries[i].key != op.key
    ensures (j < |Apply(c, op).entries| && Apply(c, op).entries[j] == c.entries[i]) || Pushed(c, op, c.entries[i].key)
  {
    var k := Find(c.entries, op.key);
    if Uses(c, op) {
      j := if k < i then i else i + 1;
    } else {
      j := if k < i && Apply(c, op) != c then i - 1 else i;
    }
  }

  // A key leaves in two ways: looked up when expired, or pushed off the back.
  lemma WhyAKeyLeaves(c: Cache, op: Op, key: string)
    requires Valid(c) && Has(c, key) && !Has(Apply(c, op), key)
    ensures (op.Look? && op.key == key && c.entries[Find(c.entries, key)].expiresAt <= op.now) || Pushed(c, op, key)
  {
    if op.key != key {
      var j := OthersStay(c, op, Find(c.entries, key));
    }
  }

  lemma PushedMeansMuchUsed(c: Cache, front: seq<Op>, op: Op, key: string)
    requires Valid(c) && c.entries == [] && Pushed(Run(c, front), op, key)
    ensures |UsedSince(c, front + [op], key)| >= c.maxEntries
  {
    var before, ops := Run(c, front), front + [op];
    assert ops[..|front|] == front;
    RunKeepsValid(c, front);
    ListIsInOrderOfUse(c, front);
    var ahead := before.entries[..c.maxEntries - 1];
    DistinctKeysCount(ahead);
    forall x | x in KeysOf(ahead) ensures x in UsedSince(c, front, key) && x != op.key {
      var e :| e in ahead && e.key == x;
      var i :| 0 <= i < |ahead| && ahead[i] == e;
      assert before.entries[i].key == x;
    }
    assert op.key !in KeysOf(ahead);
    SubsetCount(KeysOf(ahead) + {op.key}, UsedSince(c, ops, key));
  }

  lemma StoredIsPresent(c: Cache, op: Op)
    requires Valid(c) && Uses(c, op)
    ensures Has(Apply(c, op), op.key)
  {
    assert Apply(c, op).entries[0].key == op.key;
  }

  predicate GoodPut(ttl: int, op: Op, key: string) {
    op.Put? && op.key == key && GoodWhenStored(ttl, op.principal, op.now)
  }

  // The key itself was looked up at or past the expiry of its last good
  // decision, after that decision was stored.
  function LookedExpired(ttl: int, ops: seq<Op>, key: string): bool {
    if ops == [] then false
    else
      var front, op := ops[..|ops| - 1], ops[|ops| - 1];
      var put := LastPut(ttl, front, key);
      if GoodPut(ttl, op, key) then false
      else (op.Look? && op.key == key && put.Some? && EntryOf(ttl, put.value).expiresAt <= op.now)
           || LookedExpired(ttl, front, key)
  }

  lemma OnlyAPutAdds(c: Cache, op: Op, key: string)
    requires Valid(c) && !Has(c, key) && !GoodPut(c.ttl, op, key)
    ensures !Has(Apply(c, op), key)
  {
    var d := Apply(c, op);
    if Has(d, key) {
      var e := d.entries[Find(d.entries, key)];
      WhereEntriesComeFrom(c, op, e);
    }
  }

  lemma ExpiredLookRemoves(c: Cache, key: string, now: int)
    requires Valid(c) && (Has(c, key) ==> c.entries[Find(c.entries, key)].expiresAt <= now)
    ensures !Has(Apply(c, Look(key, now)), key)
  {
    var i := Find(c.entries, key);
    if i < |c.entries| {
      EraseKeepsDistinct(c.entries, i);
    }
  }

  lemma {:induction false} LookedExpiredIsMissing(c: Cache, ops: seq<Op>, key: string)
    requires Valid(c) && c.entries == [] && LookedExpired(c.ttl, ops, key)
    ensures !Has(Run(c, ops), key)
  {
    var front, op := ops[..|ops| - 1], ops[|ops| - 1];
    var before := Run(c, front);
    RunKeepsValid(c, front);
    if LookedExpired(c.ttl, front, key) {
      LookedExpiredIsMissing(c, front, key);
      OnlyAPutAdds(before, op, key);
    } else {
      if Has(before, key) {
        EntriesAreLastPuts(c, front, before.entries[Find(before.entries, key)]);
      }
      ExpiredLookRemoves(before, key, op.now);
    }
  }

  lemma {:induction false} MissingWasLookedExpiredOrPushed(c: Cache, ops: seq<Op>, key: string)
    requires Valid(c) && c.entries == [] && LastPut(c.ttl, ops, key).Some? && !Has(Run(c, ops), key)
    ensures LookedExpired(c.ttl, ops, key) || |UsedSince(c, ops, key)| >= c.maxEntries
  {
    var front, op := ops[..|ops| - 1], ops[|ops| - 1];
    var before := Run(c, front);
    assert ops == front + [op];
    RunKeepsValid(c, front);
    if Uses(before, op) && op.key == key {
      StoredIsPresent(before, op);
    }
    if Has(before, key) {
      WhyAKeyLeaves(before, op, key);
      if Pushed(before, op, key) {
        PushedMeansMuchUsed(c, front, op, key);
      } else {
        EntriesAreLastPuts(c, front, before.entries[Find(before.entries, key)]);
      }
    } else {
      MissingWasLookedExpiredOrPushed(c, front, key);
      SubsetCount(UsedSince(c, front, key), UsedSince(c, ops, key));
    }
  }

  // Whatever the clock does: unless max_entries other keys were used since the
  // key was, it is present exactly when nobody has looked it up expired.
  lemma PresentUnlessLookedExpired(c: Cache, ops: seq<Op>, key: string)
    requires Valid(c) && c.entries == [] && LastPut(c.ttl, ops, key).Some? && |UsedSince(c, ops, key)| < c.maxEntries
    ensures Has(Run(c, ops), key) <==> !LookedExpired(c.ttl, ops, key)
  {
    if LookedExpired(c.ttl, ops, key) {
      LookedExpiredIsMissing(c, ops, key);
    } else if !Has(Run(c, ops), key) {
      MissingWasLookedExpiredOrPushed(c, ops, key);
    }
  }

  lemma {:induction false} LookedExpiredHasExpired(ttl: int, ops: seq<Op>, key: string, time: int)
    requires LookedExpired(ttl, ops, key) && forall i :: 0 <= i < |ops| && ops[i].key == key ==> ops[i].now <= time
    ensures LastPut(ttl, ops, key).Some? && EntryOf(ttl, LastPut(ttl, ops, key).value).expiresAt <= time
  {
    var front := ops[..|ops| - 1];
    if LookedExpired(ttl, front, key) {
      LookedExpiredHasExpired(ttl, front, key, time);
    }
  }

  // At a time no earlier than any use of the key so far, a stored key is missing
  // only if it has expired or at least max_entries other keys were used since.
  lemma WhyAStoredKeyIsMissing(c: Cache, ops: seq<Op>, key: string, time: int)
    requires Valid(c) && c.entries == [] && forall i :: 0 <= i < |ops| && ops[i].key == key ==> ops[i].now <= time
    requires LastPut(c.ttl, ops, key).Some? && !Has(Run(c, ops), key)
    ensures EntryOf(c.ttl, LastPut(c.ttl, ops, key).value).expiresAt <= time || |UsedSince(c, ops, key)| >= c.maxEntries
  {
    MissingWasLookedExpiredOrPushed(c, ops, key);
    if LookedExpired(c.ttl, ops, key) {
      LookedExpiredHasExpired(c.ttl, ops, key, time);
    }
  }

  // If the clock goes back, a key can be missing although it has not expired
  // and no other key was used: a look-up in the future has removed it.
  lemma AFutureLookMayRemove(c: Cache, key: string, p: Principal, stored: int, later: int, now: int)
    requires Valid(c) && c.entries == [] && GoodWhenStored(c.ttl, p, stored)
    requires stored <= now < GoodUntil(c.ttl, p, stored) <= later
    ensures var ops := [Put(key, p, stored), Look(key, later)];
            && LastPut(c.ttl, ops, key) == Some(Put(key, p, stored))
            && now < EntryOf(c.ttl, Put(key, p, stored)).expiresAt
            && Lookup(Run(c, ops), key, now).1.None? && UsedSince(c, ops, key) == {}
  {
    var put, look := Put(key, p, stored), Look(key, later);
    assert [put, look][..1] == [put] && [put][..0] == [];
    assert Run(c, [put]).entries == [EntryOf(c.ttl, put)];
    assert Erase([EntryOf(c.ttl, put)], 0) == [];
  }
}
