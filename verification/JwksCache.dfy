/** The JWKS cache as it runs: two tables with their LRU lists, updated in
    place. Each method is tied to the step of the model it carries out. */
module JwksCacheImpl {
  import opened Wrappers
  import opened Jwks
  import opened Lru
  import M = JwksModel
  import opened JwksModel

  // The table, and the entries to evict, while those in `todo` are still to be visited.
  function Swept(before: map<string, Entry>, todo: set<string>, present: set<string>, uri: string, exclude: string)
    : map<string, Entry>
  {
    map k | k in before :: if k in todo then before[k] else Recounted(before[k], k, present, uri, exclude)
  }

  predicate Condemned(before: map<string, Entry>, present: set<string>, uri: string, exclude: string, k: string)
    requires k in before
  {
    Missing(present, uri, exclude, k) && before[k].absent >= 1
  }

  function CondemnedSet(before: map<string, Entry>, todo: set<string>, present: set<string>, uri: string, exclude: string)
    : set<string>
  {
    set k | k in before && k !in todo && Condemned(before, present, uri, exclude, k)
  }

  lemma SweepStep(before: map<string, Entry>, todo: set<string>, k: string, present: set<string>, uri: string,
                  exclude: string)
    requires k in before && k in todo
    ensures Swept(before, todo, present, uri, exclude)[k] == before[k]
    ensures Swept(before, todo - {k}, present, uri, exclude)
         == Swept(before, todo, present, uri, exclude)[k := Recounted(before[k], k, present, uri, exclude)]
    ensures CondemnedSet(before, todo - {k}, present, uri, exclude)
         == if Condemned(before, present, uri, exclude, k)
            then CondemnedSet(before, todo, present, uri, exclude) + {k}
            else CondemnedSet(before, todo, present, uri, exclude)
  {
  }

  lemma SweepEnds(before: map<string, Entry>, present: set<string>, uri: string, exclude: string)
    ensures Swept(before, before.Keys, present, uri, exclude) == before
    ensures CondemnedSet(before, before.Keys, present, uri, exclude) == {}
    ensures var all := Swept(before, {}, present, uri, exclude);
            all.Keys == before.Keys && forall k :: k in before ==> all[k] == Recounted(before[k], k, present, uri, exclude)
  {
  }

  lemma SweptIsReconciled(c: Cache, before: map<string, Entry>, present: set<string>, uri: string, exclude: string)
    requires c.hits == before
    ensures Swept(before, {}, present, uri, exclude) - CondemnedSet(before, {}, present, uri, exclude)
         == Reconcile(c, present, uri, exclude).hits
  {
  }

  // Adds the keys not yet held, then drops the oldest beyond four.
  method MergeKeys(cached: seq<Jwk>, keys: seq<Jwk>) returns (have: seq<Jwk>)
    ensures have == KeepNewest(AddMissing(cached, keys))
  {
    have := cached;
    for i := 0 to |keys|
      invariant AddMissing(cached, keys) == AddMissing(have, keys[i..])
    {
      assert keys[i..][1..] == keys[i + 1..];
      if !Holds(have, keys[i]) {
        have := have + [keys[i]];
      }
    }
    ghost var all := have;
    while |have| > MAX_KEYS_PER_KID
      invariant |have| <= |all| && have == all[|all| - |have|..]
      invariant have == all || |have| >= MAX_KEYS_PER_KID
    {
      have := have[1..];
    }
  }

  lemma PushListsKeys<V>(lru: seq<string>, table: map<string, V>, k: string, v: V)
    requires ListsKeys(lru, table) && k !in table
    ensures ListsKeys([k] + lru, table[k := v])
  {
  }

  lemma PutBack<V>(table: map<string, V>, k: string, v: V)
    ensures (table - {k})[k := v] == table[k := v]
  {
  }

  // What one cached kid learns from the document.
  method Visit(entry: Entry, k: string, present: set<string>, uri: string, exclude: string)
    returns (e: Entry, evict: bool)
    ensures e == Recounted(entry, k, present, uri, exclude)
    ensures evict == (Missing(present, uri, exclude, k) && entry.absent >= 1)
  {
    e, evict := entry, false;
    if !InScope(uri, k) || (exclude != "" && KidOf(uri, k) == exclude) {
      return;
    }
    if KidOf(uri, k) in present {
      e := e.(absent := 0);
    } else {
      e := e.(absent := e.absent + 1);
      evict := e.absent >= 2;
    }
  }

  class JwksCache {
    var minRefresh: int
    var maxEntries: nat
    var lastGlobalFetch: int
    var lastFetch: int
    var lastFetchByUri: map<string, int>
    var nextId: nat
    var hitLru: seq<string>
    var hits: map<string, Entry>
    var missLru: seq<string>
    var misses: map<string, int>

    ghost function State(): Cache
      reads this
    {
      Cache(minRefresh, maxEntries, lastGlobalFetch, lastFetch, lastFetchByUri, nextId, hitLru, hits, missLru, misses)
    }

    constructor (minRefresh: int, maxEntries: nat)
      ensures State() == M.Empty(minRefresh, maxEntries) && M.Valid(State())
    {
      this.minRefresh := Clamp(minRefresh);
      this.maxEntries := if maxEntries == 0 then 1 else maxEntries;
      lastGlobalFetch, lastFetch, lastFetchByUri, nextId := 0, 0, map[], 1;
      hitLru, hits, missLru, misses := [], map[], [], map[];
    }

    method SetMinRefreshSeconds(seconds: int)
      modifies this
      ensures State() == M.Apply(old(State()), SetFloor(seconds))
      ensures 1 <= minRefresh <= 3600 && (1 <= seconds <= 3600 ==> minRefresh == seconds)
      ensures (seconds < 1 ==> minRefresh == 1) && (seconds > 3600 ==> minRefresh == 3600)
    {
      minRefresh := Clamp(seconds);
    }

    method Lookup(kid: string, now: int, uri: string) returns (r: LookupResult)
      ensures r == M.Lookup(State(), kid, now, uri)
    {
      var k := CacheKey(uri, kid);
      if k in hits {
        return Hit(hits[k].keys);
      }
      if k in misses {
        var rel := RelateClock(now, misses[k]);
        if rel == Forward {
          var elapsed := now - misses[k];
          if elapsed < minRefresh {
            return RateLimited(minRefresh - elapsed);
          }
        } else if rel == MinorRewind {
          return RateLimited(minRefresh);
        }
      }
      return Miss;
    }

    method RecordJwksFetchSuccess(now: int, uri: string)
      modifies this
      ensures State() == M.RecordFetchSuccess(old(State()), now, uri)
    {
      if uri != "" {
        lastFetchByUri := lastFetchByUri[uri := now];
      } else {
        lastFetch := now;
      }
    }

    method DropMiss(k: string)
      requires M.Valid(State())
      modifies this
      ensures State() == M.DropMiss(old(State()), k)
    {
      if k in misses {
        missLru := Without(missLru, k);
        misses := misses - {k};
      } else {
        WithoutIsOnly(missLru, k, misses.Keys);
        OnlyEverything(missLru, misses.Keys);
        assert misses - {k} == misses;
      }
    }

    method OnFetchSuccess(kid: string, keys: seq<Jwk>, now: int, uri: string)
      requires M.Valid(State())
      modifies this
      ensures M.Valid(State())
      ensures State() == M.OnFetchSuccess(old(State()), kid, keys, now, uri)
    {
      IngestKeepsValid(State(), kid, keys, now, uri);
      if keys == [] {
        return;
      }
      RecordJwksFetchSuccess(now, uri);
      var k := CacheKey(uri, kid);
      DropMiss(k);
      if k in hits {
        ReplaceKeys(k, keys, now);
        return;
      }
      PushEntry(k, Entry(Trim(keys), now, now, 0, 0));
    }

    // Other keys than before end the reservation; the entry moves to the front.
    method ReplaceKeys(k: string, keys: seq<Jwk>, now: int)
      requires k in hits
      modifies this
      ensures var e := old(hits[k]);
              State() == M.Touch(old(State()), k,
                                 e.(keys := Trim(keys), reservation := if SameList(e.keys, keys) then e.reservation else 0,
                                    fetchedAt := Max(e.fetchedAt, now), absent := 0))
    {
      var e := hits[k];
      var sameKeys := SameKeyMaterial(e.keys, keys);
      if !sameKeys {
        e := e.(reservation := 0);
      }
      hits := hits[k := e.(keys := Trim(keys), fetchedAt := Max(e.fetchedAt, now), absent := 0)];
      hitLru := [k] + Without(hitLru, k);
    }

    // A new entry goes to the front; what no longer fits falls off the back.
    method PushEntry(k: string, e: Entry)
      requires ListsKeys(hitLru, hits) && k !in hits
      modifies this
      ensures State() == M.Insert(old(State()), k, e)
    {
      PushListsKeys(hitLru, hits, k, e);
      hitLru := [k] + hitLru;
      hits := hits[k := e];
      hitLru, hits := Shrink(hitLru, hits, maxEntries);
    }

    method OnPassiveFetchSuccess(kid: string, keys: seq<Jwk>, now: int, uri: string)
      requires M.Valid(State())
      modifies this
      ensures M.Valid(State())
      ensures State() == M.OnPassiveFetchSuccess(old(State()), kid, keys, now, uri)
    {
      PassiveKeepsValid(State(), kid, keys, now, uri);
      if keys == [] {
        return;
      }
      var k := CacheKey(uri, kid);
      if k in hits {
        var merged := MergeKeys(hits[k].keys, keys);
        hits := hits[k := hits[k].(keys := merged, absent := 0)];
        return;
      }
      OnFetchSuccess(kid, keys, now, uri);
    }

    // The entries are visited in no particular order.
    method CountAbsences(present: set<string>, uri: string, exclude: string) returns (toEvict: set<string>)
      modifies this`hits
      ensures hits == Swept(old(hits), {}, present, uri, exclude)
      ensures toEvict == CondemnedSet(old(hits), {}, present, uri, exclude)
    {
      ghost var before := hits;
      var todo := hits.Keys;
      toEvict := {};
      SweepEnds(before, present, uri, exclude);
      while todo != {}
        invariant todo <= before.Keys
        invariant hits == Swept(before, todo, present, uri, exclude)
        invariant toEvict == CondemnedSet(before, todo, present, uri, exclude)
        decreases |todo|
      {
        var k :| k in todo;
        SweepStep(before, todo, k, present, uri, exclude);
        var entry, evict := Visit(hits[k], k, present, uri, exclude);
        hits := hits[k := entry];
        if evict {
          toEvict := toEvict + {k};
        }
        todo := todo - {k};
      }
    }

    method ReconcileAbsentKids(present: set<string>, uri: string, exclude: string)
      requires M.Valid(State())
      modifies this
      ensures M.Valid(State())
      ensures State() == M.Reconcile(old(State()), present, uri, exclude)
    {
      ReconcileKeepsValid(State(), present, uri, exclude);
      var toEvict := CountAbsences(present, uri, exclude);
      SweptIsReconciled(old(State()), old(hits), present, uri, exclude);
      hitLru, hits := RemoveAll(hitLru, hits, toEvict);
    }

    method RecordKidAbsent(kid: string, id: nat, now: int, uri: string) returns (evicted: bool)
      requires M.Valid(State())
      modifies this
      ensures M.Valid(State())
      ensures (State(), evicted) == M.RecordKidAbsent(old(State()), kid, id, now, uri)
      // In the entry's own fields: it counts if no other reservation than the
      // caller's is current, and the second time it evicts.
      ensures var k := CacheKey(uri, kid);
              if k !in old(hits) || (id != 0 && old(hits)[k].reservation != id) then hits == old(hits) && !evicted
              else var e := old(hits)[k];
                   if e.absent >= 1 then hits == old(hits) - {k} && evicted
                   else hits == old(hits)[k := Entry(e.keys, e.fetchedAt, now, 0, 1)] && !evicted
    {
      AbsenceKeepsValid(State(), kid, id, now, uri);
      var k := CacheKey(uri, kid);
      if k !in hits {
        return false;
      }
      if id != 0 && hits[k].reservation != id {
        return false;
      }
      var e := hits[k].(reservation := 0, lastAttempt := now, absent := hits[k].absent + 1);
      if e.absent >= 2 {
        hitLru := Without(hitLru, k);
        hits := hits - {k};
        return true;
      }
      hits := hits[k := e];
      return false;
    }

    method CanFetchJwks(now: int) returns (can: bool)
      ensures can == M.CanFetch(State(), now)
      ensures can <==> lastGlobalFetch <= 0 || now < lastGlobalFetch - 60 || now >= lastGlobalFetch + 2
    {
      if lastGlobalFetch <= 0 {
        return true;
      }
      var rel := RelateClock(now, lastGlobalFetch);
      if rel == Reset {
        return true;
      }
      if rel == MinorRewind || now - lastGlobalFetch < BUDGET_WINDOW_S {
        return false;
      }
      return true;
    }

    method HasFreshJwksDocument(now: int, window: int, uri: string) returns (recent: bool)
      ensures recent == M.HasFreshDocument(State(), now, window, uri)
    {
      var last := 0;
      if uri != "" {
        if uri in lastFetchByUri {
          last := lastFetchByUri[uri];
        }
      } else {
        last := lastFetch;
      }
      if last <= 0 {
        return false;
      }
      if RelateClock(now, last) != Forward {
        return false;
      }
      return now - last < window;
    }

    method RecordJwksFetch(now: int)
      modifies this
      ensures State() == M.RecordFetch(old(State()), now)
    {
      if lastGlobalFetch > 0 {
        if RelateClock(now, lastGlobalFetch) == Reset {
          lastGlobalFetch := now;
          return;
        }
      }
      lastGlobalFetch := Max(lastGlobalFetch, now);
    }

    method TryReserveRefresh(kid: string, now: int, uri: string) returns (id: nat)
      requires M.Valid(State())
      modifies this
      ensures M.Valid(State())
      ensures (State(), id) == M.TryReserveRefresh(old(State()), kid, now, uri)
      ensures var k := CacheKey(uri, kid);
              if k in old(hits) && (now < old(hits)[k].lastAttempt - 60 || now >= old(hits)[k].lastAttempt + minRefresh)
              then var e := old(hits)[k];
                   id == old(nextId) && hits == old(hits)[k := Entry(e.keys, e.fetchedAt, now, id, e.absent)]
              else id == 0 && hits == old(hits)
    {
      ReserveKeepsValid(State(), kid, now, uri);
      var k := CacheKey(uri, kid);
      if k !in hits {
        return 0;
      }
      var rel := RelateClock(now, hits[k].lastAttempt);
      if rel == MinorRewind {
        return 0;
      }
      if rel == Forward && now - hits[k].lastAttempt < minRefresh {
        return 0;
      }
      id := nextId;
      nextId := nextId + 1;
      hits := hits[k := hits[k].(lastAttempt := now, reservation := id)];
    }

    method CommitRefresh(kid: string, id: nat, keys: seq<Jwk>, now: int, uri: string) returns (committed: bool)
      requires M.Valid(State())
      modifies this
      ensures M.Valid(State())
      ensures (State(), committed) == M.CommitRefresh(old(State()), kid, id, keys, now, uri)
      ensures var k := CacheKey(uri, kid);
              if id != 0 && keys != [] && k in old(hits) && old(hits)[k].reservation == id
                 && (now >= old(hits)[k].fetchedAt || now < old(hits)[k].fetchedAt - 60)
              then committed && hits == old(hits)[k := Entry(if |keys| > 4 then keys[..4] else keys, now,
                                                             old(hits)[k].lastAttempt, 0, 0)]
              else !committed && hits == old(hits)
    {
      CommitKeepsValid(State(), kid, id, keys, now, uri);
      if id == 0 || keys == [] {
        return false;
      }
      var k := CacheKey(uri, kid);
      if k !in hits {
        return false;
      }
      if hits[k].reservation != id {
        return false;
      }
      if RelateClock(now, hits[k].fetchedAt) == MinorRewind {
        return false;
      }
      hits := hits[k := hits[k].(reservation := 0, absent := 0, keys := Trim(keys), fetchedAt := now)];
      hitLru := [k] + Without(hitLru, k);
      return true;
    }

    method OnFetchMiss(kid: string, now: int, uri: string)
      requires M.Valid(State())
      modifies this
      ensures M.Valid(State())
      ensures State() == M.OnFetchMiss(old(State()), kid, now, uri)
    {
      MissKeepsValid(State(), kid, now, uri);
      var k := CacheKey(uri, kid);
      PutBack(misses, k, now);
      DropMiss(k);
      PushListsKeys(missLru, misses, k, now);
      missLru := [k] + missLru;
      misses := misses[k := now];
      missLru, misses := Shrink(missLru, misses, maxEntries);
    }
  }
}
