/** The decision cache as it runs: a most-recently-used list and an index into
    it, kept in bijection. */
module DecisionCacheImpl {
  import opened Wrappers
  import opened Seqs
  import Lru
  import opened DecisionModel
  import M = DecisionModel

  // The listed entries, front to back.
  function Entries(order: seq<string>, index: map<string, Entry>): (r: seq<Entry>)
    requires forall k :: k in order ==> k in index
    ensures |r| == |order| && forall i :: 0 <= i < |order| ==> r[i] == index[order[i]]
  {
    seq(|order|, i requires 0 <= i < |order| => index[order[i]])
  }

  ghost predicate Linked(order: seq<string>, index: map<string, Entry>) {
    Lru.ListsKeys(order, index) && forall k :: k in index ==> index[k].key == k
  }

  // The index finds exactly what a search of the list would find.
  lemma IndexFinds(order: seq<string>, index: map<string, Entry>, key: string)
    requires Linked(order, index)
    ensures var i := Find(Entries(order, index), key);
            && (key in index <==> i < |order|)
            && (i < |order| ==> order[i] == key && Entries(order, index)[i] == index[key])
  {
    var i := Find(Entries(order, index), key);
    if i < |order| {
      assert order[i] in index;
    }
    if key in index {
      var j :| 0 <= j < |order| && order[j] == key;
      assert Entries(order, index)[j].key == key;
    }
  }

  lemma {:induction false} WithoutIsErase(order: seq<string>, i: nat)
    requires Lru.NoDup(order) && i < |order|
    ensures Lru.Without(order, order[i]) == Erase(order, i)
  {
    if i == 0 {
      Lru.WithoutIsOnly(order[1..], order[0], set k | k in order[1..]);
      Lru.OnlyEverything(order[1..], set k | k in order[1..]);
      assert Erase(order, 0) == order[1..];
    } else {
      assert order[0] != order[i] && order[1..][i - 1] == order[i];
      WithoutIsErase(order[1..], i - 1);
      assert Erase(order, i) == [order[0]] + Erase(order[1..], i - 1);
    }
  }

  lemma EntriesWithout(order: seq<string>, index: map<string, Entry>, i: nat, rest: map<string, Entry>)
    requires Linked(order, index) && i < |order|
    requires forall k :: k in order && k != order[i] ==> k in rest && rest[k] == index[k]
    ensures var left := Lru.Without(order, order[i]);
            (forall k :: k in left ==> k in rest) && Entries(left, rest) == Erase(Entries(order, index), i)
  {
    WithoutIsErase(order, i);
    var left := Erase(order, i);
    forall j | 0 <= j < |left| ensures left[j] in rest && rest[left[j]] == Erase(Entries(order, index), i)[j] {
      EntryStays(order, index, i, rest, j);
    }
  }

  lemma EntryStays(order: seq<string>, index: map<string, Entry>, i: nat, rest: map<string, Entry>, j: nat)
    requires Linked(order, index) && i < |order| && j < |order| - 1
    requires forall k :: k in order && k != order[i] ==> k in rest && rest[k] == index[k]
    ensures var key := Erase(order, i)[j];
            key in rest && rest[key] == Erase(Entries(order, index), i)[j]
  {
    var at := if j < i then j else j + 1;
    assert Erase(order, i)[j] == order[at] && Erase(Entries(order, index), i)[j] == Entries(order, index)[at];
    assert order[at] in order && order[at] != order[i];
  }

  method Remove(order: seq<string>, index: map<string, Entry>, key: string)
    returns (left: seq<string>, rest: map<string, Entry>)
    requires Linked(order, index) && key in index
    ensures Linked(left, rest)
    ensures Find(Entries(order, index), key) < |order|
    ensures Entries(left, rest) == Erase(Entries(order, index), Find(Entries(order, index), key))
  {
    IndexFinds(order, index, key);
    left, rest := Lru.Without(order, key), index - {key};
    EntriesWithout(order, index, Find(Entries(order, index), key), rest);
  }

  lemma PushListed(order: seq<string>, index: map<string, Entry>, e: Entry)
    requires Linked(order, index) && e.key !in index
    ensures Linked([e.key] + order, index[e.key := e])
    ensures Entries([e.key] + order, index[e.key := e]) == [e] + Entries(order, index)
  {
    var front := [e.key] + order;
    forall i | 0 < i < |front| ensures front[i] == order[i - 1] && front[i] in order {
    }
  }

  lemma UpdateListed(order: seq<string>, index: map<string, Entry>, e: Entry)
    requires Linked(order, index) && e.key in index
    ensures Linked(Lru.Without(order, e.key), index - {e.key}) && index[e.key := e] == (index - {e.key})[e.key := e]
  {
  }

  method MoveToFront(order: seq<string>, index: map<string, Entry>, e: Entry)
    returns (moved: seq<string>, updated: map<string, Entry>)
    requires Linked(order, index) && e.key in index
    ensures Linked(moved, updated)
    ensures Find(Entries(order, index), e.key) < |order|
    ensures Entries(moved, updated) == [e] + Erase(Entries(order, index), Find(Entries(order, index), e.key))
  {
    IndexFinds(order, index, e.key);
    UpdateListed(order, index, e);
    EntriesWithout(order, index, Find(Entries(order, index), e.key), index - {e.key});
    PushListed(Lru.Without(order, e.key), index - {e.key}, e);
    moved, updated := [e.key] + Lru.Without(order, e.key), index[e.key := e];
  }

  method PushFront(order: seq<string>, index: map<string, Entry>, e: Entry, max: nat)
    returns (left: seq<string>, rest: map<string, Entry>)
    requires Linked(order, index) && e.key !in index
    ensures Linked(left, rest) && Entries(left, rest) == Kept([e] + Entries(order, index), max)
  {
    PushListed(order, index, e);
    ghost var all, table := [e.key] + order, index[e.key := e];
    left, rest := Lru.Shrink([e.key] + order, index[e.key := e], max);
    KeptListed(all, table, max);
  }

  lemma KeptListed(order: seq<string>, index: map<string, Entry>, max: nat)
    requires Linked(order, index)
    ensures var left := Lru.Kept(order, max); var rest := Lru.Restrict(index, left);
            Linked(left, rest) && Entries(left, rest) == Kept(Entries(order, index), max)
  {
    var left := Lru.Kept(order, max);
    assert forall k :: k in left ==> k in order;
  }

  lemma StoreOutcome(c: Cache, key: string, p: Principal, now: int, life: int, e: Entry)
    requires life == Lifetime(c.ttl, p, now) > 0 && e == Entry(key, p, now + life)
    ensures var i := Find(c.entries, key);
            M.Store(c, key, p, now)
            == c.(entries := if i < |c.entries| then [e] + Erase(c.entries, i) else Kept([e] + c.entries, c.maxEntries))
  {
  }

  class DecisionCache {
    var maxEntries: nat
    var ttl: int
    var order: seq<string>
    var index: map<string, Entry>

    ghost predicate Valid()
      reads this
    {
      maxEntries >= 1 && |order| <= maxEntries && Linked(order, index)
    }

    ghost function State(): Cache
      requires Valid()
      reads this
    {
      Cache(maxEntries, ttl, Entries(order, index))
    }

    constructor (maxEntries: nat, ttl: int)
      ensures Valid() && State() == Cache(if maxEntries == 0 then 1 else maxEntries, ttl, [])
    {
      this.maxEntries := if maxEntries == 0 then 1 else maxEntries;
      this.ttl := ttl;
      order, index := [], map[];
    }

    method Lookup(key: string, now: int) returns (r: Option<Principal>)
      requires Valid()
      modifies this
      ensures Valid() && (State(), r) == M.Lookup(old(State()), key, now)
    {
      IndexFinds(order, index, key);
      if key !in index {
        return None;
      }
      var e := index[key];
      if e.expiresAt <= now {
        order, index := Remove(order, index, key);
        return None;
      }
      order, index := MoveToFront(order, index, e);
      return Some(e.principal);
    }

    method Store(key: string, principal: Principal, now: int)
      requires Valid()
      modifies this
      ensures Valid() && State() == M.Store(old(State()), key, principal, now)
    {
      var life := ttl;
      if principal.exp > 0 {
        var remaining := principal.exp - now;
        life := if remaining < life then remaining else life;
      }
      if life <= 0 {
        return;
      }
      IndexFinds(order, index, key);
      var e := Entry(key, principal, now + life);
      StoreOutcome(State(), key, principal, now, life, e);
      if key in index {
        order, index := MoveToFront(order, index, e);
        return;
      }
      order, index := PushFront(order, index, e, maxEntries);
    }
  }
}
