/** Lists of keys in most-recently-used order. */
module Lru {

  predicate NoDup(s: seq<string>) {
    forall i, j :: 0 <= i < j < |s| ==> s[i] != s[j]
  }

  // The list and the table hold the same keys, each once.
  ghost predicate ListsKeys<V>(lru: seq<string>, m: map<string, V>) {
    NoDup(lru) && forall k :: k in lru <==> k in m
  }

  // The list minus one key, and the list minus everything not in `keep`.
  function Without(s: seq<string>, k: string): (r: seq<string>)
    ensures forall x :: x in r <==> x in s && x != k
    ensures |r| <= |s|
    ensures NoDup(s) ==> NoDup(r)
    ensures k in s ==> |r| < |s|
  {
    if s == [] then []
    else if s[0] == k then Without(s[1..], k)
    else
      assert NoDup(s) ==> s[0] !in s[1..];
      [s[0]] + Without(s[1..], k)
  }

  function Only(s: seq<string>, keep: set<string>): (r: seq<string>)
    ensures forall x :: x in r <==> x in s && x in keep
    ensures |r| <= |s|
    ensures NoDup(s) ==> NoDup(r)
  {
    if s == [] then []
    else if s[0] !in keep then Only(s[1..], keep)
    else
      assert NoDup(s) ==> s[0] !in s[1..];
      [s[0]] + Only(s[1..], keep)
  }

  function Kept(s: seq<string>, max: nat): seq<string> {
    if |s| <= max then s else s[..max]
  }

  // The key a full list loses when another one is pushed to its front.
  predicate Evictee(s: seq<string>, max: nat, key: string) {
    |s| == max && |s| > 0 && key == s[|s| - 1]
  }

  lemma PushDropsEvictee(head: string, s: seq<string>, max: nat, key: string)
    requires NoDup(s) && |s| <= max && max >= 1 && head !in s
    ensures key in Kept([head] + s, max) <==> key == head || (key in s && !Evictee(s, max, key))
  {
    if |s| == max {
      var front := s[..max - 1];
      assert s == front + [s[max - 1]];
      assert Kept([head] + s, max) == [head] + front;
    }
  }

  function Restrict<V>(m: map<string, V>, keys: seq<string>): map<string, V> {
    map k | k in m && k in keys :: m[k]
  }

  // A duplicate-free list has as many elements as keys.
  lemma {:induction false} NoDupSize(s: seq<string>, keys: set<string>)
    requires NoDup(s) && forall x :: x in s <==> x in keys
    ensures |s| == |keys|
  {
    if s == [] {
      assert keys == {};
    } else {
      var rest := keys - {s[0]};
      assert forall x :: x in s[1..] <==> x in rest by {
        assert s == [s[0]] + s[1..];
      }
      NoDupSize(s[1..], rest);
      assert s[0] in keys;
    }
  }

  // Once the wanted set is what is left after dropping k, both filters agree.
  lemma {:induction false} WithoutIsOnly(s: seq<string>, k: string, keep: set<string>)
    requires forall x :: x in s ==> (x in keep <==> x != k)
    ensures Without(s, k) == Only(s, keep)
  {
    if s != [] {
      assert s[0] in s;
      assert forall x :: x in s[1..] ==> x in s;
      WithoutIsOnly(s[1..], k, keep);
    }
  }

  lemma {:induction false} WithoutOnly(s: seq<string>, k: string, keep: set<string>)
    ensures Without(Only(s, keep), k) == Only(s, keep - {k})
  {
    if s != [] {
      WithoutOnly(s[1..], k, keep);
    }
  }

  lemma {:induction false} OnlyEverything(s: seq<string>, keep: set<string>)
    requires forall x :: x in s ==> x in keep
    ensures Only(s, keep) == s
  {
    if s != [] {
      assert s[0] in s;
      assert forall x :: x in s[1..] ==> x in s;
      OnlyEverything(s[1..], keep);
    }
  }

  // A part of the list from its front, with its part of the table.
  ghost predicate Front<V>(lru0: seq<string>, table0: map<string, V>, lru: seq<string>, table: map<string, V>) {
    lru <= lru0 && NoDup(lru) && table == Restrict(table0, lru) && |table| == |lru|
  }

  lemma DropLastKeepsNoDup(s: seq<string>, front: seq<string>, last: string)
    requires NoDup(s) && s == front + [last]
    ensures NoDup(front) && last !in front
  {
    assert s[|front|] == last;
    forall i | 0 <= i < |front| ensures front[i] != last {
      assert s[i] == front[i];
    }
    forall i, j | 0 <= i < j < |front| ensures front[i] != front[j] {
      assert s[i] == front[i] && s[j] == front[j];
    }
  }

  lemma RestrictDropLast<V>(table: map<string, V>, front: seq<string>, last: string)
    requires last !in front
    ensures Restrict(table, front + [last]) - {last} == Restrict(table, front)
  {
  }

  lemma RestrictSize<V>(lru: seq<string>, table: map<string, V>)
    requires NoDup(lru) && forall k :: k in lru ==> k in table
    ensures |Restrict(table, lru)| == |lru|
  {
    NoDupSize(lru, Restrict(table, lru).Keys);
  }

  lemma FrontStart<V>(lru0: seq<string>, table0: map<string, V>)
    requires NoDup(lru0) && forall k :: k in lru0 <==> k in table0
    ensures Front(lru0, table0, lru0, table0)
  {
    RestrictSize(lru0, table0);
    assert table0 == Restrict(table0, lru0);
  }

  lemma FrontStep<V>(lru0: seq<string>, table0: map<string, V>,
                     lru: seq<string>, table: map<string, V>, front: seq<string>, victim: string)
    requires forall k :: k in lru0 ==> k in table0
    requires Front(lru0, table0, lru, table) && lru == front + [victim]
    ensures Front(lru0, table0, front, table - {victim})
  {
    DropLastKeepsNoDup(lru, front, victim);
    RestrictDropLast(table0, front, victim);
    assert front <= lru;
    RestrictSize(front, table0);
  }

  // Shrinks a table to `max` entries, from the back of its list.
  method Shrink<V>(lru0: seq<string>, table0: map<string, V>, max: nat) returns (lru: seq<string>, table: map<string, V>)
    requires NoDup(lru0) && forall k :: k in lru0 <==> k in table0
    ensures lru == Kept(lru0, max) && table == Restrict(table0, lru)
  {
    lru, table := lru0, table0;
    FrontStart(lru0, table0);
    while |table| > max
      invariant Front(lru0, table0, lru, table) && (lru == lru0 || |lru| >= max)
      decreases |lru|
    {
      var front, victim := lru[..|lru| - 1], lru[|lru| - 1];
      FrontStep(lru0, table0, lru, table, front, victim);
      lru, table := front, table - {victim};
    }
  }

  lemma RemoveOne<V>(lru0: seq<string>, table0: map<string, V>, victims: set<string>, todo: set<string>, k: string,
                     lru: seq<string>, table: map<string, V>)
    requires k in todo && todo <= victims
    requires table == table0 - (victims - todo) && lru == Only(lru0, table.Keys)
    ensures table - {k} == table0 - (victims - (todo - {k})) && Without(lru, k) == Only(lru0, (table - {k}).Keys)
  {
    assert victims - (todo - {k}) == (victims - todo) + {k};
    assert (table - {k}).Keys == table.Keys - {k};
    WithoutOnly(lru0, k, table.Keys);
  }

  // Removes the given keys from a table and from its list, one by one.
  method RemoveAll<V>(lru0: seq<string>, table0: map<string, V>, victims: set<string>)
    returns (lru: seq<string>, table: map<string, V>)
    requires forall k :: k in lru0 <==> k in table0
    ensures table == table0 - victims && lru == Only(lru0, table.Keys)
  {
    lru, table := lru0, table0;
    OnlyEverything(lru0, table0.Keys);
    var todo := victims;
    assert table0 == table0 - (victims - todo);
    while todo != {}
      invariant todo <= victims && table == table0 - (victims - todo) && lru == Only(lru0, table.Keys)
      decreases |todo|
    {
      var k :| k in todo;
      RemoveOne(lru0, table0, victims, todo, k, lru, table);
      lru, table, todo := Without(lru, k), table - {k}, todo - {k};
    }
  }
}
