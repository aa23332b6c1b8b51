/** What merging a document's keys into a cached kid keeps. */
module JwksMerge {
  import opened Jwks
  import opened JwksModel
  import opened Candidates

  function Merged(have: seq<Jwk>, more: seq<Jwk>): seq<Jwk> {
    KeepNewest(AddMissing(have, more))
  }

  // The keys the merge appends.
  function Appended(have: seq<Jwk>, more: seq<Jwk>): (r: seq<Jwk>)
    ensures AddMissing(have, more) == have + r
  {
    AddMissingGrows(have, more);
    AddMissing(have, more)[|have|..]
  }

  lemma {:induction false} EveryKeyIsAdded(have: seq<Jwk>, more: seq<Jwk>, k: Jwk)
    requires k in more && KnownKty(k)
    ensures Holds(AddMissing(have, more), k)
    decreases more
  {
    var next := if Holds(have, more[0]) then have else have + [more[0]];
    if k == more[0] {
      if !Holds(have, k) {
        SameIsEquivalence(k, k, k);
        assert next[|have|] == k;
      }
      StillHeld(next, more[1..], k);
    } else {
      EveryKeyIsAdded(next, more[1..], k);
    }
  }

  lemma StillHeld(have: seq<Jwk>, more: seq<Jwk>, k: Jwk)
    requires Holds(have, k)
    ensures Holds(AddMissing(have, more), k)
  {
    AddMissingGrows(have, more);
    var i :| 0 <= i < |have| && Same(have[i], k);
    assert AddMissing(have, more)[i] == AddMissing(have, more)[..|have|][i];
  }

  // The merge appends nothing exactly when every key is held already.
  lemma {:induction false} NothingAppended(have: seq<Jwk>, more: seq<Jwk>)
    ensures Appended(have, more) == [] <==> forall k :: k in more ==> Holds(have, k)
    decreases more
  {
    if more == [] {
      assert AddMissing(have, more) == have;
    } else if Holds(have, more[0]) {
      NothingAppended(have, more[1..]);
      assert AddMissing(have, more) == AddMissing(have, more[1..]);
      assert more == [more[0]] + more[1..];
    } else {
      AddMissingGrows(have + [more[0]], more[1..]);
      assert more[0] in more;
      assert |AddMissing(have, more)| >= |have| + 1;
    }
  }

  // No appended key is one of the cached keys.
  lemma {:induction false} AppendedAreNew(have: seq<Jwk>, more: seq<Jwk>, i: nat, j: nat)
    requires i < |have| && j < |Appended(have, more)|
    ensures !Same(have[i], Appended(have, more)[j]) && Appended(have, more)[j] in more
    decreases more
  {
    if more == [] {
    } else if Holds(have, more[0]) {
      assert Appended(have, more) == Appended(have, more[1..]);
      AppendedAreNew(have, more[1..], i, j);
    } else {
      var next := have + [more[0]];
      assert next[i] == have[i];
      assert have + Appended(have, more) == next + Appended(next, more[1..]);
      FirstAppended(have, more[0], Appended(next, more[1..]), Appended(have, more));
      if j > 0 {
        AppendedAreNew(next, more[1..], i, j - 1);
      }
    }
  }

  lemma FirstAppended(have: seq<Jwk>, first: Jwk, rest: seq<Jwk>, all: seq<Jwk>)
    requires have + all == (have + [first]) + rest
    ensures all == [first] + rest
  {
    assert have + all == have + ([first] + rest);
    assert (have + all)[|have|..] == all && (have + ([first] + rest))[|have|..] == [first] + rest;
  }

  lemma HeldInPart(a: seq<Jwk>, b: seq<Jwk>, k: Jwk)
    requires Holds(a + b, k)
    ensures Holds(a, k) || Holds(b, k)
  {
    var i :| 0 <= i < |a + b| && Same((a + b)[i], k);
    if i < |a| {
      assert Same(a[i], k);
    } else {
      assert Same(b[i - |a|], k);
    }
  }

  lemma HeldInSuffix(a: seq<Jwk>, b: seq<Jwk>, k: Jwk)
    requires Holds(b, k)
    ensures Holds(a + b, k)
  {
    var i :| 0 <= i < |b| && Same(b[i], k);
    assert (a + b)[|a| + i] == b[i];
  }

  // ---- Exactly what survives ----

  // A key is held after the merge exactly when one of the last four of the
  // cached and appended keys is that key.
  lemma SurvivesExactly(have: seq<Jwk>, more: seq<Jwk>, k: Jwk)
    ensures var all := have + Appended(have, more);
            Holds(Merged(have, more), k) <==>
            exists i :: 0 <= i < |all| && |all| - i <= MAX_KEYS_PER_KID && Same(all[i], k)
  {
    HeldInNewest(have + Appended(have, more), k);
  }

  lemma HeldInNewest(all: seq<Jwk>, k: Jwk)
    ensures Holds(KeepNewest(all), k) <==> exists i :: 0 <= i < |all| && |all| - i <= MAX_KEYS_PER_KID && Same(all[i], k)
  {
    var kept := KeepNewest(all);
    var gone := |all| - |kept|;
    assert kept == all[gone..];
    if Holds(kept, k) {
      var i :| 0 <= i < |kept| && Same(kept[i], k);
      assert all[gone + i] == kept[i];
    }
    if i :| 0 <= i < |all| && |all| - i <= MAX_KEYS_PER_KID && Same(all[i], k) {
      assert kept[i - gone] == all[i];
    }
  }

  // A cached key survives exactly when it and what stands behind it, old and
  // appended, are at most four keys. Whether it is still published plays no part.
  lemma CachedKeySurvivesExactly(have: seq<Jwk>, more: seq<Jwk>, i: nat)
    requires i < |have| && Distinct(have) && AllKnown(have)
    ensures Holds(Merged(have, more), have[i]) <==> |have| - i + |Appended(have, more)| <= MAX_KEYS_PER_KID
  {
    var all := have + Appended(have, more);
    SurvivesExactly(have, more, have[i]);
    SameIsEquivalence(have[i], have[i], have[i]);
    assert all[i] == have[i];
    forall j | 0 <= j < |all| && Same(all[j], have[i]) ensures j == i {
      SameIsEquivalence(all[j], have[i], have[i]);
      if j < |have| {
        assert all[j] == have[j];
      } else {
        AppendedAreNew(have, more, i, j - |have|);
      }
    }
  }

  // While everything fits nothing is dropped: the merge appends, and every key
  // that was cached or is published is held.
  lemma NothingIsDroppedWhileAllFit(have: seq<Jwk>, more: seq<Jwk>, k: Jwk)
    requires |have| + |Appended(have, more)| <= MAX_KEYS_PER_KID
    ensures Merged(have, more) == have + Appended(have, more)
    ensures Holds(have, k) || (k in more && KnownKty(k)) ==> Holds(Merged(have, more), k)
  {
    if Holds(have, k) {
      StillHeld(have, more, k);
    } else if k in more && KnownKty(k) {
      EveryKeyIsAdded(have, more, k);
    }
  }

  // Of a document that lists each key once, what is appended are exactly its
  // keys that are not cached, in its order.
  lemma {:induction false} AppendedAreTheNewOnes(have: seq<Jwk>, more: seq<Jwk>)
    requires Distinct(more)
    ensures Appended(have, more) == Sift(more, have, false) && |Appended(have, more)| == CountNew(more, have)
    decreases more
  {
    if more == [] {
      assert AddMissing(have, more) == have;
    } else {
      var next := if Holds(have, more[0]) then have else have + [more[0]];
      AppendedAreTheNewOnes(next, more[1..]);
      FirstIsAppended(have, more, next);
      FirstIsSifted(have, more, next);
    }
  }

  lemma FirstIsAppended(have: seq<Jwk>, more: seq<Jwk>, next: seq<Jwk>)
    requires more != [] && next == if Holds(have, more[0]) then have else have + [more[0]]
    ensures Appended(have, more) == (if Holds(have, more[0]) then [] else [more[0]]) + Appended(next, more[1..])
  {
    assert have + Appended(have, more) == next + Appended(next, more[1..]);
    if Holds(have, more[0]) {
      assert Appended(have, more) == (have + Appended(have, more))[|have|..];
    } else {
      FirstAppended(have, more[0], Appended(next, more[1..]), Appended(have, more));
    }
  }

  lemma FirstIsSifted(have: seq<Jwk>, more: seq<Jwk>, next: seq<Jwk>)
    requires Distinct(more) && more != [] && next == if Holds(have, more[0]) then have else have + [more[0]]
    ensures Sift(more, have, false) == (if Holds(have, more[0]) then [] else [more[0]]) + Sift(more[1..], next, false)
  {
    var first, rest := more[0], more[1..];
    assert more == [first] + rest;
    SiftConcat([first], rest, have, false);
    OneSifted(first, have);
    forall j | 0 <= j < |rest| ensures Holds(next, rest[j]) <==> Holds(have, rest[j]) {
      assert rest[j] == more[j + 1];
      OneMoreHeld(have, first, rest[j]);
    }
    SameSift(rest, next, have);
  }

  lemma OneMoreHeld(have: seq<Jwk>, first: Jwk, k: Jwk)
    requires !Same(first, k)
    ensures Holds(have + [first], k) <==> Holds(have, k)
  {
    if Holds(have, k) {
      var i :| 0 <= i < |have| && Same(have[i], k);
      assert (have + [first])[i] == have[i];
    }
  }

  lemma OneSifted(k: Jwk, have: seq<Jwk>)
    ensures Sift([k], have, false) == if Holds(have, k) then [] else [k]
  {
    assert [k][..0] == [];
    assert Sift([], have, false) == [];
  }

  lemma {:induction false} SameSift(keys: seq<Jwk>, a: seq<Jwk>, b: seq<Jwk>)
    requires forall j :: 0 <= j < |keys| ==> (Holds(a, keys[j]) <==> Holds(b, keys[j]))
    ensures Sift(keys, a, false) == Sift(keys, b, false)
  {
    if keys != [] {
      var front := keys[..|keys| - 1];
      forall j | 0 <= j < |front| ensures Holds(a, front[j]) <==> Holds(b, front[j]) {
        assert front[j] == keys[j];
      }
      SameSift(front, a, b);
    }
  }

  // A published key that was not cached is kept, as long as at most four keys
  // are new.
  lemma MergeKeepsNewKeys(have: seq<Jwk>, more: seq<Jwk>, k: Jwk)
    requires k in more && KnownKty(k)
    requires || (!Holds(have, k) && |Appended(have, more)| <= MAX_KEYS_PER_KID)
             || |have| + |Appended(have, more)| <= MAX_KEYS_PER_KID
    ensures Holds(Merged(have, more), k)
  {
    var news := Appended(have, more);
    var all := have + news;
    EveryKeyIsAdded(have, more, k);
    if |all| > MAX_KEYS_PER_KID {
      HeldInPart(have, news, k);
      var kept := have[|all| - MAX_KEYS_PER_KID..];
      assert Merged(have, more) == kept + news;
      HeldInSuffix(kept, news, k);
    }
  }

  lemma OneNewKey(have: seq<Jwk>, k: Jwk)
    requires !Holds(have, k)
    ensures Appended(have, [k]) == [k]
  {
    assert [k][1..] == [];
    assert AddMissing(have, [k]) == AddMissing(have + [k], []) == have + [k];
  }

  // A key that was cached and is still published can be dropped in favour of a
  // newer one: the merge goes by the age of the cached keys only.
  lemma MergeMayDropAPublishedKey(have: seq<Jwk>, fresher: Jwk)
    requires |have| == MAX_KEYS_PER_KID && Distinct(have) && AllKnown(have) && !Holds(have, fresher)
    ensures !Holds(Merged(have, [have[0], fresher]), have[0])
  {
    SameIsEquivalence(have[0], have[0], have[0]);
    assert Holds(have, have[0]);
    var more := [have[0], fresher];
    assert more[1..] == [fresher];
    assert AddMissing(have, more) == AddMissing(have, more[1..]);
    OneNewKey(have, fresher);
    CachedKeySurvivesExactly(have, more, 0);
  }

  // ---- When the list changes at all ----

  // A merge changes the cached list exactly when it brings a key not held.
  lemma MergeChangesExactly(have: seq<Jwk>, more: seq<Jwk>)
    requires AllKnown(more) && |have| <= MAX_KEYS_PER_KID
    ensures Merged(have, more) != have <==> exists k :: k in more && !Holds(have, k)
  {
    NothingAppended(have, more);
    var news := Appended(have, more);
    if news != [] && Merged(have, more) == have {
      var last := news[|news| - 1];
      var all := have + news;
      assert all[|all| - 1] == last && have[|have| - 1] == last;
      AppendedAreNew(have, more, |have| - 1, |news| - 1);
      SameIsEquivalence(last, last, last);
    }
  }
}
