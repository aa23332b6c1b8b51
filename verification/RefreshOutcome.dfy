/** What the end of a refresh makes of the cached entries, field by field: of the
    kid it was sent for, and of the other kids of the address. */
module RefreshOutcome {
  import opened Wrappers
  import opened Jwks
  import opened Lru
  import opened JwksModel
  import opened JwksTrace
  import opened Signatures
  import opened Candidates
  import opened AuditReason
  import opened ValidatorModel
  import opened Protocol
  import opened FetchRules

  // If the kid is still cached, then with this entry: keys that arrive for other
  // kids may push an entry out of a full table.
  ghost predicate LeftWith(d: Cache, key: string, e: Entry) {
    key in d.hits ==> d.hits[key] == e
  }

  // ---- The parts of a refresh ----

  // The document is noted, the kid of the token is dealt with, the others are
  // counted; their keys come last.
  ghost predicate Parts(cr: Crypto, c: Cache, call: Call, id: nat, keys: seq<Jwk>, b: Cache, s: Cache)
    requires call.header.Some?
  {
    && b == Run(RecordFetchSuccess(c, call.now, call.uri), TargetOps(cr, c, call, id, keys))
    && s == Reconcile(b, PresentKids(keys), call.uri, call.header.value.kid)
  }

  lemma RunInParts(c: Cache, first: Op, target: seq<Op>, sweep: Op, rest: seq<Op>)
    ensures Run(c, [first] + target + [sweep] + rest) == Run(Apply(Run(Apply(c, first), target), sweep), rest)
  {
    RunConcat(c, [first] + target + [sweep], rest);
    RunSnoc(c, [first] + target, sweep);
    RunConcat(c, [first], target);
    RunOne(c, first);
  }

  lemma OpsInParts(cr: Crypto, c: Cache, call: Call, id: nat, keys: seq<Jwk>, order: seq<string>, first: Op, sweep: Op)
    requires call.header.Some? && keys != [] && first == FetchedOk(call.now, call.uri)
    requires sweep == ReconcileOp(PresentKids(keys), call.now, call.uri, call.header.value.kid)
    ensures RefreshOps(cr, c, call, id, Document(keys), order)
         == [first] + TargetOps(cr, c, call, id, keys) + [sweep]
            + PassiveOps(cr, call, keys, order, call.header.value.kid)
  {
  }

  lemma RefreshInParts(cr: Crypto, c: Cache, call: Call, id: nat, keys: seq<Jwk>, order: seq<string>)
    returns (b: Cache, s: Cache)
    requires Valid(c) && call.header.Some? && keys != []
    ensures Parts(cr, c, call, id, keys, b, s) && Valid(b) && Valid(s)
    ensures Run(c, RefreshOps(cr, c, call, id, Document(keys), order))
         == Run(s, PassiveOps(cr, call, keys, order, call.header.value.kid))
  {
    var kid := call.header.value.kid;
    var first, sweep := FetchedOk(call.now, call.uri), ReconcileOp(PresentKids(keys), call.now, call.uri, kid);
    var target, rest := TargetOps(cr, c, call, id, keys), PassiveOps(cr, call, keys, order, kid);
    b := Run(Apply(c, first), target);
    s := Apply(b, sweep);
    StepKeepsValid(c, first);
    RunKeepsValid(Apply(c, first), target);
    StepKeepsValid(b, sweep);
    OpsInParts(cr, c, call, id, keys, order, first, sweep);
    RunInParts(c, first, target, sweep, rest);
  }

  lemma {:induction false} OthersLeave(cr: Crypto, c: Cache, call: Call, keys: seq<Jwk>, order: seq<string>,
                                       skip: string, key: string)
    requires Valid(c)
    requires forall kid :: kid in order && kid != skip && CacheKey(call.uri, kid) == key ==>
               Screen(cr, Filed(keys, kid)) == []
    ensures var d := Run(c, PassiveOps(cr, call, keys, order, skip));
            Valid(d) && (key in d.hits ==> key in c.hits && d.hits[key] == c.hits[key])
  {
    RunKeepsValid(c, PassiveOps(cr, call, keys, order, skip));
    if order != [] {
      var front, kid := order[..|order| - 1], order[|order| - 1];
      var usable := Screen(cr, Filed(keys, kid));
      OthersLeave(cr, c, call, keys, front, skip, key);
      if kid != skip && usable != [] {
        var op, before := Passive(kid, usable, call.now, call.uri), PassiveOps(cr, call, keys, front, skip);
        RunSnoc(c, before, op);
        IngestElsewhere(Run(c, before), op, key);
      }
    }
  }

  lemma FinishIs(cr: Crypto, w: World, tid: nat, keys: seq<Jwk>, order: seq<string>)
    requires tid in w.pending && w.pending[tid].Refreshing? && w.pending[tid].call.header.Some?
    ensures var p := w.pending[tid];
            Next(cr, w, Finish(tid, Document(keys), order)).cache
            == Run(w.cache, RefreshOps(cr, w.cache, p.call, p.id, Document(keys), order))
  {
  }

  // ---- The kid of the token ----

  lemma TargetIsNotCounted(b: Cache, s: Cache, present: set<string>, uri: string, kid: string)
    requires kid != "" && s == Reconcile(b, present, uri, kid)
    ensures var key := CacheKey(uri, kid);
            (key in s.hits <==> key in b.hits) && (key in s.hits ==> s.hits[key] == b.hits[key])
  {
    if uri != "" {
      assert CacheKey(uri, kid)[|uri| + 1..] == kid;
    }
  }

  lemma FromTargetOn(cr: Crypto, b: Cache, s: Cache, call: Call, keys: seq<Jwk>, order: seq<string>)
    requires Named(call) && Valid(s) && s == Reconcile(b, PresentKids(keys), call.uri, call.header.value.kid)
    ensures var d, key := Run(s, PassiveOps(cr, call, keys, order, call.header.value.kid)), KeyFor(call);
            key in d.hits ==> key in b.hits && d.hits[key] == b.hits[key]
  {
    var kid := call.header.value.kid;
    TargetIsNotCounted(b, s, PresentKids(keys), call.uri, kid);
    forall k | k in order && k != kid && CacheKey(call.uri, k) == KeyFor(call) ensures false {
      SameKeySameKid(call.uri, k, kid);
    }
    OthersLeave(cr, s, call, keys, order, kid, KeyFor(call));
  }

  lemma SameKeySameKid(uri: string, a: string, b: string)
    requires CacheKey(uri, a) == CacheKey(uri, b)
    ensures a == b
  {
    if uri != "" {
      assert CacheKey(uri, a)[|uri| + 1..] == a && CacheKey(uri, b)[|uri| + 1..] == b;
    }
  }

  lemma WithdrawnStep(cr: Crypto, c: Cache, call: Call, id: nat, keys: seq<Jwk>, b: Cache)
    requires Named(call) && KeyFor(call) in c.hits && Filed(keys, call.header.value.kid) == []
    requires b == Run(RecordFetchSuccess(c, call.now, call.uri), TargetOps(cr, c, call, id, keys))
    ensures var key, e, reason := KeyFor(call), c.hits[KeyFor(call)], TargetReason(cr, c, call, id, keys);
            if id != 0 && e.reservation != id then b.hits == c.hits && reason == KidAbsent
            else if e.absent >= 1 then key !in b.hits && reason == KidEvicted
            else b.hits == c.hits[key := Entry(e.keys, e.fetchedAt, call.now, 0, 1)] && reason == KidAbsent
  {
    RunOne(RecordFetchSuccess(c, call.now, call.uri), Absent(call.header.value.kid, id, call.now, call.uri));
  }

  // The document of a refresh files no signing key under its kid. If the refresh
  // still holds the reservation of the kid, that is its first absence, which
  // gives the reservation up and starts the floor anew, or its second, which
  // evicts it. If it does not, nothing about the kid changes.
  lemma WithdrawnKid(cr: Crypto, w: World, tid: nat, keys: seq<Jwk>, order: seq<string>)
    requires GrantsHeld(w) && Enabled(w, Finish(tid, Document(keys), order)) && keys != []
    requires w.pending[tid].Refreshing? && KeyFor(w.pending[tid].call) in w.cache.hits
    requires Filed(keys, w.pending[tid].call.header.value.kid) == []
    ensures var p, d := w.pending[tid], Next(cr, w, Finish(tid, Document(keys), order)).cache;
            var key, reason := KeyFor(p.call), RefreshReason(cr, w.cache, p.call, p.id, Document(keys));
            var e := w.cache.hits[key];
            if e.reservation != p.id then LeftWith(d, key, e) && reason == KidAbsent
            else if e.absent == 0 then
              LeftWith(d, key, Entry(e.keys, e.fetchedAt, p.call.now, 0, 1)) && reason == KidAbsent
            else key !in d.hits && reason == KidEvicted
  {
    var p := w.pending[tid];
    assert HoldsGrant(w.cache, p);
    FinishIs(cr, w, tid, keys, order);
    var b, s := RefreshInParts(cr, w.cache, p.call, p.id, keys, order);
    WithdrawnStep(cr, w.cache, p.call, p.id, keys, b);
    FromTargetOn(cr, b, s, p.call, keys, order);
  }

  // A withdrawn kid is gone after two refreshes. The second goes out no sooner
  // than the floor after the first was sent, unless the clock was reset.
  lemma TwoRefreshesEvict(cr: Crypto, w: World, first: nat, keys: seq<Jwk>, order: seq<string>, v: World, second: nat,
                          call: Call, x: World, laterKeys: seq<Jwk>, laterOrder: seq<string>)
    requires GrantsHeld(w) && Enabled(w, Finish(first, Document(keys), order)) && w.pending[first].Refreshing?
    requires var p := w.pending[first];
             && KeyFor(p.call) in w.cache.hits && w.cache.hits[KeyFor(p.call)].reservation == p.id
             && w.cache.hits[KeyFor(p.call)].absent == 0
             && keys != [] && Filed(keys, p.call.header.value.kid) == []
    requires v == Next(cr, w, Finish(first, Document(keys), order))
    requires second !in v.pending && Begin(cr, v.cache, call).FetchForRefresh?
    requires call.uri == w.pending[first].call.uri
             && call.header.value.kid == w.pending[first].call.header.value.kid
    requires x == Next(cr, v, Start(second, call))
    requires Enabled(x, Finish(second, Document(laterKeys), laterOrder))
    requires laterKeys != [] && Filed(laterKeys, call.header.value.kid) == []
    ensures var sent := w.pending[first].call.now; call.now >= sent + v.cache.minRefresh || call.now < sent - 60
    ensures KeyFor(call) !in Next(cr, x, Finish(second, Document(laterKeys), laterOrder)).cache.hits
    ensures RefreshReason(cr, x.cache, call, x.pending[second].id, Document(laterKeys)) == KidEvicted
  {
    WithdrawnKid(cr, w, first, keys, order);
    StepKeepsGrants(cr, w, Finish(first, Document(keys), order));
    RefreshFetchExactly(cr, v.cache, call);
    RefreshIsOnRecord(cr, v, second, call);
    StepKeepsGrants(cr, v, Start(second, call));
    WithdrawnKid(cr, x, second, laterKeys, laterOrder);
  }

  lemma CommitOutcome(c: Cache, kid: string, id: nat, keys: seq<Jwk>, now: int, uri: string)
    requires id != 0 && keys != [] && CacheKey(uri, kid) in c.hits
    ensures var key, d := CacheKey(uri, kid), Apply(c, Commit(kid, id, keys, now, uri));
            var e := c.hits[key];
            if e.reservation != id || e.fetchedAt - 60 <= now < e.fetchedAt then d == c
            else key in d.hits && d.hits[key] == Entry(FirstFour(keys), now, e.lastAttempt, 0, 0)
  {
  }

  lemma PublishedStep(cr: Crypto, c: Cache, a: Cache, call: Call, id: nat, keys: seq<Jwk>, prepared: seq<Jwk>, b: Cache)
    requires Named(call) && KeyFor(call) in c.hits && Screen(cr, Filed(keys, call.header.value.kid)) != [] && id != 0
    requires a.hits == c.hits && prepared == PreparedKeys(cr, c, call, keys)
    requires b == Run(a, TargetOps(cr, c, call, id, keys))
    ensures var key, e := KeyFor(call), c.hits[KeyFor(call)];
            if e.reservation != id || e.fetchedAt - 60 <= call.now < e.fetchedAt then b.hits == c.hits
            else key in b.hits && b.hits[key] == Entry(FirstFour(prepared), call.now, e.lastAttempt, 0, 0)
  {
    var kid := call.header.value.kid;
    var op := Commit(kid, id, prepared, call.now, call.uri);
    PreparedIsPermutation(cr, call, call.header.value.alg, Screen(cr, Filed(keys, kid)), Live(c, call.uri, kid));
    UsableIsFiled(cr, keys, kid);
    assert TargetOps(cr, c, call, id, keys) == [op];
    RunOne(a, op);
    CommitOutcome(a, kid, id, prepared, call.now, call.uri);
  }

  lemma UsableIsFiled(cr: Crypto, keys: seq<Jwk>, kid: string)
    requires Screen(cr, Filed(keys, kid)) != []
    ensures Filed(keys, kid) != []
  {
  }

  function FirstFour(keys: seq<Jwk>): seq<Jwk> {
    if |keys| > 4 then keys[..4] else keys
  }

  // The document files usable keys under the kid. They are stored, up to four,
  // exactly if the refresh still holds the reservation and its clock is not a
  // minute or less behind the last commit. Otherwise the entry stays.
  lemma PublishedKid(cr: Crypto, w: World, tid: nat, keys: seq<Jwk>, order: seq<string>)
    requires GrantsHeld(w) && Enabled(w, Finish(tid, Document(keys), order))
    requires w.pending[tid].Refreshing? && KeyFor(w.pending[tid].call) in w.cache.hits
    requires Screen(cr, Filed(keys, w.pending[tid].call.header.value.kid)) != []
    ensures var p, d := w.pending[tid], Next(cr, w, Finish(tid, Document(keys), order)).cache;
            var key := KeyFor(p.call);
            var e := w.cache.hits[key];
            if e.reservation != p.id || e.fetchedAt - 60 <= p.call.now < e.fetchedAt then LeftWith(d, key, e)
            else LeftWith(d, key, Entry(FirstFour(PreparedKeys(cr, w.cache, p.call, keys)), p.call.now,
                                        e.lastAttempt, 0, 0))
  {
    var p := w.pending[tid];
    assert HoldsGrant(w.cache, p);
    FinishIs(cr, w, tid, keys, order);
    var b, s := RefreshInParts(cr, w.cache, p.call, p.id, keys, order);
    PublishedStep(cr, w.cache, RecordFetchSuccess(w.cache, p.call.now, p.call.uri), p.call, p.id, keys,
                  PreparedKeys(cr, w.cache, p.call, keys), b);
    FromTargetOn(cr, b, s, p.call, keys, order);
  }

  lemma ReasonOfUsable(cr: Crypto, c: Cache, call: Call, id: nat, keys: seq<Jwk>, prepared: seq<Jwk>, reason: Reason)
    requires Named(call) && KeyFor(call) in c.hits && Screen(cr, Filed(keys, call.header.value.kid)) != [] && id != 0
    requires prepared == PreparedKeys(cr, c, call, keys) && reason == TargetReason(cr, c, call, id, keys)
    ensures var e := c.hits[KeyFor(call)];
            && (reason == Superseded <==> e.reservation != id || e.fetchedAt - 60 <= call.now < e.fetchedAt)
            && reason in {Superseded, Rotated, Revoked, NoRotation}
  {
    var kid := call.header.value.kid;
    UsableIsFiled(cr, keys, kid);
    PreparedIsPermutation(cr, call, call.header.value.alg, Screen(cr, Filed(keys, kid)), Live(c, call.uri, kid));
    assert prepared != [];
  }

  // What is reported: the reason names the branch that was taken, and a document
  // whose keys were not stored is reported as superseded, and no other one is.
  lemma ReportedExactly(cr: Crypto, w: World, tid: nat, answer: Answer)
    requires GrantsHeld(w) && tid in w.pending && w.pending[tid].Refreshing?
    requires KeyFor(w.pending[tid].call) in w.cache.hits
    ensures var p := w.pending[tid];
            var e, reason := w.cache.hits[KeyFor(p.call)], RefreshReason(cr, w.cache, p.call, p.id, answer);
            var filed := if answer.Failed? then [] else Filed(answer.keys, p.call.header.value.kid);
            if answer.Failed? then reason == FetchFailed
            else if answer.keys == [] || (filed != [] && Screen(cr, filed) == []) then reason == ParseFailed
            else if filed == [] then reason in {KidAbsent, KidEvicted}
            else if e.reservation != p.id || e.fetchedAt - 60 <= p.call.now < e.fetchedAt then reason == Superseded
            else reason in {Rotated, Revoked, NoRotation}
  {
    var p := w.pending[tid];
    assert HoldsGrant(w.cache, p);
    if answer.Document? && Screen(cr, Filed(answer.keys, p.call.header.value.kid)) != [] {
      ReasonOfUsable(cr, w.cache, p.call, p.id, answer.keys, PreparedKeys(cr, w.cache, p.call, answer.keys),
                     TargetReason(cr, w.cache, p.call, p.id, answer.keys));
    }
  }

  // ---- The other kids of the address ----

  lemma FiledIsPresent(keys: seq<Jwk>, kid: string)
    requires kid != ""
    ensures Filed(keys, kid) != [] <==> kid in PresentKids(keys)
  {
    if Filed(keys, kid) != [] {
      assert Filed(keys, kid)[0] in keys;
    }
  }

  lemma ItsOwnScope(uri: string, kid: string)
    requires '\n' !in kid
    ensures InScope(uri, CacheKey(uri, kid)) && KidOf(uri, CacheKey(uri, kid)) == kid
  {
    if uri != "" {
      assert CacheKey(uri, kid)[|uri| + 1..] == kid;
    }
  }

  // An entry of another kid once absences have been counted.
  lemma SiblingCounted(cr: Crypto, c: Cache, call: Call, id: nat, keys: seq<Jwk>, b: Cache, s: Cache, other: string)
    requires Named(call) && Parts(cr, c, call, id, keys, b, s)
    requires other != call.header.value.kid && other != "" && '\n' !in other && CacheKey(call.uri, other) in c.hits
    ensures var key, e := CacheKey(call.uri, other), c.hits[CacheKey(call.uri, other)];
            if Filed(keys, other) != [] then key in s.hits && s.hits[key] == e.(absent := 0)
            else if e.absent == 0 then key in s.hits && s.hits[key] == e.(absent := 1)
            else key !in s.hits
  {
    var a, key := RecordFetchSuccess(c, call.now, call.uri), CacheKey(call.uri, other);
    TargetLeavesOthers(cr, c, a, call, id, keys, b, other);
    FiledIsPresent(keys, other);
    ItsOwnScope(call.uri, other);
  }

  lemma TargetLeavesOthers(cr: Crypto, c: Cache, a: Cache, call: Call, id: nat, keys: seq<Jwk>, b: Cache, other: string)
    requires Named(call) && a.hits == c.hits && b == Run(a, TargetOps(cr, c, call, id, keys))
    requires other != call.header.value.kid && CacheKey(call.uri, other) in c.hits
    ensures CacheKey(call.uri, other) in b.hits && b.hits[CacheKey(call.uri, other)] == c.hits[CacheKey(call.uri, other)]
  {
    var ops := TargetOps(cr, c, call, id, keys);
    if CacheKey(call.uri, other) == KeyFor(call) {
      SameKeySameKid(call.uri, other, call.header.value.kid);
    }
    if ops != [] {
      assert ops == [ops[0]];
      RunOne(a, ops[0]);
    }
  }

  // A document that files no signing key under another cached kid counts
  // against that kid: the first time it stays, the second time it goes.
  lemma AbsentSibling(cr: Crypto, w: World, tid: nat, keys: seq<Jwk>, order: seq<string>, other: string)
    requires GrantsHeld(w) && Enabled(w, Finish(tid, Document(keys), order)) && keys != []
    requires w.pending[tid].Refreshing? && other != w.pending[tid].call.header.value.kid
    requires other != "" && '\n' !in other && CacheKey(w.pending[tid].call.uri, other) in w.cache.hits
    requires Filed(keys, other) == []
    ensures var p, d := w.pending[tid], Next(cr, w, Finish(tid, Document(keys), order)).cache;
            var key := CacheKey(p.call.uri, other);
            var e := w.cache.hits[key];
            if e.absent == 0 then LeftWith(d, key, Entry(e.keys, e.fetchedAt, e.lastAttempt, e.reservation, 1))
            else key !in d.hits
  {
    var p := w.pending[tid];
    var kid, key := p.call.header.value.kid, CacheKey(p.call.uri, other);
    assert HoldsGrant(w.cache, p);
    FinishIs(cr, w, tid, keys, order);
    var b, s := RefreshInParts(cr, w.cache, p.call, p.id, keys, order);
    SiblingCounted(cr, w.cache, p.call, p.id, keys, b, s, other);
    forall k | k in order && CacheKey(p.call.uri, k) == key ensures k == other {
      SameKeySameKid(p.call.uri, k, other);
    }
    OthersLeave(cr, s, p.call, keys, order, kid, key);
  }

  lemma {:induction false} SiblingVisited(cr: Crypto, c: Cache, call: Call, keys: seq<Jwk>, order: seq<string>,
                                          skip: string, other: string, usable: seq<Jwk>)
    requires Valid(c) && NoDup(order) && other != skip && CacheKey(call.uri, other) in c.hits
    requires usable == Screen(cr, Filed(keys, other)) && usable != []
    ensures var d, key := Run(c, PassiveOps(cr, call, keys, order, skip)), CacheKey(call.uri, other);
            var e := c.hits[key];
            key in d.hits ==>
              || d.hits[key] == (if other in order then Merged(e, usable) else e)
              || d.hits[key] == Entry(FirstFour(usable), call.now, call.now, 0, 0)
  {
    if order != [] {
      var front, last, key := order[..|order| - 1], order[|order| - 1], CacheKey(call.uri, other);
      var before := PassiveOps(cr, call, keys, front, skip);
      var visible := Screen(cr, Filed(keys, last));
      var op := Passive(last, visible, call.now, call.uri);
      RunKeepsValid(c, before);
      SiblingVisited(cr, c, call, keys, front, skip, other, usable);
      if last != skip && visible != [] {
        RunSnoc(c, before, op);
        if last == other {
          forall k | k in front && CacheKey(call.uri, k) == key ensures k == other {
            SameKeySameKid(call.uri, k, other);
          }
          OthersLeave(cr, c, call, keys, front, skip, key);
          VisitOutcome(Run(c, before), other, usable, call.now, call.uri);
        } else {
          if CacheKey(call.uri, last) == key {
            SameKeySameKid(call.uri, last, other);
          }
          IngestElsewhere(Run(c, before), op, key);
        }
      }
    }
  }

  function Merged(e: Entry, keys: seq<Jwk>): Entry {
    e.(keys := KeepNewest(AddMissing(e.keys, keys)), absent := 0)
  }

  lemma VisitOutcome(c: Cache, kid: string, keys: seq<Jwk>, now: int, uri: string)
    requires Valid(c) && keys != []
    ensures var d, key := Apply(c, Passive(kid, keys, now, uri)), CacheKey(uri, kid);
            key in d.hits ==>
              d.hits[key] == if key in c.hits then Merged(c.hits[key], keys) else Entry(FirstFour(keys), now, now, 0, 0)
  {
    if CacheKey(uri, kid) !in c.hits {
      NewKidOutcome(c, Passive(kid, keys, now, uri), CacheKey(uri, kid));
    }
  }

  lemma PresentEntry(cr: Crypto, c: Cache, call: Call, id: nat, keys: seq<Jwk>, order: seq<string>, other: string,
                     usable: seq<Jwk>, b: Cache, s: Cache, d: Cache)
    requires Named(call) && Parts(cr, c, call, id, keys, b, s) && Valid(s) && NoDup(order)
    requires other != call.header.value.kid && other != "" && '\n' !in other && CacheKey(call.uri, other) in c.hits
    requires Filed(keys, other) != [] && usable == Screen(cr, Filed(keys, other)) && (usable != [] ==> other in order)
    requires d == Run(s, PassiveOps(cr, call, keys, order, call.header.value.kid))
    ensures var key, e := CacheKey(call.uri, other), c.hits[CacheKey(call.uri, other)];
            if usable == [] then LeftWith(d, key, e.(absent := 0))
            else LeftWith(d, key, e.(keys := KeepNewest(AddMissing(e.keys, usable)), absent := 0))
                 || LeftWith(d, key, Entry(FirstFour(usable), call.now, call.now, 0, 0))
  {
    var kid, key := call.header.value.kid, CacheKey(call.uri, other);
    SiblingCounted(cr, c, call, id, keys, b, s, other);
    if usable == [] {
      forall k | k in order && CacheKey(call.uri, k) == key ensures k == other {
        SameKeySameKid(call.uri, k, other);
      }
      OthersLeave(cr, s, call, keys, order, kid, key);
    } else {
      SiblingVisited(cr, s, call, keys, order, kid, other, usable);
    }
  }

  // A document that files signing keys under another cached kid clears its
  // counter, and merges into its entry those it can use. The entry is a new one
  // if the keys of others had pushed it out before its own were visited.
  lemma PresentSibling(cr: Crypto, w: World, tid: nat, keys: seq<Jwk>, order: seq<string>, other: string)
    requires GrantsHeld(w) && Enabled(w, Finish(tid, Document(keys), order)) && keys != []
    requires w.pending[tid].Refreshing? && other != w.pending[tid].call.header.value.kid
    requires other != "" && '\n' !in other && CacheKey(w.pending[tid].call.uri, other) in w.cache.hits
    requires Filed(keys, other) != []
    ensures var p, d := w.pending[tid], Next(cr, w, Finish(tid, Document(keys), order)).cache;
            var key, usable := CacheKey(p.call.uri, other), Screen(cr, Filed(keys, other));
            var e := w.cache.hits[key];
            if usable == [] then LeftWith(d, key, e.(absent := 0))
            else LeftWith(d, key, e.(keys := KeepNewest(AddMissing(e.keys, usable)), absent := 0))
                 || LeftWith(d, key, Entry(FirstFour(usable), p.call.now, p.call.now, 0, 0))
  {
    var p := w.pending[tid];
    var usable := Screen(cr, Filed(keys, other));
    assert HoldsGrant(w.cache, p);
    FinishIs(cr, w, tid, keys, order);
    var b, s := RefreshInParts(cr, w.cache, p.call, p.id, keys, order);
    PresentEntry(cr, w.cache, p.call, p.id, keys, order, other, usable, b, s,
                 Next(cr, w, Finish(tid, Document(keys), order)).cache);
  }
}
