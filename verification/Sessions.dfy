/** The session table under interleaving: a check releases the lock between
    finding an expired session and dropping it, and sessions are stored meanwhile. */
module Sessions {
  import opened Wrappers
  import opened Authorization
  import Seqs

  // A check that has found its session expired and has yet to drop it.
  datatype Check = Check(sid: string, found: Session, now: int, skew: int)

  datatype Table = Table(sessions: map<string, Session>, dropping: map<nat, Check>)

  // The moments at which the lock is held. The victim matters only when the
  // table would exceed its capacity.
  datatype Step =
    | Find(tid: nat, sid: string, now: int, skew: int)
    | Drop(tid: nat)
    | Store(sid: string, session: Session, victim: string)

  predicate Overflows(t: Table, s: Step) {
    s.Store? && |t.sessions[s.sid := s.session]| > MAX_SESSIONS
  }

  ghost predicate Enabled(t: Table, s: Step) {
    match s
    case Find(tid, _, _, _) => tid !in t.dropping
    case Drop(tid) => tid in t.dropping
    case Store(sid, session, victim) => Overflows(t, s) ==> IsVictim(t.sessions[sid := session], victim)
  }

  predicate FindsExpired(t: Table, s: Step) {
    s.Find? && s.sid in t.sessions && IsExpired(t.sessions[s.sid].principal, s.now, s.skew)
  }

  function Next(t: Table, s: Step): Table {
    match s
    case Find(tid, sid, now, skew) =>
      if FindsExpired(t, s) then t.(dropping := t.dropping[tid := Check(sid, t.sessions[sid], now, skew)]) else t
    case Drop(tid) =>
      if tid in t.dropping then Table(t.sessions - {t.dropping[tid].sid}, t.dropping - {tid}) else t
    case Store(sid, session, victim) =>
      var full := t.sessions[sid := session];
      t.(sessions := if Overflows(t, s) then full - {victim} else full)
  }

  function After(t: Table, steps: seq<Step>): Table {
    if steps == [] then t else Next(After(t, steps[..|steps| - 1]), steps[|steps| - 1])
  }

  ghost predicate Possible(t: Table, steps: seq<Step>) {
    steps == [] || (Possible(t, steps[..|steps| - 1]) && Enabled(After(t, steps[..|steps| - 1]), steps[|steps| - 1]))
  }

  function At(t: Table, steps: seq<Step>, i: nat): Table
    requires i <= |steps|
  {
    After(t, steps[..i])
  }

  // The steps are those of the methods.
  lemma StoreIsTheMethod(t: Table, s: Step)
    requires s.Store? && Enabled(t, s)
    ensures StoreLeaves(t.sessions, s.sid, s.session, Next(t, s).sessions)
  {
  }

  lemma StepKeepsCapacity(t: Table, s: Step)
    requires |t.sessions| <= MAX_SESSIONS && Enabled(t, s)
    ensures |Next(t, s).sessions| <= MAX_SESSIONS
  {
    if s.Drop? {
      OneFewer(t.sessions, t.dropping[s.tid].sid);
    } else if s.Store? {
      OneMore(t.sessions, s.sid, s.session);
      OneFewer(t.sessions[s.sid := s.session], s.victim);
    }
  }

  lemma OneFewer(m: map<string, Session>, sid: string)
    ensures |m - {sid}| == if sid in m then |m| - 1 else |m|
  {
    assert (m - {sid}).Keys == m.Keys - {sid};
    Seqs.DroppingNeverAdds(m.Keys, sid);
  }

  lemma OneMore(m: map<string, Session>, sid: string, s: Session)
    ensures |m[sid := s]| <= |m| + 1
  {
    assert m[sid := s].Keys == m.Keys + {sid};
  }

  // In every interleaving the table keeps to its capacity.
  lemma {:induction false} RunsKeepCapacity(t: Table, steps: seq<Step>)
    requires |t.sessions| <= MAX_SESSIONS && Possible(t, steps)
    ensures |After(t, steps).sessions| <= MAX_SESSIONS
  {
    if steps != [] {
      RunsKeepCapacity(t, steps[..|steps| - 1]);
      StepKeepsCapacity(After(t, steps[..|steps| - 1]), steps[|steps| - 1]);
    }
  }

  // ---- How a session leaves ----

  predicate Evicts(t: Table, s: Step, sid: string) {
    Overflows(t, s) && s.victim == sid
  }

  predicate Drops(t: Table, s: Step, sid: string) {
    s.Drop? && s.tid in t.dropping && t.dropping[s.tid].sid == sid
  }

  // A session leaves in two ways only: as the victim of a store into a full
  // table, or dropped by a check that has found a session under its id expired.
  lemma WhyASessionLeaves(t: Table, s: Step, sid: string)
    requires sid in t.sessions
    ensures sid !in Next(t, s).sessions <==> Evicts(t, s, sid) || Drops(t, s, sid)
  {
  }

  ghost predicate StoredSince(t: Table, steps: seq<Step>, f: nat, sid: string, x: Session) {
    exists g :: f < g < |steps| && steps[g].Store? && steps[g].sid == sid && steps[g].session == x
  }

  // What stands under an id has stood there since step f, or was stored since.
  lemma {:induction false} SameUnlessStored(t: Table, steps: seq<Step>, f: nat, sid: string)
    requires f < |steps| && !steps[f].Store? && sid in After(t, steps).sessions
    ensures var x := After(t, steps).sessions[sid];
            StoredSince(t, steps, f, sid, x) || (sid in At(t, steps, f).sessions && At(t, steps, f).sessions[sid] == x)
    decreases |steps|
  {
    var front, last := steps[..|steps| - 1], steps[|steps| - 1];
    var x := After(t, steps).sessions[sid];
    if last.Store? && last.sid == sid {
      assert steps[|steps| - 1].session == x;
    } else if f < |front| {
      assert front[..f] == steps[..f];
      SameUnlessStored(t, front, f, sid);
      if StoredSince(t, front, f, sid, x) {
        var g :| f < g < |front| && front[g].Store? && front[g].sid == sid && front[g].session == x;
        assert steps[g] == front[g];
      }
    } else {
      assert steps[..f] == front;
    }
  }

  ghost predicate FoundAt(t: Table, steps: seq<Step>, f: nat, tid: nat, c: Check) {
    && f < |steps| && steps[f] == Find(tid, c.sid, c.now, c.skew)
    && FindsExpired(At(t, steps, f), steps[f]) && At(t, steps, f).sessions[c.sid] == c.found
  }

  // Every check that is about to drop has found its session expired.
  lemma {:induction false} EveryDropWasFound(t: Table, steps: seq<Step>, tid: nat) returns (f: nat)
    requires t.dropping == map[] && tid in After(t, steps).dropping
    ensures FoundAt(t, steps, f, tid, After(t, steps).dropping[tid])
  {
    var front, last := steps[..|steps| - 1], steps[|steps| - 1];
    if last.Find? && last.tid == tid && FindsExpired(After(t, front), last) {
      f := |front|;
      assert steps[..f] == front;
    } else {
      f := EveryDropWasFound(t, front, tid);
      assert front[..f] == steps[..f] && front[f] == steps[f];
    }
  }

  // In every interleaving, a session that a check drops although it is not
  // expired by that check's clock was stored under the id of an expired session
  // after the check had found that one.
  lemma UnexpiredDropsWereStoredSince(t: Table, steps: seq<Step>, s: Step, sid: string) returns (f: nat)
    requires t.dropping == map[] && sid in After(t, steps).sessions && Drops(After(t, steps), s, sid)
    requires var c := After(t, steps).dropping[s.tid];
             !IsExpired(After(t, steps).sessions[sid].principal, c.now, c.skew)
    ensures var c := After(t, steps).dropping[s.tid];
            && FoundAt(t, steps, f, s.tid, c) && IsExpired(c.found.principal, c.now, c.skew)
            && StoredSince(t, steps, f, sid, After(t, steps).sessions[sid])
  {
    f := EveryDropWasFound(t, steps, s.tid);
    SameUnlessStored(t, steps, f, sid);
  }

  // So a session that is not expired by the clock of a check dropping it leaves
  // the table exactly as a victim, or dropped in place of an expired one that
  // stood under its id when the check looked.
  lemma UnexpiredLeavesExactly(t: Table, steps: seq<Step>, s: Step, sid: string)
    requires t.dropping == map[] && sid in After(t, steps).sessions
    requires Drops(After(t, steps), s, sid) ==>
               var c := After(t, steps).dropping[s.tid]; !IsExpired(After(t, steps).sessions[sid].principal, c.now, c.skew)
    ensures sid !in Next(After(t, steps), s).sessions <==>
            || Evicts(After(t, steps), s, sid)
            || (Drops(After(t, steps), s, sid)
                && exists f :: FoundAt(t, steps, f, s.tid, After(t, steps).dropping[s.tid])
                               && StoredSince(t, steps, f, sid, After(t, steps).sessions[sid]))
  {
    WhyASessionLeaves(After(t, steps), s, sid);
    if Drops(After(t, steps), s, sid) {
      var f := UnexpiredDropsWereStoredSince(t, steps, s, sid);
    }
  }

  // The failing input: a check finds an expired session, a fresh one is stored
  // under its id, and the check drops the fresh one.
  lemma FreshSessionIsDropped(t: Table, tid: nat, sid: string, now: int, skew: int, newer: Session)
    requires sid in t.sessions && IsExpired(t.sessions[sid].principal, now, skew) && tid !in t.dropping
    requires |t.sessions| <= MAX_SESSIONS && !IsExpired(newer.principal, now, skew)
    ensures var found := Next(t, Find(tid, sid, now, skew));
            var stored := Next(found, Store(sid, newer, sid));
            && Enabled(t, Find(tid, sid, now, skew)) && Enabled(found, Store(sid, newer, sid)) && Enabled(stored, Drop(tid))
            && sid in stored.sessions && stored.sessions[sid] == newer
            && sid !in Next(stored, Drop(tid)).sessions
  {
    assert t.sessions[sid := newer].Keys == t.sessions.Keys;
  }
}
