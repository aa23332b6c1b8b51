/** The authorization decision: a known, unexpired session, an inspected script
    and the policy. */
module Authorization {
  import opened Wrappers
  import opened Text
  import opened Policy
  import opened SqlAst
  import opened SqlScope
  import opened SqlGate
  import opened SqlPlaces
  import opened SqlReferences
  import Seqs
  import SqlInspector

  const MAX_SESSIONS := 1000

  datatype Session = Session(principal: Principal, updatedAt: int)

  datatype PolicySetup = NoTable | LoadFailed | Loaded(doc: Document)

  predicate IsExpired(p: Principal, now: int, skew: int) {
    p.exp > 0 && now > p.exp + skew
  }

  // ---- The policy used when no policy table is configured ----

  predicate DefaultAllows(who: Principal, action: Action) {
    var read := "quack:read" in who.scopes || "quack:write" in who.scopes;
    match action
    case Attach | Scan => read
    case CopyTo | CopyFrom | Insert | Update | Delete => "quack:write" in who.scopes
    case Ddl | Pragma | ServeAdmin => false
  }

  function DefaultReason(who: Principal, action: Action): string {
    if DefaultAllows(who, action) then "ok"
    else match action
      case Attach | Scan => "requires quack:read"
      case CopyTo | CopyFrom | Insert | Update | Delete => "requires quack:write"
      case Ddl | Pragma | ServeAdmin => "default policy never permits administrative actions"
  }

  // ---- What a positive answer means ----

  ghost predicate PolicyAllows(setup: PolicySetup, who: Principal, request: Request) {
    match setup
    case NoTable => DefaultAllows(who, request.action)
    case LoadFailed => false
    case Loaded(doc) => RequestAllowed(doc, who, request)
  }

  ghost predicate Authorized(sessions: map<string, Session>, sid: string, script: Script, setup: PolicySetup,
                             now: int, skew: int)
  {
    && sid in sessions
    && !IsExpired(sessions[sid].principal, now, skew)
    && !InspectedRequest(script).unsafe
    && PolicyAllows(setup, sessions[sid].principal, InspectedRequest(script))
  }

  function SessionFor(sessions: map<string, Session>, sid: string): Option<Session> {
    if sid in sessions then Some(sessions[sid]) else None
  }

  ghost predicate RuleAllows(doc: Document, cell: Cell) {
    exists i :: FirstApplicable(doc.rules, i, cell) && doc.rules[i].allow
  }

  // Some part of the script names the object, or the column.
  ghost predicate MentionsObject(script: Script, name: string) {
    exists i, path, s :: Stands(script, i, path, s) && NamesObject(s, name)
  }

  ghost predicate MentionsColumn(script: Script, name: string) {
    exists i, path, s :: Stands(script, i, path, s) && NamesColumn(s, name)
  }

  // The columns an object is checked with: all those mentioned, or none.
  ghost predicate CheckedColumn(script: Script, column: string) {
    if exists c :: MentionsColumn(script, c) then MentionsColumn(script, column) else column == ""
  }

  lemma MentionsAreCollected(script: Script)
    ensures forall o :: o in InspectedRequest(script).objects <==> MentionsObject(script, o)
    ensures forall c :: c in InspectedRequest(script).columns <==> MentionsColumn(script, c)
  {
    forall o ensures o in InspectedRequest(script).objects <==> MentionsObject(script, o) {
      ObjectsAreNamed(script, o);
    }
    forall c ensures c in InspectedRequest(script).columns <==> MentionsColumn(script, c) {
      ColumnsAreNamed(script, c);
    }
  }

  lemma TouchedCells(script: Script, cell: Cell)
    ensures var request := InspectedRequest(script);
            (request.objects != [] <==> exists o :: MentionsObject(script, o))
            && (Touches(request, cell) <==>
                cell.action == request.action
                && if exists o :: MentionsObject(script, o)
                   then MentionsObject(script, cell.target) && CheckedColumn(script, cell.column)
                   else cell.target == "" && cell.column == "")
  {
    var request := InspectedRequest(script);
    MentionsAreCollected(script);
    if request.objects != [] {
      assert MentionsObject(script, request.objects[0]);
    }
    if request.columns != [] {
      assert MentionsColumn(script, request.columns[0]);
    }
  }

  lemma AllowedIffNamesAre(script: Script, doc: Document, who: Principal)
    requires !doc.defaultAllow
    ensures var action := ScriptAction(script);
            RequestAllowed(doc, who, InspectedRequest(script)) <==>
            && (forall o, c :: MentionsObject(script, o) && CheckedColumn(script, c)
                  ==> RuleAllows(doc, Cell(who, action, o, c)))
            && ((forall o :: !MentionsObject(script, o)) ==> RuleAllows(doc, Cell(who, action, "", "")))
  {
    var action := ScriptAction(script);
    var request := InspectedRequest(script);
    forall cell: Cell
      ensures Touches(request, cell) <==>
              cell.action == action
              && if exists o :: MentionsObject(script, o)
                 then MentionsObject(script, cell.target) && CheckedColumn(script, cell.column)
                 else cell.target == "" && cell.column == ""
      ensures CellAllowed(doc, cell) <==> RuleAllows(doc, cell)
    {
      TouchedCells(script, cell);
    }
    if RequestAllowed(doc, who, request) {
      forall o, c | MentionsObject(script, o) && CheckedColumn(script, c)
        ensures RuleAllows(doc, Cell(who, action, o, c))
      {
        assert Touches(request, Cell(who, action, o, c));
      }
      if forall o :: !MentionsObject(script, o) {
        assert Touches(request, Cell(who, action, "", ""));
      }
    }
    if (forall o, c :: MentionsObject(script, o) && CheckedColumn(script, c)
          ==> RuleAllows(doc, Cell(who, action, o, c)))
       && ((forall o :: !MentionsObject(script, o)) ==> RuleAllows(doc, Cell(who, action, "", "")))
    {
      forall cell: Cell | cell.who == who && Touches(request, cell) ensures CellAllowed(doc, cell) {
        assert cell == Cell(who, action, cell.target, cell.column);
      }
    }
  }

  ghost predicate NothingRefused(script: Script) {
    && !BadEntry(script, ScriptAction(script))
    && forall i, path, s :: Stands(script, i, path, s) ==> !Refuses(s, ScriptAction(script))
  }

  lemma SafeIffNothingRefused(script: Script)
    ensures !InspectedRequest(script).unsafe <==> NothingRefused(script)
  {
    UnsafeIsRefused(script);
  }

  // End to end under default deny: the request passes exactly when no part of
  // the script is refused and each object a part names, with each column a part
  // mentions, is let through by the first rule that applies.
  lemma AuthorizedIffEveryReferenceIs(sessions: map<string, Session>, sid: string, script: Script, doc: Document,
                                      now: int, skew: int)
    requires !doc.defaultAllow
    requires sid in sessions && !IsExpired(sessions[sid].principal, now, skew)
    ensures var who, action := sessions[sid].principal, ScriptAction(script);
            Authorized(sessions, sid, script, Loaded(doc), now, skew) <==>
            && NothingRefused(script)
            && (forall o, c :: MentionsObject(script, o) && CheckedColumn(script, c)
                  ==> RuleAllows(doc, Cell(who, action, o, c)))
            && ((forall o :: !MentionsObject(script, o)) ==> RuleAllows(doc, Cell(who, action, "", "")))
  {
    SafeIffNothingRefused(script);
    AllowedIffNamesAre(script, doc, sessions[sid].principal);
  }

  // ---- Nothing is waved through ----

  // The first rule that applies lets the principal of the session use the table
  // with the column, or it is the one open system view.
  ghost predicate TableLetThrough(doc: Document, who: Principal, action: Action, schema: string, table: string,
                                  column: string)
  {
    || (Fold(schema) == "information_schema" && Fold(table) == "tables")
    || RuleAllows(doc, Cell(who, action, (if schema == "" then "main" else Fold(schema)) + "." + Fold(table), column))
  }

  lemma NamedIsAllowed(sessions: map<string, Session>, sid: string, script: Script, doc: Document, now: int,
                       skew: int, i: nat, path: seq<Place>, s: Spot, name: string, column: string)
    requires !doc.defaultAllow && Authorized(sessions, sid, script, Loaded(doc), now, skew)
    requires Stands(script, i, path, s) && CheckedColumn(script, column)
    ensures !Refuses(s, ScriptAction(script))
    ensures NamesObject(s, name) ==> RuleAllows(doc, Cell(sessions[sid].principal, ScriptAction(script), name, column))
  {
    AuthorizedIffEveryReferenceIs(sessions, sid, script, doc, now, skew);
    if NamesObject(s, name) {
      assert MentionsObject(script, name);
    }
  }

  // A table that no alias in sight stands for, wherever it is named in an
  // authorized script, is a local one that the rules let through for every
  // column mentioned.
  lemma FreeTableIsGated(sessions: map<string, Session>, sid: string, script: Script, doc: Document, now: int,
                         skew: int, i: nat, path: seq<Place>, s: Spot, column: string)
    requires !doc.defaultAllow && Authorized(sessions, sid, script, Loaded(doc), now, skew)
    requires Stands(script, i, path, s) && CheckedColumn(script, column)
    requires s.node.RefAt? && s.node.ref.BaseTable? && s.node.ref.table != ""
    requires !(s.node.ref.catalog == "" && s.node.ref.schema == "" && Fold(s.node.ref.table) in s.env)
    ensures var t := s.node.ref;
            && t.catalog == "" && !LooksLikeAFile(t.catalog, t.schema, t.table)
            && TableLetThrough(doc, sessions[sid].principal, ScriptAction(script), t.schema, t.table, column)
  {
    var t := s.node.ref;
    NamedIsAllowed(sessions, sid, script, doc, now, skew, i, path, s, QualifiedName(t.schema, t.table), column);
  }

  // So is the table an INSERT or COPY writes or reads, as a statement or in the
  // place of a query.
  lemma WrittenTableIsGated(sessions: map<string, Session>, sid: string, script: Script, doc: Document, now: int,
                            skew: int, i: nat, path: seq<Place>, s: Spot, catalog: string, schema: string,
                            table: string, column: string)
    requires !doc.defaultAllow && Authorized(sessions, sid, script, Loaded(doc), now, skew)
    requires Stands(script, i, path, s) && CheckedColumn(script, column)
    requires Writes(s, catalog, schema, table) && table != ""
    ensures catalog == ""
    ensures TableLetThrough(doc, sessions[sid].principal, ScriptAction(script), schema, table, column)
  {
    NamedIsAllowed(sessions, sid, script, doc, now, skew, i, path, s, QualifiedName(schema, table), column);
  }

  // For the statements themselves.
  lemma InsertStands(script: Script, i: nat, ctes: seq<Cte>, change: Change) returns (path: seq<Place>, s: Spot)
    requires script.Some? && i < |script.value| && script.value[i] == Some(ChangeStatement(ctes, change))
    requires change.InsertInto?
    ensures Stands(script, i, path, s) && Writes(s, change.catalog, change.schema, change.table)
  {
    path, s := [Changed], Spot(ChangeAt(change), Aliases(ctes));
    assert path[1..] == [];
  }

  lemma CopyStands(script: Script, i: nat, copy: CopyInfo) returns (path: seq<Place>, s: Spot)
    requires script.Some? && i < |script.value| && script.value[i] == Some(CopyStatement(Some(copy)))
    ensures Stands(script, i, path, s) && Writes(s, copy.catalog, copy.schema, copy.table)
  {
    path, s := [Copied], Spot(CopyAt(copy), {});
    assert path[1..] == [];
  }

  lemma InsertIsGated(sessions: map<string, Session>, sid: string, script: Script, doc: Document, now: int,
                      skew: int, i: nat, ctes: seq<Cte>, change: Change, column: string)
    requires !doc.defaultAllow && Authorized(sessions, sid, script, Loaded(doc), now, skew)
    requires script.Some? && i < |script.value| && script.value[i] == Some(ChangeStatement(ctes, change))
    requires change.InsertInto? && change.table != "" && CheckedColumn(script, column)
    ensures change.catalog == ""
    ensures TableLetThrough(doc, sessions[sid].principal, ScriptAction(script), change.schema, change.table, column)
  {
    var path, s := InsertStands(script, i, ctes, change);
    WrittenTableIsGated(sessions, sid, script, doc, now, skew, i, path, s,
                        change.catalog, change.schema, change.table, column);
  }

  lemma CopyIsGated(sessions: map<string, Session>, sid: string, script: Script, doc: Document, now: int,
                    skew: int, i: nat, copy: CopyInfo, column: string)
    requires !doc.defaultAllow && Authorized(sessions, sid, script, Loaded(doc), now, skew)
    requires script.Some? && i < |script.value| && script.value[i] == Some(CopyStatement(Some(copy)))
    requires copy.table != "" && CheckedColumn(script, column)
    ensures copy.catalog == ""
    ensures TableLetThrough(doc, sessions[sid].principal, ScriptAction(script), copy.schema, copy.table, column)
  {
    var path, s := CopyStands(script, i, copy);
    WrittenTableIsGated(sessions, sid, script, doc, now, skew, i, path, s,
                        copy.catalog, copy.schema, copy.table, column);
  }

  // And so is the target of a SHOW that no alias in sight stands for.
  lemma ShownTableIsGated(sessions: map<string, Session>, sid: string, script: Script, doc: Document, now: int,
                          skew: int, i: nat, path: seq<Place>, s: Spot, column: string)
    requires !doc.defaultAllow && Authorized(sessions, sid, script, Loaded(doc), now, skew)
    requires Stands(script, i, path, s) && CheckedColumn(script, column)
    requires s.node.RefAt? && s.node.ref.ShowName?
    requires !IsListing(s.node.ref.name)
    requires !(s.node.ref.catalog == "" && s.node.ref.schema == "" && Fold(s.node.ref.name) in s.env)
    ensures var t := s.node.ref;
            && t.catalog == "" && t.name != "" && t.name != "\"variables\""
            && !LooksLikeAFile(t.catalog, t.schema, t.name)
            && TableLetThrough(doc, sessions[sid].principal, ScriptAction(script), t.schema, t.name, column)
  {
    var t := s.node.ref;
    NamedIsAllowed(sessions, sid, script, doc, now, skew, i, path, s, QualifiedName(t.schema, t.name), column);
  }

  lemma FunctionIsGated(sessions: map<string, Session>, sid: string, script: Script, doc: Document, now: int,
                        skew: int, i: nat, path: seq<Place>, s: Spot, column: string)
    requires !doc.defaultAllow && Authorized(sessions, sid, script, Loaded(doc), now, skew)
    requires Stands(script, i, path, s) && CheckedColumn(script, column)
    requires s.node.RefAt? && s.node.ref.TableFunction?
    ensures var call := s.node.ref.call;
            && call.Some? && call.value.kind.Function? && call.value.kind.name != ""
            && var name := Fold(call.value.kind.name);
               && name != "query" && name != "query_table"
               && (|| name == "duckdb_tables" || name == "duckdb_columns"
                   || RuleAllows(doc, Cell(sessions[sid].principal, ScriptAction(script), "fn:" + name, column)))
  {
    var call := s.node.ref.call;
    NamedIsAllowed(sessions, sid, script, doc, now, skew, i, path, s,
                   if NamesFunction(call) then "fn:" + Fold(call.value.kind.name) else "", column);
  }

  // ---- Without a policy table ----

  predicate ChangesData(stmts: seq<Option<Statement>>) {
    exists i :: 0 <= i < |stmts| && stmts[i].Some? && (stmts[i].value.ChangeStatement? || stmts[i].value.CopyStatement?)
  }

  // Exactly who may do what: a script of SELECT and EXPLAIN needs one of the two
  // scopes, a script that changes or copies data needs "quack:write".
  lemma DefaultPolicyExactly(sessions: map<string, Session>, sid: string, script: Script, now: int, skew: int)
    ensures Authorized(sessions, sid, script, NoTable, now, skew) <==>
            && sid in sessions && script.Some? && !InspectedRequest(script).unsafe
            && var who := sessions[sid].principal;
               && (who.exp <= 0 || now <= who.exp + skew)
               && (|| "quack:write" in who.scopes
                   || (!ChangesData(script.value) && "quack:read" in who.scopes))
  {
    UnsafeIsRefused(script);
    if script.Some? && !InspectedRequest(script).unsafe {
      ActionOfASafeScript(script);
    }
  }

  lemma ActionOfASafeScript(script: Script)
    requires !InspectedRequest(script).unsafe
    ensures script.Some?
    ensures var action := InspectedRequest(script).action;
            action in (if ChangesData(script.value) then {Insert, Update, Delete, CopyTo, CopyFrom} else {Scan})
  {
    UnsafeIsRefused(script);
    PassingScriptsAreUniform(script.value);
    ActionOfAPassingScript(script.value, InspectedRequest(script).action);
  }

  lemma ActionOfAPassingScript(stmts: seq<Option<Statement>>, action: Action)
    requires action == ScriptAction(Some(stmts))
    requires forall i :: 0 <= i < |stmts| ==> stmts[i].Some? && ActionOf(stmts[i].value) == action
    ensures action == Scan || (ChangesData(stmts) && action in [Insert, Update, Delete, CopyTo, CopyFrom])
    ensures ChangesData(stmts) ==> action != Scan
  {
    if stmts != [] {
      assert stmts[0].Some?;
    }
  }

  // EXPLAIN runs its statement only with ANALYZE, at whatever depth.
  predicate NeverRuns(s: Statement) {
    s.Explain? && !s.analyze && s.inner.Some? && (s.inner.value.Explain? ==> NeverRuns(s.inner.value))
  }

  // Without a policy table, a principal that may only read gets no data change
  // run: each statement is a SELECT or a mere plan, and no query in it, at any
  // depth, hides a data change.
  lemma ReadersChangeNothing(sessions: map<string, Session>, sid: string, stmts: seq<Option<Statement>>, now: int, skew: int)
    requires Authorized(sessions, sid, Some(stmts), NoTable, now, skew)
    requires "quack:write" !in sessions[sid].principal.scopes
    ensures forall i :: 0 <= i < |stmts| ==>
              stmts[i].Some? && (stmts[i].value.SelectStatement? || NeverRuns(stmts[i].value))
    ensures forall l :: l in ScriptLeaves(Some(stmts)) ==> !l.ChangeUse?
  {
    var who, action, ls := sessions[sid].principal, ScriptAction(Some(stmts)), ScriptLeaves(Some(stmts));
    PassingScriptsAreUniform(stmts);
    SafeMeansUniform(ls, action);
    forall i | 0 <= i < |stmts| ensures stmts[i].value.SelectStatement? || NeverRuns(stmts[i].value) {
      AllowedToReaders(who, stmts[i].value);
      LeavesOfAnEntry(stmts, i, action);
      SafeExplainNeverRuns(stmts[i].value);
    }
    if stmts != [] {
      AllowedToReaders(who, stmts[0].value);
    }
  }

  lemma AllowedToReaders(who: Principal, s: Statement)
    requires "quack:write" !in who.scopes && DefaultAllows(who, ActionOf(s))
    ensures ActionOf(s) == Scan && (s.SelectStatement? || s.Explain?)
  {
  }

  lemma {:induction false} EntryIsPart(stmts: seq<Option<Statement>>, i: nat, action: Action, l: Leaf)
    requires i < |stmts| && l in EntryLeaves(stmts[i], action)
    ensures l in EntriesLeaves(stmts, action)
  {
    if i > 0 {
      EntryIsPart(stmts[1..], i - 1, action, l);
    }
  }

  lemma LeavesOfAnEntry(stmts: seq<Option<Statement>>, i: nat, action: Action)
    requires i < |stmts| && stmts[i].Some? && Danger !in EntriesLeaves(stmts, action)
    ensures Danger !in StatementLeaves(stmts[i].value)
  {
    if Danger in EntryLeaves(stmts[i], action) {
      EntryIsPart(stmts, i, action, Danger);
    }
  }

  lemma {:induction false} SafeExplainNeverRuns(s: Statement)
    requires Danger !in StatementLeaves(s)
    ensures s.Explain? ==> NeverRuns(s)
  {
    if s.Explain? && s.inner.Some? {
      Behind(if s.analyze then [Danger] else [], StatementLeaves(s.inner.value), Danger);
      SafeExplainNeverRuns(s.inner.value);
    }
  }

  lemma Behind(a: seq<Leaf>, b: seq<Leaf>, l: Leaf)
    ensures l in a + b <==> l in a || l in b
  {
  }

  // ---- The shared session table ----

  // `a` is evicted rather than `b`: a known expiry before an unknown one, the
  // earlier expiry first, the older entry among equals.
  predicate Sooner(a: Session, b: Session) {
    || (a.principal.exp > 0 && b.principal.exp <= 0)
    || (a.principal.exp > 0 && b.principal.exp > 0 && a.principal.exp < b.principal.exp)
    || (a.principal.exp == b.principal.exp && a.updatedAt < b.updatedAt)
  }

  ghost predicate IsVictim(sessions: map<string, Session>, victim: string) {
    victim in sessions && forall k :: k in sessions ==> !Sooner(sessions[k], sessions[victim])
  }

  // What storing a session may leave: all sessions, or beyond a thousand all but
  // one victim.
  ghost predicate StoreLeaves(before: map<string, Session>, sid: string, s: Session, after: map<string, Session>) {
    var full := before[sid := s];
    if |full| <= 1000 then after == full
    else exists victim :: IsVictim(full, victim) && after == full - {victim}
  }

  // The decision on the session as it was found, made without the lock.
  method Decide(found: Option<Session>, script: Script, setup: PolicySetup, now: int, skew: int)
    returns (outcome: Outcome, drop: bool)
    ensures drop <==> found.Some? && IsExpired(found.value.principal, now, skew)
    ensures outcome.allow <==>
              && found.Some? && !drop && !InspectedRequest(script).unsafe
              && PolicyAllows(setup, found.value.principal, InspectedRequest(script))
    // The first of these that holds is the reason; a policy table gives its own.
    ensures found.None? ==> outcome.reason == "unknown session"
    ensures drop ==> outcome.reason == "principal expired"
    ensures found.Some? && !drop && setup.LoadFailed? ==> outcome.reason == "policy_table load failed"
    ensures found.Some? && !drop && !setup.LoadFailed? && InspectedRequest(script).unsafe ==> outcome.reason == "parse_error"
    ensures found.Some? && !drop && setup.NoTable? && !InspectedRequest(script).unsafe ==>
              outcome.reason == if outcome.allow then "ok"
                                else if ChangesData(script.value) then "requires quack:write" else "requires quack:read"
  {
    var request := SqlInspector.InspectSql(script);
    if found.None? {
      return Outcome(false, "unknown session"), false;
    }
    var who := found.value.principal;
    if IsExpired(who, now, skew) {
      return Outcome(false, "principal expired"), true;
    }
    drop := false;
    if setup.LoadFailed? {
      return Outcome(false, "policy_table load failed"), false;
    }
    if request.unsafe {
      return Outcome(false, "parse_error"), false;
    }
    match setup
    case NoTable =>
      ActionOfASafeScript(script);
      outcome := Outcome(DefaultAllows(who, request.action), DefaultReason(who, request.action));
    case Loaded(doc) => outcome := EvaluatePolicy(doc, who, request);
  }

  class SessionTable {
    var sessions: map<string, Session>

    ghost predicate Valid()
      reads this
    {
      |sessions| <= MAX_SESSIONS
    }

    constructor ()
      ensures Valid() && sessions == map[]
    {
      sessions := map[];
    }

    // The two moments at which a row of check_authorization holds the lock: to
    // find its session, and to drop the session if it has expired. Sessions may
    // be stored in between; one stored under the same id is dropped unseen.
    method FindSession(sid: string) returns (found: Option<Session>)
      ensures found == SessionFor(sessions, sid)
    {
      if sid in sessions {
        return Some(sessions[sid]);
      }
      return None;
    }

    method DropSession(sid: string)
      requires Valid()
      modifies this
      ensures Valid() && sessions == old(sessions) - {sid}
    {
      assert (sessions - {sid}).Keys == sessions.Keys - {sid};
      Seqs.DroppingNeverAdds(sessions.Keys, sid);
      sessions := sessions - {sid};
    }

    // One row of check_authorization, with nothing stored in between.
    method CheckAuthorization(sid: string, script: Script, setup: PolicySetup, now: int, skew: int)
      returns (outcome: Outcome)
      requires Valid()
      modifies this
      ensures Valid()
      ensures outcome.allow <==> Authorized(old(sessions), sid, script, setup, now, skew)
      ensures sessions == if sid in old(sessions) && IsExpired(old(sessions)[sid].principal, now, skew)
                          then old(sessions) - {sid} else old(sessions)
    {
      var found := FindSession(sid);
      var drop;
      outcome, drop := Decide(found, script, setup, now, skew);
      if drop {
        DropSession(sid);
      }
    }

    method FindVictim() returns (victim: string)
      requires sessions != map[]
      ensures IsVictim(sessions, victim)
    {
      victim :| victim in sessions;
      var rest := sessions.Keys;
      while rest != {}
        invariant rest <= sessions.Keys && victim in sessions
        invariant forall k :: k in sessions.Keys - rest ==> !Sooner(sessions[k], sessions[victim])
        decreases |rest|
      {
        var it :| it in rest;
        if Sooner(sessions[it], sessions[victim]) {
          victim := it;
        }
        rest := rest - {it};
      }
    }

    method StoreSessionPrincipal(sid: string, who: Principal, now: int)
      requires Valid()
      modifies this
      ensures Valid()
      ensures StoreLeaves(old(sessions), sid, Session(who, now), sessions)
    {
      sessions := sessions[sid := Session(who, now)];
      ghost var full := sessions;
      assert full.Keys == old(sessions).Keys + {sid};
      while |sessions| > MAX_SESSIONS
        invariant |sessions| <= MAX_SESSIONS + 1
        invariant sessions == full
                  || (|full| > MAX_SESSIONS && |sessions| <= MAX_SESSIONS
                      && exists victim :: IsVictim(full, victim) && sessions == full - {victim})
        decreases |sessions|
      {
        var victim := FindVictim();
        assert sessions.Keys - {victim} == (sessions - {victim}).Keys;
        sessions := sessions - {victim};
      }
    }
  }

  // The victim expires first of all sessions of known expiry; one of unknown
  // expiry goes only if all are. Among equals it is the oldest.
  lemma VictimExactly(sessions: map<string, Session>, victim: string)
    requires victim in sessions
    ensures var v := sessions[victim];
            IsVictim(sessions, victim) <==>
            && (v.principal.exp <= 0 ==> forall k :: k in sessions ==> sessions[k].principal.exp <= 0)
            && (v.principal.exp > 0 ==> forall k :: k in sessions && sessions[k].principal.exp > 0 ==>
                                          v.principal.exp <= sessions[k].principal.exp)
            && (forall k :: k in sessions && sessions[k].principal.exp == v.principal.exp ==>
                  v.updatedAt <= sessions[k].updatedAt)
  {
    var v := sessions[victim];
    if !IsVictim(sessions, victim) {
      var k :| k in sessions && Sooner(sessions[k], v);
      assert sessions[k].principal.exp > 0 || sessions[k].principal.exp == v.principal.exp;
    }
    if IsVictim(sessions, victim) {
      forall k | k in sessions
        ensures v.principal.exp <= 0 ==> sessions[k].principal.exp <= 0
        ensures v.principal.exp > 0 && sessions[k].principal.exp > 0 ==> v.principal.exp <= sessions[k].principal.exp
        ensures sessions[k].principal.exp == v.principal.exp ==> v.updatedAt <= sessions[k].updatedAt
      {
        assert !Sooner(sessions[k], v);
      }
    }
  }
}
