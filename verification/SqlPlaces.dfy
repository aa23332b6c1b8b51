/** The places of a statement. A path leads from a statement down to any
    expression, query, table reference or other part of it, and carries the
    aliases visible there. The walk meets what stands at the end of a path, and
    nothing else. */
module SqlPlaces {
  import opened Wrappers
  import opened Text
  import opened Policy
  import opened SqlAst
  import opened SqlScope

  datatype Node =
    | ExprAt(expr: Expr)
    | QueryAt(query: Query)
    | ModifierAt(modifier: Modifier)
    | BodyAt(body: Body)
    | RefAt(ref: TableRef)
    | PivotAt(pivot: PivotColumn)
    | ChangeAt(change: Change)
    | ActionAt(action: MergeAction)
    | CopyAt(copy: CopyInfo)
    | StatementAt(statement: Statement)

  // A part of a statement and the aliases visible there.
  datatype Spot = Spot(node: Node, env: Env)

  // The fields of the tree, by which a part is reached from the one around it.
  datatype Place =
    | Child(i: nat) | Subselect
    | Definition(i: nat) | ModifierNo(i: nat) | Main
    | Key(i: nat) | LimitValue | OffsetValue
    | From | Item(i: nat) | Where | Having | Qualify | Group(i: nat) | Arm(i: nat) | Seed | Scoped | Changed | Copied
    | Version | Left | Right | Condition | Call | Source | Aggregate(i: nat) | PivotNo(i: nat) | Value(i: nat)
    | Entry(i: nat) | Target | Joined | Using(i: nat) | Set(i: nat) | Returning(i: nat) | Conflict(i: nat) | Action(i: nat)
    | Path | CopyOption(i: nat) | Explained

  // ---- One step down ----

  function TheExpr(e: Option<Expr>, env: Env): Option<Spot> {
    if e.None? then None else Some(Spot(ExprAt(e.value), env))
  }

  function TheQuery(q: Option<Query>, env: Env): Option<Spot> {
    if q.None? then None else Some(Spot(QueryAt(q.value), env))
  }

  function TheRef(r: Option<TableRef>, env: Env): Option<Spot> {
    if r.None? then None else Some(Spot(RefAt(r.value), env))
  }

  function NthExpr(es: seq<Expr>, i: nat, env: Env): Option<Spot> {
    if i < |es| then Some(Spot(ExprAt(es[i]), env)) else None
  }

  ghost function NthDefinition(ctes: seq<Cte>, i: nat, env: Env): Option<Spot> {
    if i < |ctes| then TheQuery(ctes[i].query, env + Aliases(ctes[..i])) else None
  }

  function InExpr(e: Expr, p: Place, env: Env): Option<Spot> {
    match p
    case Child(i) => NthExpr(e.children, i, env)
    case Subselect => if e.kind.Subquery? then TheQuery(e.kind.query, env) else None
    case _ => None
  }

  // A definition sees the aliases to its left, the rest of the query sees all.
  ghost function InQuery(q: Query, p: Place, env: Env): Option<Spot> {
    match p
    case Definition(i) => NthDefinition(q.ctes, i, env)
    case ModifierNo(i) =>
      if i < |q.modifiers| then Some(Spot(ModifierAt(q.modifiers[i]), env + Aliases(q.ctes))) else None
    case Main => Some(Spot(BodyAt(q.body), env + Aliases(q.ctes)))
    case _ => None
  }

  function InModifier(m: Modifier, p: Place, env: Env): Option<Spot> {
    match m
    case OrderBy(orders) => if p.Key? && p.i < |orders| then TheExpr(orders[p.i], env) else None
    case Limit(limit, offset) =>
      if p.LimitValue? then TheExpr(limit, env) else if p.OffsetValue? then TheExpr(offset, env) else None
    case DistinctOn(targets) => if p.Key? then NthExpr(targets, p.i, env) else None
    case NullOrUnsupportedModifier => None
  }

  function InBody(b: Body, p: Place, env: Env): Option<Spot> {
    match b
    case Select(from, selectList, whereClause, having, qualify, groups) => (
      match p
      case From => TheRef(from, env)
      case Item(i) => NthExpr(selectList, i, env)
      case Where => TheExpr(whereClause, env)
      case Having => TheExpr(having, env)
      case Qualify => TheExpr(qualify, env)
      case Group(i) => NthExpr(groups, i, env)
      case _ => None)
    case SetOperation(arms) => if p.Arm? && p.i < |arms| then Some(Spot(QueryAt(arms[p.i]), env)) else None
    case CteNode(alias, definition, child) =>
      if p.Seed? then TheQuery(definition, env)
      else if p.Scoped? then TheQuery(child, env + if alias == "" then {} else {Fold(alias)}) else None
    case RecursiveCte(alias, left, right) =>
      if p.Seed? then TheQuery(left, env)
      else if p.Scoped? then TheQuery(right, env + if alias == "" then {} else {Fold(alias)}) else None
    case ChangeNode(change) => if p.Changed? then Some(Spot(ChangeAt(change), env)) else None
    case CopyNode(copy) => if p.Copied? && copy.Some? then Some(Spot(CopyAt(copy.value), env)) else None
    case BoundSubquery => None
    case UnsupportedBody => None
  }

  function InRef(r: TableRef, p: Place, env: Env): Option<Spot> {
    match r
    case BaseTable(at, _, _, _) => if p.Version? && at.At? then TheExpr(at.version, env) else None
    case Join(left, right, condition) => (
      match p
      case Left => TheRef(left, env)
      case Right => TheRef(right, env)
      case Condition => TheExpr(condition, env)
      case _ => None)
    case SubqueryRef(subquery) => if p.Subselect? then TheQuery(subquery, env) else None
    case TableFunction(call, input) =>
      if p.Call? then TheExpr(call, env)
      else if p.Subselect? && input.Input? then TheQuery(input.query, env) else None
    case Pivot(source, aggregates, pivots) => (
      match p
      case Source => TheRef(source, env)
      case Aggregate(i) => NthExpr(aggregates, i, env)
      case PivotNo(i) => if i < |pivots| then Some(Spot(PivotAt(pivots[i]), env)) else None
      case _ => None)
    case ExpressionList(values) => if p.Value? then NthExpr(values, p.i, env) else None
    case ShowQuery(query) => if p.Subselect? then Some(Spot(QueryAt(query), env)) else None
    case ShowName(_, _, _) => None
    case NothingToGate => None
    case UnsupportedRef => None
  }

  function InPivot(c: PivotColumn, p: Place, env: Env): Option<Spot> {
    match p
    case Item(i) => NthExpr(c.expressions, i, env)
    case Subselect => TheQuery(c.subquery, env)
    case Entry(i) => NthExpr(c.entries, i, env)
    case _ => None
  }

  function InChange(c: Change, p: Place, env: Env): Option<Spot> {
    match c
    case InsertInto(_, _, _, source, tableRef, returning, conflict) => (
      match p
      case Source => TheQuery(source, env)
      case Target => TheRef(tableRef, env)
      case Returning(i) => NthExpr(returning, i, env)
      case Conflict(i) => NthExpr(conflict, i, env)
      case _ => None)
    case UpdateTable(target, fromTable, setValues, condition, returning) => (
      match p
      case Target => TheRef(target, env)
      case Joined => TheRef(fromTable, env)
      case Set(i) => NthExpr(setValues, i, env)
      case Condition => TheExpr(condition, env)
      case Returning(i) => NthExpr(returning, i, env)
      case _ => None)
    case DeleteFrom(target, using, condition, returning) => (
      match p
      case Target => TheRef(target, env)
      case Using(i) => if i < |using| then Some(Spot(RefAt(using[i]), env)) else None
      case Condition => TheExpr(condition, env)
      case Returning(i) => NthExpr(returning, i, env)
      case _ => None)
    case MergeInto(target, source, condition, actions, returning) => (
      match p
      case Target => TheRef(target, env)
      case Joined => TheRef(source, env)
      case Condition => TheExpr(condition, env)
      case Action(i) =>
        if i < |actions| && actions[i].Some? then Some(Spot(ActionAt(actions[i].value), env)) else None
      case Returning(i) => NthExpr(returning, i, env)
      case _ => None)
  }

  function InAction(a: MergeAction, p: Place, env: Env): Option<Spot> {
    match p
    case Condition => TheExpr(a.condition, env)
    case Set(i) => NthExpr(a.setValues, i, env)
    case Item(i) => NthExpr(a.expressions, i, env)
    case _ => None
  }

  function InCopy(copy: CopyInfo, p: Place, env: Env): Option<Spot> {
    match p
    case Source => TheQuery(copy.query, env)
    case Path => TheExpr(copy.path, env)
    case CopyOption(i) => if i < |copy.options| then TheExpr(copy.options[i], env) else None
    case _ => None
  }

  // Every statement starts with no alias in sight.
  ghost function InStatement(s: Statement, p: Place): Option<Spot> {
    match s
    case SelectStatement(node) => if p.Main? then TheQuery(node, {}) else None
    case Explain(_, inner) => if p.Explained? && inner.Some? then Some(Spot(StatementAt(inner.value), {})) else None
    case ChangeStatement(ctes, change) => (
      match p
      case Definition(i) => NthDefinition(ctes, i, {})
      case Changed => Some(Spot(ChangeAt(change), Aliases(ctes)))
      case _ => None)
    case CopyStatement(copy) => if p.Copied? && copy.Some? then Some(Spot(CopyAt(copy.value), {})) else None
  }

  ghost function Step(s: Spot, p: Place): Option<Spot> {
    match s.node
    case ExprAt(e) => InExpr(e, p, s.env)
    case QueryAt(q) => InQuery(q, p, s.env)
    case ModifierAt(m) => InModifier(m, p, s.env)
    case BodyAt(b) => InBody(b, p, s.env)
    case RefAt(r) => InRef(r, p, s.env)
    case PivotAt(c) => InPivot(c, p, s.env)
    case ChangeAt(c) => InChange(c, p, s.env)
    case ActionAt(a) => InAction(a, p, s.env)
    case CopyAt(copy) => InCopy(copy, p, s.env)
    case StatementAt(statement) => InStatement(statement, p)
  }

  ghost function Reach(s: Spot, path: seq<Place>): Option<Spot>
    decreases |path|
  {
    if path == [] then Some(s)
    else
      var next := Step(s, path[0]);
      if next.None? then None else Reach(next.value, path[1..])
  }

  // ---- What a part says by itself, whatever stands below it ----

  ghost predicate MissingDefinition(ctes: seq<Cte>) {
    exists i :: 0 <= i < |ctes| && ctes[i].query.None?
  }

  ghost predicate MissingExpr(es: seq<Option<Expr>>) {
    exists i :: 0 <= i < |es| && es[i].None?
  }

  predicate NamesFunction(call: Option<Expr>) {
    call.Some? && call.value.kind.Function? && call.value.kind.name != ""
  }

  // The reference a part is by itself.
  function Own(s: Spot): Option<Leaf> {
    match s.node
    case ExprAt(e) => (
      match e.kind
      case ColumnRef(names) => if names == [] then None else Some(ColumnUse(names[|names| - 1]))
      case Star => Some(ColumnUse("*"))
      case _ => None)
    case BodyAt(ChangeNode(change)) => Some(ChangeUse(ChangeAction(change)))
    case BodyAt(CopyNode(_)) => Some(ChangeUse(CopyTo))
    case RefAt(r) => (
      match r
      case BaseTable(_, catalog, schema, table) =>
        Some(TableUse(catalog, schema, table, Bound(catalog, schema, table, s.env)))
      case ShowName(catalog, schema, name) =>
        Some(ShowUse(catalog, schema, name, Bound(catalog, schema, name, s.env)))
      case TableFunction(call, _) =>
        if NamesFunction(call) then Some(FunctionUse(call.value.kind.name)) else None
      case _ => None)
    case ChangeAt(c) => if c.InsertInto? then Some(TargetUse(c.catalog, c.schema, c.table)) else None
    case CopyAt(copy) => Some(TargetUse(copy.catalog, copy.schema, copy.table))
    case _ => None
  }

  // A part the inspector refuses as it is: it lacks something, is of a kind the
  // inspector does not know, or does what no request may.
  ghost predicate Broken(s: Spot) {
    match s.node
    case ExprAt(e) => e.kind == Subquery(None) || (e.kind.Function? && StateFunction(e.kind.name))
    case QueryAt(q) => MissingDefinition(q.ctes)
    case ModifierAt(m) => m.NullOrUnsupportedModifier? || (m.OrderBy? && MissingExpr(m.orders))
    case BodyAt(b) => (
      match b
      case CteNode(_, definition, child) => definition.None? || child.None?
      case RecursiveCte(_, left, right) => left.None? || right.None?
      case CopyNode(copy) => copy.None?
      case UnsupportedBody => true
      case _ => false)
    case RefAt(r) => (
      match r
      case BaseTable(at, _, _, _) => at == At(None)
      case SubqueryRef(subquery) => subquery.None?
      case TableFunction(call, input) => input == Input(None) || !NamesFunction(call)
      case UnsupportedRef => true
      case _ => false)
    case ChangeAt(c) => c.MergeInto? && !OnlyUpdates(c.actions)
    case CopyAt(copy) => MissingExpr(copy.options)
    case StatementAt(statement) => (
      match statement
      case SelectStatement(_) => false
      case Explain(analyze, inner) => inner.None? || analyze
      case ChangeStatement(ctes, _) => MissingDefinition(ctes)
      case CopyStatement(copy) => copy.None?)
    case _ => false
  }

  ghost predicate Says(s: Spot, l: Leaf) {
    Own(s) == Some(l) || (l == Danger && Broken(s))
  }

  // What the walk meets from a part downwards.
  function Leaves(s: Spot): seq<Leaf> {
    match s.node
    case ExprAt(e) => ExprLeaves(e, s.env)
    case QueryAt(q) => QueryLeaves(q, s.env)
    case ModifierAt(m) => ModifierLeaves(m, s.env)
    case BodyAt(b) => BodyLeaves(b, s.env)
    case RefAt(r) => RefLeaves(r, s.env)
    case PivotAt(c) => PivotLeaves(c, s.env)
    case ChangeAt(c) => ClassifyLeaves(c) + ChangeLeaves(c, s.env)
    case ActionAt(a) => MergeActionLeaves(Some(a), s.env)
    case CopyAt(copy) => CopyLeaves(Some(copy), s.env)
    case StatementAt(statement) => StatementLeaves(statement)
  }

  // ---- Lists: what the walk meets in a list, it meets in one of its elements ----

  // Some element has the property exactly when the first or a later one does.
  lemma Shifted<T>(s: seq<T>, has: T -> bool)
    requires s != []
    ensures (exists i :: 0 <= i < |s| && has(s[i])) <==> has(s[0]) || exists i :: 0 <= i < |s[1..]| && has(s[1..][i])
  {
    forall i | 0 <= i < |s| && has(s[i]) ensures has(s[0]) || exists j :: 0 <= j < |s[1..]| && has(s[1..][j]) {
      if i > 0 {
        assert s[1..][i - 1] == s[i];
      }
    }
    forall i | 0 <= i < |s[1..]| && has(s[1..][i]) ensures exists j :: 0 <= j < |s| && has(s[j]) {
      assert s[i + 1] == s[1..][i];
    }
  }

  lemma {:induction false} ExprsHave(s: seq<Expr>, env: Env, l: Leaf)
    ensures l in ExprsLeaves(s, env) <==> exists i :: 0 <= i < |s| && l in ExprLeaves(s[i], env)
  {
    if s != [] {
      ExprsHave(s[1..], env, l);
      Shifted(s, x => l in ExprLeaves(x, env));
    }
  }

  lemma {:induction false} NeededHave(s: seq<Option<Expr>>, env: Env, l: Leaf)
    ensures l in NeededExprsLeaves(s, env) <==> exists i :: 0 <= i < |s| && l in NeededExprLeaves(s[i], env)
  {
    if s != [] {
      NeededHave(s[1..], env, l);
      Shifted(s, x => l in NeededExprLeaves(x, env));
    }
  }

  lemma {:induction false} QueriesHave(s: seq<Query>, env: Env, l: Leaf)
    ensures l in QueriesLeaves(s, env) <==> exists i :: 0 <= i < |s| && l in QueryLeaves(s[i], env)
  {
    if s != [] {
      QueriesHave(s[1..], env, l);
      Shifted(s, x => l in QueryLeaves(x, env));
    }
  }

  lemma {:induction false} ModifiersHave(s: seq<Modifier>, env: Env, l: Leaf)
    ensures l in ModifiersLeaves(s, env) <==> exists i :: 0 <= i < |s| && l in ModifierLeaves(s[i], env)
  {
    if s != [] {
      ModifiersHave(s[1..], env, l);
      Shifted(s, x => l in ModifierLeaves(x, env));
    }
  }

  lemma {:induction false} ActionsHave(s: seq<Option<MergeAction>>, env: Env, l: Leaf)
    ensures l in MergeActionsLeaves(s, env) <==> exists i :: 0 <= i < |s| && l in MergeActionLeaves(s[i], env)
  {
    if s != [] {
      ActionsHave(s[1..], env, l);
      Shifted(s, x => l in MergeActionLeaves(x, env));
    }
  }

  lemma {:induction false} PivotsHave(s: seq<PivotColumn>, env: Env, l: Leaf)
    ensures l in PivotsLeaves(s, env) <==> exists i :: 0 <= i < |s| && l in PivotLeaves(s[i], env)
  {
    if s != [] {
      PivotsHave(s[1..], env, l);
      Shifted(s, x => l in PivotLeaves(x, env));
    }
  }

  lemma {:induction false} RefsHave(s: seq<TableRef>, env: Env, l: Leaf)
    ensures l in RefsLeaves(s, env) <==> exists i :: 0 <= i < |s| && l in RefLeaves(s[i], env)
  {
    if s != [] {
      RefsHave(s[1..], env, l);
      Shifted(s, x => l in RefLeaves(x, env));
    }
  }

  lemma AliasesOfFirst(ctes: seq<Cte>, i: nat, env: Env)
    requires ctes != [] && i < |ctes|
    ensures env + {Fold(ctes[0].alias)} + Aliases(ctes[1..][..i]) == env + Aliases(ctes[..i + 1])
  {
    assert ctes[..i + 1] == [ctes[0]] + ctes[1..][..i];
  }

  lemma {:induction false} CtesHave(ctes: seq<Cte>, env: Env, l: Leaf)
    ensures l in CtesLeaves(ctes, env) <==>
            exists i :: 0 <= i < |ctes| && l in NeededQueryLeaves(ctes[i].query, env + Aliases(ctes[..i]))
  {
    if ctes != [] {
      var rest, inner := ctes[1..], env + {Fold(ctes[0].alias)};
      CtesHave(rest, inner, l);
      assert env + Aliases(ctes[..0]) == env;
      forall i | 0 <= i < |rest|
        ensures NeededQueryLeaves(rest[i].query, inner + Aliases(rest[..i]))
             == NeededQueryLeaves(ctes[i + 1].query, env + Aliases(ctes[..i + 1]))
      {
        AliasesOfFirst(ctes, i, env);
      }
      if i :| 0 <= i < |ctes| && l in NeededQueryLeaves(ctes[i].query, env + Aliases(ctes[..i])) {
        if i > 0 {
          assert rest[i - 1] == ctes[i - 1 + 1];
        }
      }
    }
  }

  // ---- What stands below a part is met with it ----

  lemma StepInExpr(e: Expr, p: Place, env: Env, l: Leaf)
    requires InExpr(e, p, env).Some? && l in Leaves(InExpr(e, p, env).value)
    ensures l in ExprLeaves(e, env)
  {
    ExprsHave(e.children, env, l);
    if p.Subselect? {
      assert l in KindLeaves(e.kind, env);
    }
  }

  lemma StepInQuery(q: Query, p: Place, env: Env, l: Leaf)
    requires InQuery(q, p, env).Some? && l in Leaves(InQuery(q, p, env).value)
    ensures l in QueryLeaves(q, env)
  {
    AfterAddsAllAliases(q.ctes, env);
    match p
    case Definition(_) => CtesHave(q.ctes, env, l);
    case ModifierNo(_) => ModifiersHave(q.modifiers, env + Aliases(q.ctes), l);
    case Main =>
  }

  lemma StepInModifier(m: Modifier, p: Place, env: Env, l: Leaf)
    requires InModifier(m, p, env).Some? && l in Leaves(InModifier(m, p, env).value)
    ensures l in ModifierLeaves(m, env)
  {
    match m
    case OrderBy(orders) => NeededHave(orders, env, l);
    case DistinctOn(targets) => ExprsHave(targets, env, l);
    case Limit(_, _) =>
    case NullOrUnsupportedModifier =>
  }

  lemma StepInSelect(b: Body, p: Place, env: Env, l: Leaf)
    requires b.Select? && InBody(b, p, env).Some? && l in Leaves(InBody(b, p, env).value)
    ensures l in BodyLeaves(b, env)
  {
    match p
    case Item(_) => ExprsHave(b.selectList, env, l);
    case Group(_) => ExprsHave(b.groups, env, l);
    case _ =>
  }

  lemma StepInBody(b: Body, p: Place, env: Env, l: Leaf)
    requires InBody(b, p, env).Some? && l in Leaves(InBody(b, p, env).value)
    ensures l in BodyLeaves(b, env)
  {
    match b
    case Select(_, _, _, _, _, _) => StepInSelect(b, p, env, l);
    case SetOperation(arms) => QueriesHave(arms, env, l);
    case CteNode(alias, _, _) => assert Bind(alias, env) == env + if alias == "" then {} else {Fold(alias)};
    case RecursiveCte(alias, _, _) => assert Bind(alias, env) == env + if alias == "" then {} else {Fold(alias)};
    case ChangeNode(_) =>
    case CopyNode(_) =>
  }

  lemma StepInPivotRef(r: TableRef, p: Place, env: Env, l: Leaf)
    requires r.Pivot? && InRef(r, p, env).Some? && l in Leaves(InRef(r, p, env).value)
    ensures l in RefLeaves(r, env)
  {
    match p
    case Source =>
    case Aggregate(_) => ExprsHave(r.aggregates, env, l);
    case PivotNo(_) => PivotsHave(r.pivots, env, l);
  }

  lemma StepInTableFunction(r: TableRef, p: Place, env: Env, l: Leaf)
    requires r.TableFunction? && InRef(r, p, env).Some? && l in Leaves(InRef(r, p, env).value)
    ensures l in RefLeaves(r, env)
  {
    assert l in OptExprLeaves(r.call, env) || l in InputLeaves(r.input, env);
  }

  lemma StepInRef(r: TableRef, p: Place, env: Env, l: Leaf)
    requires InRef(r, p, env).Some? && l in Leaves(InRef(r, p, env).value)
    ensures l in RefLeaves(r, env)
  {
    match r
    case BaseTable(at, _, _, _) => assert l in AtLeaves(at, env);
    case Join(_, _, _) =>
    case SubqueryRef(_) =>
    case TableFunction(_, _) => StepInTableFunction(r, p, env, l);
    case Pivot(_, _, _) => StepInPivotRef(r, p, env, l);
    case ExpressionList(values) => ExprsHave(values, env, l);
    case ShowQuery(_) =>
  }

  lemma StepInPivot(c: PivotColumn, p: Place, env: Env, l: Leaf)
    requires InPivot(c, p, env).Some? && l in Leaves(InPivot(c, p, env).value)
    ensures l in PivotLeaves(c, env)
  {
    ExprsHave(c.expressions, env, l);
    ExprsHave(c.entries, env, l);
  }

  lemma StepInInsert(c: Change, p: Place, env: Env, l: Leaf)
    requires c.InsertInto? && InChange(c, p, env).Some? && l in Leaves(InChange(c, p, env).value)
    ensures l in ChangeLeaves(c, env)
  {
    ExprsHave(c.returning, env, l);
    ExprsHave(c.conflict, env, l);
  }

  lemma StepInUpdate(c: Change, p: Place, env: Env, l: Leaf)
    requires c.UpdateTable? && InChange(c, p, env).Some? && l in Leaves(InChange(c, p, env).value)
    ensures l in ChangeLeaves(c, env)
  {
    ExprsHave(c.setValues, env, l);
    ExprsHave(c.returning, env, l);
  }

  lemma StepInDelete(c: Change, p: Place, env: Env, l: Leaf)
    requires c.DeleteFrom? && InChange(c, p, env).Some? && l in Leaves(InChange(c, p, env).value)
    ensures l in ChangeLeaves(c, env)
  {
    RefsHave(c.using, env, l);
    ExprsHave(c.returning, env, l);
  }

  lemma StepInMerge(c: Change, p: Place, env: Env, l: Leaf)
    requires c.MergeInto? && InChange(c, p, env).Some? && l in Leaves(InChange(c, p, env).value)
    ensures l in ChangeLeaves(c, env)
  {
    ActionsHave(c.actions, env, l);
    ExprsHave(c.returning, env, l);
  }

  lemma StepInChange(c: Change, p: Place, env: Env, l: Leaf)
    requires InChange(c, p, env).Some? && l in Leaves(InChange(c, p, env).value)
    ensures l in ChangeLeaves(c, env)
  {
    match c
    case InsertInto(_, _, _, _, _, _, _) => StepInInsert(c, p, env, l);
    case UpdateTable(_, _, _, _, _) => StepInUpdate(c, p, env, l);
    case DeleteFrom(_, _, _, _) => StepInDelete(c, p, env, l);
    case MergeInto(_, _, _, _, _) => StepInMerge(c, p, env, l);
  }

  lemma StepInAction(a: MergeAction, p: Place, env: Env, l: Leaf)
    requires InAction(a, p, env).Some? && l in Leaves(InAction(a, p, env).value)
    ensures l in MergeActionLeaves(Some(a), env)
  {
    ExprsHave(a.setValues, env, l);
    ExprsHave(a.expressions, env, l);
  }

  lemma StepInCopy(copy: CopyInfo, p: Place, env: Env, l: Leaf)
    requires InCopy(copy, p, env).Some? && l in Leaves(InCopy(copy, p, env).value)
    ensures l in CopyLeaves(Some(copy), env)
  {
    NeededHave(copy.options, env, l);
  }

  lemma StepInChangeStatement(s: Statement, p: Place, l: Leaf)
    requires s.ChangeStatement? && InStatement(s, p).Some? && l in Leaves(InStatement(s, p).value)
    ensures l in StatementLeaves(s)
  {
    if p.Definition? {
      CtesHave(s.ctes, {}, l);
    } else {
      AfterAddsAllAliases(s.ctes, {});
      assert {} + Aliases(s.ctes) == Aliases(s.ctes);
    }
  }

  lemma StepInStatement(s: Statement, p: Place, l: Leaf)
    requires InStatement(s, p).Some? && l in Leaves(InStatement(s, p).value)
    ensures l in StatementLeaves(s)
  {
    if s.ChangeStatement? {
      StepInChangeStatement(s, p, l);
    }
  }

  lemma StepKeeps(s: Spot, p: Place, l: Leaf)
    requires Step(s, p).Some? && l in Leaves(Step(s, p).value)
    ensures l in Leaves(s)
  {
    match s.node
    case ExprAt(e) => StepInExpr(e, p, s.env, l);
    case QueryAt(q) => StepInQuery(q, p, s.env, l);
    case ModifierAt(m) => StepInModifier(m, p, s.env, l);
    case BodyAt(b) => StepInBody(b, p, s.env, l);
    case RefAt(r) => StepInRef(r, p, s.env, l);
    case PivotAt(c) => StepInPivot(c, p, s.env, l);
    case ChangeAt(c) => StepInChange(c, p, s.env, l);
    case ActionAt(a) => StepInAction(a, p, s.env, l);
    case CopyAt(copy) => StepInCopy(copy, p, s.env, l);
    case StatementAt(statement) => StepInStatement(statement, p, l);
  }

  lemma BareRefIsMet(r: TableRef, env: Env, l: Leaf)
    requires Says(Spot(RefAt(r), env), l)
    ensures l in RefLeaves(r, env)
  {
    assert l in [l];
    match r
    case BaseTable(at, _, _, _) => assert l.TableUse? || l in AtLeaves(at, env);
    case TableFunction(call, input) => assert l in FunctionRefLeaves(call) || l in InputLeaves(input, env);
    case _ =>
  }

  lemma BareBodyIsMet(b: Body, env: Env, l: Leaf)
    requires Says(Spot(BodyAt(b), env), l)
    ensures l in BodyLeaves(b, env)
  {
    assert l in [l];
  }

  lemma BareStatementIsMet(statement: Statement, env: Env, l: Leaf)
    requires Says(Spot(StatementAt(statement), env), l)
    ensures l in StatementLeaves(statement)
  {
    if statement.ChangeStatement? {
      CtesHave(statement.ctes, {}, l);
    }
  }

  lemma BareModifierIsMet(m: Modifier, env: Env, l: Leaf)
    requires Says(Spot(ModifierAt(m), env), l)
    ensures l in ModifierLeaves(m, env)
  {
    if m.OrderBy? {
      NeededHave(m.orders, env, l);
    }
  }

  lemma SaysIsMet(s: Spot, l: Leaf)
    requires Says(s, l)
    ensures l in Leaves(s)
  {
    match s.node
    case ExprAt(e) => assert l in KindLeaves(e.kind, s.env);
    case QueryAt(q) => CtesHave(q.ctes, s.env, l);
    case ModifierAt(m) => BareModifierIsMet(m, s.env, l);
    case BodyAt(b) => BareBodyIsMet(b, s.env, l);
    case RefAt(r) => BareRefIsMet(r, s.env, l);
    case ChangeAt(c) =>
    case CopyAt(copy) => NeededHave(copy.options, s.env, l);
    case StatementAt(statement) => BareStatementIsMet(statement, s.env, l);
  }

  ghost predicate Found(s: Spot, path: seq<Place>, l: Leaf) {
    Reach(s, path).Some? && Says(Reach(s, path).value, l)
  }

  // Nothing is passed over: what any part says is met from any part around it.
  lemma {:induction false} NothingIsMissed(s: Spot, path: seq<Place>, l: Leaf)
    requires Found(s, path, l)
    ensures l in Leaves(s)
    decreases |path|
  {
    if path == [] {
      SaysIsMet(s, l);
    } else {
      NothingIsMissed(Step(s, path[0]).value, path[1..], l);
      StepKeeps(s, path[0], l);
    }
  }

  // ---- What no part says is not met ----

  ghost predicate Silent(s: Spot, l: Leaf) {
    forall path :: !Found(s, path, l)
  }

  lemma SilentHere(s: Spot, l: Leaf)
    requires Silent(s, l)
    ensures !Says(s, l)
  {
    assert !Found(s, [], l);
  }

  lemma SilentBelow(s: Spot, p: Place, next: Spot, l: Leaf)
    requires Silent(s, l) && Step(s, p) == Some(next)
    ensures Silent(next, l)
  {
    forall path ensures !Found(next, path, l) {
      assert ([p] + path)[1..] == path;
      assert !Found(s, [p] + path, l);
    }
  }

  lemma QuietExpr(s: Spot, p: Place, e: Option<Expr>, env: Env, l: Leaf)
    requires Silent(s, l) && Step(s, p) == TheExpr(e, env)
    ensures l !in OptExprLeaves(e, env)
    decreases e
  {
    if e.Some? {
      SilentBelow(s, p, Spot(ExprAt(e.value), env), l);
      NotInExpr(e.value, env, l);
    }
  }

  lemma QuietExprs(s: Spot, at: nat -> Place, es: seq<Expr>, env: Env, l: Leaf)
    requires Silent(s, l) && forall i :: 0 <= i < |es| ==> Step(s, at(i)) == Some(Spot(ExprAt(es[i]), env))
    ensures l !in ExprsLeaves(es, env)
    decreases es
  {
    forall i | 0 <= i < |es| ensures l !in ExprLeaves(es[i], env) {
      SilentBelow(s, at(i), Spot(ExprAt(es[i]), env), l);
      NotInExpr(es[i], env, l);
    }
    ExprsHave(es, env, l);
  }

  lemma QuietNeeded(s: Spot, at: nat -> Place, es: seq<Option<Expr>>, env: Env, l: Leaf)
    requires Silent(s, l) && forall i :: 0 <= i < |es| ==> Step(s, at(i)) == TheExpr(es[i], env)
    requires l == Danger ==> !MissingExpr(es)
    ensures l !in NeededExprsLeaves(es, env)
    decreases es
  {
    forall i | 0 <= i < |es| ensures l !in NeededExprLeaves(es[i], env) {
      QuietExpr(s, at(i), es[i], env, l);
    }
    NeededHave(es, env, l);
  }

  lemma QuietQuery(s: Spot, p: Place, q: Option<Query>, env: Env, l: Leaf)
    requires Silent(s, l) && Step(s, p) == TheQuery(q, env)
    ensures l !in OptQueryLeaves(q, env)
    decreases q
  {
    if q.Some? {
      SilentBelow(s, p, Spot(QueryAt(q.value), env), l);
      NotInQuery(q.value, env, l);
    }
  }

  lemma QuietRef(s: Spot, p: Place, r: Option<TableRef>, env: Env, l: Leaf)
    requires Silent(s, l) && Step(s, p) == TheRef(r, env)
    ensures l !in OptRefLeaves(r, env)
    decreases r
  {
    if r.Some? {
      SilentBelow(s, p, Spot(RefAt(r.value), env), l);
      NotInRef(r.value, env, l);
    }
  }

  lemma QuietCtes(s: Spot, ctes: seq<Cte>, env: Env, l: Leaf)
    requires Silent(s, l) && forall i: nat :: i < |ctes| ==> Step(s, Definition(i)) == NthDefinition(ctes, i, env)
    requires l == Danger ==> !MissingDefinition(ctes)
    ensures l !in CtesLeaves(ctes, env)
    decreases ctes
  {
    forall i | 0 <= i < |ctes| ensures l !in NeededQueryLeaves(ctes[i].query, env + Aliases(ctes[..i])) {
      QuietQuery(s, Definition(i), ctes[i].query, env + Aliases(ctes[..i]), l);
    }
    CtesHave(ctes, env, l);
  }

  lemma NotInExpr(e: Expr, env: Env, l: Leaf)
    requires Silent(Spot(ExprAt(e), env), l)
    ensures l !in ExprLeaves(e, env)
    decreases e
  {
    var s := Spot(ExprAt(e), env);
    SilentHere(s, l);
    QuietExprs(s, (i: nat) => Child(i), e.children, env, l);
    if e.kind.Subquery? {
      QuietQuery(s, Subselect, e.kind.query, env, l);
    }
    assert l !in KindLeaves(e.kind, env);
  }

  lemma NotInModifier(m: Modifier, env: Env, l: Leaf)
    requires Silent(Spot(ModifierAt(m), env), l)
    ensures l !in ModifierLeaves(m, env)
    decreases m
  {
    var s := Spot(ModifierAt(m), env);
    SilentHere(s, l);
    match m
    case OrderBy(orders) => QuietNeeded(s, (i: nat) => Key(i), orders, env, l);
    case Limit(limit, offset) =>
      QuietExpr(s, LimitValue, limit, env, l);
      QuietExpr(s, OffsetValue, offset, env, l);
    case DistinctOn(targets) => QuietExprs(s, (i: nat) => Key(i), targets, env, l);
    case NullOrUnsupportedModifier =>
  }

  lemma NotInQuery(q: Query, env: Env, l: Leaf)
    requires Silent(Spot(QueryAt(q), env), l)
    ensures l !in QueryLeaves(q, env)
    decreases q
  {
    var s, inner := Spot(QueryAt(q), env), env + Aliases(q.ctes);
    SilentHere(s, l);
    AfterAddsAllAliases(q.ctes, env);
    QuietCtes(s, q.ctes, env, l);
    forall i | 0 <= i < |q.modifiers| ensures l !in ModifierLeaves(q.modifiers[i], inner) {
      SilentBelow(s, ModifierNo(i), Spot(ModifierAt(q.modifiers[i]), inner), l);
      NotInModifier(q.modifiers[i], inner, l);
    }
    ModifiersHave(q.modifiers, inner, l);
    SilentBelow(s, Main, Spot(BodyAt(q.body), inner), l);
    NotInBody(q.body, inner, l);
  }

  lemma NotInSelect(b: Body, env: Env, l: Leaf)
    requires b.Select? && Silent(Spot(BodyAt(b), env), l)
    ensures l !in BodyLeaves(b, env)
    decreases b, 1
  {
    var s := Spot(BodyAt(b), env);
    QuietRef(s, From, b.from, env, l);
    QuietExpr(s, Where, b.whereClause, env, l);
    QuietExpr(s, Having, b.having, env, l);
    QuietExpr(s, Qualify, b.qualify, env, l);
    NotInItems(b, env, l);
  }

  lemma NotInItems(b: Body, env: Env, l: Leaf)
    requires b.Select? && Silent(Spot(BodyAt(b), env), l)
    ensures l !in ExprsLeaves(b.selectList, env) && l !in ExprsLeaves(b.groups, env)
    decreases b, 0
  {
    var s := Spot(BodyAt(b), env);
    QuietExprs(s, (i: nat) => Item(i), b.selectList, env, l);
    QuietExprs(s, (i: nat) => Group(i), b.groups, env, l);
  }

  lemma NotInBody(b: Body, env: Env, l: Leaf)
    requires Silent(Spot(BodyAt(b), env), l)
    ensures l !in BodyLeaves(b, env)
    decreases b, 2
  {
    var s := Spot(BodyAt(b), env);
    SilentHere(s, l);
    match b
    case Select(_, _, _, _, _, _) => NotInSelect(b, env, l);
    case SetOperation(arms) =>
      forall i | 0 <= i < |arms| ensures l !in QueryLeaves(arms[i], env) {
        SilentBelow(s, Arm(i), Spot(QueryAt(arms[i]), env), l);
        NotInQuery(arms[i], env, l);
      }
      QueriesHave(arms, env, l);
    case CteNode(alias, definition, child) =>
      QuietQuery(s, Seed, definition, env, l);
      QuietQuery(s, Scoped, child, env + if alias == "" then {} else {Fold(alias)}, l);
      assert Bind(alias, env) == env + if alias == "" then {} else {Fold(alias)};
    case RecursiveCte(alias, left, right) =>
      QuietQuery(s, Seed, left, env, l);
      QuietQuery(s, Scoped, right, env + if alias == "" then {} else {Fold(alias)}, l);
      assert Bind(alias, env) == env + if alias == "" then {} else {Fold(alias)};
    case ChangeNode(change) =>
      SilentBelow(s, Changed, Spot(ChangeAt(change), env), l);
      NotInChange(change, env, l);
    case CopyNode(copy) =>
      if copy.Some? {
        SilentBelow(s, Copied, Spot(CopyAt(copy.value), env), l);
        NotInCopy(copy.value, env, l);
      }
    case BoundSubquery =>
    case UnsupportedBody =>
  }

  lemma NotInRef(r: TableRef, env: Env, l: Leaf)
    requires Silent(Spot(RefAt(r), env), l)
    ensures l !in RefLeaves(r, env)
    decreases r, 1
  {
    var s := Spot(RefAt(r), env);
    SilentHere(s, l);
    match r
    case BaseTable(at, _, _, _) =>
      if at.At? {
        QuietExpr(s, Version, at.version, env, l);
      }
      assert l !in AtLeaves(at, env);
    case Join(_, _, _) => NotInJoin(r, env, l);
    case SubqueryRef(subquery) => QuietQuery(s, Subselect, subquery, env, l);
    case TableFunction(call, input) =>
      QuietExpr(s, Call, call, env, l);
      if input.Input? {
        QuietQuery(s, Subselect, input.query, env, l);
      }
      assert l !in FunctionRefLeaves(call) && l !in InputLeaves(input, env);
    case Pivot(_, _, _) => NotInPivotRef(r, env, l);
    case ExpressionList(values) => QuietExprs(s, (i: nat) => Value(i), values, env, l);
    case ShowQuery(query) =>
      SilentBelow(s, Subselect, Spot(QueryAt(query), env), l);
      NotInQuery(query, env, l);
    case ShowName(_, _, _) =>
    case NothingToGate =>
    case UnsupportedRef =>
  }

  lemma NotInJoin(r: TableRef, env: Env, l: Leaf)
    requires r.Join? && Silent(Spot(RefAt(r), env), l)
    ensures l !in RefLeaves(r, env)
    decreases r, 0
  {
    var s := Spot(RefAt(r), env);
    QuietRef(s, Left, r.left, env, l);
    QuietRef(s, Right, r.right, env, l);
    QuietExpr(s, Condition, r.condition, env, l);
  }

  lemma NotInPivotRef(r: TableRef, env: Env, l: Leaf)
    requires r.Pivot? && Silent(Spot(RefAt(r), env), l)
    ensures l !in RefLeaves(r, env)
    decreases r, 0
  {
    var s := Spot(RefAt(r), env);
    QuietRef(s, Source, r.source, env, l);
    QuietExprs(s, (i: nat) => Aggregate(i), r.aggregates, env, l);
    QuietPivots(s, r.pivots, env, l);
  }

  lemma QuietPivots(s: Spot, pivots: seq<PivotColumn>, env: Env, l: Leaf)
    requires Silent(s, l)
    requires forall i: nat :: i < |pivots| ==> Step(s, PivotNo(i)) == Some(Spot(PivotAt(pivots[i]), env))
    ensures l !in PivotsLeaves(pivots, env)
    decreases pivots
  {
    forall i | 0 <= i < |pivots| ensures l !in PivotLeaves(pivots[i], env) {
      SilentBelow(s, PivotNo(i), Spot(PivotAt(pivots[i]), env), l);
      NotInPivot(pivots[i], env, l);
    }
    PivotsHave(pivots, env, l);
  }

  lemma NotInPivot(c: PivotColumn, env: Env, l: Leaf)
    requires Silent(Spot(PivotAt(c), env), l)
    ensures l !in PivotLeaves(c, env)
    decreases c
  {
    var s := Spot(PivotAt(c), env);
    QuietExprs(s, (i: nat) => Item(i), c.expressions, env, l);
    QuietQuery(s, Subselect, c.subquery, env, l);
    QuietExprs(s, (i: nat) => Entry(i), c.entries, env, l);
  }

  lemma NotInReturning(c: Change, env: Env, l: Leaf)
    requires Silent(Spot(ChangeAt(c), env), l)
    ensures l !in ExprsLeaves(c.returning, env)
    decreases c, 0
  {
    QuietExprs(Spot(ChangeAt(c), env), (i: nat) => Returning(i), c.returning, env, l);
  }

  lemma NotInInsert(c: Change, env: Env, l: Leaf)
    requires c.InsertInto? && Silent(Spot(ChangeAt(c), env), l)
    ensures l !in ChangeLeaves(c, env)
    decreases c, 1
  {
    var s := Spot(ChangeAt(c), env);
    SilentHere(s, l);
    QuietQuery(s, Source, c.source, env, l);
    QuietRef(s, Target, c.tableRef, env, l);
    NotInReturning(c, env, l);
    QuietExprs(s, (i: nat) => Conflict(i), c.conflict, env, l);
  }

  lemma NotInUpdate(c: Change, env: Env, l: Leaf)
    requires c.UpdateTable? && Silent(Spot(ChangeAt(c), env), l)
    ensures l !in ChangeLeaves(c, env)
    decreases c, 1
  {
    var s := Spot(ChangeAt(c), env);
    QuietRef(s, Target, c.target, env, l);
    QuietRef(s, Joined, c.fromTable, env, l);
    QuietExprs(s, (i: nat) => Set(i), c.setValues, env, l);
    QuietExpr(s, Condition, c.condition, env, l);
    NotInReturning(c, env, l);
  }

  lemma NotInDelete(c: Change, env: Env, l: Leaf)
    requires c.DeleteFrom? && Silent(Spot(ChangeAt(c), env), l)
    ensures l !in ChangeLeaves(c, env)
    decreases c, 1
  {
    var s := Spot(ChangeAt(c), env);
    QuietRef(s, Target, c.target, env, l);
    QuietUsing(s, c.using, env, l);
    QuietExpr(s, Condition, c.condition, env, l);
    NotInReturning(c, env, l);
  }

  lemma NotInMerge(c: Change, env: Env, l: Leaf)
    requires c.MergeInto? && Silent(Spot(ChangeAt(c), env), l)
    ensures l !in ChangeLeaves(c, env)
    decreases c, 1
  {
    var s := Spot(ChangeAt(c), env);
    SilentHere(s, l);
    QuietRef(s, Target, c.target, env, l);
    QuietRef(s, Joined, c.mergeSource, env, l);
    QuietExpr(s, Condition, c.condition, env, l);
    QuietActions(s, c.actions, env, l);
    NotInReturning(c, env, l);
  }

  lemma NotInChange(c: Change, env: Env, l: Leaf)
    requires Silent(Spot(ChangeAt(c), env), l)
    ensures l !in ClassifyLeaves(c) + ChangeLeaves(c, env)
    decreases c, 2
  {
    SilentHere(Spot(ChangeAt(c), env), l);
    match c
    case InsertInto(_, _, _, _, _, _, _) => NotInInsert(c, env, l);
    case UpdateTable(_, _, _, _, _) => NotInUpdate(c, env, l);
    case DeleteFrom(_, _, _, _) => NotInDelete(c, env, l);
    case MergeInto(_, _, _, _, _) => NotInMerge(c, env, l);
  }

  lemma QuietUsing(s: Spot, using: seq<TableRef>, env: Env, l: Leaf)
    requires Silent(s, l)
    requires forall i: nat :: i < |using| ==> Step(s, Using(i)) == Some(Spot(RefAt(using[i]), env))
    ensures l !in RefsLeaves(using, env)
    decreases using
  {
    forall i | 0 <= i < |using| ensures l !in RefLeaves(using[i], env) {
      SilentBelow(s, Using(i), Spot(RefAt(using[i]), env), l);
      NotInRef(using[i], env, l);
    }
    RefsHave(using, env, l);
  }

  lemma QuietActions(s: Spot, actions: seq<Option<MergeAction>>, env: Env, l: Leaf)
    requires Silent(s, l)
    requires l == Danger ==> OnlyUpdates(actions)
    requires forall i: nat :: i < |actions| && actions[i].Some? ==>
               Step(s, Action(i)) == Some(Spot(ActionAt(actions[i].value), env))
    ensures l !in MergeActionsLeaves(actions, env)
    decreases actions
  {
    forall i | 0 <= i < |actions| ensures l !in MergeActionLeaves(actions[i], env) {
      if actions[i].Some? {
        SilentBelow(s, Action(i), Spot(ActionAt(actions[i].value), env), l);
        NotInAction(actions[i].value, env, l);
      }
    }
    ActionsHave(actions, env, l);
  }

  lemma NotInAction(a: MergeAction, env: Env, l: Leaf)
    requires Silent(Spot(ActionAt(a), env), l)
    ensures l !in MergeActionLeaves(Some(a), env)
    decreases a
  {
    var s := Spot(ActionAt(a), env);
    QuietExpr(s, Condition, a.condition, env, l);
    QuietExprs(s, (i: nat) => Set(i), a.setValues, env, l);
    QuietExprs(s, (i: nat) => Item(i), a.expressions, env, l);
  }

  lemma NotInCopy(copy: CopyInfo, env: Env, l: Leaf)
    requires Silent(Spot(CopyAt(copy), env), l)
    ensures l !in CopyLeaves(Some(copy), env)
    decreases copy
  {
    var s := Spot(CopyAt(copy), env);
    SilentHere(s, l);
    QuietQuery(s, Source, copy.query, env, l);
    QuietExpr(s, Path, copy.path, env, l);
    QuietNeeded(s, (i: nat) => CopyOption(i), copy.options, env, l);
  }

  lemma NotInChangeStatement(ctes: seq<Cte>, change: Change, l: Leaf)
    requires Silent(Spot(StatementAt(ChangeStatement(ctes, change)), {}), l)
    ensures l !in StatementLeaves(ChangeStatement(ctes, change))
  {
    var s := Spot(StatementAt(ChangeStatement(ctes, change)), {});
    SilentHere(s, l);
    AfterAddsAllAliases(ctes, {});
    assert {} + Aliases(ctes) == Aliases(ctes);
    QuietCtes(s, ctes, {}, l);
    SilentBelow(s, Changed, Spot(ChangeAt(change), Aliases(ctes)), l);
    NotInChange(change, Aliases(ctes), l);
  }

  lemma {:induction false} NotInStatement(statement: Statement, l: Leaf)
    requires Silent(Spot(StatementAt(statement), {}), l)
    ensures l !in StatementLeaves(statement)
  {
    var s := Spot(StatementAt(statement), {});
    SilentHere(s, l);
    match statement
    case SelectStatement(node) => QuietQuery(s, Main, node, {}, l);
    case Explain(_, inner) =>
      if inner.Some? {
        SilentBelow(s, Explained, Spot(StatementAt(inner.value), {}), l);
        NotInStatement(inner.value, l);
      }
    case ChangeStatement(ctes, change) => NotInChangeStatement(ctes, change, l);
    case CopyStatement(copy) =>
      if copy.Some? {
        SilentBelow(s, Copied, Spot(CopyAt(copy.value), {}), l);
        NotInCopy(copy.value, {}, l);
      }
  }

  // The walk of a statement meets exactly what the parts of the statement say.
  lemma WalkMeetsExactly(statement: Statement, l: Leaf)
    ensures l in StatementLeaves(statement) <==> exists path :: Found(Spot(StatementAt(statement), {}), path, l)
  {
    var s := Spot(StatementAt(statement), {});
    if Silent(s, l) {
      NotInStatement(statement, l);
    } else {
      var path :| Found(s, path, l);
      NothingIsMissed(s, path, l);
    }
  }
}
