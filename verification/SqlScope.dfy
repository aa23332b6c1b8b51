/** What a statement refers to under lexical scoping of CTE aliases: every name
    use, in walk order, resolved against an environment of visible aliases. */
module SqlScope {
  import opened Wrappers
  import opened Text
  import opened SqlAst
  import opened Policy

  datatype Leaf =
    | TableUse(catalog: string, schema: string, table: string, bound: bool)
    | TargetUse(catalog: string, schema: string, table: string)  // INSERT INTO: never a CTE
    | ShowUse(catalog: string, schema: string, table: string, bound: bool)
    | FunctionUse(function_name: string)
    | ColumnUse(column: string)
    | ChangeUse(action: ChangeKind)  // a data change in the place of a query
    | Danger

  // What a data change in the place of a query may be.
  type ChangeKind = a: Action | a.Insert? || a.Update? || a.Delete? || a.CopyTo? witness Insert

  type Env = set<string>

  // ---- Lexical resolution ----

  predicate Bound(catalog: string, schema: string, table: string, env: Env) {
    catalog == "" && schema == "" && Fold(table) in env
  }

  function Bind(alias: string, env: Env): Env {
    if alias == "" then env else env + {Fold(alias)}
  }

  // The aliases visible after a WITH list.
  function After(ctes: seq<Cte>, env: Env): Env {
    if ctes == [] then env else After(ctes[1..], env + {Fold(ctes[0].alias)})
  }

  predicate StateFunction(name: string) {
    Fold(name) in ["current_setting", "getvariable", "nextval", "currval"]
  }

  function KindLeaves(kind: ExprKind, env: Env): seq<Leaf> {
    match kind
    case ColumnRef(names) => if names == [] then [] else [ColumnUse(names[|names| - 1])]
    case Star => [ColumnUse("*")]
    case Subquery(query) => NeededQueryLeaves(query, env)
    case Function(name) => if StateFunction(name) then [Danger] else []
    case OtherExpr => []
  }

  function ExprLeaves(e: Expr, env: Env): seq<Leaf> {
    KindLeaves(e.kind, env) + ExprsLeaves(e.children, env)
  }

  function ExprsLeaves(es: seq<Expr>, env: Env): seq<Leaf> {
    if es == [] then [] else ExprLeaves(es[0], env) + ExprsLeaves(es[1..], env)
  }

  function OptExprLeaves(e: Option<Expr>, env: Env): seq<Leaf> {
    if e.None? then [] else ExprLeaves(e.value, env)
  }

  function NeededExprLeaves(e: Option<Expr>, env: Env): seq<Leaf> {
    if e.None? then [Danger] else ExprLeaves(e.value, env)
  }

  function NeededExprsLeaves(es: seq<Option<Expr>>, env: Env): seq<Leaf> {
    if es == [] then [] else NeededExprLeaves(es[0], env) + NeededExprsLeaves(es[1..], env)
  }

  function OptQueryLeaves(q: Option<Query>, env: Env): seq<Leaf> {
    if q.None? then [] else QueryLeaves(q.value, env)
  }

  function NeededQueryLeaves(q: Option<Query>, env: Env): seq<Leaf> {
    if q.None? then [Danger] else QueryLeaves(q.value, env)
  }

  // Each definition sees the aliases to its left, not its own.
  function CtesLeaves(ctes: seq<Cte>, env: Env): seq<Leaf> {
    if ctes == [] then []
    else NeededQueryLeaves(ctes[0].query, env) + CtesLeaves(ctes[1..], env + {Fold(ctes[0].alias)})
  }

  function ModifierLeaves(m: Modifier, env: Env): seq<Leaf> {
    match m
    case OrderBy(orders) => NeededExprsLeaves(orders, env)
    case Limit(limit, offset) => OptExprLeaves(limit, env) + OptExprLeaves(offset, env)
    case DistinctOn(targets) => ExprsLeaves(targets, env)
    case NullOrUnsupportedModifier => [Danger]
  }

  function ModifiersLeaves(ms: seq<Modifier>, env: Env): seq<Leaf> {
    if ms == [] then [] else ModifierLeaves(ms[0], env) + ModifiersLeaves(ms[1..], env)
  }

  function QueryLeaves(q: Query, env: Env): seq<Leaf> {
    var inner := After(q.ctes, env);
    CtesLeaves(q.ctes, env) + ModifiersLeaves(q.modifiers, inner) + BodyLeaves(q.body, inner)
  }

  function QueriesLeaves(qs: seq<Query>, env: Env): seq<Leaf> {
    if qs == [] then [] else QueryLeaves(qs[0], env) + QueriesLeaves(qs[1..], env)
  }

  function BodyLeaves(b: Body, env: Env): seq<Leaf> {
    match b
    case Select(from, selectList, whereClause, having, qualify, groups) =>
      OptRefLeaves(from, env) + ExprsLeaves(selectList, env) + OptExprLeaves(whereClause, env)
      + OptExprLeaves(having, env) + OptExprLeaves(qualify, env) + ExprsLeaves(groups, env)
    case SetOperation(arms) => QueriesLeaves(arms, env)
    // The alias is visible in the child, not in its own definition ...
    case CteNode(alias, definition, child) =>
      NeededQueryLeaves(definition, env) + NeededQueryLeaves(child, Bind(alias, env))
    // ... and a recursive alias in the right arm, not in the seed.
    case RecursiveCte(alias, left, right) =>
      NeededQueryLeaves(left, env) + NeededQueryLeaves(right, Bind(alias, env))
    case ChangeNode(change) => [ChangeUse(ChangeAction(change))] + ClassifyLeaves(change) + ChangeLeaves(change, env)
    case CopyNode(copy) => [ChangeUse(CopyTo)] + CopyLeaves(copy, env)
    case BoundSubquery => []
    case UnsupportedBody => [Danger]
  }

  // ---- Data changes, as statements and in the place of a query ----

  function ChangeAction(change: Change): ChangeKind {
    match change
    case InsertInto(_, _, _, _, _, _, _) => Insert
    case UpdateTable(_, _, _, _, _) => Update
    case DeleteFrom(_, _, _, _) => Delete
    case MergeInto(_, _, _, _, _) => Update
  }

  predicate OnlyUpdates(actions: seq<Option<MergeAction>>) {
    actions != [] && forall i :: 0 <= i < |actions| ==> actions[i].Some? && actions[i].value.updates
  }

  // A MERGE counts as an update; one that does anything else is refused.
  function ClassifyLeaves(change: Change): seq<Leaf> {
    if change.MergeInto? && !OnlyUpdates(change.actions) then [Danger] else []
  }

  function MergeActionLeaves(a: Option<MergeAction>, env: Env): seq<Leaf> {
    if a.None? then [Danger]
    else OptExprLeaves(a.value.condition, env) + ExprsLeaves(a.value.setValues, env) + ExprsLeaves(a.value.expressions, env)
  }

  function MergeActionsLeaves(actions: seq<Option<MergeAction>>, env: Env): seq<Leaf> {
    if actions == [] then [] else MergeActionLeaves(actions[0], env) + MergeActionsLeaves(actions[1..], env)
  }

  function ChangeLeaves(change: Change, env: Env): seq<Leaf> {
    match change
    case InsertInto(catalog, schema, table, source, tableRef, returning, conflict) =>
      [TargetUse(catalog, schema, table)] + OptQueryLeaves(source, env) + OptRefLeaves(tableRef, env)
      + ExprsLeaves(returning, env) + ExprsLeaves(conflict, env)
    case UpdateTable(target, fromTable, setValues, condition, returning) =>
      OptRefLeaves(target, env) + OptRefLeaves(fromTable, env) + ExprsLeaves(setValues, env)
      + OptExprLeaves(condition, env) + ExprsLeaves(returning, env)
    case DeleteFrom(target, using, condition, returning) =>
      OptRefLeaves(target, env) + RefsLeaves(using, env) + OptExprLeaves(condition, env) + ExprsLeaves(returning, env)
    case MergeInto(target, source, condition, actions, returning) =>
      OptRefLeaves(target, env) + OptRefLeaves(source, env) + OptExprLeaves(condition, env)
      + MergeActionsLeaves(actions, env) + ExprsLeaves(returning, env)
  }

  function CopyLeaves(copy: Option<CopyInfo>, env: Env): seq<Leaf> {
    if copy.None? then [Danger]
    else
      var info := copy.value;
      [TargetUse(info.catalog, info.schema, info.table)] + OptQueryLeaves(info.query, env)
      + OptExprLeaves(info.path, env) + NeededExprsLeaves(info.options, env)
  }

  function FunctionRefLeaves(call: Option<Expr>): seq<Leaf> {
    if call.Some? && call.value.kind.Function? && call.value.kind.name != ""
    then [FunctionUse(call.value.kind.name)] else [Danger]
  }

  function InputLeaves(input: FunctionInput, env: Env): seq<Leaf> {
    if input.NoInput? then [] else NeededQueryLeaves(input.query, env)
  }

  function AtLeaves(at: AtClause, env: Env): seq<Leaf> {
    if at.NoAt? then [] else NeededExprLeaves(at.version, env)
  }

  function PivotLeaves(p: PivotColumn, env: Env): seq<Leaf> {
    ExprsLeaves(p.expressions, env) + OptQueryLeaves(p.subquery, env) + ExprsLeaves(p.entries, env)
  }

  function PivotsLeaves(ps: seq<PivotColumn>, env: Env): seq<Leaf> {
    if ps == [] then [] else PivotLeaves(ps[0], env) + PivotsLeaves(ps[1..], env)
  }

  function RefLeaves(r: TableRef, env: Env): seq<Leaf> {
    match r
    case BaseTable(at, catalog, schema, table) =>
      AtLeaves(at, env) + [TableUse(catalog, schema, table, Bound(catalog, schema, table, env))]
    case Join(left, right, condition) =>
      OptRefLeaves(left, env) + OptRefLeaves(right, env) + OptExprLeaves(condition, env)
    case SubqueryRef(subquery) => NeededQueryLeaves(subquery, env)
    case TableFunction(call, input) =>
      FunctionRefLeaves(call) + OptExprLeaves(call, env) + InputLeaves(input, env)
    case Pivot(source, aggregates, pivots) =>
      OptRefLeaves(source, env) + ExprsLeaves(aggregates, env) + PivotsLeaves(pivots, env)
    case ExpressionList(values) => ExprsLeaves(values, env)
    case ShowQuery(query) => QueryLeaves(query, env)
    case ShowName(catalog, schema, name) => [ShowUse(catalog, schema, name, Bound(catalog, schema, name, env))]
    case NothingToGate => []
    case UnsupportedRef => [Danger]
  }

  function OptRefLeaves(r: Option<TableRef>, env: Env): seq<Leaf> {
    if r.None? then [] else RefLeaves(r.value, env)
  }

  function RefsLeaves(rs: seq<TableRef>, env: Env): seq<Leaf> {
    if rs == [] then [] else RefLeaves(rs[0], env) + RefsLeaves(rs[1..], env)
  }

  // ---- Statements and scripts ----

  function ActionOf(s: Statement): Action {
    match s
    case SelectStatement(_) => Scan
    case Explain(_, _) => Scan
    case ChangeStatement(_, change) => ChangeAction(change)
    case CopyStatement(copy) => if copy.Some? && copy.value.isFrom then CopyFrom else CopyTo
  }

  function StatementLeaves(s: Statement): seq<Leaf> {
    match s
    case SelectStatement(node) => OptQueryLeaves(node, {})
    case Explain(analyze, inner) =>
      if inner.None? then [Danger]
      else (if analyze then [Danger] else []) + StatementLeaves(inner.value)
    case ChangeStatement(ctes, change) =>
      ClassifyLeaves(change) + CtesLeaves(ctes, {}) + ChangeLeaves(change, After(ctes, {}))
    case CopyStatement(copy) => CopyLeaves(copy, {})
  }

  // ---- The scoping rule of WITH, spelled out ----

  ghost function Aliases(ctes: seq<Cte>): Env {
    set c | c in ctes :: Fold(c.alias)
  }

  lemma {:induction false} AfterAddsAllAliases(ctes: seq<Cte>, env: Env)
    ensures After(ctes, env) == env + Aliases(ctes)
  {
    if ctes != [] {
      AfterAddsAllAliases(ctes[1..], env + {Fold(ctes[0].alias)});
      assert ctes == [ctes[0]] + ctes[1..];
      assert Aliases(ctes) == {Fold(ctes[0].alias)} + Aliases(ctes[1..]);
    }
  }

  lemma {:induction false} WithListSplits(before: seq<Cte>, rest: seq<Cte>, env: Env)
    ensures CtesLeaves(before + rest, env) == CtesLeaves(before, env) + CtesLeaves(rest, After(before, env))
  {
    if before == [] {
      assert before + rest == rest;
    } else {
      assert (before + rest)[1..] == before[1..] + rest;
      WithListSplits(before[1..], rest, env + {Fold(before[0].alias)});
    }
  }

  // A definition in a WITH list is resolved against the outer aliases and the
  // ones defined before it: neither its own alias nor a later one.
  lemma DefinitionSeesEarlierAliases(before: seq<Cte>, c: Cte, later: seq<Cte>, env: Env)
    ensures CtesLeaves(before + ([c] + later), env)
         == CtesLeaves(before, env) + (NeededQueryLeaves(c.query, env + Aliases(before))
            + CtesLeaves(later, env + Aliases(before) + {Fold(c.alias)}))
  {
    WithListSplits(before, [c] + later, env);
    AfterAddsAllAliases(before, env);
    assert ([c] + later)[1..] == later;
  }
}
