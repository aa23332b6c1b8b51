/** The inspector as it runs: one recursive walk that pushes into the request
    and keeps the visible CTE aliases on a stack it restores on the way out. */
module SqlInspector {
  import opened Wrappers
  import opened Text
  import opened Policy
  import opened SqlAst
  import opened SqlScope
  import opened SqlGate

  ghost function Names(stack: seq<string>): Env {
    set n | n in stack
  }

  class Inspector {
    var action: Action
    var objects: seq<string>
    var columns: seq<string>
    var unsafe: bool
    var cteNames: seq<string>
    ghost var log: seq<Leaf>  // every reference met so far

    ghost predicate Valid()
      reads this
    {
      Collected(objects, columns, unsafe) == Collect(log, action)
    }

    // The effect of walking a tree with these leaves: they are appended, and
    // the alias stack is as it was.
    twostate predicate Walked(leaves: seq<Leaf>)
      reads this
    {
      && Valid()
      && log == old(log) + leaves
      && cteNames == old(cteNames)
      && action == old(action)
    }

    constructor ()
      ensures Valid() && log == [] && cteNames == [] && action == Scan
    {
      action := Scan;
      objects, columns, unsafe, cteNames, log := [], [], false, [], [];
    }

    // ---- The request ----

    ghost method Record(leaf: Leaf)
      requires Collected(objects, columns, unsafe) == Note(Collect(log, action), Gate(leaf, action))
      modifies this`log
      ensures Walked([leaf])
    {
      log := log + [leaf];
    }

    method Unsafe()
      requires Valid()
      modifies this
      ensures Walked([Danger])
    {
      unsafe := true;
      Record(Danger);
    }

    method AddNamedObject(name: string)
      modifies this`objects
      ensures objects == AddNew(old(objects), Some(name))
    {
      if name !in objects {
        objects := objects + [name];
      }
    }

    method AddObject(catalog: string, schema: string, table: string)
      requires Valid()
      modifies this`objects, this`unsafe
      ensures Collected(objects, columns, unsafe) == Note(Collect(log, action), GateObject(catalog, schema, table))
    {
      if table == "" {
        return;
      }
      var sch := if schema == "" then "main" else Fold(schema);
      var tbl := Fold(table);
      if catalog != "" {
        unsafe := true;
      }
      if sch == "information_schema" || sch == "pg_catalog" {
        if !IsAllowedSystemView(sch, tbl) {
          unsafe := true;
        }
        return;
      }
      if sch == "main" && tbl in SYSTEM_VIEWS {
        unsafe := true;
        return;
      }
      AddNamedObject(sch + "." + tbl);
    }

    method AddFunctionObject(name: string)
      requires Valid()
      modifies this
      ensures Walked([FunctionUse(name)])
    {
      var lowered := Fold(name);
      if !IsExemptFunction(lowered) {
        AddNamedObject("fn:" + lowered);
      }
      if lowered == "query" || lowered == "query_table" {
        unsafe := true;
      }
      Record(FunctionUse(name));
    }

    method AddColumn(column: string)
      requires Valid()
      modifies this
      ensures Walked([ColumnUse(column)])
    {
      if column != "" {
        var c := Fold(column);
        if c !in columns {
          columns := columns + [c];
        }
      }
      Record(ColumnUse(column));
    }

    method IsCte(name: string) returns (found: bool)
      ensures found <==> name in Names(cteNames)
    {
      for i := 0 to |cteNames|
        invariant name !in cteNames[..i]
      {
        if cteNames[i] == name {
          return true;
        }
      }
      return false;
    }

    // ---- Expressions ----

    method WalkKind(kind: ExprKind)
      requires Valid()
      modifies this
      ensures Walked(KindLeaves(kind, Names(old(cteNames))))
      decreases kind
    {
      match kind
      case ColumnRef(names) =>
        if names != [] {
          AddColumn(names[|names| - 1]);
        }
      case Star => AddColumn("*");
      case Subquery(query) => WalkNeededQuery(query);
      case Function(name) =>
        if StateFunction(name) {
          Unsafe();
        }
      case OtherExpr =>
    }

    method WalkExpression(e: Expr)
      requires Valid()
      modifies this
      ensures Walked(ExprLeaves(e, Names(old(cteNames))))
      decreases e
    {
      WalkKind(e.kind);
      WalkExpressions(e.children);
      TwoParts(old(log), KindLeaves(e.kind, Names(cteNames)), ExprsLeaves(e.children, Names(cteNames)));
    }

    method WalkExpressions(es: seq<Expr>)
      requires Valid()
      modifies this
      ensures Walked(ExprsLeaves(es, Names(old(cteNames))))
      decreases es
    {
      for i := 0 to |es|
        invariant Valid() && cteNames == old(cteNames) && action == old(action)
        invariant old(log) + ExprsLeaves(es, Names(cteNames)) == log + ExprsLeaves(es[i..], Names(cteNames))
      {
        ghost var env, rest := Names(cteNames), es[i + 1..];
        assert es[i..][1..] == rest;
        assert ExprsLeaves(es[i..], env) == ExprLeaves(es[i], env) + ExprsLeaves(rest, env);
        TwoParts(log, ExprLeaves(es[i], env), ExprsLeaves(rest, env));
        WalkExpression(es[i]);
      }
    }

    method WalkOptional(e: Option<Expr>)
      requires Valid()
      modifies this
      ensures Walked(OptExprLeaves(e, Names(old(cteNames))))
      decreases e, 0
    {
      if e.Some? {
        WalkExpression(e.value);
      }
    }

    method WalkNeeded(e: Option<Expr>)
      requires Valid()
      modifies this
      ensures Walked(NeededExprLeaves(e, Names(old(cteNames))))
      decreases e
    {
      if e.Some? {
        WalkExpression(e.value);
      } else {
        Unsafe();
      }
    }

    // ---- Queries ----

    method WalkNeededQuery(q: Option<Query>)
      requires Valid()
      modifies this
      ensures Walked(NeededQueryLeaves(q, Names(old(cteNames))))
      decreases q, 0
    {
      if q.Some? {
        WalkQuery(q.value);
      } else {
        Unsafe();
      }
    }

    method WalkOptionalQuery(q: Option<Query>)
      requires Valid()
      modifies this
      ensures Walked(OptQueryLeaves(q, Names(old(cteNames))))
      decreases q, 0
    {
      if q.Some? {
        WalkQuery(q.value);
      }
    }

    method PushAlias(name: string)
      modifies this`cteNames
      ensures cteNames == old(cteNames) + [name]
      ensures Names(cteNames) == Names(old(cteNames)) + {name}
    {
      cteNames := cteNames + [name];
    }

    // Leaves the aliases of the WITH list on the stack; the caller pops them.
    method EnterCtes(ctes: seq<Cte>)
      requires Valid()
      modifies this
      ensures Valid() && action == old(action)
      ensures log == old(log) + CtesLeaves(ctes, Names(old(cteNames)))
      ensures Names(cteNames) == After(ctes, Names(old(cteNames)))
      ensures |old(cteNames)| <= |cteNames| && cteNames[..|old(cteNames)|] == old(cteNames)
      decreases ctes
    {
      ghost var env := Names(cteNames);
      for i := 0 to |ctes|
        invariant Valid() && action == old(action)
        invariant old(log) + CtesLeaves(ctes, env) == log + CtesLeaves(ctes[i..], Names(cteNames))
        invariant After(ctes, env) == After(ctes[i..], Names(cteNames))
        invariant |old(cteNames)| <= |cteNames| && cteNames[..|old(cteNames)|] == old(cteNames)
      {
        ghost var here, rest := Names(cteNames), ctes[i + 1..];
        ghost var next := here + {Fold(ctes[i].alias)};
        assert ctes[i..][1..] == rest;
        assert CtesLeaves(ctes[i..], here) == NeededQueryLeaves(ctes[i].query, here) + CtesLeaves(rest, next);
        TwoParts(log, NeededQueryLeaves(ctes[i].query, here), CtesLeaves(rest, next));
        WalkNeededQuery(ctes[i].query);
        PushAlias(Fold(ctes[i].alias));
      }
    }

    // ORDER BY entries and named expressions: none may be null.
    method WalkNeededExprs(es: seq<Option<Expr>>)
      requires Valid()
      modifies this
      ensures Walked(NeededExprsLeaves(es, Names(old(cteNames))))
      decreases es
    {
      for i := 0 to |es|
        invariant Valid() && cteNames == old(cteNames) && action == old(action)
        invariant old(log) + NeededExprsLeaves(es, Names(cteNames)) == log + NeededExprsLeaves(es[i..], Names(cteNames))
      {
        ghost var env, rest := Names(cteNames), es[i + 1..];
        assert es[i..][1..] == rest;
        assert NeededExprsLeaves(es[i..], env) == NeededExprLeaves(es[i], env) + NeededExprsLeaves(rest, env);
        TwoParts(log, NeededExprLeaves(es[i], env), NeededExprsLeaves(rest, env));
        WalkNeeded(es[i]);
      }
    }

    method WalkModifier(m: Modifier)
      requires Valid()
      modifies this
      ensures Walked(ModifierLeaves(m, Names(old(cteNames))))
      decreases m
    {
      match m
      case OrderBy(orders) => WalkNeededExprs(orders);
      case Limit(limit, offset) =>
        WalkOptional(limit);
        WalkOptional(offset);
      case DistinctOn(targets) => WalkExpressions(targets);
      case NullOrUnsupportedModifier => Unsafe();
    }

    method WalkModifiers(ms: seq<Modifier>)
      requires Valid()
      modifies this
      ensures Walked(ModifiersLeaves(ms, Names(old(cteNames))))
      decreases ms
    {
      for i := 0 to |ms|
        invariant Valid() && cteNames == old(cteNames) && action == old(action)
        invariant old(log) + ModifiersLeaves(ms, Names(cteNames)) == log + ModifiersLeaves(ms[i..], Names(cteNames))
      {
        ghost var env, rest := Names(cteNames), ms[i + 1..];
        assert ms[i..][1..] == rest;
        assert ModifiersLeaves(ms[i..], env) == ModifierLeaves(ms[i], env) + ModifiersLeaves(rest, env);
        TwoParts(log, ModifierLeaves(ms[i], env), ModifiersLeaves(rest, env));
        WalkModifier(ms[i]);
      }
    }

    method WalkQuery(q: Query)
      requires Valid()
      modifies this
      ensures Walked(QueryLeaves(q, Names(old(cteNames))))
      decreases q
    {
      var size := |cteNames|;
      EnterCtes(q.ctes);
      WalkModifiers(q.modifiers);
      WalkBody(q.body);
      ghost var outer, inner := Names(old(cteNames)), Names(cteNames);
      ThreeParts(old(log), CtesLeaves(q.ctes, outer), ModifiersLeaves(q.modifiers, inner), BodyLeaves(q.body, inner));
      cteNames := cteNames[..size];
    }

    method WalkQueries(qs: seq<Query>)
      requires Valid()
      modifies this
      ensures Walked(QueriesLeaves(qs, Names(old(cteNames))))
      decreases qs
    {
      for i := 0 to |qs|
        invariant Valid() && cteNames == old(cteNames) && action == old(action)
        invariant old(log) + QueriesLeaves(qs, Names(cteNames)) == log + QueriesLeaves(qs[i..], Names(cteNames))
      {
        ghost var env, rest := Names(cteNames), qs[i + 1..];
        assert qs[i..][1..] == rest;
        assert QueriesLeaves(qs[i..], env) == QueryLeaves(qs[i], env) + QueriesLeaves(rest, env);
        TwoParts(log, QueryLeaves(qs[i], env), QueriesLeaves(rest, env));
        WalkQuery(qs[i]);
      }
    }

    // Walks `q` with one more alias on the stack.
    method WalkUnderAlias(alias: string, q: Option<Query>)
      requires Valid()
      modifies this
      ensures Walked(NeededQueryLeaves(q, Bind(alias, Names(old(cteNames)))))
      decreases q, 1
    {
      var size := |cteNames|;
      if alias != "" {
        PushAlias(Fold(alias));
      }
      WalkNeededQuery(q);
      cteNames := cteNames[..size];
    }

    method WalkSelect(b: Body)
      requires Valid() && b.Select?
      modifies this
      ensures Walked(BodyLeaves(b, Names(old(cteNames))))
      decreases b, 0
    {
      WalkOptionalRef(b.from);
      WalkExpressions(b.selectList);
      WalkOptional(b.whereClause);
      WalkOptional(b.having);
      WalkOptional(b.qualify);
      WalkExpressions(b.groups);
      SixParts(old(log), OptRefLeaves(b.from, Names(cteNames)), ExprsLeaves(b.selectList, Names(cteNames)),
               OptExprLeaves(b.whereClause, Names(cteNames)), OptExprLeaves(b.having, Names(cteNames)),
               OptExprLeaves(b.qualify, Names(cteNames)), ExprsLeaves(b.groups, Names(cteNames)));
    }

    // The alias is visible in the child, or in the right arm, alone.
    method WalkCteNode(b: Body)
      requires Valid() && (b.CteNode? || b.RecursiveCte?)
      modifies this
      ensures Walked(BodyLeaves(b, Names(old(cteNames))))
      decreases b, 0
    {
      ghost var env := Names(cteNames);
      match b
      case CteNode(alias, definition, child) =>
        WalkNeededQuery(definition);
        WalkUnderAlias(alias, child);
        TwoParts(old(log), NeededQueryLeaves(definition, env), NeededQueryLeaves(child, Bind(alias, env)));
      case RecursiveCte(alias, left, right) =>
        WalkNeededQuery(left);
        WalkUnderAlias(alias, right);
        TwoParts(old(log), NeededQueryLeaves(left, env), NeededQueryLeaves(right, Bind(alias, env)));
    }

    method WalkBody(b: Body)
      requires Valid()
      modifies this
      ensures Walked(BodyLeaves(b, Names(old(cteNames))))
      decreases b, 1
    {
      match b
      case Select(from, selectList, whereClause, having, qualify, groups) =>
        WalkSelect(b);
      case SetOperation(arms) => WalkQueries(arms);
      case CteNode(_, _, _) => WalkCteNode(b);
      case RecursiveCte(_, _, _) => WalkCteNode(b);
      case ChangeNode(_) => WalkHiddenChange(b);
      case CopyNode(copy) =>
        Admit(CopyTo);
        WalkCopy(copy);
        TwoParts(old(log), [ChangeUse(CopyTo)], CopyLeaves(copy, Names(old(cteNames))));
      case BoundSubquery =>
      case UnsupportedBody => Unsafe();
    }

    // ---- Table references ----

    method WalkTableName(catalog: string, schema: string, table: string)
      requires Valid()
      modifies this
      ensures Walked([TableUse(catalog, schema, table, Bound(catalog, schema, table, Names(old(cteNames))))])
    {
      ghost var leaf := TableUse(catalog, schema, table, Bound(catalog, schema, table, Names(cteNames)));
      if catalog == "" && schema == "" {
        var isCte := IsCte(Fold(table));
        if isCte {
          Record(leaf);
          return;
        }
      }
      if IsReplacementScanName(catalog, schema, table) {
        unsafe := true;
        Record(leaf);
        return;
      }
      AddObject(catalog, schema, table);
      Record(leaf);
    }

    method WalkBaseTable(at: AtClause, catalog: string, schema: string, table: string)
      requires Valid()
      modifies this
      ensures Walked(RefLeaves(BaseTable(at, catalog, schema, table), Names(old(cteNames))))
      decreases at, 1
    {
      if at.At? {
        WalkNeeded(at.version);
      }
      WalkTableName(catalog, schema, table);
    }

    method WalkShowName(catalog: string, schema: string, name: string)
      requires Valid()
      modifies this
      ensures Walked([ShowUse(catalog, schema, name, Bound(catalog, schema, name, Names(old(cteNames))))])
    {
      ghost var leaf := ShowUse(catalog, schema, name, Bound(catalog, schema, name, Names(cteNames)));
      if name == "\"variables\"" {
        unsafe := true;
      } else if name in ["\"databases\"", "\"schemas\"", "\"tables\"", "__show_tables_expanded"] {
      } else if name == "" {
        unsafe := true;
      } else if IsReplacementScanName(catalog, schema, name) {
        unsafe := true;
      } else {
        var isCte := IsCte(Fold(name));
        if !(catalog == "" && schema == "" && isCte) {
          AddObject(catalog, schema, name);
        }
      }
      Record(leaf);
    }

    method WalkFunction(call: Option<Expr>)
      requires Valid()
      modifies this
      ensures Walked(FunctionRefLeaves(call) + OptExprLeaves(call, Names(old(cteNames))))
      decreases call, 1
    {
      var name := "";
      if call.Some? && call.value.kind.Function? {
        name := call.value.kind.name;
      }
      if name == "" {
        Unsafe();
      } else {
        AddFunctionObject(name);
      }
      WalkOptional(call);
    }

    method WalkPivots(ps: seq<PivotColumn>)
      requires Valid()
      modifies this
      ensures Walked(PivotsLeaves(ps, Names(old(cteNames))))
      decreases ps
    {
      for i := 0 to |ps|
        invariant Valid() && cteNames == old(cteNames) && action == old(action)
        invariant old(log) + PivotsLeaves(ps, Names(cteNames)) == log + PivotsLeaves(ps[i..], Names(cteNames))
      {
        ghost var env, rest := Names(cteNames), ps[i + 1..];
        assert ps[i..][1..] == rest;
        assert PivotsLeaves(ps[i..], env) == PivotLeaves(ps[i], env) + PivotsLeaves(rest, env);
        TwoParts(log, PivotLeaves(ps[i], env), PivotsLeaves(rest, env));
        WalkPivot(ps[i]);
      }
    }

    method WalkPivot(p: PivotColumn)
      requires Valid()
      modifies this
      ensures Walked(PivotLeaves(p, Names(old(cteNames))))
      decreases p
    {
      WalkExpressions(p.expressions);
      WalkOptionalQuery(p.subquery);
      WalkExpressions(p.entries);
      ghost var env := Names(cteNames);
      ThreeParts(old(log), ExprsLeaves(p.expressions, env), OptQueryLeaves(p.subquery, env), ExprsLeaves(p.entries, env));
    }

    method WalkJoin(r: TableRef)
      requires Valid() && r.Join?
      modifies this
      ensures Walked(RefLeaves(r, Names(old(cteNames))))
      decreases r, 0
    {
      WalkOptionalRef(r.left);
      WalkOptionalRef(r.right);
      WalkOptional(r.condition);
      ghost var env := Names(cteNames);
      ThreeParts(old(log), OptRefLeaves(r.left, env), OptRefLeaves(r.right, env), OptExprLeaves(r.condition, env));
    }

    method WalkTableFunction(r: TableRef)
      requires Valid() && r.TableFunction?
      modifies this
      ensures Walked(RefLeaves(r, Names(old(cteNames))))
      decreases r, 0
    {
      WalkFunction(r.call);
      if r.input.Input? {
        WalkNeededQuery(r.input.query);
      }
      ghost var env := Names(cteNames);
      TwoParts(old(log), FunctionRefLeaves(r.call) + OptExprLeaves(r.call, env), InputLeaves(r.input, env));
    }

    method WalkPivotRef(r: TableRef)
      requires Valid() && r.Pivot?
      modifies this
      ensures Walked(RefLeaves(r, Names(old(cteNames))))
      decreases r, 0
    {
      WalkOptionalRef(r.source);
      WalkExpressions(r.aggregates);
      WalkPivots(r.pivots);
      ghost var env := Names(cteNames);
      ThreeParts(old(log), OptRefLeaves(r.source, env), ExprsLeaves(r.aggregates, env), PivotsLeaves(r.pivots, env));
    }

    method WalkRef(r: TableRef)
      requires Valid()
      modifies this
      ensures Walked(RefLeaves(r, Names(old(cteNames))))
      decreases r, 1
    {
      match r
      case BaseTable(at, catalog, schema, table) => WalkBaseTable(at, catalog, schema, table);
      case Join(_, _, _) => WalkJoin(r);
      case SubqueryRef(subquery) => WalkNeededQuery(subquery);
      case TableFunction(_, _) => WalkTableFunction(r);
      case Pivot(_, _, _) => WalkPivotRef(r);
      case ExpressionList(values) => WalkExpressions(values);
      case ShowQuery(query) => WalkQuery(query);
      case ShowName(catalog, schema, name) => WalkShowName(catalog, schema, name);
      case NothingToGate =>
      case UnsupportedRef => Unsafe();
    }

    method WalkOptionalRef(r: Option<TableRef>)
      requires Valid()
      modifies this
      ensures Walked(OptRefLeaves(r, Names(old(cteNames))))
      decreases r, 0
    {
      if r.Some? {
        WalkRef(r.value);
      }
    }

    method WalkRefs(rs: seq<TableRef>)
      requires Valid()
      modifies this
      ensures Walked(RefsLeaves(rs, Names(old(cteNames))))
      decreases rs
    {
      for i := 0 to |rs|
        invariant Valid() && cteNames == old(cteNames) && action == old(action)
        invariant old(log) + RefsLeaves(rs, Names(cteNames)) == log + RefsLeaves(rs[i..], Names(cteNames))
      {
        ghost var env, rest := Names(cteNames), rs[i + 1..];
        assert rs[i..][1..] == rest;
        assert RefsLeaves(rs[i..], env) == RefLeaves(rs[i], env) + RefsLeaves(rest, env);
        TwoParts(log, RefLeaves(rs[i], env), RefsLeaves(rest, env));
        WalkRef(rs[i]);
      }
    }

    // ---- Data changes ----

    // A data change in the place of a query poisons a request of another action.
    method Admit(hidden: ChangeKind)
      requires Valid()
      modifies this
      ensures Walked([ChangeUse(hidden)])
    {
      if action != hidden {
        unsafe := true;
      }
      Record(ChangeUse(hidden));
    }

    method Classify(change: Change)
      requires Valid()
      modifies this
      ensures Walked(ClassifyLeaves(change))
    {
      if change.MergeInto? {
        var onlyUpdates := MergeOnlyUpdates(change.actions);
        if !onlyUpdates {
          Unsafe();
        }
      }
    }

    method WalkHiddenChange(b: Body)
      requires Valid() && b.ChangeNode?
      modifies this
      ensures Walked(BodyLeaves(b, Names(old(cteNames))))
      decreases b, 0
    {
      Admit(ChangeAction(b.change));
      Classify(b.change);
      WalkChange(b.change);
      ThreeParts(old(log), [ChangeUse(ChangeAction(b.change))], ClassifyLeaves(b.change),
                 ChangeLeaves(b.change, Names(old(cteNames))));
    }

    method AddTarget(catalog: string, schema: string, table: string)
      requires Valid()
      modifies this
      ensures Walked([TargetUse(catalog, schema, table)])
    {
      AddObject(catalog, schema, table);
      Record(TargetUse(catalog, schema, table));
    }

    method WalkCopy(copy: Option<CopyInfo>)
      requires Valid()
      modifies this
      ensures Walked(CopyLeaves(copy, Names(old(cteNames))))
      decreases copy
    {
      if copy.None? {
        Unsafe();
        return;
      }
      ghost var env := Names(cteNames);
      var info := copy.value;
      AddTarget(info.catalog, info.schema, info.table);
      WalkOptionalQuery(info.query);
      WalkOptional(info.path);
      WalkNeededExprs(info.options);
      FourParts(old(log), [TargetUse(info.catalog, info.schema, info.table)], OptQueryLeaves(info.query, env),
                OptExprLeaves(info.path, env), NeededExprsLeaves(info.options, env));
    }

    method WalkInsert(c: Change)
      requires Valid() && c.InsertInto?
      modifies this
      ensures Walked(ChangeLeaves(c, Names(old(cteNames))))
      decreases c, 0
    {
      ghost var env := Names(cteNames);
      AddTarget(c.catalog, c.schema, c.table);
      WalkOptionalQuery(c.source);
      WalkOptionalRef(c.tableRef);
      WalkExpressions(c.returning);
      WalkExpressions(c.conflict);
      FiveParts(old(log), [TargetUse(c.catalog, c.schema, c.table)], OptQueryLeaves(c.source, env),
                OptRefLeaves(c.tableRef, env), ExprsLeaves(c.returning, env), ExprsLeaves(c.conflict, env));
    }

    method WalkUpdate(c: Change)
      requires Valid() && c.UpdateTable?
      modifies this
      ensures Walked(ChangeLeaves(c, Names(old(cteNames))))
      decreases c, 0
    {
      ghost var env := Names(cteNames);
      WalkOptionalRef(c.target);
      WalkOptionalRef(c.fromTable);
      WalkExpressions(c.setValues);
      WalkOptional(c.condition);
      WalkExpressions(c.returning);
      FiveParts(old(log), OptRefLeaves(c.target, env), OptRefLeaves(c.fromTable, env),
                ExprsLeaves(c.setValues, env), OptExprLeaves(c.condition, env), ExprsLeaves(c.returning, env));
    }

    method WalkDelete(c: Change)
      requires Valid() && c.DeleteFrom?
      modifies this
      ensures Walked(ChangeLeaves(c, Names(old(cteNames))))
      decreases c, 0
    {
      ghost var env := Names(cteNames);
      WalkOptionalRef(c.target);
      WalkRefs(c.using);
      WalkOptional(c.condition);
      WalkExpressions(c.returning);
      FourParts(old(log), OptRefLeaves(c.target, env), RefsLeaves(c.using, env),
                OptExprLeaves(c.condition, env), ExprsLeaves(c.returning, env));
    }

    method WalkMergeAction(a: Option<MergeAction>)
      requires Valid()
      modifies this
      ensures Walked(MergeActionLeaves(a, Names(old(cteNames))))
      decreases a
    {
      if a.None? {
        Unsafe();
        return;
      }
      ghost var env := Names(cteNames);
      WalkOptional(a.value.condition);
      WalkExpressions(a.value.setValues);
      WalkExpressions(a.value.expressions);
      ThreeParts(old(log), OptExprLeaves(a.value.condition, env), ExprsLeaves(a.value.setValues, env),
                 ExprsLeaves(a.value.expressions, env));
    }

    method WalkMergeActions(actions: seq<Option<MergeAction>>)
      requires Valid()
      modifies this
      ensures Walked(MergeActionsLeaves(actions, Names(old(cteNames))))
      decreases actions
    {
      for i := 0 to |actions|
        invariant Valid() && cteNames == old(cteNames) && action == old(action)
        invariant old(log) + MergeActionsLeaves(actions, Names(cteNames))
               == log + MergeActionsLeaves(actions[i..], Names(cteNames))
      {
        ghost var env, rest := Names(cteNames), actions[i + 1..];
        assert actions[i..][1..] == rest;
        assert MergeActionsLeaves(actions[i..], env) == MergeActionLeaves(actions[i], env) + MergeActionsLeaves(rest, env);
        TwoParts(log, MergeActionLeaves(actions[i], env), MergeActionsLeaves(rest, env));
        WalkMergeAction(actions[i]);
      }
    }

    method WalkMerge(c: Change)
      requires Valid() && c.MergeInto?
      modifies this
      ensures Walked(ChangeLeaves(c, Names(old(cteNames))))
      decreases c, 0
    {
      ghost var env := Names(cteNames);
      WalkOptionalRef(c.target);
      WalkOptionalRef(c.mergeSource);
      WalkOptional(c.condition);
      WalkMergeActions(c.actions);
      WalkExpressions(c.returning);
      FiveParts(old(log), OptRefLeaves(c.target, env), OptRefLeaves(c.mergeSource, env),
                OptExprLeaves(c.condition, env), MergeActionsLeaves(c.actions, env), ExprsLeaves(c.returning, env));
    }

    method WalkChange(c: Change)
      requires Valid()
      modifies this
      ensures Walked(ChangeLeaves(c, Names(old(cteNames))))
      decreases c, 1
    {
      match c
      case InsertInto(_, _, _, _, _, _, _) => WalkInsert(c);
      case UpdateTable(_, _, _, _, _) => WalkUpdate(c);
      case DeleteFrom(_, _, _, _) => WalkDelete(c);
      case MergeInto(_, _, _, _, _) => WalkMerge(c);
    }

    // ---- Statements ----

    // The mark that classifying a statement sets is set at the start of its walk.
    method WalkChangeStatement(ctes: seq<Cte>, change: Change)
      requires Valid() && cteNames == []
      modifies this
      ensures Walked(StatementLeaves(ChangeStatement(ctes, change)))
    {
      assert Names(cteNames) == {};
      Classify(change);
      EnterCtes(ctes);
      WalkChange(change);
      ThreeParts(old(log), ClassifyLeaves(change), CtesLeaves(ctes, {}), ChangeLeaves(change, Names(cteNames)));
      cteNames := [];
    }

    // EXPLAIN ANALYZE runs its statement.
    method WalkExplain(s: Statement)
      requires Valid() && cteNames == [] && s.Explain?
      modifies this
      ensures Walked(StatementLeaves(s))
      decreases s, 0
    {
      if s.inner.None? {
        Unsafe();
        return;
      }
      if s.analyze {
        Unsafe();
      }
      WalkStatement(s.inner.value);
      TwoParts(old(log), if s.analyze then [Danger] else [], StatementLeaves(s.inner.value));
    }

    method WalkStatement(s: Statement)
      requires Valid() && cteNames == []
      modifies this
      ensures Walked(StatementLeaves(s))
      decreases s, 1
    {
      match s
      case SelectStatement(node) =>
        assert Names(cteNames) == {};
        WalkOptionalQuery(node);
      case Explain(_, _) => WalkExplain(s);
      case ChangeStatement(ctes, change) => WalkChangeStatement(ctes, change);
      case CopyStatement(copy) =>
        assert Names(cteNames) == {};
        WalkCopy(copy);
    }

    // One entry of a script once the action of the request is settled.
    method WalkEntry(stmt: Option<Statement>)
      requires Valid() && cteNames == []
      modifies this
      ensures Walked(EntryLeaves(stmt, old(action)))
    {
      if stmt.None? {
        Unsafe();
      } else {
        CheckAction(ActionOf(stmt.value));
        WalkStatement(stmt.value);
        TwoParts(old(log), if ActionOf(stmt.value) == old(action) then [] else [Danger], StatementLeaves(stmt.value));
      }
    }

    // A request carries one action: any other poisons it.
    method CheckAction(a: Action)
      requires Valid()
      modifies this
      ensures Walked(if a == old(action) then [] else [Danger])
    {
      if a != action {
        Unsafe();
      }
    }

    method SetAction(a: Action)
      requires Valid() && OnlyDangers(log)
      modifies this`action
      ensures Valid() && action == a
    {
      DangersAlone(log, action, a);
      action := a;
    }

    // The first action names the request, any other action poisons it, and
    // each statement starts with an empty alias stack.
    method WalkScript(stmts: seq<Option<Statement>>)
      requires Valid() && log == [] && cteNames == [] && action == Scan
      modifies this
      ensures Valid() && cteNames == []
      ensures action == ScriptAction(Some(stmts)) && log == ScriptLeaves(Some(stmts))
    {
      ghost var settled := ScriptAction(Some(stmts));
      var first := true;
      for i := 0 to |stmts|
        invariant Valid() && cteNames == [] && (first ==> OnlyDangers(log))
        invariant if first then action == Scan && FirstAction(stmts) == FirstAction(stmts[i..]) else action == settled
        invariant EntriesLeaves(stmts, settled) == log + EntriesLeaves(stmts[i..], settled)
      {
        ScriptStep(stmts, i, action, settled);
        TwoParts(log, EntryLeaves(stmts[i], settled), EntriesLeaves(stmts[i + 1..], settled));
        if first && stmts[i].Some? {
          SetAction(ActionOf(stmts[i].value));
          first := false;
        }
        WalkEntry(stmts[i]);
      }
    }
  }

  // MERGE with at least one action, and each of them an update.
  method MergeOnlyUpdates(actions: seq<Option<MergeAction>>) returns (only: bool)
    ensures only == OnlyUpdates(actions)
  {
    var found := false;
    for i := 0 to |actions|
      invariant found <==> i > 0
      invariant forall j :: 0 <= j < i ==> actions[j].Some? && actions[j].value.updates
    {
      if actions[i].None? || !actions[i].value.updates {
        return false;
      }
      found := true;
    }
    return found;
  }

  ghost predicate OnlyDangers(log: seq<Leaf>) {
    forall i :: 0 <= i < |log| ==> log[i] == Danger
  }

  // What nulls have left in the request does not depend on its action.
  lemma {:induction false} DangersAlone(log: seq<Leaf>, a: Action, b: Action)
    requires OnlyDangers(log)
    ensures Collect(log, a) == Collect(log, b)
  {
    if log != [] {
      DangersAlone(log[..|log| - 1], a, b);
    }
  }

  lemma ScriptStep(stmts: seq<Option<Statement>>, i: nat, action: Action, settled: Action)
    requires i < |stmts| && settled == ScriptAction(Some(stmts))
    ensures EntriesLeaves(stmts[i..], settled) == EntryLeaves(stmts[i], settled) + EntriesLeaves(stmts[i + 1..], settled)
    ensures stmts[i].None? ==> EntryLeaves(stmts[i], action) == EntryLeaves(stmts[i], settled)
    ensures stmts[i].None? ==> FirstAction(stmts[i..]) == FirstAction(stmts[i + 1..])
    ensures stmts[i].Some? && FirstAction(stmts) == FirstAction(stmts[i..]) ==> ActionOf(stmts[i].value) == settled
  {
    assert stmts[i..][0] == stmts[i] && stmts[i..][1..] == stmts[i + 1..];
  }

  lemma TwoParts<T>(start: seq<T>, a: seq<T>, b: seq<T>)
    ensures start + a + b == start + (a + b)
  {
  }

  lemma ThreeParts<T>(start: seq<T>, a: seq<T>, b: seq<T>, c: seq<T>)
    ensures start + a + b + c == start + (a + b + c)
  {
  }

  lemma FourParts<T>(start: seq<T>, a: seq<T>, b: seq<T>, c: seq<T>, d: seq<T>)
    ensures start + a + b + c + d == start + (a + b + c + d)
  {
    ThreeParts(start, a, b, c);
    TwoParts(start, a + b + c, d);
  }

  lemma FiveParts<T>(start: seq<T>, a: seq<T>, b: seq<T>, c: seq<T>, d: seq<T>, e: seq<T>)
    ensures start + a + b + c + d + e == start + (a + b + c + d + e)
  {
    ThreeParts(start, a, b, c);
    ThreeParts(start, a + b + c, d, e);
  }

  lemma SixParts<T>(start: seq<T>, a: seq<T>, b: seq<T>, c: seq<T>, d: seq<T>, e: seq<T>, f: seq<T>)
    ensures start + a + b + c + d + e + f == start + (a + b + c + d + e + f)
  {
    FiveParts(start, a, b, c, d, e);
    assert start + (a + b + c + d + e) + f == start + ((a + b + c + d + e) + f);
  }

  // One request for the whole script.
  method InspectSql(script: Script) returns (request: Request)
    ensures request == InspectedRequest(script)
  {
    if script.None? {
      assert ScriptLeaves(script) == [Danger];
      return Request(Scan, [], [], true);
    }
    var walk := new Inspector();
    walk.WalkScript(script.value);
    request := Request(walk.action, walk.objects, walk.columns, walk.unsafe);
  }
}
