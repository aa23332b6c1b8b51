/** Renaming the CTE aliases of a query consistently does not change the
    request the inspector builds for it. */
module SqlRename {
  import opened Wrappers
  import opened Text
  import opened SqlAst
  import opened SqlScope
  import opened SqlGate
  import Policy

  // From folded alias to new alias; aliases outside the map keep their name.
  type Renaming = map<string, string>

  predicate ProperRenaming(rho: Renaming) {
    "" !in rho && forall a :: a in rho ==> rho[a] != ""
  }

  function NewName(name: string, rho: Renaming): string {
    if Fold(name) in rho then rho[Fold(name)] else name
  }

  ghost function Image(env: Env, rho: Renaming): Env {
    set n | n in env :: Fold(NewName(n, rho))
  }

  ghost predicate Folded(env: Env) {
    forall n :: n in env ==> Fold(n) == n
  }

  // ---- Renaming trees: binders, and the names bound by them ----

  function RenameExpr(e: Expr, env: Env, rho: Renaming): Expr {
    Expr(RenameKind(e.kind, env, rho), RenameExprs(e.children, env, rho))
  }

  function RenameKind(k: ExprKind, env: Env, rho: Renaming): ExprKind {
    if k.Subquery? then Subquery(RenameOptQuery(k.query, env, rho)) else k
  }

  function RenameExprs(es: seq<Expr>, env: Env, rho: Renaming): seq<Expr> {
    if es == [] then [] else [RenameExpr(es[0], env, rho)] + RenameExprs(es[1..], env, rho)
  }

  function RenameOptExpr(e: Option<Expr>, env: Env, rho: Renaming): Option<Expr> {
    if e.None? then None else Some(RenameExpr(e.value, env, rho))
  }

  function RenameNeededExprs(es: seq<Option<Expr>>, env: Env, rho: Renaming): seq<Option<Expr>> {
    if es == [] then [] else [RenameOptExpr(es[0], env, rho)] + RenameNeededExprs(es[1..], env, rho)
  }

  function RenameOptQuery(q: Option<Query>, env: Env, rho: Renaming): Option<Query> {
    if q.None? then None else Some(RenameQuery(q.value, env, rho))
  }

  function RenameCtes(ctes: seq<Cte>, env: Env, rho: Renaming): seq<Cte> {
    if ctes == [] then []
    else [Cte(NewName(ctes[0].alias, rho), RenameOptQuery(ctes[0].query, env, rho))]
         + RenameCtes(ctes[1..], env + {Fold(ctes[0].alias)}, rho)
  }

  function RenameModifier(m: Modifier, env: Env, rho: Renaming): Modifier {
    match m
    case OrderBy(orders) => OrderBy(RenameNeededExprs(orders, env, rho))
    case Limit(limit, offset) => Limit(RenameOptExpr(limit, env, rho), RenameOptExpr(offset, env, rho))
    case DistinctOn(targets) => DistinctOn(RenameExprs(targets, env, rho))
    case NullOrUnsupportedModifier => m
  }

  function RenameModifiers(ms: seq<Modifier>, env: Env, rho: Renaming): seq<Modifier> {
    if ms == [] then [] else [RenameModifier(ms[0], env, rho)] + RenameModifiers(ms[1..], env, rho)
  }

  function RenameQuery(q: Query, env: Env, rho: Renaming): Query {
    var inner := After(q.ctes, env);
    Query(RenameCtes(q.ctes, env, rho), RenameModifiers(q.modifiers, inner, rho), RenameBody(q.body, inner, rho))
  }

  function RenameQueries(qs: seq<Query>, env: Env, rho: Renaming): seq<Query> {
    if qs == [] then [] else [RenameQuery(qs[0], env, rho)] + RenameQueries(qs[1..], env, rho)
  }

  function RenameBody(b: Body, env: Env, rho: Renaming): Body {
    match b
    case Select(from, selectList, whereClause, having, qualify, groups) =>
      Select(RenameOptRef(from, env, rho), RenameExprs(selectList, env, rho), RenameOptExpr(whereClause, env, rho),
             RenameOptExpr(having, env, rho), RenameOptExpr(qualify, env, rho), RenameExprs(groups, env, rho))
    case SetOperation(arms) => SetOperation(RenameQueries(arms, env, rho))
    case CteNode(alias, definition, child) =>
      CteNode(NewName(alias, rho), RenameOptQuery(definition, env, rho), RenameOptQuery(child, Bind(alias, env), rho))
    case RecursiveCte(alias, left, right) =>
      RecursiveCte(NewName(alias, rho), RenameOptQuery(left, env, rho), RenameOptQuery(right, Bind(alias, env), rho))
    case ChangeNode(change) => ChangeNode(RenameChange(change, env, rho))
    case CopyNode(copy) => CopyNode(RenameCopy(copy, env, rho))
    case BoundSubquery => b
    case UnsupportedBody => b
  }

  function RenameMergeAction(a: Option<MergeAction>, env: Env, rho: Renaming): Option<MergeAction> {
    if a.None? then None
    else Some(MergeAction(a.value.updates, RenameOptExpr(a.value.condition, env, rho),
                          RenameExprs(a.value.setValues, env, rho), RenameExprs(a.value.expressions, env, rho)))
  }

  function RenameMergeActions(actions: seq<Option<MergeAction>>, env: Env, rho: Renaming): seq<Option<MergeAction>> {
    if actions == [] then [] else [RenameMergeAction(actions[0], env, rho)] + RenameMergeActions(actions[1..], env, rho)
  }

  function RenameChange(c: Change, env: Env, rho: Renaming): Change {
    match c
    case InsertInto(catalog, schema, table, source, tableRef, returning, conflict) =>
      InsertInto(catalog, schema, table, RenameOptQuery(source, env, rho), RenameOptRef(tableRef, env, rho),
                 RenameExprs(returning, env, rho), RenameExprs(conflict, env, rho))
    case UpdateTable(target, fromTable, setValues, condition, returning) =>
      UpdateTable(RenameOptRef(target, env, rho), RenameOptRef(fromTable, env, rho), RenameExprs(setValues, env, rho),
                  RenameOptExpr(condition, env, rho), RenameExprs(returning, env, rho))
    case DeleteFrom(target, using, condition, returning) =>
      DeleteFrom(RenameOptRef(target, env, rho), RenameRefs(using, env, rho), RenameOptExpr(condition, env, rho),
                 RenameExprs(returning, env, rho))
    case MergeInto(target, source, condition, actions, returning) =>
      MergeInto(RenameOptRef(target, env, rho), RenameOptRef(source, env, rho), RenameOptExpr(condition, env, rho),
                RenameMergeActions(actions, env, rho), RenameExprs(returning, env, rho))
  }

  function RenameCopy(copy: Option<CopyInfo>, env: Env, rho: Renaming): Option<CopyInfo> {
    if copy.None? then None
    else
      var info := copy.value;
      Some(CopyInfo(info.isFrom, info.catalog, info.schema, info.table, RenameOptQuery(info.query, env, rho),
                    RenameOptExpr(info.path, env, rho), RenameNeededExprs(info.options, env, rho)))
  }

  function RenamePivots(ps: seq<PivotColumn>, env: Env, rho: Renaming): seq<PivotColumn> {
    if ps == [] then []
    else [PivotColumn(RenameExprs(ps[0].expressions, env, rho), RenameOptQuery(ps[0].subquery, env, rho),
                      RenameExprs(ps[0].entries, env, rho))] + RenamePivots(ps[1..], env, rho)
  }

  function RenameUse(catalog: string, schema: string, name: string, env: Env, rho: Renaming): string {
    if Bound(catalog, schema, name, env) then NewName(name, rho) else name
  }

  function RenameRef(r: TableRef, env: Env, rho: Renaming): TableRef {
    match r
    case BaseTable(at, catalog, schema, table) =>
      BaseTable(if at.NoAt? then at else At(RenameOptExpr(at.version, env, rho)),
                catalog, schema, RenameUse(catalog, schema, table, env, rho))
    case Join(left, right, condition) =>
      Join(RenameOptRef(left, env, rho), RenameOptRef(right, env, rho), RenameOptExpr(condition, env, rho))
    case SubqueryRef(subquery) => SubqueryRef(RenameOptQuery(subquery, env, rho))
    case TableFunction(call, input) =>
      TableFunction(RenameOptExpr(call, env, rho),
                    if input.NoInput? then input else Input(RenameOptQuery(input.query, env, rho)))
    case Pivot(source, aggregates, pivots) =>
      Pivot(RenameOptRef(source, env, rho), RenameExprs(aggregates, env, rho), RenamePivots(pivots, env, rho))
    case ExpressionList(values) => ExpressionList(RenameExprs(values, env, rho))
    case ShowQuery(query) => ShowQuery(RenameQuery(query, env, rho))
    case ShowName(catalog, schema, name) => ShowName(catalog, schema, RenameUse(catalog, schema, name, env, rho))
    case NothingToGate => r
    case UnsupportedRef => r
  }

  function RenameOptRef(r: Option<TableRef>, env: Env, rho: Renaming): Option<TableRef> {
    if r.None? then None else Some(RenameRef(r.value, env, rho))
  }

  function RenameRefs(rs: seq<TableRef>, env: Env, rho: Renaming): seq<TableRef> {
    if rs == [] then [] else [RenameRef(rs[0], env, rho)] + RenameRefs(rs[1..], env, rho)
  }

  // ---- Renaming leaves: only uses that resolve to an alias change ----

  function RenameLeaf(l: Leaf, rho: Renaming): Leaf {
    match l
    case TableUse(c, s, t, bound) => if bound then TableUse(c, s, NewName(t, rho), bound) else l
    case ShowUse(c, s, t, bound) => if bound then ShowUse(c, s, NewName(t, rho), bound) else l
    case _ => l
  }

  function RenameLeaves(ls: seq<Leaf>, rho: Renaming): seq<Leaf> {
    seq(|ls|, i requires 0 <= i < |ls| => RenameLeaf(ls[i], rho))
  }

  predicate FreeName(l: Leaf) {
    (l.TableUse? || l.ShowUse?) && !l.bound && l.catalog == "" && l.schema == ""
  }

  // No new alias is a table name the query uses freely.
  ghost predicate Fresh(ls: seq<Leaf>, rho: Renaming) {
    forall l, a :: l in ls && FreeName(l) && a in rho ==> Fold(rho[a]) != Fold(l.table)
  }

  lemma Parts(a: seq<Leaf>, b: seq<Leaf>, rho: Renaming)
    ensures RenameLeaves(a + b, rho) == RenameLeaves(a, rho) + RenameLeaves(b, rho)
    ensures Fresh(a + b, rho) ==> Fresh(a, rho) && Fresh(b, rho)
  {
    assert forall l :: l in a || l in b ==> l in a + b;
  }

  lemma FourRenamed(a: seq<Leaf>, b: seq<Leaf>, c: seq<Leaf>, d: seq<Leaf>, rho: Renaming)
    ensures RenameLeaves(a + b + c + d, rho)
         == RenameLeaves(a, rho) + RenameLeaves(b, rho) + RenameLeaves(c, rho) + RenameLeaves(d, rho)
    ensures Fresh(a + b + c + d, rho) ==> Fresh(a, rho) && Fresh(b, rho) && Fresh(c, rho) && Fresh(d, rho)
  {
    Parts(a + b + c, d, rho);
    Parts(a + b, c, rho);
    Parts(a, b, rho);
  }

  lemma FiveRenamed(a: seq<Leaf>, b: seq<Leaf>, c: seq<Leaf>, d: seq<Leaf>, e: seq<Leaf>, rho: Renaming)
    ensures RenameLeaves(a + b + c + d + e, rho)
         == RenameLeaves(a, rho) + RenameLeaves(b, rho) + RenameLeaves(c, rho) + RenameLeaves(d, rho) + RenameLeaves(e, rho)
    ensures Fresh(a + b + c + d + e, rho) ==>
              Fresh(a, rho) && Fresh(b, rho) && Fresh(c, rho) && Fresh(d, rho) && Fresh(e, rho)
  {
    Parts(a + b + c + d, e, rho);
    FourRenamed(a, b, c, d, rho);
  }

  lemma SixRenamed(a: seq<Leaf>, b: seq<Leaf>, c: seq<Leaf>, d: seq<Leaf>, e: seq<Leaf>, f: seq<Leaf>, rho: Renaming)
    ensures RenameLeaves(a + b + c + d + e + f, rho)
         == RenameLeaves(a, rho) + RenameLeaves(b, rho) + RenameLeaves(c, rho) + RenameLeaves(d, rho) + RenameLeaves(e, rho)
            + RenameLeaves(f, rho)
    ensures Fresh(a + b + c + d + e + f, rho) ==>
              && Fresh(a, rho) && Fresh(b, rho) && Fresh(c, rho) && Fresh(d, rho) && Fresh(e, rho) && Fresh(f, rho)
  {
    Parts(a + b + c + d + e, f, rho);
    FiveRenamed(a, b, c, d, e, rho);
  }

  // ---- The environment follows ----

  lemma ImageAdd(alias: string, env: Env, rho: Renaming)
    ensures Image(env + {Fold(alias)}, rho) == Image(env, rho) + {Fold(NewName(alias, rho))}
  {
    FoldIdempotent(alias);
    assert Fold(NewName(Fold(alias), rho)) == Fold(NewName(alias, rho));
    forall x ensures x in Image(env + {Fold(alias)}, rho) <==> x in Image(env, rho) + {Fold(NewName(alias, rho))} {
      if x in Image(env, rho) {
        var n :| n in env && x == Fold(NewName(n, rho));
        assert n in env + {Fold(alias)};
      }
      assert Fold(alias) in env + {Fold(alias)};
    }
  }

  lemma ImageBind(alias: string, env: Env, rho: Renaming)
    requires ProperRenaming(rho) && Folded(env)
    ensures Bind(NewName(alias, rho), Image(env, rho)) == Image(Bind(alias, env), rho)
    ensures Folded(Bind(alias, env))
  {
    FoldIdempotent(alias);
    FoldEmpty(alias);
    ImageAdd(alias, env, rho);
  }

  lemma {:induction false} ImageAfter(ctes: seq<Cte>, env: Env, rho: Renaming)
    requires Folded(env)
    ensures After(RenameCtes(ctes, env, rho), Image(env, rho)) == Image(After(ctes, env), rho)
    ensures Folded(After(ctes, env))
  {
    if ctes != [] {
      FoldIdempotent(ctes[0].alias);
      ImageAdd(ctes[0].alias, env, rho);
      ImageAfter(ctes[1..], env + {Fold(ctes[0].alias)}, rho);
      assert RenameCtes(ctes, env, rho)[1..] == RenameCtes(ctes[1..], env + {Fold(ctes[0].alias)}, rho);
    }
  }

  // Resolution commutes with renaming: this is where freshness is needed.
  lemma UseCommutes(catalog: string, schema: string, name: string, env: Env, rho: Renaming)
    requires Folded(env)
    requires (!Bound(catalog, schema, name, env) && catalog == "" && schema == "")
         ==> forall a :: a in rho ==> Fold(rho[a]) != Fold(name)
    ensures Bound(catalog, schema, RenameUse(catalog, schema, name, env, rho), Image(env, rho))
       <==> Bound(catalog, schema, name, env)
  {
    FoldIdempotent(name);
    if Fold(name) in env {
      assert Fold(NewName(Fold(name), rho)) in Image(env, rho);
      assert Fold(NewName(Fold(name), rho)) == Fold(NewName(name, rho));
    } else if Fold(name) in Image(env, rho) {
      var n :| n in env && Fold(name) == Fold(NewName(n, rho));
    }
  }

  // ---- Walking a renamed tree meets the renamed leaves ----

  ghost predicate Suits(ls: seq<Leaf>, env: Env, rho: Renaming) {
    ProperRenaming(rho) && Folded(env) && Fresh(ls, rho)
  }

  lemma {:induction false} KindCommutes(k: ExprKind, env: Env, rho: Renaming)
    requires Suits(KindLeaves(k, env), env, rho)
    ensures KindLeaves(RenameKind(k, env, rho), Image(env, rho)) == RenameLeaves(KindLeaves(k, env), rho)
    decreases k
  {
    if k.Subquery? {
      NeededQueryCommutes(k.query, env, rho);
    }
  }

  lemma {:induction false} ExprCommutes(e: Expr, env: Env, rho: Renaming)
    requires Suits(ExprLeaves(e, env), env, rho)
    ensures ExprLeaves(RenameExpr(e, env, rho), Image(env, rho)) == RenameLeaves(ExprLeaves(e, env), rho)
    decreases e
  {
    Parts(KindLeaves(e.kind, env), ExprsLeaves(e.children, env), rho);
    KindCommutes(e.kind, env, rho);
    ExprsCommute(e.children, env, rho);
  }

  lemma {:induction false} ExprsCommute(xs: seq<Expr>, env: Env, rho: Renaming)
    requires Suits(ExprsLeaves(xs, env), env, rho)
    ensures ExprsLeaves(RenameExprs(xs, env, rho), Image(env, rho)) == RenameLeaves(ExprsLeaves(xs, env), rho)
    decreases xs
  {
    if xs != [] {
      Parts(ExprLeaves(xs[0], env), ExprsLeaves(xs[1..], env), rho);
      ExprCommutes(xs[0], env, rho);
      ExprsCommute(xs[1..], env, rho);
      assert RenameExprs(xs, env, rho)[1..] == RenameExprs(xs[1..], env, rho);
    }
  }

  lemma {:induction false} OptExprCommutes(x: Option<Expr>, env: Env, rho: Renaming)
    requires Suits(OptExprLeaves(x, env), env, rho)
    ensures OptExprLeaves(RenameOptExpr(x, env, rho), Image(env, rho)) == RenameLeaves(OptExprLeaves(x, env), rho)
    decreases x, 0
  {
    if x.Some? {
      ExprCommutes(x.value, env, rho);
    }
  }

  lemma {:induction false} NeededExprCommutes(x: Option<Expr>, env: Env, rho: Renaming)
    requires Suits(NeededExprLeaves(x, env), env, rho)
    ensures NeededExprLeaves(RenameOptExpr(x, env, rho), Image(env, rho)) == RenameLeaves(NeededExprLeaves(x, env), rho)
    decreases x, 0
  {
    if x.Some? {
      ExprCommutes(x.value, env, rho);
    }
  }

  lemma {:induction false} NeededExprsCommute(xs: seq<Option<Expr>>, env: Env, rho: Renaming)
    requires Suits(NeededExprsLeaves(xs, env), env, rho)
    ensures NeededExprsLeaves(RenameNeededExprs(xs, env, rho), Image(env, rho))
         == RenameLeaves(NeededExprsLeaves(xs, env), rho)
    decreases xs
  {
    if xs != [] {
      Parts(NeededExprLeaves(xs[0], env), NeededExprsLeaves(xs[1..], env), rho);
      NeededExprCommutes(xs[0], env, rho);
      NeededExprsCommute(xs[1..], env, rho);
      assert RenameNeededExprs(xs, env, rho)[1..] == RenameNeededExprs(xs[1..], env, rho);
    }
  }

  lemma {:induction false} OptQueryCommutes(x: Option<Query>, env: Env, rho: Renaming)
    requires Suits(OptQueryLeaves(x, env), env, rho)
    ensures OptQueryLeaves(RenameOptQuery(x, env, rho), Image(env, rho)) == RenameLeaves(OptQueryLeaves(x, env), rho)
    decreases x, 0
  {
    if x.Some? {
      QueryCommutes(x.value, env, rho);
    }
  }

  lemma {:induction false} NeededQueryCommutes(x: Option<Query>, env: Env, rho: Renaming)
    requires Suits(NeededQueryLeaves(x, env), env, rho)
    ensures NeededQueryLeaves(RenameOptQuery(x, env, rho), Image(env, rho)) == RenameLeaves(NeededQueryLeaves(x, env), rho)
    decreases x, 0
  {
    if x.Some? {
      QueryCommutes(x.value, env, rho);
    }
  }

  lemma {:induction false} CtesCommute(ctes: seq<Cte>, env: Env, rho: Renaming)
    requires Suits(CtesLeaves(ctes, env), env, rho)
    ensures CtesLeaves(RenameCtes(ctes, env, rho), Image(env, rho)) == RenameLeaves(CtesLeaves(ctes, env), rho)
    decreases ctes
  {
    if ctes != [] {
      var inner := env + {Fold(ctes[0].alias)};
      FoldIdempotent(ctes[0].alias);
      Parts(NeededQueryLeaves(ctes[0].query, env), CtesLeaves(ctes[1..], inner), rho);
      NeededQueryCommutes(ctes[0].query, env, rho);
      ImageAdd(ctes[0].alias, env, rho);
      CtesCommute(ctes[1..], inner, rho);
      assert RenameCtes(ctes, env, rho)[1..] == RenameCtes(ctes[1..], inner, rho);
    }
  }

  lemma {:induction false} ModifierCommutes(m: Modifier, env: Env, rho: Renaming)
    requires Suits(ModifierLeaves(m, env), env, rho)
    ensures ModifierLeaves(RenameModifier(m, env, rho), Image(env, rho)) == RenameLeaves(ModifierLeaves(m, env), rho)
    decreases m
  {
    match m
    case OrderBy(orders) => NeededExprsCommute(orders, env, rho);
    case Limit(limit, offset) =>
      Parts(OptExprLeaves(limit, env), OptExprLeaves(offset, env), rho);
      OptExprCommutes(limit, env, rho);
      OptExprCommutes(offset, env, rho);
    case DistinctOn(targets) => ExprsCommute(targets, env, rho);
    case NullOrUnsupportedModifier =>
  }

  lemma {:induction false} ModifiersCommute(xs: seq<Modifier>, env: Env, rho: Renaming)
    requires Suits(ModifiersLeaves(xs, env), env, rho)
    ensures ModifiersLeaves(RenameModifiers(xs, env, rho), Image(env, rho)) == RenameLeaves(ModifiersLeaves(xs, env), rho)
    decreases xs
  {
    if xs != [] {
      Parts(ModifierLeaves(xs[0], env), ModifiersLeaves(xs[1..], env), rho);
      ModifierCommutes(xs[0], env, rho);
      ModifiersCommute(xs[1..], env, rho);
      assert RenameModifiers(xs, env, rho)[1..] == RenameModifiers(xs[1..], env, rho);
    }
  }

  lemma {:induction false} QueryCommutes(q: Query, env: Env, rho: Renaming)
    requires Suits(QueryLeaves(q, env), env, rho)
    ensures QueryLeaves(RenameQuery(q, env, rho), Image(env, rho)) == RenameLeaves(QueryLeaves(q, env), rho)
    decreases q
  {
    var inner := After(q.ctes, env);
    Parts(CtesLeaves(q.ctes, env) + ModifiersLeaves(q.modifiers, inner), BodyLeaves(q.body, inner), rho);
    Parts(CtesLeaves(q.ctes, env), ModifiersLeaves(q.modifiers, inner), rho);
    ImageAfter(q.ctes, env, rho);
    CtesCommute(q.ctes, env, rho);
    ModifiersCommute(q.modifiers, inner, rho);
    BodyCommutes(q.body, inner, rho);
  }

  lemma {:induction false} QueriesCommute(xs: seq<Query>, env: Env, rho: Renaming)
    requires Suits(QueriesLeaves(xs, env), env, rho)
    ensures QueriesLeaves(RenameQueries(xs, env, rho), Image(env, rho)) == RenameLeaves(QueriesLeaves(xs, env), rho)
    decreases xs
  {
    if xs != [] {
      Parts(QueryLeaves(xs[0], env), QueriesLeaves(xs[1..], env), rho);
      QueryCommutes(xs[0], env, rho);
      QueriesCommute(xs[1..], env, rho);
      assert RenameQueries(xs, env, rho)[1..] == RenameQueries(xs[1..], env, rho);
    }
  }

  lemma {:induction false} UnderAliasCommutes(alias: string, q: Option<Query>, env: Env, rho: Renaming)
    requires Suits(NeededQueryLeaves(q, Bind(alias, env)), env, rho)
    ensures NeededQueryLeaves(RenameOptQuery(q, Bind(alias, env), rho), Bind(NewName(alias, rho), Image(env, rho)))
         == RenameLeaves(NeededQueryLeaves(q, Bind(alias, env)), rho)
    decreases q, 1
  {
    ImageBind(alias, env, rho);
    NeededQueryCommutes(q, Bind(alias, env), rho);
  }

  lemma {:induction false} SelectCommutes(b: Body, env: Env, rho: Renaming)
    requires b.Select? && Suits(BodyLeaves(b, env), env, rho)
    ensures BodyLeaves(RenameBody(b, env, rho), Image(env, rho)) == RenameLeaves(BodyLeaves(b, env), rho)
    decreases b, 0
  {
    var l1, l2, l3 := OptRefLeaves(b.from, env), ExprsLeaves(b.selectList, env), OptExprLeaves(b.whereClause, env);
    var l4, l5, l6 := OptExprLeaves(b.having, env), OptExprLeaves(b.qualify, env), ExprsLeaves(b.groups, env);
    SixRenamed(l1, l2, l3, l4, l5, l6, rho);
    OptRefCommutes(b.from, env, rho);
    ExprsCommute(b.selectList, env, rho);
    OptExprCommutes(b.whereClause, env, rho);
    OptExprCommutes(b.having, env, rho);
    OptExprCommutes(b.qualify, env, rho);
    ExprsCommute(b.groups, env, rho);
  }

  lemma {:induction false} BodyCommutes(b: Body, env: Env, rho: Renaming)
    requires Suits(BodyLeaves(b, env), env, rho)
    ensures BodyLeaves(RenameBody(b, env, rho), Image(env, rho)) == RenameLeaves(BodyLeaves(b, env), rho)
    decreases b, 1
  {
    match b
    case Select(_, _, _, _, _, _) => SelectCommutes(b, env, rho);
    case SetOperation(arms) => QueriesCommute(arms, env, rho);
    case CteNode(alias, definition, child) =>
      Parts(NeededQueryLeaves(definition, env), NeededQueryLeaves(child, Bind(alias, env)), rho);
      NeededQueryCommutes(definition, env, rho);
      UnderAliasCommutes(alias, child, env, rho);
    case RecursiveCte(alias, left, right) =>
      Parts(NeededQueryLeaves(left, env), NeededQueryLeaves(right, Bind(alias, env)), rho);
      NeededQueryCommutes(left, env, rho);
      UnderAliasCommutes(alias, right, env, rho);
    case ChangeNode(_) => HiddenChangeCommutes(b, env, rho);
    case CopyNode(copy) =>
      Parts([ChangeUse(Policy.CopyTo)], CopyLeaves(copy, env), rho);
      CopyCommutes(copy, env, rho);
      assert RenameLeaves([ChangeUse(Policy.CopyTo)], rho) == [ChangeUse(Policy.CopyTo)];
    case BoundSubquery =>
    case UnsupportedBody =>
  }

  // ---- Data changes ----

  lemma SameClass(c: Change, env: Env, rho: Renaming)
    ensures ChangeAction(RenameChange(c, env, rho)) == ChangeAction(c)
    ensures ClassifyLeaves(RenameChange(c, env, rho)) == ClassifyLeaves(c) == RenameLeaves(ClassifyLeaves(c), rho)
  {
    assert RenameLeaves([Danger], rho) == [Danger];
    if c.MergeInto? {
      SameMergeActions(c.actions, env, rho);
    }
  }

  lemma {:induction false} SameMergeActions(actions: seq<Option<MergeAction>>, env: Env, rho: Renaming)
    ensures var renamed := RenameMergeActions(actions, env, rho);
            && |renamed| == |actions|
            && forall i :: 0 <= i < |actions| ==>
                 && renamed[i].Some? == actions[i].Some?
                 && (actions[i].Some? ==> renamed[i].value.updates == actions[i].value.updates)
    ensures OnlyUpdates(RenameMergeActions(actions, env, rho)) == OnlyUpdates(actions)
  {
    if actions != [] {
      SameMergeActions(actions[1..], env, rho);
    }
  }

  lemma {:induction false} HiddenChangeCommutes(b: Body, env: Env, rho: Renaming)
    requires b.ChangeNode? && Suits(BodyLeaves(b, env), env, rho)
    ensures BodyLeaves(RenameBody(b, env, rho), Image(env, rho)) == RenameLeaves(BodyLeaves(b, env), rho)
    decreases b, 0
  {
    var use := [ChangeUse(ChangeAction(b.change))];
    Parts(use + ClassifyLeaves(b.change), ChangeLeaves(b.change, env), rho);
    Parts(use, ClassifyLeaves(b.change), rho);
    SameClass(b.change, env, rho);
    ChangeCommutes(b.change, env, rho);
    assert RenameLeaves(use, rho) == use;
  }

  lemma {:induction false} InsertCommutes(c: Change, env: Env, rho: Renaming)
    requires c.InsertInto? && Suits(ChangeLeaves(c, env), env, rho)
    ensures ChangeLeaves(RenameChange(c, env, rho), Image(env, rho)) == RenameLeaves(ChangeLeaves(c, env), rho)
    decreases c, 0
  {
    var target := [TargetUse(c.catalog, c.schema, c.table)];
    FiveRenamed(target, OptQueryLeaves(c.source, env), OptRefLeaves(c.tableRef, env),
                ExprsLeaves(c.returning, env), ExprsLeaves(c.conflict, env), rho);
    OptQueryCommutes(c.source, env, rho);
    OptRefCommutes(c.tableRef, env, rho);
    ExprsCommute(c.returning, env, rho);
    ExprsCommute(c.conflict, env, rho);
    assert RenameLeaves(target, rho) == target;
  }

  lemma {:induction false} UpdateCommutes(c: Change, env: Env, rho: Renaming)
    requires c.UpdateTable? && Suits(ChangeLeaves(c, env), env, rho)
    ensures ChangeLeaves(RenameChange(c, env, rho), Image(env, rho)) == RenameLeaves(ChangeLeaves(c, env), rho)
    decreases c, 0
  {
    FiveRenamed(OptRefLeaves(c.target, env), OptRefLeaves(c.fromTable, env), ExprsLeaves(c.setValues, env),
                OptExprLeaves(c.condition, env), ExprsLeaves(c.returning, env), rho);
    OptRefCommutes(c.target, env, rho);
    OptRefCommutes(c.fromTable, env, rho);
    ExprsCommute(c.setValues, env, rho);
    OptExprCommutes(c.condition, env, rho);
    ExprsCommute(c.returning, env, rho);
  }

  lemma {:induction false} DeleteCommutes(c: Change, env: Env, rho: Renaming)
    requires c.DeleteFrom? && Suits(ChangeLeaves(c, env), env, rho)
    ensures ChangeLeaves(RenameChange(c, env, rho), Image(env, rho)) == RenameLeaves(ChangeLeaves(c, env), rho)
    decreases c, 0
  {
    FourRenamed(OptRefLeaves(c.target, env), RefsLeaves(c.using, env), OptExprLeaves(c.condition, env),
                ExprsLeaves(c.returning, env), rho);
    OptRefCommutes(c.target, env, rho);
    RefsCommute(c.using, env, rho);
    OptExprCommutes(c.condition, env, rho);
    ExprsCommute(c.returning, env, rho);
  }

  lemma {:induction false} MergeActionCommutes(a: Option<MergeAction>, env: Env, rho: Renaming)
    requires Suits(MergeActionLeaves(a, env), env, rho)
    ensures MergeActionLeaves(RenameMergeAction(a, env, rho), Image(env, rho))
         == RenameLeaves(MergeActionLeaves(a, env), rho)
    decreases a
  {
    if a.Some? {
      var condition, setValues := OptExprLeaves(a.value.condition, env), ExprsLeaves(a.value.setValues, env);
      Parts(condition + setValues, ExprsLeaves(a.value.expressions, env), rho);
      Parts(condition, setValues, rho);
      OptExprCommutes(a.value.condition, env, rho);
      ExprsCommute(a.value.setValues, env, rho);
      ExprsCommute(a.value.expressions, env, rho);
    }
  }

  lemma {:induction false} MergeActionsCommute(xs: seq<Option<MergeAction>>, env: Env, rho: Renaming)
    requires Suits(MergeActionsLeaves(xs, env), env, rho)
    ensures MergeActionsLeaves(RenameMergeActions(xs, env, rho), Image(env, rho))
         == RenameLeaves(MergeActionsLeaves(xs, env), rho)
    decreases xs
  {
    if xs != [] {
      Parts(MergeActionLeaves(xs[0], env), MergeActionsLeaves(xs[1..], env), rho);
      MergeActionCommutes(xs[0], env, rho);
      MergeActionsCommute(xs[1..], env, rho);
      assert RenameMergeActions(xs, env, rho)[1..] == RenameMergeActions(xs[1..], env, rho);
    }
  }

  lemma {:induction false} MergeCommutes(c: Change, env: Env, rho: Renaming)
    requires c.MergeInto? && Suits(ChangeLeaves(c, env), env, rho)
    ensures ChangeLeaves(RenameChange(c, env, rho), Image(env, rho)) == RenameLeaves(ChangeLeaves(c, env), rho)
    decreases c, 0
  {
    FiveRenamed(OptRefLeaves(c.target, env), OptRefLeaves(c.mergeSource, env), OptExprLeaves(c.condition, env),
                MergeActionsLeaves(c.actions, env), ExprsLeaves(c.returning, env), rho);
    OptRefCommutes(c.target, env, rho);
    OptRefCommutes(c.mergeSource, env, rho);
    OptExprCommutes(c.condition, env, rho);
    MergeActionsCommute(c.actions, env, rho);
    ExprsCommute(c.returning, env, rho);
  }

  lemma {:induction false} ChangeCommutes(c: Change, env: Env, rho: Renaming)
    requires Suits(ChangeLeaves(c, env), env, rho)
    ensures ChangeLeaves(RenameChange(c, env, rho), Image(env, rho)) == RenameLeaves(ChangeLeaves(c, env), rho)
    decreases c, 1
  {
    match c
    case InsertInto(_, _, _, _, _, _, _) => InsertCommutes(c, env, rho);
    case UpdateTable(_, _, _, _, _) => UpdateCommutes(c, env, rho);
    case DeleteFrom(_, _, _, _) => DeleteCommutes(c, env, rho);
    case MergeInto(_, _, _, _, _) => MergeCommutes(c, env, rho);
  }

  lemma {:induction false} CopyCommutes(copy: Option<CopyInfo>, env: Env, rho: Renaming)
    requires Suits(CopyLeaves(copy, env), env, rho)
    ensures CopyLeaves(RenameCopy(copy, env, rho), Image(env, rho)) == RenameLeaves(CopyLeaves(copy, env), rho)
    decreases copy
  {
    if copy.Some? {
      var info := copy.value;
      var target := [TargetUse(info.catalog, info.schema, info.table)];
      FourRenamed(target, OptQueryLeaves(info.query, env), OptExprLeaves(info.path, env),
                  NeededExprsLeaves(info.options, env), rho);
      OptQueryCommutes(info.query, env, rho);
      OptExprCommutes(info.path, env, rho);
      NeededExprsCommute(info.options, env, rho);
      assert RenameLeaves(target, rho) == target;
    }
  }

  lemma {:induction false} PivotsCommute(ps: seq<PivotColumn>, env: Env, rho: Renaming)
    requires Suits(PivotsLeaves(ps, env), env, rho)
    ensures PivotsLeaves(RenamePivots(ps, env, rho), Image(env, rho)) == RenameLeaves(PivotsLeaves(ps, env), rho)
    decreases ps
  {
    if ps != [] {
      var p := ps[0];
      Parts(PivotLeaves(p, env), PivotsLeaves(ps[1..], env), rho);
      Parts(ExprsLeaves(p.expressions, env) + OptQueryLeaves(p.subquery, env), ExprsLeaves(p.entries, env), rho);
      Parts(ExprsLeaves(p.expressions, env), OptQueryLeaves(p.subquery, env), rho);
      ExprsCommute(p.expressions, env, rho);
      OptQueryCommutes(p.subquery, env, rho);
      ExprsCommute(p.entries, env, rho);
      PivotsCommute(ps[1..], env, rho);
      assert RenamePivots(ps, env, rho)[1..] == RenamePivots(ps[1..], env, rho);
    }
  }

  lemma {:induction false} BaseTableCommutes(r: TableRef, env: Env, rho: Renaming)
    requires r.BaseTable? && Suits(RefLeaves(r, env), env, rho)
    ensures RefLeaves(RenameRef(r, env, rho), Image(env, rho)) == RenameLeaves(RefLeaves(r, env), rho)
    decreases r, 0
  {
    var use := TableUse(r.catalog, r.schema, r.table, Bound(r.catalog, r.schema, r.table, env));
    Parts(AtLeaves(r.at, env), [use], rho);
    assert use in [use];
    UseCommutes(r.catalog, r.schema, r.table, env, rho);
    if r.at.At? {
      NeededExprCommutes(r.at.version, env, rho);
    }
  }

  lemma {:induction false} FunctionCommutes(r: TableRef, env: Env, rho: Renaming)
    requires r.TableFunction? && Suits(RefLeaves(r, env), env, rho)
    ensures RefLeaves(RenameRef(r, env, rho), Image(env, rho)) == RenameLeaves(RefLeaves(r, env), rho)
    decreases r, 0
  {
    Parts(FunctionRefLeaves(r.call) + OptExprLeaves(r.call, env), InputLeaves(r.input, env), rho);
    Parts(FunctionRefLeaves(r.call), OptExprLeaves(r.call, env), rho);
    OptExprCommutes(r.call, env, rho);
    if r.call.Some? {
      assert RenameExpr(r.call.value, env, rho).kind == RenameKind(r.call.value.kind, env, rho);
    }
    assert FunctionRefLeaves(RenameOptExpr(r.call, env, rho)) == FunctionRefLeaves(r.call);
    assert RenameLeaves(FunctionRefLeaves(r.call), rho) == FunctionRefLeaves(r.call);
    if r.input.Input? {
      NeededQueryCommutes(r.input.query, env, rho);
    }
  }

  lemma {:induction false} RefCommutes(r: TableRef, env: Env, rho: Renaming)
    requires Suits(RefLeaves(r, env), env, rho)
    ensures RefLeaves(RenameRef(r, env, rho), Image(env, rho)) == RenameLeaves(RefLeaves(r, env), rho)
    decreases r, 1
  {
    match r
    case BaseTable(_, _, _, _) => BaseTableCommutes(r, env, rho);
    case Join(left, right, condition) =>
      Parts(OptRefLeaves(left, env) + OptRefLeaves(right, env), OptExprLeaves(condition, env), rho);
      Parts(OptRefLeaves(left, env), OptRefLeaves(right, env), rho);
      OptRefCommutes(left, env, rho);
      OptRefCommutes(right, env, rho);
      OptExprCommutes(condition, env, rho);
    case SubqueryRef(subquery) => NeededQueryCommutes(subquery, env, rho);
    case TableFunction(_, _) => FunctionCommutes(r, env, rho);
    case Pivot(source, aggregates, pivots) =>
      Parts(OptRefLeaves(source, env) + ExprsLeaves(aggregates, env), PivotsLeaves(pivots, env), rho);
      Parts(OptRefLeaves(source, env), ExprsLeaves(aggregates, env), rho);
      OptRefCommutes(source, env, rho);
      ExprsCommute(aggregates, env, rho);
      PivotsCommute(pivots, env, rho);
    case ExpressionList(values) => ExprsCommute(values, env, rho);
    case ShowQuery(query) => QueryCommutes(query, env, rho);
    case ShowName(catalog, schema, name) =>
      var use := ShowUse(catalog, schema, name, Bound(catalog, schema, name, env));
      assert use in [use];
      UseCommutes(catalog, schema, name, env, rho);
    case NothingToGate =>
    case UnsupportedRef =>
  }

  lemma {:induction false} OptRefCommutes(x: Option<TableRef>, env: Env, rho: Renaming)
    requires Suits(OptRefLeaves(x, env), env, rho)
    ensures OptRefLeaves(RenameOptRef(x, env, rho), Image(env, rho)) == RenameLeaves(OptRefLeaves(x, env), rho)
    decreases x, 0
  {
    if x.Some? {
      RefCommutes(x.value, env, rho);
    }
  }

  lemma {:induction false} RefsCommute(rs: seq<TableRef>, env: Env, rho: Renaming)
    requires Suits(RefsLeaves(rs, env), env, rho)
    ensures RefsLeaves(RenameRefs(rs, env, rho), Image(env, rho)) == RenameLeaves(RefsLeaves(rs, env), rho)
    decreases rs
  {
    if rs != [] {
      Parts(RefLeaves(rs[0], env), RefsLeaves(rs[1..], env), rho);
      RefCommutes(rs[0], env, rho);
      RefsCommute(rs[1..], env, rho);
      assert RenameRefs(rs, env, rho)[1..] == RenameRefs(rs[1..], env, rho);
    }
  }

  // ---- The request stays the same ----

  // SHOW looks at the spelling of its target before it looks at aliases.
  predicate ForbiddenSpelling(catalog: string, schema: string, name: string) {
    name == "\"variables\""
    || (name !in ["\"databases\"", "\"schemas\"", "\"tables\"", "__show_tables_expanded"]
        && (name == "" || IsReplacementScanName(catalog, schema, name)))
  }

  ghost predicate SpellingsAgree(l: Leaf, rho: Renaming) {
    l.ShowUse? && l.bound ==>
      (ForbiddenSpelling(l.catalog, l.schema, l.table)
       <==> ForbiddenSpelling(l.catalog, l.schema, NewName(l.table, rho)))
  }

  // A reference is gated as before exactly when SHOW treats both spellings alike.
  lemma LeafKeepsItsGate(l: Leaf, action: Policy.Action, rho: Renaming)
    ensures Gate(RenameLeaf(l, rho), action) == Gate(l, action) <==> SpellingsAgree(l, rho)
  {
  }

  // Whether a reference is forbidden once renamed.
  predicate RenamedForbidden(l: Leaf, action: Policy.Action, rho: Renaming) {
    if l.ShowUse? && l.bound then ForbiddenSpelling(l.catalog, l.schema, NewName(l.table, rho)) else Gate(l, action).unsafe
  }

  lemma RenamedGate(l: Leaf, action: Policy.Action, rho: Renaming)
    ensures Gate(RenameLeaf(l, rho), action) == Gate(l, action).(unsafe := RenamedForbidden(l, action, rho))
  {
  }

  lemma {:induction false} SameNamesCollected(a: seq<Leaf>, b: seq<Leaf>, action: Policy.Action)
    requires |a| == |b|
    requires forall i :: 0 <= i < |a| ==>
               && Gate(a[i], action).target == Gate(b[i], action).target
               && Gate(a[i], action).column == Gate(b[i], action).column
    ensures Collect(a, action).objects == Collect(b, action).objects
    ensures Collect(a, action).columns == Collect(b, action).columns
  {
    if a != [] {
      SameNamesCollected(a[..|a| - 1], b[..|b| - 1], action);
    }
  }

  // The references of a renamed tree name the same objects and columns, and
  // are forbidden where SHOW forbids the new spelling.
  lemma CollectRenamed(ls: seq<Leaf>, action: Policy.Action, rho: Renaming)
    ensures var was, now := Collect(ls, action), Collect(RenameLeaves(ls, rho), action);
            && now.objects == was.objects && now.columns == was.columns
            && (now.unsafe <==> exists l :: l in ls && RenamedForbidden(l, action, rho))
            && (was.unsafe <==> exists l :: l in ls && Gate(l, action).unsafe)
  {
    var renamed := RenameLeaves(ls, rho);
    forall i | 0 <= i < |ls|
      ensures Gate(renamed[i], action) == Gate(ls[i], action).(unsafe := RenamedForbidden(ls[i], action, rho))
      ensures ls[i] in ls && renamed[i] in renamed
    {
      RenamedGate(ls[i], action, rho);
    }
    SameNamesCollected(renamed, ls, action);
    CollectIsExact(ls, action);
    CollectIsExact(renamed, action);
    MarksOfRenamed(ls, action, rho);
  }

  lemma MarksOfRenamed(ls: seq<Leaf>, action: Policy.Action, rho: Renaming)
    ensures Marks(RenameLeaves(ls, rho), action) <==> exists l :: l in ls && RenamedForbidden(l, action, rho)
  {
    var renamed := RenameLeaves(ls, rho);
    if r :| r in renamed && Gate(r, action).unsafe {
      var i :| 0 <= i < |renamed| && renamed[i] == r;
      RenamedGate(ls[i], action, rho);
      assert ls[i] in ls;
    }
    if l :| l in ls && RenamedForbidden(l, action, rho) {
      var i :| 0 <= i < |ls| && ls[i] == l;
      RenamedGate(l, action, rho);
      assert renamed[i] in renamed;
    }
  }

  // ---- Statements and scripts ----

  function RenameStatement(s: Statement, rho: Renaming): Statement {
    match s
    case SelectStatement(node) => SelectStatement(RenameOptQuery(node, {}, rho))
    case Explain(analyze, inner) => Explain(analyze, if inner.None? then None else Some(RenameStatement(inner.value, rho)))
    case ChangeStatement(ctes, change) =>
      ChangeStatement(RenameCtes(ctes, {}, rho), RenameChange(change, After(ctes, {}), rho))
    case CopyStatement(copy) => CopyStatement(RenameCopy(copy, {}, rho))
  }

  function RenameEntry(stmt: Option<Statement>, rho: Renaming): Option<Statement> {
    if stmt.None? then None else Some(RenameStatement(stmt.value, rho))
  }

  function RenameEntries(stmts: seq<Option<Statement>>, rho: Renaming): seq<Option<Statement>> {
    if stmts == [] then [] else [RenameEntry(stmts[0], rho)] + RenameEntries(stmts[1..], rho)
  }

  function RenameScript(script: Script, rho: Renaming): Script {
    if script.None? then None else Some(RenameEntries(script.value, rho))
  }

  lemma NoAliasAtTheTop(ctes: seq<Cte>, rho: Renaming)
    ensures Image({}, rho) == {} && Folded({})
    ensures After(RenameCtes(ctes, {}, rho), {}) == Image(After(ctes, {}), rho) && Folded(After(ctes, {}))
  {
    assert Image({}, rho) == {};
    ImageAfter(ctes, {}, rho);
  }

  lemma ChangeStatementCommutes(ctes: seq<Cte>, change: Change, rho: Renaming)
    requires ProperRenaming(rho) && Fresh(StatementLeaves(ChangeStatement(ctes, change)), rho)
    ensures StatementLeaves(RenameStatement(ChangeStatement(ctes, change), rho))
         == RenameLeaves(StatementLeaves(ChangeStatement(ctes, change)), rho)
  {
    var env := After(ctes, {});
    NoAliasAtTheTop(ctes, rho);
    Parts(ClassifyLeaves(change) + CtesLeaves(ctes, {}), ChangeLeaves(change, env), rho);
    Parts(ClassifyLeaves(change), CtesLeaves(ctes, {}), rho);
    SameClass(change, env, rho);
    CtesCommute(ctes, {}, rho);
    ChangeCommutes(change, env, rho);
  }

  lemma {:induction false} StatementCommutes(s: Statement, rho: Renaming)
    requires ProperRenaming(rho) && Fresh(StatementLeaves(s), rho)
    ensures StatementLeaves(RenameStatement(s, rho)) == RenameLeaves(StatementLeaves(s), rho)
    ensures ActionOf(RenameStatement(s, rho)) == ActionOf(s)
  {
    match s
    case SelectStatement(node) =>
      NoAliasAtTheTop([], rho);
      OptQueryCommutes(node, {}, rho);
    case Explain(analyze, inner) =>
      if inner.Some? {
        Parts(if analyze then [Danger] else [], StatementLeaves(inner.value), rho);
        StatementCommutes(inner.value, rho);
      }
    case ChangeStatement(ctes, change) =>
      ChangeStatementCommutes(ctes, change, rho);
      SameClass(change, After(ctes, {}), rho);
    case CopyStatement(copy) =>
      NoAliasAtTheTop([], rho);
      CopyCommutes(copy, {}, rho);
  }

  lemma EntryCommutes(stmt: Option<Statement>, action: Policy.Action, rho: Renaming)
    requires ProperRenaming(rho) && Fresh(EntryLeaves(stmt, action), rho)
    ensures EntryLeaves(RenameEntry(stmt, rho), action) == RenameLeaves(EntryLeaves(stmt, action), rho)
  {
    if stmt.Some? {
      BehindDanger(StatementLeaves(stmt.value), ActionOf(stmt.value) == action, rho);
      StatementCommutes(stmt.value, rho);
    }
  }

  lemma BehindDanger(ls: seq<Leaf>, sameAction: bool, rho: Renaming)
    ensures var danger: seq<Leaf> := if sameAction then [] else [Danger];
            && RenameLeaves(danger + ls, rho) == danger + RenameLeaves(ls, rho)
            && (Fresh(danger + ls, rho) ==> Fresh(ls, rho))
  {
    Parts(if sameAction then [] else [Danger], ls, rho);
  }

  lemma {:induction false} EntriesCommute(stmts: seq<Option<Statement>>, action: Policy.Action, rho: Renaming)
    requires ProperRenaming(rho) && Fresh(EntriesLeaves(stmts, action), rho)
    ensures EntriesLeaves(RenameEntries(stmts, rho), action) == RenameLeaves(EntriesLeaves(stmts, action), rho)
  {
    if stmts != [] {
      Parts(EntryLeaves(stmts[0], action), EntriesLeaves(stmts[1..], action), rho);
      EntryCommutes(stmts[0], action, rho);
      EntriesCommute(stmts[1..], action, rho);
      assert RenameEntries(stmts, rho)[1..] == RenameEntries(stmts[1..], rho);
    }
  }

  lemma {:induction false} SameFirstAction(stmts: seq<Option<Statement>>, rho: Renaming)
    ensures FirstAction(RenameEntries(stmts, rho)) == FirstAction(stmts)
  {
    if stmts != [] {
      SameFirstAction(stmts[1..], rho);
      assert RenameEntries(stmts, rho)[1..] == RenameEntries(stmts[1..], rho);
      SameAction(stmts[0], rho);
    }
  }

  lemma SameAction(stmt: Option<Statement>, rho: Renaming)
    ensures stmt.Some? ==> ActionOf(RenameStatement(stmt.value, rho)) == ActionOf(stmt.value)
  {
  }

  // Renaming the CTE aliases of a whole script changes neither action nor
  // objects nor columns. The request as a whole stays the same exactly when it
  // was unsafe before just if SHOW forbids a new spelling or something else was
  // forbidden already.
  lemma RenamingKeepsTheRequest(script: Script, rho: Renaming)
    requires ProperRenaming(rho) && Fresh(ScriptLeaves(script), rho)
    ensures var was, now, ls := InspectedRequest(script), InspectedRequest(RenameScript(script, rho)), ScriptLeaves(script);
            && now.action == was.action && now.objects == was.objects && now.columns == was.columns
            && (now == was <==>
                ((exists l :: l in ls && Gate(l, was.action).unsafe) <==>
                 (exists l :: l in ls && RenamedForbidden(l, was.action, rho))))
  {
    if script.Some? {
      SameFirstAction(script.value, rho);
      EntriesCommute(script.value, ScriptAction(script), rho);
    }
    assert RenameLeaves([Danger], rho) == [Danger];
    CollectRenamed(ScriptLeaves(script), ScriptAction(script), rho);
  }

  // In particular it stays the same when SHOW treats old and new spellings alike.
  lemma AgreeingSpellingsAreHarmless(script: Script, rho: Renaming)
    requires ProperRenaming(rho) && Fresh(ScriptLeaves(script), rho)
    requires forall l :: l in ScriptLeaves(script) ==> SpellingsAgree(l, rho)
    ensures InspectedRequest(RenameScript(script, rho)) == InspectedRequest(script)
  {
    RenamingKeepsTheRequest(script, rho);
    forall l | l in ScriptLeaves(script)
      ensures RenamedForbidden(l, ScriptAction(script), rho) == Gate(l, ScriptAction(script)).unsafe
    {
      LeafKeepsItsGate(l, ScriptAction(script), rho);
      RenamedGate(l, ScriptAction(script), rho);
    }
  }

  // WITH <alias> AS (SELECT 1) FROM (SHOW <alias>)
  function ShowOf(alias: string): Query {
    Query([Cte(alias, Some(Query([], [], Select(None, [Expr(OtherExpr, [])], None, None, None, []))))], [],
          Select(Some(ShowName("", "", alias)), [], None, None, None, []))
  }

  function OneQuery(q: Query): Script {
    Some([Some(SelectStatement(Some(q)))])
  }

  lemma ConstantLeaves(body: Body, env: Env)
    requires body == Select(None, [Expr(OtherExpr, [])], None, None, None, [])
    ensures BodyLeaves(body, env) == []
  {
    assert body.selectList[1..] == [];
    assert ExprsLeaves([], env) == [] && KindLeaves(OtherExpr, env) == [];
    assert ExprLeaves(body.selectList[0], env) == [];
    assert ExprsLeaves(body.selectList, env) == ExprLeaves(body.selectList[0], env) + ExprsLeaves([], env) == [];
  }

  lemma ShowOfLeaves(alias: string)
    ensures QueryLeaves(ShowOf(alias), {}) == [ShowUse("", "", alias, true)]
  {
    var q := ShowOf(alias);
    var inner := q.ctes[0].query.value;
    var env := {Fold(alias)};
    ConstantLeaves(inner.body, {});
    assert {} + env == env && q.ctes[1..] == [];
    assert After(q.ctes, {}) == After([], env) == env;
    assert ExprsLeaves([], env) == [] && ModifiersLeaves([], env) == [] && ModifiersLeaves([], {}) == [];
    assert After(inner.ctes, {}) == {} && CtesLeaves(inner.ctes, {}) == [];
    assert QueryLeaves(inner, {}) == [];
    assert CtesLeaves(q.ctes, {}) == NeededQueryLeaves(q.ctes[0].query, {}) + CtesLeaves([], env) == [];
    assert OptRefLeaves(q.body.from, env) == RefLeaves(q.body.from.value, env) == [ShowUse("", "", alias, true)];
    assert BodyLeaves(q.body, env) == [ShowUse("", "", alias, true)];
  }

  lemma OneQueryLeaves(q: Query)
    ensures ScriptAction(OneQuery(q)) == Policy.Scan && ScriptLeaves(OneQuery(q)) == QueryLeaves(q, {})
  {
    var stmts := OneQuery(q).value;
    assert stmts[1..] == [];
    assert EntriesLeaves(stmts, Policy.Scan) == EntryLeaves(stmts[0], Policy.Scan) + EntriesLeaves([], Policy.Scan);
  }

  // The request for WITH a AS (SELECT 1) FROM (SHOW a) passes the inspector;
  // calling the alias b (say "x.y") instead makes it unsafe.
  lemma ShowCanTellSpellingsApart(a: string, b: string)
    requires a != "" && b != "" && !ForbiddenSpelling("", "", a) && ForbiddenSpelling("", "", b)
    ensures var script, rho := OneQuery(ShowOf(a)), map[Fold(a) := b];
            && ProperRenaming(rho) && Fresh(ScriptLeaves(script), rho)
            && !InspectedRequest(script).unsafe && InspectedRequest(RenameScript(script, rho)).unsafe
  {
    FoldEmpty(a);
    ShowOfLeaves(a);
    OneQueryLeaves(ShowOf(a));
    ForbiddenOnceRenamed(OneQuery(ShowOf(a)), a, b, map[Fold(a) := b]);
  }

  lemma ForbiddenOnceRenamed(script: Script, a: string, b: string, rho: Renaming)
    requires ProperRenaming(rho) && rho == map[Fold(a) := b] && ScriptLeaves(script) == [ShowUse("", "", a, true)]
    requires !ForbiddenSpelling("", "", a) && ForbiddenSpelling("", "", b)
    ensures Fresh(ScriptLeaves(script), rho)
    ensures !InspectedRequest(script).unsafe && InspectedRequest(RenameScript(script, rho)).unsafe
  {
    var ls, action := ScriptLeaves(script), ScriptAction(script);
    assert ls[0] in ls && RenamedForbidden(ls[0], action, rho);
    assert forall l :: l in ls ==> l == ls[0] && !Gate(l, action).unsafe;
    CollectIsExact(ls, action);
    RenamingKeepsTheRequest(script, rho);
  }
}
