/** The places of a statement leave nothing out: a part is determined by its own
    names and by what stands at its places. */
module SqlCoverage {
  import opened Wrappers
  import opened SqlAst
  import opened SqlPlaces

  predicate SameAliases(a: seq<Cte>, b: seq<Cte>) {
    |a| == |b| && forall i :: 0 <= i < |a| ==> a[i].alias == b[i].alias
  }

  // The same kind of part with the same names and flags, and lists of the same
  // length where an entry may be null.
  predicate SameHead(a: Node, b: Node) {
    match (a, b)
    case (ExprAt(e), ExprAt(f)) => e.kind == f.kind || (e.kind.Subquery? && f.kind.Subquery?)
    case (QueryAt(q), QueryAt(r)) => SameAliases(q.ctes, r.ctes)
    case (ModifierAt(m), ModifierAt(n)) =>
      || (m.OrderBy? && n.OrderBy? && |m.orders| == |n.orders|) || (m.Limit? && n.Limit?)
      || (m.DistinctOn? && n.DistinctOn?) || (m.NullOrUnsupportedModifier? && n.NullOrUnsupportedModifier?)
    case (BodyAt(x), BodyAt(y)) => SameBodyHead(x, y)
    case (RefAt(r), RefAt(t)) => SameRefHead(r, t)
    case (PivotAt(_), PivotAt(_)) => true
    case (ChangeAt(c), ChangeAt(d)) =>
      || (c.InsertInto? && d.InsertInto? && c.catalog == d.catalog && c.schema == d.schema && c.table == d.table)
      || (c.UpdateTable? && d.UpdateTable?) || (c.DeleteFrom? && d.DeleteFrom?)
      || (c.MergeInto? && d.MergeInto? && |c.actions| == |d.actions|)
    case (ActionAt(x), ActionAt(y)) => x.updates == y.updates
    case (CopyAt(x), CopyAt(y)) =>
      && x.isFrom == y.isFrom && x.catalog == y.catalog && x.schema == y.schema && x.table == y.table
      && |x.options| == |y.options|
    case (StatementAt(s), StatementAt(t)) =>
      || (s.SelectStatement? && t.SelectStatement?) || (s.Explain? && t.Explain? && s.analyze == t.analyze)
      || (s.ChangeStatement? && t.ChangeStatement? && SameAliases(s.ctes, t.ctes))
      || (s.CopyStatement? && t.CopyStatement?)
    case _ => false
  }

  predicate SameBodyHead(a: Body, b: Body) {
    || (a.Select? && b.Select?) || (a.SetOperation? && b.SetOperation?)
    || (a.CteNode? && b.CteNode? && a.alias == b.alias) || (a.RecursiveCte? && b.RecursiveCte? && a.alias == b.alias)
    || (a.ChangeNode? && b.ChangeNode?) || (a.CopyNode? && b.CopyNode?)
    || (a.BoundSubquery? && b.BoundSubquery?) || (a.UnsupportedBody? && b.UnsupportedBody?)
  }

  predicate SameRefHead(a: TableRef, b: TableRef) {
    || (a.BaseTable? && b.BaseTable? && a.catalog == b.catalog && a.schema == b.schema && a.table == b.table
        && a.at.At? == b.at.At?)
    || (a.Join? && b.Join?) || (a.SubqueryRef? && b.SubqueryRef?)
    || (a.TableFunction? && b.TableFunction? && a.input.Input? == b.input.Input?)
    || (a.Pivot? && b.Pivot?) || (a.ExpressionList? && b.ExpressionList?) || (a.ShowQuery? && b.ShowQuery?)
    || (a.ShowName? && a == b) || (a.NothingToGate? && b.NothingToGate?) || (a.UnsupportedRef? && b.UnsupportedRef?)
  }

  ghost predicate SameParts(a: Node, b: Node) {
    forall p :: Step(Spot(a, {}), p) == Step(Spot(b, {}), p)
  }

  lemma SameAt(a: Node, b: Node, p: Place)
    requires SameParts(a, b)
    ensures Step(Spot(a, {}), p) == Step(Spot(b, {}), p)
  {
  }

  lemma SameExprs(a: seq<Expr>, b: seq<Expr>)
    requires forall i: nat :: NthExpr(a, i, {}) == NthExpr(b, i, {})
    ensures a == b
  {
    assert NthExpr(a, |b|, {}) == NthExpr(b, |b|, {}) && NthExpr(a, |a|, {}) == NthExpr(b, |a|, {});
    forall i | 0 <= i < |a| ensures a[i] == b[i] {
      assert NthExpr(a, i, {}) == NthExpr(b, i, {});
    }
  }

  lemma SameListed(a: Node, b: Node, at: nat -> Place, es: seq<Expr>, fs: seq<Expr>)
    requires SameParts(a, b)
    requires forall i: nat ::
               Step(Spot(a, {}), at(i)) == NthExpr(es, i, {}) && Step(Spot(b, {}), at(i)) == NthExpr(fs, i, {})
    ensures es == fs
  {
    forall i: nat ensures NthExpr(es, i, {}) == NthExpr(fs, i, {}) {
      SameAt(a, b, at(i));
    }
    SameExprs(es, fs);
  }

  lemma SameExpr(e: Expr, f: Expr)
    requires SameHead(ExprAt(e), ExprAt(f)) && SameParts(ExprAt(e), ExprAt(f))
    ensures e == f
  {
    SameListed(ExprAt(e), ExprAt(f), (i: nat) => Child(i), e.children, f.children);
    SameAt(ExprAt(e), ExprAt(f), Subselect);
  }

  lemma SameSelect(x: Body, y: Body)
    requires x.Select? && y.Select? && SameParts(BodyAt(x), BodyAt(y))
    ensures x == y
  {
    var a, b := BodyAt(x), BodyAt(y);
    SameAt(a, b, From);
    SameAt(a, b, Where);
    SameAt(a, b, Having);
    SameAt(a, b, Qualify);
    SameListed(a, b, (i: nat) => Item(i), x.selectList, y.selectList);
    SameListed(a, b, (i: nat) => Group(i), x.groups, y.groups);
  }

  lemma SameNeeded(a: Node, b: Node, at: nat -> Place, es: seq<Option<Expr>>, fs: seq<Option<Expr>>)
    requires SameParts(a, b) && |es| == |fs|
    requires forall i: nat :: i < |es| ==>
               Step(Spot(a, {}), at(i)) == TheExpr(es[i], {}) && Step(Spot(b, {}), at(i)) == TheExpr(fs[i], {})
    ensures es == fs
  {
    forall i | 0 <= i < |es| ensures es[i] == fs[i] {
      SameAt(a, b, at(i));
    }
  }

  lemma SameDefinitions(a: Node, b: Node, ctes: seq<Cte>, others: seq<Cte>)
    requires SameParts(a, b) && SameAliases(ctes, others)
    requires forall i: nat :: i < |ctes| ==>
               && Step(Spot(a, {}), Definition(i)) == NthDefinition(ctes, i, {})
               && Step(Spot(b, {}), Definition(i)) == NthDefinition(others, i, {})
    ensures ctes == others
  {
    forall i | 0 <= i < |ctes| ensures ctes[i] == others[i] {
      SameAt(a, b, Definition(i));
    }
  }

  lemma SameQuery(q: Query, r: Query)
    requires SameHead(QueryAt(q), QueryAt(r)) && SameParts(QueryAt(q), QueryAt(r))
    ensures q == r
  {
    var a, b := QueryAt(q), QueryAt(r);
    SameDefinitions(a, b, q.ctes, r.ctes);
    SameAt(a, b, Main);
    SameAt(a, b, ModifierNo(|q.modifiers|));
    SameAt(a, b, ModifierNo(|r.modifiers|));
    forall i | 0 <= i < |q.modifiers| ensures q.modifiers[i] == r.modifiers[i] {
      SameAt(a, b, ModifierNo(i));
    }
  }

  lemma SameModifier(m: Modifier, n: Modifier)
    requires SameHead(ModifierAt(m), ModifierAt(n)) && SameParts(ModifierAt(m), ModifierAt(n))
    ensures m == n
  {
    var a, b := ModifierAt(m), ModifierAt(n);
    match m
    case OrderBy(orders) => SameNeeded(a, b, (i: nat) => Key(i), orders, n.orders);
    case Limit(_, _) =>
      SameAt(a, b, LimitValue);
      SameAt(a, b, OffsetValue);
    case DistinctOn(targets) => SameListed(a, b, (i: nat) => Key(i), targets, n.targets);
    case NullOrUnsupportedModifier =>
  }

  lemma SameBody(x: Body, y: Body)
    requires SameHead(BodyAt(x), BodyAt(y)) && SameParts(BodyAt(x), BodyAt(y))
    ensures x == y
  {
    var a, b := BodyAt(x), BodyAt(y);
    match x
    case Select(_, _, _, _, _, _) => SameSelect(x, y);
    case SetOperation(arms) =>
      SameAt(a, b, Arm(|arms|));
      SameAt(a, b, Arm(|y.arms|));
      forall i | 0 <= i < |arms| ensures arms[i] == y.arms[i] {
        SameAt(a, b, Arm(i));
      }
    case CteNode(_, _, _) =>
      SameAt(a, b, Seed);
      SameAt(a, b, Scoped);
    case RecursiveCte(_, _, _) =>
      SameAt(a, b, Seed);
      SameAt(a, b, Scoped);
    case ChangeNode(_) => SameAt(a, b, Changed);
    case CopyNode(_) => SameAt(a, b, Copied);
    case BoundSubquery =>
    case UnsupportedBody =>
  }

  lemma SamePivot(r: TableRef, t: TableRef)
    requires r.Pivot? && t.Pivot? && SameParts(RefAt(r), RefAt(t))
    ensures r == t
  {
    var a, b := RefAt(r), RefAt(t);
    SameAt(a, b, Source);
    SameListed(a, b, (i: nat) => Aggregate(i), r.aggregates, t.aggregates);
    SameAt(a, b, PivotNo(|r.pivots|));
    SameAt(a, b, PivotNo(|t.pivots|));
    forall i | 0 <= i < |r.pivots| ensures r.pivots[i] == t.pivots[i] {
      SameAt(a, b, PivotNo(i));
    }
  }

  lemma SameRef(r: TableRef, t: TableRef)
    requires SameHead(RefAt(r), RefAt(t)) && SameParts(RefAt(r), RefAt(t))
    ensures r == t
  {
    var a, b := RefAt(r), RefAt(t);
    match r
    case BaseTable(_, _, _, _) => SameAt(a, b, Version);
    case Join(_, _, _) =>
      SameAt(a, b, Left);
      SameAt(a, b, Right);
      SameAt(a, b, Condition);
    case SubqueryRef(_) => SameAt(a, b, Subselect);
    case TableFunction(_, _) =>
      SameAt(a, b, Call);
      SameAt(a, b, Subselect);
    case Pivot(_, _, _) => SamePivot(r, t);
    case ExpressionList(values) => SameListed(a, b, (i: nat) => Value(i), values, t.values);
    case ShowQuery(_) => SameAt(a, b, Subselect);
    case ShowName(_, _, _) =>
    case NothingToGate =>
    case UnsupportedRef =>
  }

  lemma SameReturning(c: Change, d: Change)
    requires SameHead(ChangeAt(c), ChangeAt(d)) && SameParts(ChangeAt(c), ChangeAt(d))
    ensures c.returning == d.returning
  {
    SameListed(ChangeAt(c), ChangeAt(d), (i: nat) => Returning(i), c.returning, d.returning);
  }

  lemma SameInsert(c: Change, d: Change)
    requires c.InsertInto? && SameHead(ChangeAt(c), ChangeAt(d)) && SameParts(ChangeAt(c), ChangeAt(d))
    ensures c == d
  {
    var a, b := ChangeAt(c), ChangeAt(d);
    SameAt(a, b, Source);
    SameAt(a, b, Target);
    SameReturning(c, d);
    SameListed(a, b, (i: nat) => Conflict(i), c.conflict, d.conflict);
  }

  lemma SameUpdate(c: Change, d: Change)
    requires c.UpdateTable? && d.UpdateTable? && SameParts(ChangeAt(c), ChangeAt(d))
    ensures c == d
  {
    var a, b := ChangeAt(c), ChangeAt(d);
    SameAt(a, b, Target);
    SameAt(a, b, Joined);
    SameAt(a, b, Condition);
    SameListed(a, b, (i: nat) => Set(i), c.setValues, d.setValues);
    SameReturning(c, d);
  }

  lemma SameDelete(c: Change, d: Change)
    requires c.DeleteFrom? && d.DeleteFrom? && SameParts(ChangeAt(c), ChangeAt(d))
    ensures c == d
  {
    var a, b := ChangeAt(c), ChangeAt(d);
    SameAt(a, b, Target);
    SameAt(a, b, Condition);
    SameUsing(c, d);
    SameReturning(c, d);
  }

  lemma SameMerge(c: Change, d: Change)
    requires c.MergeInto? && SameHead(ChangeAt(c), ChangeAt(d)) && SameParts(ChangeAt(c), ChangeAt(d))
    ensures c == d
  {
    var a, b := ChangeAt(c), ChangeAt(d);
    SameAt(a, b, Target);
    SameAt(a, b, Joined);
    SameAt(a, b, Condition);
    SameActions(c, d);
    SameReturning(c, d);
  }

  lemma SameActions(c: Change, d: Change)
    requires c.MergeInto? && SameHead(ChangeAt(c), ChangeAt(d)) && SameParts(ChangeAt(c), ChangeAt(d))
    ensures c.actions == d.actions
  {
    forall i | 0 <= i < |c.actions| ensures c.actions[i] == d.actions[i] {
      SameAt(ChangeAt(c), ChangeAt(d), Action(i));
    }
  }

  lemma SameChange(c: Change, d: Change)
    requires SameHead(ChangeAt(c), ChangeAt(d)) && SameParts(ChangeAt(c), ChangeAt(d))
    ensures c == d
  {
    match c
    case InsertInto(_, _, _, _, _, _, _) => SameInsert(c, d);
    case UpdateTable(_, _, _, _, _) => SameUpdate(c, d);
    case DeleteFrom(_, _, _, _) => SameDelete(c, d);
    case MergeInto(_, _, _, _, _) => SameMerge(c, d);
  }

  lemma SameUsing(c: Change, d: Change)
    requires c.DeleteFrom? && d.DeleteFrom? && SameParts(ChangeAt(c), ChangeAt(d))
    ensures c.using == d.using
  {
    var a, b := ChangeAt(c), ChangeAt(d);
    SameAt(a, b, Using(|c.using|));
    SameAt(a, b, Using(|d.using|));
    forall i | 0 <= i < |c.using| ensures c.using[i] == d.using[i] {
      SameAt(a, b, Using(i));
    }
  }

  lemma SamePivotColumn(c: PivotColumn, d: PivotColumn)
    requires SameParts(PivotAt(c), PivotAt(d))
    ensures c == d
  {
    var a, b := PivotAt(c), PivotAt(d);
    SameAt(a, b, Subselect);
    SameListed(a, b, (i: nat) => Item(i), c.expressions, d.expressions);
    SameListed(a, b, (i: nat) => Entry(i), c.entries, d.entries);
  }

  lemma SameAction(x: MergeAction, y: MergeAction)
    requires x.updates == y.updates && SameParts(ActionAt(x), ActionAt(y))
    ensures x == y
  {
    var a, b := ActionAt(x), ActionAt(y);
    SameAt(a, b, Condition);
    SameListed(a, b, (i: nat) => Set(i), x.setValues, y.setValues);
    SameListed(a, b, (i: nat) => Item(i), x.expressions, y.expressions);
  }

  lemma SameCopy(x: CopyInfo, y: CopyInfo)
    requires SameHead(CopyAt(x), CopyAt(y)) && SameParts(CopyAt(x), CopyAt(y))
    ensures x == y
  {
    var a, b := CopyAt(x), CopyAt(y);
    SameAt(a, b, Source);
    SameAt(a, b, Path);
    SameNeeded(a, b, (i: nat) => CopyOption(i), x.options, y.options);
  }

  lemma SameStatement(s: Statement, t: Statement)
    requires SameHead(StatementAt(s), StatementAt(t)) && SameParts(StatementAt(s), StatementAt(t))
    ensures s == t
  {
    var a, b := StatementAt(s), StatementAt(t);
    match s
    case SelectStatement(_) => SameAt(a, b, Main);
    case Explain(_, _) => SameAt(a, b, Explained);
    case ChangeStatement(ctes, _) =>
      SameDefinitions(a, b, ctes, t.ctes);
      SameAt(a, b, Changed);
    case CopyStatement(_) => SameAt(a, b, Copied);
  }

  // So no expression, query, table reference or change of a part is out of
  // reach: two parts that differ at all differ in a name, or at a place.
  lemma PlacesLeaveNothingOut(a: Node, b: Node)
    requires SameHead(a, b) && SameParts(a, b)
    ensures a == b
  {
    match a
    case ExprAt(e) => SameExpr(e, b.expr);
    case QueryAt(q) => SameQuery(q, b.query);
    case ModifierAt(m) => SameModifier(m, b.modifier);
    case BodyAt(x) => SameBody(x, b.body);
    case RefAt(r) => SameRef(r, b.ref);
    case PivotAt(c) => SamePivotColumn(c, b.pivot);
    case ChangeAt(c) => SameChange(c, b.change);
    case ActionAt(x) => SameAction(x, b.action);
    case CopyAt(x) => SameCopy(x, b.copy);
    case StatementAt(s) => SameStatement(s, b.statement);
  }
}
