/** Parsed statements, as far as the inspector looks at them. An Option stands
    for a pointer that may be null. */
module SqlAst {
  import opened Wrappers

  datatype Expr = Expr(kind: ExprKind, children: seq<Expr>)

  datatype ExprKind =
    | ColumnRef(names: seq<string>)
    | Star
    | Subquery(query: Option<Query>)
    | Function(name: string)
    | OtherExpr

  datatype Query = Query(ctes: seq<Cte>, modifiers: seq<Modifier>, body: Body)

  datatype Cte = Cte(alias: string, query: Option<Query>)

  datatype Modifier =
    | OrderBy(orders: seq<Option<Expr>>)
    | Limit(limit: Option<Expr>, offset: Option<Expr>)
    | DistinctOn(targets: seq<Expr>)
    | NullOrUnsupportedModifier

  datatype Body =
    | Select(from: Option<TableRef>, selectList: seq<Expr>, whereClause: Option<Expr>,
             having: Option<Expr>, qualify: Option<Expr>, groups: seq<Expr>)
    | SetOperation(arms: seq<Query>)
    | CteNode(alias: string, definition: Option<Query>, child: Option<Query>)
    | RecursiveCte(alias: string, left: Option<Query>, right: Option<Query>)
    | ChangeNode(change: Change)  // a data change in the place of a query
    | CopyNode(copy: Option<CopyInfo>)
    | BoundSubquery
    | UnsupportedBody

  datatype AtClause = NoAt | At(version: Option<Expr>)

  datatype FunctionInput = NoInput | Input(query: Option<Query>)

  datatype PivotColumn = PivotColumn(expressions: seq<Expr>, subquery: Option<Query>, entries: seq<Expr>)

  datatype TableRef =
    | BaseTable(at: AtClause, catalog: string, schema: string, table: string)
    | Join(left: Option<TableRef>, right: Option<TableRef>, condition: Option<Expr>)
    | SubqueryRef(subquery: Option<Query>)
    | TableFunction(call: Option<Expr>, input: FunctionInput)
    | Pivot(source: Option<TableRef>, aggregates: seq<Expr>, pivots: seq<PivotColumn>)
    | ExpressionList(values: seq<Expr>)  // the rows of VALUES, one after the other
    | ShowQuery(shownQuery: Query)
    | ShowName(catalog: string, schema: string, name: string)
    | NothingToGate
    | UnsupportedRef

  // A data change, without its WITH list.
  datatype Change =
    | InsertInto(catalog: string, schema: string, table: string, source: Option<Query>, tableRef: Option<TableRef>,
                 returning: seq<Expr>, conflict: seq<Expr>)  // ON CONFLICT: assignments, then conditions
    | UpdateTable(target: Option<TableRef>, fromTable: Option<TableRef>,
                  setValues: seq<Expr>, condition: Option<Expr>, returning: seq<Expr>)
    | DeleteFrom(target: Option<TableRef>, using: seq<TableRef>, condition: Option<Expr>, returning: seq<Expr>)
    | MergeInto(target: Option<TableRef>, mergeSource: Option<TableRef>, condition: Option<Expr>,
                actions: seq<Option<MergeAction>>, returning: seq<Expr>)

  datatype MergeAction = MergeAction(updates: bool, condition: Option<Expr>,
                                     setValues: seq<Expr>,  // assignments, then their condition
                                     expressions: seq<Expr>)

  datatype CopyInfo = CopyInfo(isFrom: bool, catalog: string, schema: string, table: string, query: Option<Query>,
                               path: Option<Expr>, options: seq<Option<Expr>>)

  datatype Statement =
    | SelectStatement(node: Option<Query>)
    | Explain(analyze: bool, inner: Option<Statement>)
    | ChangeStatement(ctes: seq<Cte>, change: Change)
    | CopyStatement(copy: Option<CopyInfo>)
}
