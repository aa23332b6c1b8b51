/** The request of a script, read off its parts: what each part of a statement
    names, under the aliases visible there, and what makes it unsafe. */
module SqlReferences {
  import opened Wrappers
  import opened Text
  import opened Policy
  import opened SqlAst
  import opened SqlScope
  import opened SqlGate
  import opened SqlPlaces

  // A path leads from the i-th statement of the script to this part.
  ghost predicate Stands(script: Script, i: nat, path: seq<Place>, s: Spot) {
    && script.Some? && i < |script.value| && script.value[i].Some?
    && Reach(Spot(StatementAt(script.value[i].value), {}), path) == Some(s)
  }

  // ---- What a part names ----

  function QualifiedName(schema: string, table: string): string {
    (if schema == "" then "main" else Fold(schema)) + "." + Fold(table)
  }

  predicate InSystemSchema(schema: string) {
    Fold(schema) == "information_schema" || Fold(schema) == "pg_catalog"
  }

  predicate HidesSystemView(schema: string, table: string) {
    (schema == "" || Fold(schema) == "main") && Fold(table) in SYSTEM_VIEWS
  }

  predicate IsTableObject(schema: string, table: string, name: string) {
    && table != "" && name == QualifiedName(schema, table)
    && !InSystemSchema(schema) && !HidesSystemView(schema, table)
  }

  // A table no request may name: of another catalog, or a system view other
  // than the tables view of information_schema.
  predicate IsClosedTable(catalog: string, schema: string, table: string) {
    table != ""
    && (|| catalog != ""
        || (InSystemSchema(schema) && !(Fold(schema) == "information_schema" && Fold(table) == "tables"))
        || HidesSystemView(schema, table))
  }

  predicate IsAlias(catalog: string, schema: string, table: string, env: Env) {
    catalog == "" && schema == "" && Fold(table) in env
  }

  // A name DuckDB would read as a file: with a slash, backslash or colon in any
  // part, a dot in the table, or a qualified table named like a file suffix.
  predicate LooksLikeAFile(catalog: string, schema: string, table: string) {
    || '.' in table
    || (exists c | c in ['/', '\\', ':'] :: c in catalog || c in schema || c in table)
    || (!(catalog == "" && schema == "") && Fold(table) in FILE_SUFFIXES)
  }

  lemma FileNameExactly(catalog: string, schema: string, table: string)
    ensures IsReplacementScanName(catalog, schema, table) <==> LooksLikeAFile(catalog, schema, table)
  {
    assert '/' in ['/', '\\', ':'] && '\\' in ['/', '\\', ':'] && ':' in ['/', '\\', ':'];
  }

  // SHOW of one of these lists the catalog rather than a table.
  predicate IsListing(name: string) {
    || name == "\"databases\"" || name == "\"schemas\"" || name == "\"tables\"" || name == "__show_tables_expanded"
  }

  ghost predicate NamesObject(s: Spot, name: string) {
    match s.node
    case RefAt(BaseTable(_, catalog, schema, table)) =>
      && !IsAlias(catalog, schema, table, s.env) && !LooksLikeAFile(catalog, schema, table)
      && IsTableObject(schema, table, name)
    case RefAt(ShowName(catalog, schema, table)) =>
      && table != "\"variables\"" && !IsListing(table)
      && !IsAlias(catalog, schema, table, s.env) && !LooksLikeAFile(catalog, schema, table)
      && IsTableObject(schema, table, name)
    case RefAt(TableFunction(call, _)) =>
      && NamesFunction(call) && Fold(call.value.kind.name) != "duckdb_tables"
      && Fold(call.value.kind.name) != "duckdb_columns" && name == "fn:" + Fold(call.value.kind.name)
    case ChangeAt(InsertInto(_, schema, table, _, _, _, _)) => IsTableObject(schema, table, name)
    case CopyAt(copy) => IsTableObject(copy.schema, copy.table, name)
    case _ => false
  }

  ghost predicate NamesColumn(s: Spot, name: string) {
    match s.node
    case ExprAt(Expr(ColumnRef(names), _)) =>
      names != [] && names[|names| - 1] != "" && name == Fold(names[|names| - 1])
    case ExprAt(Expr(Star, _)) => name == "*"
    case _ => false
  }

  // ---- What a part makes unsafe ----

  predicate ReadsState(name: string) {
    || Fold(name) == "current_setting" || Fold(name) == "getvariable"
    || Fold(name) == "nextval" || Fold(name) == "currval"
  }

  predicate RefusesChange(change: Change, action: Action) {
    match change
    case InsertInto(_, _, _, _, _, _, _) => action != Insert
    case UpdateTable(_, _, _, _, _) => action != Update
    case DeleteFrom(_, _, _, _) => action != Delete
    case MergeInto(_, _, _, _, _) => action != Update
  }

  ghost predicate RefusesRef(r: TableRef, env: Env) {
    match r
    case BaseTable(at, catalog, schema, table) =>
      || at == At(None)
      || (!IsAlias(catalog, schema, table, env)
          && (LooksLikeAFile(catalog, schema, table) || IsClosedTable(catalog, schema, table)))
    case SubqueryRef(subquery) => subquery.None?
    case TableFunction(call, input) =>
      || input == Input(None) || !NamesFunction(call)
      || Fold(call.value.kind.name) == "query" || Fold(call.value.kind.name) == "query_table"
    case ShowName(catalog, schema, table) =>
      || table == "\"variables\""
      || (!IsListing(table)
          && (|| table == "" || LooksLikeAFile(catalog, schema, table)
              || (!IsAlias(catalog, schema, table, env) && IsClosedTable(catalog, schema, table))))
    case UnsupportedRef => true
    case _ => false
  }

  ghost predicate Refuses(s: Spot, action: Action) {
    match s.node
    case ExprAt(e) => e.kind == Subquery(None) || (e.kind.Function? && ReadsState(e.kind.name))
    case QueryAt(q) => exists i :: 0 <= i < |q.ctes| && q.ctes[i].query.None?
    case ModifierAt(m) => m.NullOrUnsupportedModifier? || (m.OrderBy? && None in m.orders)
    case BodyAt(b) => (
      match b
      case CteNode(_, definition, child) => definition.None? || child.None?
      case RecursiveCte(_, left, right) => left.None? || right.None?
      case ChangeNode(change) => RefusesChange(change, action)
      case CopyNode(copy) => copy.None? || action != CopyTo
      case UnsupportedBody => true
      case _ => false)
    case RefAt(r) => RefusesRef(r, s.env)
    case PivotAt(_) => false
    case ChangeAt(c) =>
      || (c.InsertInto? && IsClosedTable(c.catalog, c.schema, c.table))
      || (c.MergeInto? && (|| c.actions == []
                           || exists i :: 0 <= i < |c.actions| && (c.actions[i].None? || !c.actions[i].value.updates)))
    case ActionAt(_) => false
    case CopyAt(copy) => IsClosedTable(copy.catalog, copy.schema, copy.table) || None in copy.options
    case StatementAt(statement) => (
      match statement
      case SelectStatement(_) => false
      case Explain(analyze, inner) => inner.None? || analyze
      case ChangeStatement(ctes, _) => exists i :: 0 <= i < |ctes| && ctes[i].query.None?
      case CopyStatement(copy) => copy.None?)
  }

  // ---- What a part says, seen through its gate ----

  lemma TableGate(catalog: string, schema: string, table: string, name: string)
    ensures GateObject(catalog, schema, table).target == Some(name) <==> IsTableObject(schema, table, name)
    ensures GateObject(catalog, schema, table).unsafe <==> IsClosedTable(catalog, schema, table)
    ensures GateObject(catalog, schema, table).column == None
  {
    FoldEmpty(schema);
  }

  ghost predicate Contributes(s: Spot, name: string, action: Action) {
    && (NamesObject(s, name) <==> Own(s).Some? && Gate(Own(s).value, action).target == Some(name))
    && (NamesColumn(s, name) <==> Own(s).Some? && Gate(Own(s).value, action).column == Some(name))
    && (Refuses(s, action) <==> Broken(s) || (Own(s).Some? && Gate(Own(s).value, action).unsafe))
  }

  lemma TablePart(r: TableRef, env: Env, name: string, action: Action)
    requires r.BaseTable?
    ensures Contributes(Spot(RefAt(r), env), name, action)
  {
    FileNameExactly(r.catalog, r.schema, r.table);
    TableGate(r.catalog, r.schema, r.table, name);
  }

  lemma ListingExactly(name: string)
    ensures name in ["\"databases\"", "\"schemas\"", "\"tables\"", "__show_tables_expanded"] <==> IsListing(name)
  {
  }

  lemma ShowGate(catalog: string, schema: string, shown: string, bound: bool, name: string)
    ensures var g := GateShow(catalog, schema, shown, bound);
            && g.column == None
            && (g.target == Some(name) <==>
                && shown != "\"variables\"" && !IsListing(shown) && !bound
                && !LooksLikeAFile(catalog, schema, shown) && IsTableObject(schema, shown, name))
            && (g.unsafe <==>
                || shown == "\"variables\""
                || (!IsListing(shown)
                    && (|| shown == "" || LooksLikeAFile(catalog, schema, shown)
                        || (!bound && IsClosedTable(catalog, schema, shown)))))
  {
    ListingExactly(shown);
    FileNameExactly(catalog, schema, shown);
    TableGate(catalog, schema, shown, name);
  }

  lemma ShowPart(r: TableRef, env: Env, name: string, action: Action)
    requires r.ShowName?
    ensures Contributes(Spot(RefAt(r), env), name, action)
  {
    var s, bound := Spot(RefAt(r), env), Bound(r.catalog, r.schema, r.name, env);
    ShowGate(r.catalog, r.schema, r.name, bound, name);
    assert Own(s) == Some(ShowUse(r.catalog, r.schema, r.name, bound)) && !Broken(s);
    assert Gate(Own(s).value, action) == GateShow(r.catalog, r.schema, r.name, bound);
  }

  lemma RefPart(r: TableRef, env: Env, name: string, action: Action)
    ensures Contributes(Spot(RefAt(r), env), name, action)
  {
    match r
    case BaseTable(_, _, _, _) => TablePart(r, env, name, action);
    case ShowName(_, _, _) => ShowPart(r, env, name, action);
    case _ =>
  }

  lemma ExprPart(e: Expr, env: Env, name: string, action: Action)
    ensures Contributes(Spot(ExprAt(e), env), name, action)
  {
    assert Fold("*") == "*";
  }

  lemma BodyPart(b: Body, env: Env, name: string, action: Action)
    ensures Contributes(Spot(BodyAt(b), env), name, action)
  {
  }

  lemma ChangePart(c: Change, env: Env, name: string, action: Action)
    ensures Contributes(Spot(ChangeAt(c), env), name, action)
  {
    if c.InsertInto? {
      TableGate(c.catalog, c.schema, c.table, name);
    }
  }

  // What each part gives to the request.
  lemma PartGate(s: Spot, name: string, action: Action)
    ensures Contributes(s, name, action)
  {
    match s.node
    case ExprAt(e) => ExprPart(e, s.env, name, action);
    case BodyAt(b) => BodyPart(b, s.env, name, action);
    case RefAt(r) => RefPart(r, s.env, name, action);
    case ChangeAt(c) => ChangePart(c, s.env, name, action);
    case CopyAt(copy) => TableGate(copy.catalog, copy.schema, copy.table, name);
    case _ =>
  }

  // ---- The request of a script ----

  // An entry is a null pointer, or of another action than the request.
  ghost predicate BadEntry(script: Script, action: Action) {
    script.None?
    || exists i :: 0 <= i < |script.value| && (script.value[i].None? || ActionOf(script.value[i].value) != action)
  }

  lemma {:induction false} EntriesHave(stmts: seq<Option<Statement>>, action: Action, l: Leaf)
    ensures l in EntriesLeaves(stmts, action) <==> exists i :: 0 <= i < |stmts| && l in EntryLeaves(stmts[i], action)
  {
    if stmts != [] {
      EntriesHave(stmts[1..], action, l);
      Shifted(stmts, x => l in EntryLeaves(x, action));
    }
  }

  lemma ScriptMeetsExactly(script: Script, l: Leaf)
    ensures l in ScriptLeaves(script) <==>
            || (l == Danger && BadEntry(script, ScriptAction(script)))
            || exists i, path, s :: Stands(script, i, path, s) && Says(s, l)
  {
    if script.Some? {
      var action := ScriptAction(script);
      EntriesHave(script.value, action, l);
      forall i | 0 <= i < |script.value|
        ensures l in EntryLeaves(script.value[i], action) <==>
                || (l == Danger && (script.value[i].None? || ActionOf(script.value[i].value) != action))
                || exists path, s :: Stands(script, i, path, s) && Says(s, l)
      {
        EntryMeetsExactly(script, i, l);
      }
    }
  }

  lemma EntryMeetsExactly(script: Script, i: nat, l: Leaf)
    requires script.Some? && i < |script.value|
    ensures l in EntryLeaves(script.value[i], ScriptAction(script)) <==>
            || (l == Danger && (script.value[i].None? || ActionOf(script.value[i].value) != ScriptAction(script)))
            || exists path, s :: Stands(script, i, path, s) && Says(s, l)
  {
    if script.value[i].Some? {
      var root := Spot(StatementAt(script.value[i].value), {});
      WalkMeetsExactly(script.value[i].value, l);
      if path :| Found(root, path, l) {
        assert Stands(script, i, path, Reach(root, path).value);
      }
      if path, s :| Stands(script, i, path, s) && Says(s, l) {
        assert Found(root, path, l);
      }
    }
  }

  // A reference the script makes is one of its parts; an unsafe one is a part
  // that is refused, or an entry that is bad.
  lemma ReferenceIsAPart(script: Script, l: Leaf) returns (i: nat, path: seq<Place>, s: Spot)
    requires l in ScriptLeaves(script) && l != Danger
    ensures Stands(script, i, path, s) && Own(s) == Some(l)
  {
    ScriptMeetsExactly(script, l);
    i, path, s :| Stands(script, i, path, s) && Says(s, l);
  }

  lemma OwnIsMet(script: Script, i: nat, path: seq<Place>, s: Spot, l: Leaf)
    requires Stands(script, i, path, s) && Says(s, l)
    ensures l in ScriptLeaves(script)
  {
    ScriptMeetsExactly(script, l);
  }

  // The request of a script is what its parts name, and nothing else: an object
  // is listed exactly when a part names it, a column likewise, and the request
  // is unsafe exactly when an entry or a part makes it so.
  lemma ObjectsAreNamed(script: Script, name: string)
    ensures name in InspectedRequest(script).objects <==>
            exists i, path, s :: Stands(script, i, path, s) && NamesObject(s, name)
  {
    var ls, action := ScriptLeaves(script), ScriptAction(script);
    CollectIsExact(ls, action);
    if l :| l in ls && Gate(l, action).target == Some(name) {
      var i, path, s := ReferenceIsAPart(script, l);
      PartGate(s, name, action);
    }
    if i, path, s :| Stands(script, i, path, s) && NamesObject(s, name) {
      PartGate(s, name, action);
      OwnIsMet(script, i, path, s, Own(s).value);
    }
  }

  lemma ColumnsAreNamed(script: Script, name: string)
    ensures name in InspectedRequest(script).columns <==>
            exists i, path, s :: Stands(script, i, path, s) && NamesColumn(s, name)
  {
    var ls, action := ScriptLeaves(script), ScriptAction(script);
    CollectIsExact(ls, action);
    if l :| l in ls && Gate(l, action).column == Some(name) {
      var i, path, s := ReferenceIsAPart(script, l);
      PartGate(s, name, action);
    }
    if i, path, s :| Stands(script, i, path, s) && NamesColumn(s, name) {
      PartGate(s, name, action);
      OwnIsMet(script, i, path, s, Own(s).value);
    }
  }

  lemma UnsafeIsRefused(script: Script)
    ensures InspectedRequest(script).unsafe <==>
            || BadEntry(script, InspectedRequest(script).action)
            || exists i, path, s :: Stands(script, i, path, s) && Refuses(s, InspectedRequest(script).action)
  {
    var ls, action := ScriptLeaves(script), ScriptAction(script);
    CollectIsExact(ls, action);
    ScriptMeetsExactly(script, Danger);
    if l :| l in ls && Gate(l, action).unsafe {
      ScriptMeetsExactly(script, l);
      if i, path, s :| Stands(script, i, path, s) && Says(s, l) {
        PartGate(s, "", action);
      }
    }
    if i, path, s :| Stands(script, i, path, s) && Refuses(s, action) {
      PartGate(s, "", action);
      if Own(s).Some? {
        ScriptMeetsExactly(script, Own(s).value);
      }
    }
  }

  // ---- The same, kind by kind ----

  lemma PartCounts(script: Script, i: nat, path: seq<Place>, s: Spot, name: string)
    requires Stands(script, i, path, s)
    ensures Refuses(s, InspectedRequest(script).action) ==> InspectedRequest(script).unsafe
    ensures NamesObject(s, name) ==> name in InspectedRequest(script).objects
  {
    UnsafeIsRefused(script);
    ObjectsAreNamed(script, name);
  }

  // Wherever it stands, a table that no alias in sight stands for is listed,
  // unless the request is unsafe or the table is the one open system view.
  lemma TableIsSeen(script: Script, i: nat, path: seq<Place>, s: Spot, at: AtClause, catalog: string, schema: string,
                    table: string)
    requires Stands(script, i, path, s) && s.node == RefAt(BaseTable(at, catalog, schema, table)) && table != ""
    requires !(catalog == "" && schema == "" && Fold(table) in s.env)
    ensures var r := InspectedRequest(script);
            || r.unsafe
            || (catalog == "" && Fold(schema) == "information_schema" && Fold(table) == "tables")
            || (catalog == "" && (if schema == "" then "main" else Fold(schema)) + "." + Fold(table) in r.objects)
  {
    PartCounts(script, i, path, s, QualifiedName(schema, table));
  }

  lemma ColumnIsSeen(script: Script, i: nat, path: seq<Place>, s: Spot, names: seq<string>, children: seq<Expr>)
    requires Stands(script, i, path, s) && s.node == ExprAt(Expr(ColumnRef(names), children))
    requires names != [] && names[|names| - 1] != ""
    ensures Fold(names[|names| - 1]) in InspectedRequest(script).columns
  {
    ColumnsAreNamed(script, Fold(names[|names| - 1]));
  }

  lemma StarIsSeen(script: Script, i: nat, path: seq<Place>, s: Spot, children: seq<Expr>)
    requires Stands(script, i, path, s) && s.node == ExprAt(Expr(Star, children))
    ensures "*" in InspectedRequest(script).columns
  {
    ColumnsAreNamed(script, "*");
  }

  lemma TableFunctionIsSeen(script: Script, i: nat, path: seq<Place>, s: Spot, name: string, children: seq<Expr>,
                            input: FunctionInput)
    requires Stands(script, i, path, s)
    requires s.node == RefAt(TableFunction(Some(Expr(Function(name), children)), input))
    ensures var r := InspectedRequest(script);
            || r.unsafe
            || (Fold(name) == "duckdb_tables" || Fold(name) == "duckdb_columns")
            || "fn:" + Fold(name) in r.objects
    ensures name == "" || Fold(name) == "query" || Fold(name) == "query_table" ==> InspectedRequest(script).unsafe
  {
    PartCounts(script, i, path, s, "fn:" + Fold(name));
  }

  ghost predicate Writes(s: Spot, catalog: string, schema: string, table: string) {
    match s.node
    case ChangeAt(InsertInto(cat, sch, tbl, _, _, _, _)) => cat == catalog && sch == schema && tbl == table
    case CopyAt(copy) => copy.catalog == catalog && copy.schema == schema && copy.table == table
    case _ => false
  }

  // The target of an INSERT or COPY, which no alias can stand for.
  lemma WrittenTableIsSeen(script: Script, i: nat, path: seq<Place>, s: Spot, catalog: string, schema: string,
                           table: string)
    requires Stands(script, i, path, s) && Writes(s, catalog, schema, table) && table != ""
    ensures var r := InspectedRequest(script);
            || r.unsafe
            || (catalog == "" && Fold(schema) == "information_schema" && Fold(table) == "tables")
            || (catalog == "" && (if schema == "" then "main" else Fold(schema)) + "." + Fold(table) in r.objects)
  {
    PartCounts(script, i, path, s, QualifiedName(schema, table));
  }

  lemma ShownTableIsSeen(script: Script, i: nat, path: seq<Place>, s: Spot, catalog: string, schema: string,
                         name: string)
    requires Stands(script, i, path, s) && s.node == RefAt(ShowName(catalog, schema, name))
    requires !IsListing(name)
    requires !(catalog == "" && schema == "" && Fold(name) in s.env)
    ensures var r := InspectedRequest(script);
            || r.unsafe
            || (catalog == "" && Fold(schema) == "information_schema" && Fold(name) == "tables")
            || (catalog == "" && (if schema == "" then "main" else Fold(schema)) + "." + Fold(name) in r.objects)
    ensures name == "" || name == "\"variables\"" ==> InspectedRequest(script).unsafe
  {
    PartCounts(script, i, path, s, QualifiedName(schema, name));
  }

  // A data change in the place of a query, wherever it stands, is of the one
  // action the request is for.
  lemma HiddenChangeIsSeen(script: Script, i: nat, path: seq<Place>, s: Spot)
    requires Stands(script, i, path, s) && s.node.BodyAt? && !InspectedRequest(script).unsafe
    ensures var action := InspectedRequest(script).action;
            match s.node.body
            case ChangeNode(InsertInto(_, _, _, _, _, _, _)) => action == Insert
            case ChangeNode(UpdateTable(_, _, _, _, _)) => action == Update
            case ChangeNode(DeleteFrom(_, _, _, _)) => action == Delete
            case ChangeNode(MergeInto(_, _, _, actions, _)) =>
              && action == Update && actions != []
              && forall k :: 0 <= k < |actions| ==> actions[k].Some? && actions[k].value.updates
            case CopyNode(copy) => copy.Some? && action == CopyTo
            case UnsupportedBody => false
            case _ => true
  {
    UnsafeIsRefused(script);
    if s.node.body.ChangeNode? {
      OneFurther(script, i, path, s, Changed);
    }
  }

  // The action of a request that passes is that of each of its statements.
  lemma ActionIsSeen(script: Script, i: nat)
    requires !InspectedRequest(script).unsafe && script.Some? && i < |script.value|
    ensures script.value[i].Some?
    ensures var action := InspectedRequest(script).action;
            match script.value[i].value
            case SelectStatement(_) => action == Scan
            case Explain(_, _) => action == Scan
            case ChangeStatement(_, InsertInto(_, _, _, _, _, _, _)) => action == Insert
            case ChangeStatement(_, UpdateTable(_, _, _, _, _)) => action == Update
            case ChangeStatement(_, DeleteFrom(_, _, _, _)) => action == Delete
            case ChangeStatement(_, MergeInto(_, _, _, _, _)) => action == Update
            case CopyStatement(copy) => action == if copy.Some? && copy.value.isFrom then CopyFrom else CopyTo
  {
    UnsafeIsRefused(script);
  }

  lemma {:induction false} Further(from: Spot, path: seq<Place>, s: Spot, p: Place)
    requires Reach(from, path) == Some(s) && Step(s, p).Some?
    ensures Reach(from, path + [p]) == Step(s, p)
    decreases |path|
  {
    if path == [] {
      assert path + [p] == [p];
    } else {
      Further(Step(from, path[0]).value, path[1..], s, p);
      assert (path + [p])[1..] == path[1..] + [p];
    }
  }

  lemma OneFurther(script: Script, i: nat, path: seq<Place>, s: Spot, p: Place)
    requires Stands(script, i, path, s) && Step(s, p).Some?
    ensures Stands(script, i, path + [p], Step(s, p).value)
  {
    Further(Spot(StatementAt(script.value[i].value), {}), path, s, p);
  }
}
