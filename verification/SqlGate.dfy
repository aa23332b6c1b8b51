/** What each kind of reference contributes to an authorization request. */
module SqlGate {
  import opened Wrappers
  import opened Text
  import opened Policy
  import opened SqlAst
  import opened SqlScope

  // A reference may poison the request, name a gated object, name a column.
  datatype Gated = Gated(unsafe: bool, target: Option<string>, column: Option<string>)

  const NOTHING := Gated(false, None, None)
  const FORBIDDEN := Gated(true, None, None)

  const SYSTEM_VIEWS: seq<string> := [
    "pragma_database_list", "sqlite_master", "sqlite_schema", "sqlite_temp_master", "sqlite_temp_schema",
    "duckdb_constraints", "duckdb_columns", "duckdb_databases", "duckdb_indexes", "duckdb_schemas",
    "duckdb_tables", "duckdb_types", "duckdb_views", "duckdb_logs",
    "pg_am", "pg_prepared_statements", "pg_attribute", "pg_attrdef", "pg_class", "pg_constraint",
    "pg_collation", "pg_database", "pg_depend", "pg_description", "pg_enum", "pg_index",
    "pg_indexes", "pg_namespace", "pg_proc", "pg_sequence", "pg_sequences", "pg_settings",
    "pg_tables", "pg_tablespace", "pg_type", "pg_views",
    "columns", "schemata", "tables", "character_sets", "referential_constraints",
    "key_column_usage", "table_constraints", "constraint_column_usage", "constraint_table_usage",
    "check_constraints", "views"]

  const FILE_SUFFIXES: seq<string> := [
    "csv", "tsv", "txt", "parquet", "json", "jsonl", "ndjson", "geojson", "geojsonl", "shp", "gpkg", "fgb",
    "xlsx", "avro", "arrow", "db", "ddb", "duckdb", "sqlite", "gz", "zst"]

  predicate IsAllowedSystemView(schema: string, table: string) {
    schema == "information_schema" && table == "tables"
  }

  predicate IsExemptFunction(name: string) {
    name == "duckdb_tables" || name == "duckdb_columns"
  }

  predicate HasPathCharacter(part: string) {
    '/' in part || '\\' in part || ':' in part
  }

  predicate IsReplacementScanName(catalog: string, schema: string, table: string) {
    || HasPathCharacter(catalog) || HasPathCharacter(schema) || HasPathCharacter(table)
    || '.' in table
    || ((schema != "" || catalog != "") && Fold(table) in FILE_SUFFIXES)
  }

  function SchemaOf(schema: string): string {
    if schema == "" then "main" else Fold(schema)
  }

  function GateObject(catalog: string, schema: string, table: string): Gated {
    var sch, tbl := SchemaOf(schema), Fold(table);
    if table == "" then NOTHING
    else if sch == "information_schema" || sch == "pg_catalog" then
      Gated(catalog != "" || !IsAllowedSystemView(sch, tbl), None, None)
    else if sch == "main" && tbl in SYSTEM_VIEWS then FORBIDDEN
    else Gated(catalog != "", Some(sch + "." + tbl), None)
  }

  function GateShow(catalog: string, schema: string, name: string, bound: bool): Gated {
    if name == "\"variables\"" then FORBIDDEN
    else if name in ["\"databases\"", "\"schemas\"", "\"tables\"", "__show_tables_expanded"] then NOTHING
    else if name == "" || IsReplacementScanName(catalog, schema, name) then FORBIDDEN
    else if bound then NOTHING
    else GateObject(catalog, schema, name)
  }

  function GateFunction(name: string): Gated {
    var lowered := Fold(name);
    Gated(lowered == "query" || lowered == "query_table",
          if IsExemptFunction(lowered) then None else Some("fn:" + lowered), None)
  }

  // A data change in the place of a query must be what the request is for.
  function Gate(leaf: Leaf, action: Action): Gated {
    match leaf
    case TableUse(catalog, schema, table, bound) =>
      if bound then NOTHING
      else if IsReplacementScanName(catalog, schema, table) then FORBIDDEN
      else GateObject(catalog, schema, table)
    case TargetUse(catalog, schema, table) => GateObject(catalog, schema, table)
    case ShowUse(catalog, schema, table, bound) => GateShow(catalog, schema, table, bound)
    case FunctionUse(name) => GateFunction(name)
    case ColumnUse(column) => Gated(false, None, if column == "" then None else Some(Fold(column)))
    case ChangeUse(hidden) => if hidden == action then NOTHING else FORBIDDEN
    case Danger => FORBIDDEN
  }

  // ---- Collecting ----

  datatype Collected = Collected(objects: seq<string>, columns: seq<string>, unsafe: bool)

  function AddNew(names: seq<string>, name: Option<string>): seq<string> {
    if name.None? || name.value in names then names else names + [name.value]
  }

  function Note(c: Collected, g: Gated): Collected {
    Collected(AddNew(c.objects, g.target), AddNew(c.columns, g.column), c.unsafe || g.unsafe)
  }

  function Collect(log: seq<Leaf>, action: Action): Collected {
    if log == [] then Collected([], [], false)
    else Note(Collect(log[..|log| - 1], action), Gate(log[|log| - 1], action))
  }

  predicate NoDuplicates(s: seq<string>) {
    forall i, j :: 0 <= i < j < |s| ==> s[i] != s[j]
  }

  lemma AddNewIsExact(names: seq<string>, name: Option<string>)
    requires NoDuplicates(names)
    ensures NoDuplicates(AddNew(names, name))
    ensures forall x :: x in AddNew(names, name) <==> x in names || name == Some(x)
  {
  }

  ghost predicate Marks(log: seq<Leaf>, action: Action) {
    exists l :: l in log && Gate(l, action).unsafe
  }

  ghost predicate Targets(log: seq<Leaf>, action: Action, name: string) {
    exists l :: l in log && Gate(l, action).target == Some(name)
  }

  ghost predicate Columns(log: seq<Leaf>, action: Action, name: string) {
    exists l :: l in log && Gate(l, action).column == Some(name)
  }

  lemma MembersOfExtended(front: seq<Leaf>, last: Leaf, action: Action)
    ensures Marks(front + [last], action) <==> Marks(front, action) || Gate(last, action).unsafe
    ensures forall x :: Targets(front + [last], action, x)
                   <==> Targets(front, action, x) || Gate(last, action).target == Some(x)
    ensures forall x :: Columns(front + [last], action, x)
                   <==> Columns(front, action, x) || Gate(last, action).column == Some(x)
  {
    assert forall l :: l in front + [last] <==> l in front || l == last;
    assert last in front + [last];
  }

  // Nothing is lost, nothing is invented and nothing is listed twice.
  lemma {:induction false} CollectIsExact(log: seq<Leaf>, action: Action)
    ensures Collect(log, action).unsafe <==> Marks(log, action)
    ensures forall x :: x in Collect(log, action).objects <==> Targets(log, action, x)
    ensures forall x :: x in Collect(log, action).columns <==> Columns(log, action, x)
    ensures NoDuplicates(Collect(log, action).objects) && NoDuplicates(Collect(log, action).columns)
  {
    if log != [] {
      var front, last := log[..|log| - 1], log[|log| - 1];
      CollectIsExact(front, action);
      assert log == front + [last];
      MembersOfExtended(front, last, action);
      AddNewIsExact(Collect(front, action).objects, Gate(last, action).target);
      AddNewIsExact(Collect(front, action).columns, Gate(last, action).column);
    }
  }

  // ---- Scripts ----

  // None: the text did not parse. A None statement is a null pointer.
  type Script = Option<seq<Option<Statement>>>

  function FirstAction(stmts: seq<Option<Statement>>): Option<Action> {
    if stmts == [] then None
    else if stmts[0].Some? then Some(ActionOf(stmts[0].value))
    else FirstAction(stmts[1..])
  }

  // Every statement starts from the empty environment.
  function EntryLeaves(stmt: Option<Statement>, action: Action): seq<Leaf> {
    if stmt.None? then [Danger]
    else (if ActionOf(stmt.value) == action then [] else [Danger]) + StatementLeaves(stmt.value)
  }

  function EntriesLeaves(stmts: seq<Option<Statement>>, action: Action): seq<Leaf> {
    if stmts == [] then [] else EntryLeaves(stmts[0], action) + EntriesLeaves(stmts[1..], action)
  }

  function ScriptAction(script: Script): Action {
    if script.None? then Scan
    else var first := FirstAction(script.value); if first.None? then Scan else first.value
  }

  function ScriptLeaves(script: Script): seq<Leaf> {
    if script.None? then [Danger] else EntriesLeaves(script.value, ScriptAction(script))
  }

  function InspectedRequest(script: Script): Request {
    var c := Collect(ScriptLeaves(script), ScriptAction(script));
    Request(ScriptAction(script), c.objects, c.columns, c.unsafe)
  }

  lemma Regroup(a: seq<Leaf>, b: seq<Leaf>, c: seq<Leaf>)
    ensures a + (b + c) == (a + b) + c
  {
  }

  // A script is judged statement by statement: no alias of one statement is
  // visible to another.
  lemma {:induction false} NoAliasLeaks(before: seq<Option<Statement>>, after: seq<Option<Statement>>, action: Action)
    ensures EntriesLeaves(before + after, action) == EntriesLeaves(before, action) + EntriesLeaves(after, action)
  {
    if before == [] {
      assert before + after == after;
    } else {
      assert (before + after)[1..] == before[1..] + after && (before + after)[0] == before[0];
      NoAliasLeaks(before[1..], after, action);
      Regroup(EntryLeaves(before[0], action), EntriesLeaves(before[1..], action), EntriesLeaves(after, action));
    }
  }

  // A script that mixes two actions never passes the inspector.
  lemma MixedActionsAreUnsafe(stmts: seq<Option<Statement>>, i: nat, j: nat)
    requires i < |stmts| && j < |stmts| && stmts[i].Some? && stmts[j].Some?
    requires ActionOf(stmts[i].value) != ActionOf(stmts[j].value)
    ensures InspectedRequest(Some(stmts)).unsafe
  {
    var action := ScriptAction(Some(stmts));
    if ActionOf(stmts[i].value) != action {
      OtherActionIsForbidden(stmts, i, action);
    } else {
      OtherActionIsForbidden(stmts, j, action);
    }
    DangerIsUnsafe(ScriptLeaves(Some(stmts)), action);
  }

  lemma DangerIsUnsafe(ls: seq<Leaf>, action: Action)
    requires Danger in ls
    ensures Collect(ls, action).unsafe
  {
    CollectIsExact(ls, action);
  }

  lemma {:induction false} OtherActionIsForbidden(stmts: seq<Option<Statement>>, k: nat, action: Action)
    requires k < |stmts| && stmts[k].Some? && ActionOf(stmts[k].value) != action
    ensures Danger in EntriesLeaves(stmts, action)
  {
    if k == 0 {
      assert EntryLeaves(stmts[0], action)[0] == Danger;
    } else {
      OtherActionIsForbidden(stmts[1..], k - 1, action);
    }
  }

  // A script that passes has one action only: every statement in it, and every
  // data change in the place of a query, at any depth.
  lemma PassingScriptsAreUniform(stmts: seq<Option<Statement>>)
    requires !InspectedRequest(Some(stmts)).unsafe
    ensures var action := ScriptAction(Some(stmts));
            && (forall i :: 0 <= i < |stmts| ==> stmts[i].Some? && ActionOf(stmts[i].value) == action)
            && (forall l :: l in ScriptLeaves(Some(stmts)) && l.ChangeUse? ==> l.action == action)
  {
    SafeMeansUniform(ScriptLeaves(Some(stmts)), ScriptAction(Some(stmts)));
    forall i | 0 <= i < |stmts| ensures stmts[i].Some? && ActionOf(stmts[i].value) == ScriptAction(Some(stmts)) {
      EntryOfTheAction(stmts, i, ScriptAction(Some(stmts)));
    }
  }

  lemma SafeMeansUniform(ls: seq<Leaf>, action: Action)
    requires !Collect(ls, action).unsafe
    ensures Danger !in ls && forall l :: l in ls && l.ChangeUse? ==> l.action == action
  {
    CollectIsExact(ls, action);
    forall l | l in ls && l.ChangeUse? ensures l.action == action {
      assert !Gate(l, action).unsafe;
    }
    assert Gate(Danger, action).unsafe;
  }

  lemma EntryOfTheAction(stmts: seq<Option<Statement>>, i: nat, action: Action)
    requires i < |stmts| && Danger !in EntriesLeaves(stmts, action)
    ensures stmts[i].Some? && ActionOf(stmts[i].value) == action
  {
    if stmts[i].None? {
      NullIsForbidden(stmts, i, action);
    } else if ActionOf(stmts[i].value) != action {
      OtherActionIsForbidden(stmts, i, action);
    }
  }

  lemma {:induction false} NullIsForbidden(stmts: seq<Option<Statement>>, k: nat, action: Action)
    requires k < |stmts| && stmts[k].None?
    ensures Danger in EntriesLeaves(stmts, action)
  {
    if k > 0 {
      NullIsForbidden(stmts[1..], k - 1, action);
    }
  }
}
