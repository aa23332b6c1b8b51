/** First-match rule walk over the (object x column) cells of a request. */
module Policy {
  import opened Wrappers
  import Glob

  datatype Action = Attach | Scan | CopyTo | CopyFrom | ServeAdmin | Insert | Update | Delete | Ddl | Pragma

  datatype Principal = Principal(subject: string, issuer: string, scopes: seq<string>, exp: int)

  datatype Rule = Rule(subject: Option<string>, anyScope: seq<string>, actions: seq<Action>,
                       objectPattern: Option<string>, columnPattern: Option<string>, allow: bool)

  datatype Document = Document(rules: seq<Rule>, defaultAllow: bool)

  datatype Request = Request(action: Action, objects: seq<string>, columns: seq<string>, unsafe: bool)

  datatype Outcome = Outcome(allow: bool, reason: string)

  // What is being decided: may `who` do `action` on this object and column?
  // The empty string stands for "none".
  datatype Cell = Cell(who: Principal, action: Action, target: string, column: string)

  ghost predicate PatternCovers(pattern: Option<string>, name: string) {
    pattern.Some? ==> name != "" && Glob.Denotes(pattern.value, name)
  }

  ghost predicate Applies(rule: Rule, cell: Cell) {
    && (rule.subject.Some? ==> rule.subject.value == cell.who.subject)
    && (rule.anyScope != [] ==> exists s :: s in rule.anyScope && s in cell.who.scopes)
    && (rule.actions != [] ==> cell.action in rule.actions)
    && PatternCovers(rule.objectPattern, cell.target)
    && PatternCovers(rule.columnPattern, cell.column)
  }

  ghost predicate FirstApplicable(rules: seq<Rule>, i: int, cell: Cell) {
    && 0 <= i < |rules|
    && Applies(rules[i], cell)
    && forall j :: 0 <= j < i ==> !Applies(rules[j], cell)
  }

  ghost predicate NoneApplies(rules: seq<Rule>, cell: Cell) {
    forall j :: 0 <= j < |rules| ==> !Applies(rules[j], cell)
  }

  ghost predicate CellAllowed(doc: Document, cell: Cell) {
    || (exists i :: FirstApplicable(doc.rules, i, cell) && doc.rules[i].allow)
    || (NoneApplies(doc.rules, cell) && doc.defaultAllow)
  }

  // The cells a request touches: one blank cell when it names no object.
  ghost predicate Touches(request: Request, cell: Cell) {
    && cell.action == request.action
    && if request.objects == [] then cell.target == "" && cell.column == ""
       else && cell.target in request.objects
            && if request.columns == [] then cell.column == "" else cell.column in request.columns
  }

  ghost predicate RequestAllowed(doc: Document, who: Principal, request: Request) {
    forall cell: Cell :: cell.who == who && Touches(request, cell) ==> CellAllowed(doc, cell)
  }

  function Lead(byRule: bool, allow: bool): string {
    if byRule then if allow then "rule allow" else "rule deny"
    else if allow then "default allow" else "default deny"
  }

  function Reason(lead: string, cell: Cell): string {
    lead + (if cell.target == "" then "" else " on " + cell.target)
         + (if cell.column == "" then "" else "." + cell.column)
  }

  ghost predicate ReasonFits(doc: Document, cell: Cell, outcome: Outcome) {
    outcome.reason == Reason(Lead(!NoneApplies(doc.rules, cell), outcome.allow), cell)
  }

  method HasAnyScope(who: Principal, anyOf: seq<string>) returns (has: bool)
    ensures has <==> (anyOf != [] ==> exists s :: s in anyOf && s in who.scopes)
  {
    if anyOf == [] {
      return true;
    }
    for i := 0 to |anyOf|
      invariant forall j :: 0 <= j < i ==> anyOf[j] !in who.scopes
    {
      if anyOf[i] in who.scopes {
        return true;
      }
    }
    return false;
  }

  method PatternSkips(pattern: Option<string>, name: string) returns (skips: bool)
    ensures skips <==> !PatternCovers(pattern, name)
  {
    if pattern.None? {
      return false;
    }
    if name == "" {
      return true;
    }
    var matched := Glob.GlobMatch(pattern.value, name);
    return !matched;
  }

  // The condition checks of one rule, in the order the rule walk makes them.
  method RuleApplies(rule: Rule, cell: Cell) returns (applies: bool)
    ensures applies <==> Applies(rule, cell)
  {
    if rule.subject.Some? && rule.subject.value != cell.who.subject {
      return false;
    }
    var scoped := HasAnyScope(cell.who, rule.anyScope);
    if !scoped {
      return false;
    }
    if rule.actions != [] && cell.action !in rule.actions {
      return false;
    }
    var skip := PatternSkips(rule.objectPattern, cell.target);
    if skip {
      return false;
    }
    skip := PatternSkips(rule.columnPattern, cell.column);
    return !skip;
  }

  method EvaluateCell(doc: Document, cell: Cell) returns (outcome: Outcome)
    ensures outcome.allow <==> CellAllowed(doc, cell)
    ensures ReasonFits(doc, cell, outcome)
  {
    for i := 0 to |doc.rules|
      invariant forall j :: 0 <= j < i ==> !Applies(doc.rules[j], cell)
    {
      var rule := doc.rules[i];
      var applies := RuleApplies(rule, cell);
      if applies {
        assert FirstApplicable(doc.rules, i, cell);
        OnlyOneFirst(doc.rules, i, cell);
        return Outcome(rule.allow, Reason(Lead(true, rule.allow), cell));
      }
    }
    return Outcome(doc.defaultAllow, Reason(Lead(false, doc.defaultAllow), cell));
  }

  lemma OnlyOneFirst(rules: seq<Rule>, i: int, cell: Cell)
    requires FirstApplicable(rules, i, cell)
    ensures forall k :: FirstApplicable(rules, k, cell) ==> k == i
  {
    forall k | FirstApplicable(rules, k, cell) ensures k == i {
      assert !(i < k) && !(k < i);
    }
  }

  // The cells a request touches on one object.
  ghost predicate TouchesOn(request: Request, who: Principal, target: string, cell: Cell) {
    cell.who == who && cell.target == target && Touches(request, cell)
  }

  ghost predicate DenialNamesACell(doc: Document, who: Principal, request: Request, outcome: Outcome) {
    exists cell: Cell ::
      cell.who == who && Touches(request, cell) && !CellAllowed(doc, cell) && ReasonFits(doc, cell, outcome)
  }

  ghost predicate AllowedOn(doc: Document, who: Principal, request: Request, target: string) {
    forall cell: Cell :: TouchesOn(request, who, target, cell) ==> CellAllowed(doc, cell)
  }

  // The first n columns are allowed on the object.
  ghost predicate ColumnsAllowed(doc: Document, who: Principal, request: Request, target: string, n: nat)
    requires n <= |request.columns|
  {
    forall k :: 0 <= k < n ==> CellAllowed(doc, Cell(who, request.action, target, request.columns[k]))
  }

  lemma OneMoreColumn(doc: Document, who: Principal, request: Request, target: string, n: nat, cell: Cell)
    requires n < |request.columns| && cell == Cell(who, request.action, target, request.columns[n])
    requires ColumnsAllowed(doc, who, request, target, n) && CellAllowed(doc, cell)
    ensures ColumnsAllowed(doc, who, request, target, n + 1)
  {
  }

  lemma AllColumnsAllowed(doc: Document, who: Principal, request: Request, target: string)
    requires target in request.objects && request.columns != []
    requires ColumnsAllowed(doc, who, request, target, |request.columns|)
    ensures AllowedOn(doc, who, request, target)
  {
    forall cell: Cell | TouchesOn(request, who, target, cell) ensures CellAllowed(doc, cell) {
      assert cell == Cell(who, request.action, target, cell.column);
    }
  }

  lemma DeniedOn(doc: Document, who: Principal, request: Request, target: string, cell: Cell, outcome: Outcome)
    requires TouchesOn(request, who, target, cell) && !CellAllowed(doc, cell) && ReasonFits(doc, cell, outcome)
    ensures !AllowedOn(doc, who, request, target) && DenialNamesACell(doc, who, request, outcome)
  {
  }

  lemma OnlyCell(doc: Document, who: Principal, request: Request, target: string, cell: Cell)
    requires target in request.objects && request.columns == [] && cell == Cell(who, request.action, target, "")
    ensures TouchesOn(request, who, target, cell)
    ensures AllowedOn(doc, who, request, target) <==> CellAllowed(doc, cell)
  {
    assert forall other: Cell :: TouchesOn(request, who, target, other) ==> other == cell;
  }

  method EvaluateColumns(doc: Document, who: Principal, request: Request, target: string) returns (outcome: Outcome)
    requires target in request.objects
    ensures outcome.allow <==> AllowedOn(doc, who, request, target)
    ensures !outcome.allow ==> DenialNamesACell(doc, who, request, outcome)
  {
    if request.columns == [] {
      var cell := Cell(who, request.action, target, "");
      outcome := EvaluateCell(doc, cell);
      OnlyCell(doc, who, request, target, cell);
      if !outcome.allow {
        DeniedOn(doc, who, request, target, cell, outcome);
      }
      return;
    }
    for j := 0 to |request.columns|
      invariant ColumnsAllowed(doc, who, request, target, j)
    {
      var cell := Cell(who, request.action, target, request.columns[j]);
      outcome := EvaluateCell(doc, cell);
      if !outcome.allow {
        DeniedOn(doc, who, request, target, cell, outcome);
        return;
      }
      OneMoreColumn(doc, who, request, target, j, cell);
    }
    AllColumnsAllowed(doc, who, request, target);
    return Outcome(true, "ok");
  }

  // Every touched cell must be allowed; the first denied one is reported.
  method EvaluatePolicy(doc: Document, who: Principal, request: Request) returns (outcome: Outcome)
    ensures outcome.allow <==> RequestAllowed(doc, who, request)
    ensures !outcome.allow ==> DenialNamesACell(doc, who, request, outcome)
  {
    if request.objects == [] {
      var blank := Cell(who, request.action, "", "");
      outcome := EvaluateCell(doc, blank);
      assert Touches(request, blank);
      return;
    }
    for i := 0 to |request.objects|
      invariant forall k :: 0 <= k < i ==> AllowedOn(doc, who, request, request.objects[k])
    {
      outcome := EvaluateColumns(doc, who, request, request.objects[i]);
      if !outcome.allow {
        return;
      }
    }
    forall cell: Cell | cell.who == who && Touches(request, cell) ensures CellAllowed(doc, cell) {
      var k :| 0 <= k < |request.objects| && request.objects[k] == cell.target;
      assert TouchesOn(request, who, request.objects[k], cell);
    }
    return Outcome(true, "ok");
  }

  // Permuting or repeating objects and columns never changes a decision.
  lemma OnlyTheNamesMatter(doc: Document, who: Principal, a: Request, b: Request)
    requires a.action == b.action
    requires forall o :: o in a.objects <==> o in b.objects
    requires forall c :: c in a.columns <==> c in b.columns
    ensures RequestAllowed(doc, who, a) <==> RequestAllowed(doc, who, b)
  {
    assert a.objects == [] <==> b.objects == [] by {
      if a.objects != [] { assert a.objects[0] in b.objects; }
      if b.objects != [] { assert b.objects[0] in a.objects; }
    }
    assert a.columns == [] <==> b.columns == [] by {
      if a.columns != [] { assert a.columns[0] in b.columns; }
      if b.columns != [] { assert b.columns[0] in a.columns; }
    }
    forall cell: Cell
      ensures Touches(a, cell) <==> Touches(b, cell)
    {
    }
  }

  function SwapAt(rules: seq<Rule>, i: nat): seq<Rule>
    requires i + 1 < |rules|
  {
    rules[i := rules[i + 1]][i + 1 := rules[i]]
  }

  // Rules of equal priority come in no fixed order. Neighbours that agree on
  // `allow` may be exchanged.
  lemma TiesMayBeReordered(doc: Document, i: nat, cell: Cell)
    requires i + 1 < |doc.rules|
    requires doc.rules[i].allow == doc.rules[i + 1].allow
    ensures CellAllowed(doc.(rules := SwapAt(doc.rules, i)), cell) <==> CellAllowed(doc, cell)
  {
    var swapped := doc.(rules := SwapAt(doc.rules, i));
    assert swapped.(rules := SwapAt(swapped.rules, i)) == doc;
    if CellAllowed(doc, cell) {
      AllowedSurvivesSwap(doc, i, cell);
    }
    if CellAllowed(swapped, cell) {
      AllowedSurvivesSwap(swapped, i, cell);
    }
  }

  lemma AllowedSurvivesSwap(doc: Document, i: nat, cell: Cell)
    requires i + 1 < |doc.rules|
    requires doc.rules[i].allow == doc.rules[i + 1].allow
    requires CellAllowed(doc, cell)
    ensures CellAllowed(doc.(rules := SwapAt(doc.rules, i)), cell)
  {
    var rules, swapped := doc.rules, SwapAt(doc.rules, i);
    if k :| FirstApplicable(rules, k, cell) && rules[k].allow {
      var k' := if k == i && !Applies(rules[i + 1], cell) then i + 1
                else if k == i + 1 then i else k;
      assert FirstApplicable(swapped, k', cell);
      assert swapped[k'].allow;
    } else {
      assert NoneApplies(swapped, cell);
    }
  }

  // Without patterns the decision depends on principal and action alone.
  lemma PatternFreeIgnoresNames(doc: Document, a: Cell, b: Cell)
    requires forall r :: r in doc.rules ==> r.objectPattern.None? && r.columnPattern.None?
    requires a.who == b.who && a.action == b.action
    ensures CellAllowed(doc, a) <==> CellAllowed(doc, b)
  {
    forall i | 0 <= i < |doc.rules|
      ensures Applies(doc.rules[i], a) <==> Applies(doc.rules[i], b)
    {
      assert doc.rules[i] in doc.rules;
    }
    forall i ensures FirstApplicable(doc.rules, i, a) <==> FirstApplicable(doc.rules, i, b) {
    }
  }

  // So the decision on a request depends on its action alone.
  lemma PatternFreeRequests(doc: Document, who: Principal, a: Request, b: Request)
    requires forall r :: r in doc.rules ==> r.objectPattern.None? && r.columnPattern.None?
    requires a.action == b.action
    ensures RequestAllowed(doc, who, a) <==> RequestAllowed(doc, who, b)
  {
    var ca := SomeCell(who, a);
    var cb := SomeCell(who, b);
    PatternFreeIgnoresNames(doc, ca, cb);
    forall cell: Cell | cell.who == who && cell.action == a.action ensures CellAllowed(doc, cell) <==> CellAllowed(doc, ca) {
      PatternFreeIgnoresNames(doc, cell, ca);
    }
  }

  // Every request touches a cell.
  lemma SomeCell(who: Principal, request: Request) returns (cell: Cell)
    ensures cell.who == who && cell.action == request.action && Touches(request, cell)
  {
    var target := if request.objects == [] then "" else request.objects[0];
    var column := if request.objects == [] || request.columns == [] then "" else request.columns[0];
    cell := Cell(who, request.action, target, column);
  }

  // A rule without column pattern covers every column, the `SELECT *` sentinel
  // among them, and so do the rules of a document without column patterns: its
  // decisions depend on action and objects alone.
  lemma UnpatternedColumnsDoNotMatter(doc: Document, who: Principal, a: Request, b: Request)
    requires forall r :: r in doc.rules ==> r.columnPattern.None?
    requires a.action == b.action && a.objects == b.objects
    ensures RequestAllowed(doc, who, a) <==> RequestAllowed(doc, who, b)
  {
    if RequestAllowed(doc, who, a) {
      ColumnsDoNotMatter(doc, who, a, b);
    }
    if RequestAllowed(doc, who, b) {
      ColumnsDoNotMatter(doc, who, b, a);
    }
  }

  lemma ColumnsDoNotMatter(doc: Document, who: Principal, a: Request, b: Request)
    requires forall r :: r in doc.rules ==> r.columnPattern.None?
    requires a.action == b.action && a.objects == b.objects && RequestAllowed(doc, who, a)
    ensures RequestAllowed(doc, who, b)
  {
    forall cell: Cell | cell.who == who && Touches(b, cell) ensures CellAllowed(doc, cell) {
      var other := cell.(column := if a.objects == [] || a.columns == [] then "" else a.columns[0]);
      assert Touches(a, other);
      AnyColumnIsCovered(doc, cell, other);
    }
  }

  lemma AnyColumnIsCovered(doc: Document, a: Cell, b: Cell)
    requires forall r :: r in doc.rules ==> r.columnPattern.None?
    requires a == b.(column := a.column)
    ensures CellAllowed(doc, a) <==> CellAllowed(doc, b)
  {
    forall i | 0 <= i < |doc.rules| ensures Applies(doc.rules[i], a) <==> Applies(doc.rules[i], b) {
      assert doc.rules[i] in doc.rules;
    }
    forall i ensures FirstApplicable(doc.rules, i, a) <==> FirstApplicable(doc.rules, i, b) {
    }
  }

  // A policy of one rule that allows, all else denied: the request passes
  // exactly when the rule is for the principal and the action and its patterns
  // cover all the request names. A pattern never covers a name that is missing.
  lemma SoleRuleAllows(rule: Rule, who: Principal, request: Request)
    requires rule.allow
    ensures RequestAllowed(Document([rule], false), who, request) <==>
            && (rule.subject.None? || rule.subject.value == who.subject)
            && (rule.anyScope == [] || exists s :: s in rule.anyScope && s in who.scopes)
            && (rule.actions == [] || request.action in rule.actions)
            && (rule.objectPattern.None?
                || (request.objects != []
                    && forall o :: o in request.objects ==> o != "" && Glob.Denotes(rule.objectPattern.value, o)))
            && (rule.columnPattern.None?
                || (request.objects != [] && request.columns != []
                    && forall c :: c in request.columns ==> c != "" && Glob.Denotes(rule.columnPattern.value, c)))
  {
    var doc := Document([rule], false);
    forall cell: Cell ensures CellAllowed(doc, cell) <==> Applies(rule, cell) {
      assert doc.rules[0] == rule;
      assert Applies(rule, cell) ==> FirstApplicable(doc.rules, 0, cell);
    }
    var some := SomeCell(who, request);
    if RequestAllowed(doc, who, request) && request.objects != [] {
      forall o | o in request.objects ensures Applies(rule, some.(target := o)) {
        assert Touches(request, some.(target := o));
      }
      forall c | c in request.columns ensures Applies(rule, some.(column := c)) {
        assert Touches(request, some.(column := c));
      }
    }
  }

  predicate CatchesAll(rule: Rule) {
    rule.subject.None? && rule.anyScope == [] && rule.actions == [] && rule.objectPattern.None? && rule.columnPattern.None?
  }

  // The first rule that applies decides: behind a rule without any condition
  // neither further rules nor the default matter, and in front of it each rule
  // that applies outranks it.
  lemma NothingMattersBehindACatchAll(front: seq<Rule>, rule: Rule, back: seq<Rule>, fallback: bool, cell: Cell)
    requires CatchesAll(rule)
    ensures CellAllowed(Document(front + [rule] + back, fallback), cell) <==> CellAllowed(Document(front, rule.allow), cell)
  {
    var long := front + [rule] + back;
    assert long[|front|] == rule && forall i :: 0 <= i < |front| ==> long[i] == front[i];
    if i :| FirstApplicable(front, i, cell) {
      assert FirstApplicable(long, i, cell);
    } else if NoneApplies(front, cell) {
      assert FirstApplicable(long, |front|, cell);
    } else {
      FirstOne(front, cell);
    }
  }

  lemma FirstOne(rules: seq<Rule>, cell: Cell)
    requires !NoneApplies(rules, cell)
    ensures exists i :: FirstApplicable(rules, i, cell)
  {
    var i := 0;
    while !Applies(rules[i], cell)
      invariant 0 <= i < |rules| && (forall j :: 0 <= j < i ==> !Applies(rules[j], cell))
      invariant exists k :: i <= k < |rules| && Applies(rules[k], cell)
      decreases |rules| - i
    {
      i := i + 1;
    }
    assert FirstApplicable(rules, i, cell);
  }
}
