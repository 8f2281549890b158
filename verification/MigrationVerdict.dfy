/**
 The rules of backend/tools/migration_lint.py and the verdict they add up to.
 */
module MigrationVerdict {
  import opened Wrappers
  import opened MigrationAst
  import opened MigrationVisitor
  import opened MigrationReach
  import opened MigrationScopes
  import opened MigrationRoutes
  import opened MigrationCut

  datatype Severity = Error | Warning
  datatype Rule = AddColumn | AlterColumn | DropColumn | LargeTable
  datatype Issue = Issue(line: nat, severity: Severity, rule: Rule)

  const DROP_COLUMN_SAFE_COMMENT := "# safe: column unused in code since release"
  const ONLINE_SCHEMA_COMMENT := "# expected: requires online schema change"
  const EMPTY_TABLE_WHITELIST: set<string> := {}
  const LARGE_TABLES: set<string> := {
    "account", "accounts", "account_quarantines", "account_status_observations",
    "cross_module_load_buckets", "neuro_comment_events"
  }
  const LARGE_TABLE_OPERATIONS: set<string> := {
    "op.add_column", "op.alter_column", "op.create_check_constraint", "op.create_index",
    "op.create_unique_constraint", "op.execute"
  }
  const NAME_THEN_TABLE: set<string> := {"op.create_index", "op.create_unique_constraint", "op.create_check_constraint"}

  function CallBasename(n: Node): string
    requires n.Call?
  {
    match n.func
    case Name(id) => id
    case Attribute(_, attr) => attr
    case _ => ""
  }

  /** The value of the first keyword argument of that name. */
  function FirstKeyword(keywords: seq<Node>, name: string): Option<Node> {
    if keywords == [] then None
    else if keywords[0].Keyword? && keywords[0].arg == Some(name) then Some(keywords[0].kwValue)
    else FirstKeyword(keywords[1..], name)
  }

  predicate HasNonNoneKeyword(n: Node, name: string)
    requires n.Call?
  {
    var k := FirstKeyword(n.keywords, name);
    k.Some? && !(k.value.Constant? && k.value.literal.NoneLiteral?)
  }

  predicate KeywordIsFalse(n: Node, name: string)
    requires n.Call?
  {
    FirstKeyword(n.keywords, name) == Some(Constant(BoolLiteral(false)))
  }

  predicate Contains(s: string, marker: string) {
    exists k :: 0 <= k <= |s| && marker <= s[k..]
  }

  /** The marker appears on the line itself (1-based), on one of the two before it, or on the next. */
  predicate HasNearbyComment(lines: seq<string>, lineno: nat, marker: string) {
    var start := if lineno < 3 then 0 else lineno - 3;
    var end := if |lines| < lineno + 1 then |lines| else lineno + 1;
    exists i :: start <= i < end && Contains(lines[i], marker)
  }

  /** `a or b` on an optional text: the empty text counts as missing. */
  function OrElse(a: Option<string>, b: Option<string>): Option<string> {
    if a.Some? && a.value != "" then a else b
  }

  predicate Listed(table: Option<string>, tables: set<string>) {
    table.Some? && table.value in tables
  }

  function LintAddColumn(o: OperationCall): seq<Issue>
    requires o.node.Call?
  {
    var n := o.node;
    var table := OrElse(o.table, LiteralArg(n, 0));
    var index := if o.table.Some? then 0 else 1;
    if Listed(table, EMPTY_TABLE_WHITELIST) || index >= |n.args| || !n.args[index].Call? then []
    else
      var column := n.args[index];
      if CallBasename(column) != "Column" then []
      else if KeywordIsFalse(column, "nullable") && !HasNonNoneKeyword(column, "server_default")
      then [Issue(n.lineno, Error, AddColumn)]
      else []
  }

  function LintAlterColumn(o: OperationCall): seq<Issue>
    requires o.node.Call?
  {
    if Listed(OrElse(o.table, LiteralArg(o.node, 0)), EMPTY_TABLE_WHITELIST) then []
    else if KeywordIsFalse(o.node, "nullable") && !HasNonNoneKeyword(o.node, "server_default")
    then [Issue(o.node.lineno, Error, AlterColumn)]
    else []
  }

  function LintDropColumn(lines: seq<string>, o: OperationCall): seq<Issue>
    requires o.node.Call?
  {
    if HasNearbyComment(lines, o.node.lineno, DROP_COLUMN_SAFE_COMMENT) then []
    else [Issue(o.node.lineno, Error, DropColumn)]
  }

  /** `_table_for_operation`; `sqlTable` names the large table an `op.execute` text mentions. */
  function NamedTable(sqlTable: string -> Option<string>, o: OperationCall): Option<string>
    requires o.node.Call?
  {
    if o.name in NAME_THEN_TABLE then LiteralArg(o.node, 1)
    else if o.name == "op.execute" then
      (if LiteralArg(o.node, 0).Some? then sqlTable(LiteralArg(o.node, 0).value) else None)
    else LiteralArg(o.node, 0)
  }

  function LintLargeTable(sqlTable: string -> Option<string>, lines: seq<string>, o: OperationCall): seq<Issue>
    requires o.node.Call?
  {
    if o.name !in LARGE_TABLE_OPERATIONS then []
    else if !Listed(OrElse(o.table, NamedTable(sqlTable, o)), LARGE_TABLES) then []
    else if HasNearbyComment(lines, o.node.lineno, ONLINE_SCHEMA_COMMENT) then []
    else [Issue(o.node.lineno, Warning, LargeTable)]
  }

  function LintRules(lines: seq<string>, o: OperationCall): seq<Issue>
    requires o.node.Call?
  {
    if o.name == "op.add_column" then LintAddColumn(o)
    else if o.name == "op.alter_column" then LintAlterColumn(o)
    else if o.name == "op.drop_column" then LintDropColumn(lines, o)
    else []
  }

  function LintOperation(sqlTable: string -> Option<string>, lines: seq<string>, o: OperationCall): seq<Issue>
    requires o.node.Call?
  {
    LintRules(lines, o) + LintLargeTable(sqlTable, lines, o)
  }

  predicate AllCalls(ops: seq<OperationCall>) {
    forall i :: 0 <= i < |ops| ==> ops[i].node.Call?
  }

  function LintOperations(sqlTable: string -> Option<string>, lines: seq<string>, ops: seq<OperationCall>): seq<Issue>
    requires AllCalls(ops)
  {
    if ops == [] then []
    else LintOperations(sqlTable, lines, ops[..|ops| - 1]) + LintOperation(sqlTable, lines, ops[|ops| - 1])
  }

  predicate HasErrors(issues: seq<Issue>) {
    exists i :: 0 <= i < |issues| && issues[i].severity == Error
  }

  // ----- what the rules are about, said of the syntax tree and the lines alone

  /** Of the keyword arguments of that name, this is the first. */
  ghost predicate FirstNamed(keywords: seq<Node>, name: string, i: int) {
    && 0 <= i < |keywords| && keywords[i].Keyword? && keywords[i].arg == Some(name)
    && forall j :: 0 <= j < i ==> !(keywords[j].Keyword? && keywords[j].arg == Some(name))
  }

  /** `nullable=False` without a server default, as the call writes them; of one name the first counts. */
  ghost predicate NonNullWithoutDefault(n: Node)
    requires n.Call?
  {
    && (exists i :: FirstNamed(n.keywords, "nullable", i) && n.keywords[i].kwValue == Constant(BoolLiteral(false)))
    && (forall i :: FirstNamed(n.keywords, "server_default", i) ==> n.keywords[i].kwValue == Constant(NoneLiteral))
  }

  /** A call of `Column`, by itself or as an attribute of anything. */
  ghost predicate IsColumn(n: Node) {
    n.Call? && (n.func == Name("Column") || (n.func.Attribute? && n.func.attr == "Column"))
  }

  ghost predicate Mentions(line: string, text: string) {
    exists before, after :: line == before + text + after
  }

  /** The line, counted from 1, mentions the text. */
  ghost predicate MentionedOn(lines: seq<string>, l: int, text: string) {
    1 <= l <= |lines| && Mentions(lines[l - 1], text)
  }

  /** One of the lines from two before the given one to the one after it mentions the text. */
  ghost predicate NearbyMentions(lines: seq<string>, lineno: nat, text: string) {
    exists l :: lineno - 2 <= l <= lineno + 1 && MentionedOn(lines, l, text)
  }

  /** The operation breaks one of the first three rules of the migration safety runbook. */
  ghost predicate Unsafe(lines: seq<string>, o: OperationCall) {
    o.node.Call? &&
    match o.name
    case "op.add_column" =>
      var column := if o.table.Some? then 0 else 1;
      column < |o.node.args| && IsColumn(o.node.args[column]) && NonNullWithoutDefault(o.node.args[column])
    case "op.alter_column" => NonNullWithoutDefault(o.node)
    case "op.drop_column" =>
      !NearbyMentions(lines, o.node.lineno, "# safe: column unused in code since release")
    case _ => false
  }

  /** The argument at the index is this text. */
  ghost predicate HasTextArg(n: Node, index: nat, text: string)
    requires n.Call?
  {
    index < |n.args| && n.args[index] == Constant(StringLiteral(text))
  }

  /** The table an operation is about: that of its batch, else the one its arguments name. */
  ghost predicate IsAbout(sqlTable: string -> Option<string>, o: OperationCall, table: string)
    requires o.node.Call?
  {
    if o.table.Some? && o.table.value != "" then o.table.value == table
    else if o.name == "op.execute" then exists sql :: HasTextArg(o.node, 0, sql) && sqlTable(sql) == Some(table)
    else
      var index := if o.name in {"op.create_index", "op.create_unique_constraint", "op.create_check_constraint"}
                   then 1 else 0;
      HasTextArg(o.node, index, table)
  }

  /** The operation may lock a large table, and says nothing about an online change. */
  ghost predicate Risky(sqlTable: string -> Option<string>, lines: seq<string>, o: OperationCall) {
    && o.node.Call?
    && o.name in {"op.add_column", "op.alter_column", "op.create_check_constraint", "op.create_index",
                  "op.create_unique_constraint", "op.execute"}
    && (exists table ::
          && IsAbout(sqlTable, o, table)
          && table in {"account", "accounts", "account_quarantines", "account_status_observations",
                       "cross_module_load_buckets", "neuro_comment_events"})
    && !NearbyMentions(lines, o.node.lineno, "# expected: requires online schema change")
  }

  /** The rule that the name of an unsafe operation stands for. */
  ghost function RuleOf(name: string): Rule {
    match name
    case "op.add_column" => AddColumn
    case "op.alter_column" => AlterColumn
    case _ => DropColumn
  }

  /** The operation accounts for the issue, at its line: an error for its rule, or a warning. */
  ghost predicate AccountsFor(sqlTable: string -> Option<string>, lines: seq<string>, o: OperationCall, issue: Issue) {
    && o.node.Call? && issue.line == o.node.lineno
    && (if issue.severity == Error then Unsafe(lines, o) && issue.rule == RuleOf(o.name)
        else Risky(sqlTable, lines, o) && issue.rule == LargeTable)
  }

  lemma {:induction false} FirstKeywordIs(keywords: seq<Node>, name: string)
    ensures match FirstKeyword(keywords, name)
            case None => forall i :: !FirstNamed(keywords, name, i)
            case Some(v) => exists i :: FirstNamed(keywords, name, i) && keywords[i].kwValue == v
  {
    if keywords != [] {
      var rest := keywords[1..];
      if keywords[0].Keyword? && keywords[0].arg == Some(name) {
        assert FirstNamed(keywords, name, 0);
      } else {
        FirstKeywordIs(rest, name);
        forall i: nat
          ensures FirstNamed(keywords, name, i + 1) <==> FirstNamed(rest, name, i)
        {
          if FirstNamed(rest, name, i) {
            assert forall j :: 0 < j <= i ==> keywords[j] == rest[j - 1];
          }
          if FirstNamed(keywords, name, i + 1) {
            assert forall j :: 0 <= j < i ==> rest[j] == keywords[j + 1];
          }
        }
        if FirstKeyword(rest, name).Some? {
          var i :| FirstNamed(rest, name, i) && rest[i].kwValue == FirstKeyword(rest, name).value;
          assert FirstNamed(keywords, name, i + 1) && keywords[i + 1] == rest[i];
        } else {
          assert forall i: nat :: FirstNamed(keywords, name, i) ==> i > 0 && FirstNamed(rest, name, i - 1);
        }
      }
    }
  }

  lemma {:induction false} KeywordsDecide(n: Node)
    requires n.Call?
    ensures KeywordIsFalse(n, "nullable") && !HasNonNoneKeyword(n, "server_default") <==> NonNullWithoutDefault(n)
  {
    FirstKeywordIs(n.keywords, "nullable");
    FirstKeywordIs(n.keywords, "server_default");
    FirstIsOne(n.keywords, "nullable");
    FirstIsOne(n.keywords, "server_default");
  }

  lemma {:induction false} FirstIsOne(keywords: seq<Node>, name: string)
    ensures forall i, j :: FirstNamed(keywords, name, i) && FirstNamed(keywords, name, j) ==> i == j
  {
  }

  lemma {:induction false} ContainsIsMention(line: string, text: string)
    ensures Contains(line, text) <==> Mentions(line, text)
  {
    if k :| 0 <= k <= |line| && text <= line[k..] {
      assert line == line[..k] + text + line[k..][|text|..];
    }
    if before, after :| line == before + text + after {
      assert line[|before|..] == text + after;
    }
  }

  lemma {:induction false} NearbyCommentIsMention(lines: seq<string>, lineno: nat, text: string)
    ensures HasNearbyComment(lines, lineno, text) <==> NearbyMentions(lines, lineno, text)
  {
    forall i | 0 <= i < |lines|
      ensures Contains(lines[i], text) <==> MentionedOn(lines, i + 1, text)
    {
      ContainsIsMention(lines[i], text);
    }
    if l :| lineno - 2 <= l <= lineno + 1 && MentionedOn(lines, l, text) {
      assert Contains(lines[l - 1], text);
    }
  }

  lemma {:induction false} LargeTableIsRisky(sqlTable: string -> Option<string>, lines: seq<string>, o: OperationCall)
    requires o.node.Call?
    ensures LintLargeTable(sqlTable, lines, o)
            == if Risky(sqlTable, lines, o) then [Issue(o.node.lineno, Warning, LargeTable)] else []
  {
    NearbyCommentIsMention(lines, o.node.lineno, ONLINE_SCHEMA_COMMENT);
    TableIsAbout(sqlTable, o);
  }

  lemma {:induction false} TableIsAbout(sqlTable: string -> Option<string>, o: OperationCall)
    requires o.node.Call?
    ensures forall table :: table in LARGE_TABLES && o.name in LARGE_TABLE_OPERATIONS ==>
              (OrElse(o.table, NamedTable(sqlTable, o)) == Some(table) <==> IsAbout(sqlTable, o, table))
  {
    if o.name == "op.execute" && LiteralArg(o.node, 0).Some? {
      assert HasTextArg(o.node, 0, LiteralArg(o.node, 0).value);
    }
  }

  lemma {:induction false} RulesAreUnsafe(sqlTable: string -> Option<string>, lines: seq<string>, o: OperationCall)
    requires o.node.Call?
    ensures LintRules(lines, o) == if Unsafe(lines, o) then [Issue(o.node.lineno, Error, RuleOf(o.name))] else []
  {
    var column := if o.table.Some? then 0 else 1;
    NearbyCommentIsMention(lines, o.node.lineno, DROP_COLUMN_SAFE_COMMENT);
    KeywordsDecide(o.node);
    if column < |o.node.args| && o.node.args[column].Call? {
      KeywordsDecide(o.node.args[column]);
    }
  }

  /** What one operation leads to: an issue, for each way in which it accounts for one. */
  lemma {:induction false} OperationIssues(sqlTable: string -> Option<string>, lines: seq<string>, o: OperationCall,
      issue: Issue)
    requires o.node.Call?
    ensures issue in LintOperation(sqlTable, lines, o) <==> AccountsFor(sqlTable, lines, o, issue)
    ensures |LintOperation(sqlTable, lines, o)| <= 2
  {
    LargeTableIsRisky(sqlTable, lines, o);
    RulesAreUnsafe(sqlTable, lines, o);
  }

  /** The issues are those that some operation accounts for. */
  lemma {:induction false} IssuesExactly(sqlTable: string -> Option<string>, lines: seq<string>,
                                         ops: seq<OperationCall>,
      issue: Issue)
    requires AllCalls(ops)
    ensures issue in LintOperations(sqlTable, lines, ops)
            <==> exists o :: o in ops && AccountsFor(sqlTable, lines, o, issue)
  {
    if ops != [] {
      var (before, last) := (ops[..|ops| - 1], ops[|ops| - 1]);
      IssuesExactly(sqlTable, lines, before, issue);
      OperationIssues(sqlTable, lines, last, issue);
      assert ops == before + [last];
    }
  }

  /** There is an error exactly when some operation is unsafe. */
  lemma {:induction false} ErrorsAreUnsafe(sqlTable: string -> Option<string>, lines: seq<string>,
                                           ops: seq<OperationCall>)
    requires AllCalls(ops)
    ensures HasErrors(LintOperations(sqlTable, lines, ops)) <==> exists o :: o in ops && Unsafe(lines, o)
  {
    var issues := LintOperations(sqlTable, lines, ops);
    if i :| 0 <= i < |issues| && issues[i].severity == Error {
      IssuesExactly(sqlTable, lines, ops, issues[i]);
    }
    if o :| o in ops && Unsafe(lines, o) {
      IssuesExactly(sqlTable, lines, ops, Issue(o.node.lineno, Error, RuleOf(o.name)));
    }
  }

  /** `lint_migration`: the visit, then the rules over what it recorded. */
  method LintMigration(sqlTable: string -> Option<string>, lines: seq<string>, body: seq<Node>)
    returns (issues: seq<Issue>)
    ensures HasErrors(issues) <==> exists o :: o in VisitModule(body).ops && Unsafe(lines, o)
    ensures forall issue ::
              issue in issues <==> exists o :: o in VisitModule(body).ops && AccountsFor(sqlTable, lines, o, issue)
    ensures AllCalls(VisitModule(body).ops) && issues == LintOperations(sqlTable, lines, VisitModule(body).ops)
  {
    var visitor := new UpgradeOperationVisitor();
    visitor.VisitModuleBody(body);
    var ops := visitor.operations;
    CallsRecorded(TopLevelFunctions(body), {}, map[], UpgradeStatements(body));
    issues := [];
    for i := 0 to |ops|
      invariant issues == LintOperations(sqlTable, lines, ops[..i])
    {
      assert ops[..i + 1][..i] == ops[..i];
      issues := issues + LintOperation(sqlTable, lines, ops[i]);
    }
    assert ops[..|ops|] == ops;
    ReportExactly(sqlTable, lines, ops);
  }

  lemma {:induction false} ReportExactly(sqlTable: string -> Option<string>, lines: seq<string>,
                                         ops: seq<OperationCall>)
    requires AllCalls(ops)
    ensures var issues := LintOperations(sqlTable, lines, ops);
            && (HasErrors(issues) <==> exists o :: o in ops && Unsafe(lines, o))
            && forall issue :: issue in issues <==> exists o :: o in ops && AccountsFor(sqlTable, lines, o, issue)
  {
    ErrorsAreUnsafe(sqlTable, lines, ops);
    forall issue
      ensures issue in LintOperations(sqlTable, lines, ops) <==>
              exists o :: o in ops && AccountsFor(sqlTable, lines, o, issue)
    {
      IssuesExactly(sqlTable, lines, ops, issue);
    }
  }

  lemma {:induction false} CallsRecorded(fs: Functions, active: set<string>, tables: Tables, ns: seq<Node>)
    ensures AllCalls(VisitAll(fs, active, tables, ns).ops)
    decreases |fs.Keys - active|, ns, 0
  {
    if ns != [] {
      CallsRecorded(fs, active, tables, ns[..|ns| - 1]);
      CallsRecordedIn(fs, active, VisitAll(fs, active, tables, ns[..|ns| - 1]).tables, ns[|ns| - 1]);
    }
  }

  lemma {:induction false} CallsRecordedIn(fs: Functions, active: set<string>, tables: Tables, n: Node)
    ensures AllCalls(Visit(fs, active, tables, n).ops)
    decreases |fs.Keys - active|, n, 1
  {
    match n {
      case Attribute(value, _) => CallsRecordedIn(fs, active, tables, value);
      case Keyword(_, value) => CallsRecordedIn(fs, active, tables, value);
      case Other(children) => CallsRecorded(fs, active, tables, children);
      case With(items, body) => CallsRecorded(fs, active, Bind(tables, items), body);
      case Call(_, _, _, _) =>
        if Inlines(fs, active, n) {
          FewerInactive(fs, active, n.func.id);
          CallsRecorded(fs, active + {n.func.id}, tables, fs[n.func.id]);
        }
        CallsRecordedInChildren(fs, active, VisitHelper(fs, active, tables, n).tables, n);
      case _ =>
    }
  }

  lemma {:induction false} CallsRecordedInChildren(fs: Functions, active: set<string>, tables: Tables, n: Node)
    requires n.Call?
    ensures AllCalls(VisitChildren(fs, active, tables, n).ops)
    decreases |fs.Keys - active|, n, 0
  {
    var func := Visit(fs, active, tables, n.func);
    CallsRecordedIn(fs, active, tables, n.func);
    CallsRecorded(fs, active, func.tables, n.args);
    CallsRecorded(fs, active, VisitAll(fs, active, func.tables, n.args).tables, n.keywords);
  }

  /**
   The verdict on direct calls: a report without errors means that no `op.<x>(...)` call in
   `upgrade`, or in a helper any chain of calls leads to, is unsafe; and a report has errors only for
   such a call or for an unsafe call on a batch alias in scope.
   */
  lemma {:induction false} VerdictOnDirectCalls(sqlTable: string -> Option<string>, lines: seq<string>,
        body: seq<Node>, issues: seq<Issue>)
    requires AllCalls(VisitModule(body).ops) && issues == LintOperations(sqlTable, lines, VisitModule(body).ops)
    ensures HasErrors(issues) <==>
            || (exists c: Node :: IsDirectOp(c) && Reachable(TopLevelFunctions(body), UpgradeStatements(body), c)
                                  && Unsafe(lines, OperationCall(c, CallName(c), None)))
            || (exists o :: o in VisitModule(body).ops && o.table.Some? && Unsafe(lines, o))
  {
    ErrorsAreUnsafe(sqlTable, lines, VisitModule(body).ops);
    forall o | o in VisitModule(body).ops && Unsafe(lines, o) && o.table.None?
      ensures IsDirectOp(o.node) && Reachable(TopLevelFunctions(body), UpgradeStatements(body), o.node)
              && o == OperationCall(o.node, CallName(o.node), None)
    {
      DirectOperationsExact(body, o);
    }
    forall c: Node | IsDirectOp(c) && Reachable(TopLevelFunctions(body), UpgradeStatements(body), c)
      ensures OperationCall(c, CallName(c), None) in VisitModule(body).ops
    {
      DirectOperationsExact(body, OperationCall(c, CallName(c), None));
    }
  }

  /**
   The verdict on all calls, batch aliases included.  Some chain of calls leads to an unsafe operation
   exactly when the report has an error or an operation that was lost to a rebinding, or that only a cut
   call leads to, is unsafe.  So an error is never made up, and a report without errors clears all chains
   exactly when nothing lost or cut is unsafe; as it does where nothing is lost and no active helper is
   called under an alias that its own visit did not have.
   */
  lemma {:induction false} VerdictOnScopedCalls(sqlTable: string -> Option<string>, lines: seq<string>, body: seq<Node>,
      issues: seq<Issue>)
    requires AllCalls(VisitModule(body).ops) && issues == LintOperations(sqlTable, lines, VisitModule(body).ops)
    ensures (exists o :: InScope(body, o) && Unsafe(lines, o)) <==>
              HasErrors(issues) || exists o :: (o in LostModule(body) || o in CutModule(body)) && Unsafe(lines, o)
    ensures LostModule(body) == [] ==> (HasErrors(issues) <==> exists o :: InScopeOnce(body, o) && Unsafe(lines, o))
    ensures LostModule(body) == [] && !ModuleReenters(body) ==>
              (HasErrors(issues) <==> exists o :: InScope(body, o) && Unsafe(lines, o))
  {
    ErrorsAreUnsafe(sqlTable, lines, VisitModule(body).ops);
    forall o
      ensures InScope(body, o) <==> o in VisitModule(body).ops || o in LostModule(body) || o in CutModule(body)
      ensures LostModule(body) == [] ==> (o in VisitModule(body).ops <==> InScopeOnce(body, o))
      ensures LostModule(body) == [] && !ModuleReenters(body) ==> (o in VisitModule(body).ops <==> InScope(body, o))
    {
      RecordExactly(body, o);
      RecordedInScope(body, o);
    }
  }
}
