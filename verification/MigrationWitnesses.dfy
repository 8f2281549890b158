/**
 Two modules with an unsafe drop that the linter of backend/tools/migration_lint.py does not report.
 */
module MigrationWitnesses {
  import opened Wrappers
  import opened MigrationAst
  import opened MigrationVisitor
  import opened MigrationScopes
  import opened MigrationRoutes
  import opened MigrationCut
  import opened MigrationVerdict

  // ----- where the alias table misleads the verdict

  function OpCall(attr: string, args: seq<Node>, line: nat): Node {
    Call(Attribute(Name("op"), attr), args, [], line)
  }

  function Batch(table: string, body: seq<Node>): Node {
    With([WithItem(OpCall("batch_alter_table", [Constant(StringLiteral(table))], 1), Some(Name("batch_op")))], body)
  }

  const UNSAFE_DROP := Call(Attribute(Name("batch_op"), "drop_column"), [Constant(StringLiteral("old"))], [], 2)
  const CALL_HELPER := Call(Name("helper"), [], [], 1)
  /** A helper that opens a batch of its own under the usual alias, called inside a batch. */
  const HELPER_IN_BATCH: seq<Node> := [
    FunctionDef("helper", [Batch("b", [])]),
    FunctionDef("upgrade", [Batch("a", [CALL_HELPER, UNSAFE_DROP])])
  ]

  const HELPER_FUNCTIONS: Functions :=
    map["helper" := HELPER_IN_BATCH[0].defBody, "upgrade" := HELPER_IN_BATCH[1].defBody]
  const IN_BATCH: Tables := map["batch_op" := "a"]

  lemma {:induction false} HelperModule()
    ensures TopLevelFunctions(HELPER_IN_BATCH) == HELPER_FUNCTIONS
    ensures UpgradeStatements(HELPER_IN_BATCH) == HELPER_IN_BATCH[1].defBody
  {
    var first := HELPER_IN_BATCH[..1];
    assert first[..0] == [] && HELPER_IN_BATCH == first + [HELPER_IN_BATCH[1]];
    assert TopLevelFunctions(first) == map["helper" := HELPER_IN_BATCH[0].defBody];
    assert UpgradeStatements(first) == [];
  }

  lemma {:induction false} BatchBinds(table: string, before: Tables)
    ensures Bind(before, Batch(table, []).items) == before["batch_op" := table]
    ensures ItemAliases(Batch(table, []).items) == {"batch_op"}
  {
    var items := Batch(table, []).items;
    assert CallName(items[0].contextExpr) == "op.batch_alter_table";
    assert items[..0] == [] && Bind(before, []) == before;
    assert ItemAlias(items[0]) == Some("batch_op");
  }

  lemma {:induction false} OneStatement(fs: Functions, active: set<string>, tables: Tables, n: Node)
    ensures VisitAll(fs, active, tables, [n]) == Visit(fs, active, tables, n)
    ensures ScopedAll(fs, active, tables, [n]) == Scoped(fs, active, tables, n)
  {
    assert [n][..0] == [];
  }

  lemma {:induction false} TwoStatements(fs: Functions, active: set<string>, tables: Tables, m: Node, n: Node)
    ensures var first := Visit(fs, active, tables, m);
            var second := Visit(fs, active, first.tables, n);
            VisitAll(fs, active, tables, [m, n]) == Visited(first.ops + second.ops, second.tables)
    ensures ScopedAll(fs, active, tables, [m, n]) == Scoped(fs, active, tables, m) + Scoped(fs, active, tables, n)
  {
    assert [m, n][..1] == [m];
    OneStatement(fs, active, tables, m);
  }

  /** A call with a simple name and at most one constant argument, which is not inlined. */
  ghost predicate IsSimple(fs: Functions, active: set<string>, n: Node) {
    && n.Call? && n.keywords == [] && (n.args == [] || (|n.args| == 1 && n.args[0].Constant?))
    && (n.func.Name? || (n.func.Attribute? && n.func.value.Name?)) && !Inlines(fs, active, n)
  }

  lemma {:induction false} SimpleCall(fs: Functions, active: set<string>, tables: Tables, n: Node)
    requires IsSimple(fs, active, n)
    ensures Visit(fs, active, tables, n) == Visited(Recorded(tables, n), tables)
    ensures Scoped(fs, active, tables, n) == Recorded(tables, n)
  {
    if n.args != [] {
      assert n.args == [n.args[0]];
      OneStatement(fs, active, tables, n.args[0]);
    }
    if n.func.Attribute? {
      assert Visit(fs, active, tables, n.func.value) == Visited([], tables)
        && Scoped(fs, active, tables, n.func.value) == [];
    }
    assert Visit(fs, active, tables, n.func) == Visited([], tables) && Scoped(fs, active, tables, n.func) == [];
    assert VisitAll(fs, active, tables, n.args) == Visited([], tables) && ScopedAll(fs, active, tables, n.args) == [];
    assert VisitChildren(fs, active, tables, n) == Visited([], tables) && ScopedChildren(fs, active, tables, n) == [];
  }

  lemma {:induction false} SimpleCallDoesNotShadow(fs: Functions, active: set<string>, inScope: set<string>, n: Node)
    requires IsSimple(fs, active, n)
    ensures !Shadows(fs, active, inScope, n)
  {
    if n.args != [] {
      assert n.args[..0] == [] && !ShadowsAny(fs, active, inScope, n.args[..0]);
      assert !Shadows(fs, active, inScope, n.args[0]);
    }
    if n.func.Attribute? {
      assert !Shadows(fs, active, inScope, n.func.value);
    }
    assert !Shadows(fs, active, inScope, n.func);
    assert !ShadowsAny(fs, active, inScope, n.args) && !ShadowsAny(fs, active, inScope, n.keywords);
  }

  lemma {:induction false} DropIsSimple(fs: Functions, active: set<string>)
    ensures IsSimple(fs, active, UNSAFE_DROP) && Recorded(map[], UNSAFE_DROP) == []
    ensures OperationOf(IN_BATCH, UNSAFE_DROP) == Some(THE_DROP) && Unsafe([], THE_DROP)
  {
    assert CallName(UNSAFE_DROP)[0] == 'b' && "op."[0] == 'o';
    assert "op." + "drop_column" == "op.drop_column";
  }

  const THE_DROP := OperationCall(UNSAFE_DROP, "op.drop_column", Some("a"))

  lemma {:induction false} BatchOf(fs: Functions, active: set<string>, tables: Tables, table: string, body: seq<Node>)
    ensures var inner := VisitAll(fs, active, tables["batch_op" := table], body);
            Visit(fs, active, tables, Batch(table, body)) == Visited(inner.ops, inner.tables - {"batch_op"})
    ensures Scoped(fs, active, tables, Batch(table, body)) == ScopedAll(fs, active, tables["batch_op" := table], body)
  {
    BatchBinds(table, tables);
    assert Batch(table, body).items == Batch(table, []).items;
  }

  /** The helper's own with-statement leaves the caller's alias out of the table. */
  lemma {:induction false} HelperDropsAlias()
    ensures Visit(HELPER_FUNCTIONS, {}, IN_BATCH, CALL_HELPER) == Visited([], map[])
  {
    var (active, inner) := ({"helper"}, HELPER_IN_BATCH[0].defBody[0]);
    BatchBinds("b", IN_BATCH);
    OneStatement(HELPER_FUNCTIONS, active, IN_BATCH, inner);
    assert Visit(HELPER_FUNCTIONS, active, IN_BATCH, inner) == Visited([], map[]);
    assert Inlines(HELPER_FUNCTIONS, {}, CALL_HELPER) && {} + active == active;
    assert VisitHelper(HELPER_FUNCTIONS, {}, IN_BATCH, CALL_HELPER) == Visited([], map[]);
    assert VisitChildren(HELPER_FUNCTIONS, {}, map[], CALL_HELPER) == Visited([], map[]);
  }

  /** The helper's own `batch_op` ends the caller's: the unsafe drop that follows is not reported. */
  lemma {:induction false} HelperHidesUnsafeDrop(sqlTable: string -> Option<string>)
    ensures VisitModule(HELPER_IN_BATCH).ops == [] && !HasErrors(LintOperations(sqlTable, [], []))
    ensures InScope(HELPER_IN_BATCH, THE_DROP) && Unsafe([], THE_DROP)
    ensures THE_DROP in LostModule(HELPER_IN_BATCH)
  {
    var (fs, outer) := (HELPER_FUNCTIONS, HELPER_IN_BATCH[1].defBody[0]);
    HelperModule();
    HelperDropsAlias();
    DropIsSimple(fs, {});
    SimpleCall(fs, {}, map[], UNSAFE_DROP);
    SimpleCall(fs, {}, IN_BATCH, UNSAFE_DROP);
    TwoStatements(fs, {}, IN_BATCH, CALL_HELPER, UNSAFE_DROP);
    BatchOf(fs, {}, map[], "a", outer.body);
    OneStatement(fs, {}, map[], outer);
    assert THE_DROP in ScopedModule(HELPER_IN_BATCH);
    ModuleAgainstScoped(HELPER_IN_BATCH);
    ScopedExactly(HELPER_IN_BATCH, THE_DROP);
    CutLosesNothing(HELPER_IN_BATCH, THE_DROP);
  }

  // ----- where the cut at active helpers misleads it

  const RECURSIVE_BODY: seq<Node> := [Batch("a", [CALL_HELPER]), UNSAFE_DROP]
  /** A helper that calls itself inside the batch it opens. */
  const RECURSIVE_HELPER: seq<Node> := [FunctionDef("helper", RECURSIVE_BODY), FunctionDef("upgrade", [CALL_HELPER])]
  const RECURSIVE_FUNCTIONS: Functions := map["helper" := RECURSIVE_BODY, "upgrade" := [CALL_HELPER]]

  lemma {:induction false} RecursiveModule()
    ensures TopLevelFunctions(RECURSIVE_HELPER) == RECURSIVE_FUNCTIONS
    ensures UpgradeStatements(RECURSIVE_HELPER) == [CALL_HELPER]
  {
    var first := RECURSIVE_HELPER[..1];
    assert first[..0] == [] && RECURSIVE_HELPER == first + [RECURSIVE_HELPER[1]];
    assert TopLevelFunctions(first) == map["helper" := RECURSIVE_BODY];
    assert UpgradeStatements(first) == [];
  }

  /** The inner call is cut, and the drop is met where no alias is left. */
  lemma {:induction false} RecursionIsCut()
    ensures VisitAll(RECURSIVE_FUNCTIONS, {"helper"}, map[], RECURSIVE_BODY) == Visited([], map[])
    ensures ScopedAll(RECURSIVE_FUNCTIONS, {"helper"}, map[], RECURSIVE_BODY) == []
  {
    var (fs, active, batch) := (RECURSIVE_FUNCTIONS, {"helper"}, RECURSIVE_BODY[0]);
    TwoStatements(fs, active, map[], batch, UNSAFE_DROP);
    SimpleCall(fs, active, IN_BATCH, CALL_HELPER);
    OneStatement(fs, active, IN_BATCH, CALL_HELPER);
    BatchOf(fs, active, map[], "a", [CALL_HELPER]);
    DropIsSimple(fs, active);
    SimpleCall(fs, active, map[], UNSAFE_DROP);
  }

  /** No with-statement is visited where its alias is in scope. */
  lemma {:induction false} RecursionDoesNotShadow()
    ensures !ShadowsAny(RECURSIVE_FUNCTIONS, {"helper"}, {}, RECURSIVE_BODY)
  {
    var (fs, active, batch) := (RECURSIVE_FUNCTIONS, {"helper"}, RECURSIVE_BODY[0]);
    assert RECURSIVE_BODY[..1] == [batch] && [batch][..0] == [] && [CALL_HELPER][..0] == [];
    BatchBinds("a", map[]);
    assert batch.items == Batch("a", []).items;
    SimpleCallDoesNotShadow(fs, active, {} + ItemAliases(batch.items), CALL_HELPER);
    assert !ShadowsAny(fs, active, {} + ItemAliases(batch.items), batch.body);
    assert !Shadows(fs, active, {}, batch) && !ShadowsAny(fs, active, {}, [batch]);
    DropIsSimple(fs, active);
    SimpleCallDoesNotShadow(fs, active, {}, UNSAFE_DROP);
  }

  /** The helper calls itself with the alias in force. */
  lemma {:induction false} EntersAgain()
    ensures Enters(RECURSIVE_FUNCTIONS, map[], [CALL_HELPER], Hop("helper", map[]))
    ensures Enters(RECURSIVE_FUNCTIONS, map[], RECURSIVE_BODY, Hop("helper", IN_BATCH))
  {
    var batch := RECURSIVE_BODY[0];
    BatchBinds("a", map[]);
    assert batch.items == Batch("a", []).items && Bind(map[], batch.items) == IN_BATCH;
    assert CallsName(RECURSIVE_FUNCTIONS, CALL_HELPER, "helper");
    assert Lies(map[], [CALL_HELPER][0], CALL_HELPER, map[]) && LiesAny(map[], [CALL_HELPER], CALL_HELPER, map[]);
    assert Lies(IN_BATCH, batch.body[0], CALL_HELPER, IN_BATCH) && Lies(map[], batch, CALL_HELPER, IN_BATCH);
    assert LiesAny(map[], RECURSIVE_BODY, CALL_HELPER, IN_BATCH);
  }

  /** Entered the second time, the helper has the alias, and its drop is an operation. */
  lemma {:induction false} SecondEntryDrops()
    ensures InScope(RECURSIVE_HELPER, THE_DROP) && Unsafe([], THE_DROP)
  {
    var (fs, last) := (RECURSIVE_FUNCTIONS, [Hop("helper", IN_BATCH)]);
    var path := [Hop("helper", map[])] + last;
    RecursiveModule();
    EntersAgain();
    DropIsSimple(fs, {});
    assert Lies(IN_BATCH, RECURSIVE_BODY[1], UNSAFE_DROP, IN_BATCH);
    assert last[1..] == [] && path[1..] == last;
    assert Leads(fs, IN_BATCH, RECURSIVE_BODY, [], UNSAFE_DROP, IN_BATCH);
    assert Leads(fs, map[], RECURSIVE_BODY, last, UNSAFE_DROP, IN_BATCH);
    assert Leads(fs, map[], [CALL_HELPER], path, UNSAFE_DROP, IN_BATCH);
    assert IsOperation(UNSAFE_DROP, IN_BATCH, THE_DROP);
  }

  /** The call of the helper from outside inlines its body. */
  lemma {:induction false} HelperInlined(fs: Functions)
    requires "helper" in fs
    ensures var inner := VisitAll(fs, {"helper"}, map[], fs["helper"]);
            inner == Visited([], map[]) ==> Visit(fs, {}, map[], CALL_HELPER).ops == []
    ensures ScopedAll(fs, {"helper"}, map[], fs["helper"]) == [] ==> Scoped(fs, {}, map[], CALL_HELPER) == []
    ensures !ShadowsAny(fs, {"helper"}, {}, fs["helper"]) ==> !Shadows(fs, {}, {}, CALL_HELPER)
  {
    assert Inlines(fs, {}, CALL_HELPER) && {} + {"helper"} == {"helper"};
    assert VisitChildren(fs, {}, map[], CALL_HELPER) == Visited([], map[])
      && ScopedChildren(fs, {}, map[], CALL_HELPER) == [];
    assert VisitHelper(fs, {}, map[], CALL_HELPER) == VisitAll(fs, {"helper"}, map[], fs["helper"]);
    assert ScopedHelper(fs, {}, map[], CALL_HELPER) == ScopedAll(fs, {"helper"}, map[], fs["helper"]);
    assert ShadowsInHelper(fs, {}, {}, CALL_HELPER) == ShadowsAny(fs, {"helper"}, {}, fs["helper"]);
    assert !ShadowsInChildren(fs, {}, {}, CALL_HELPER);
  }

  /**
   The helper is cut when it is called inside its own batch, so the drop it makes there is not
   reported, although no alias is ever bound again.
   */
  lemma {:induction false} RecursionHidesUnsafeDrop(sqlTable: string -> Option<string>)
    ensures VisitModule(RECURSIVE_HELPER).ops == [] && !HasErrors(LintOperations(sqlTable, [], []))
    ensures LostModule(RECURSIVE_HELPER) == [] && !ModuleShadows(RECURSIVE_HELPER) && ModuleReenters(RECURSIVE_HELPER)
    ensures THE_DROP in CutModule(RECURSIVE_HELPER)
    ensures InScope(RECURSIVE_HELPER, THE_DROP) && Unsafe([], THE_DROP)
  {
    var fs := RECURSIVE_FUNCTIONS;
    RecursiveModule();
    RecursionIsCut();
    RecursionDoesNotShadow();
    HelperInlined(fs);
    OneStatement(fs, {}, map[], CALL_HELPER);
    assert [CALL_HELPER][..0] == [] && !ShadowsAny(fs, {}, {}, [CALL_HELPER]);
    ModuleAgainstScoped(RECURSIVE_HELPER);
    SecondEntryDrops();
    RecordedInScope(RECURSIVE_HELPER, THE_DROP);
    RecordExactly(RECURSIVE_HELPER, THE_DROP);
  }

  const HARMLESS_BODY: seq<Node> := [Batch("a", [CALL_HELPER])]
  /** A helper that calls itself inside the batch it opens, and makes no operation. */
  const HARMLESS_HELPER: seq<Node> := [FunctionDef("helper", HARMLESS_BODY), FunctionDef("upgrade", [CALL_HELPER])]
  const HARMLESS_FUNCTIONS: Functions := map["helper" := HARMLESS_BODY, "upgrade" := [CALL_HELPER]]

  lemma {:induction false} HarmlessModule()
    ensures TopLevelFunctions(HARMLESS_HELPER) == HARMLESS_FUNCTIONS
    ensures UpgradeStatements(HARMLESS_HELPER) == [CALL_HELPER]
  {
    var first := HARMLESS_HELPER[..1];
    assert first[..0] == [] && HARMLESS_HELPER == first + [HARMLESS_HELPER[1]];
    assert TopLevelFunctions(first) == map["helper" := HARMLESS_BODY];
    assert UpgradeStatements(first) == [];
  }

  lemma {:induction false} NothingLies(env: Tables, ns: seq<Node>, c: Node, at: Tables, o: OperationCall)
    requires (ns == HARMLESS_BODY || ns == [CALL_HELPER]) && LiesAny(env, ns, c, at)
    ensures !IsOperation(c, at, o)
    decreases ns == HARMLESS_BODY
  {
    if ns == HARMLESS_BODY && c != ns[0] {
      assert Lies(env, ns[0], c, at) && ns[0].body == [CALL_HELPER];
      var i :| 0 <= i < |ns[0].body| && Lies(Bind(env, ns[0].items), ns[0].body[i], c, at);
      NothingLies(Bind(env, ns[0].items), [CALL_HELPER], c, at, o);
    } else if c != CALL_HELPER {
      assert c == HARMLESS_BODY[0] || Lies(env, CALL_HELPER.func, c, at);
    }
  }

  lemma {:induction false} NothingLed(env: Tables, ns: seq<Node>, path: seq<Hop>, c: Node, at: Tables, o: OperationCall)
    requires ns == HARMLESS_BODY || ns == [CALL_HELPER]
    ensures Leads(HARMLESS_FUNCTIONS, env, ns, path, c, at) ==> !IsOperation(c, at, o)
    decreases |path|
  {
    if path == [] {
      if LiesAny(env, ns, c, at) {
        NothingLies(env, ns, c, at, o);
      }
    } else if Leads(HARMLESS_FUNCTIONS, env, ns, path, c, at) {
      var hop := path[0];
      assert hop.helper in HARMLESS_FUNCTIONS;
      NothingLed(hop.aliases, HARMLESS_FUNCTIONS[hop.helper], path[1..], c, at, o);
    }
  }

  /** The call inside the batch enters an active helper under an alias that its own visit did not have. */
  lemma {:induction false} HarmlessReenters()
    ensures ModuleReenters(HARMLESS_HELPER)
  {
    var (fs, batch, entered) := (HARMLESS_FUNCTIONS, HARMLESS_BODY[0], map["helper" := map[]]);
    HarmlessModule();
    BatchBinds("a", map[]);
    assert batch.items == Batch("a", []).items && Bind(map[], batch.items) == IN_BATCH;
    assert "batch_op" in IN_BATCH && !SubTable(IN_BATCH, entered["helper"]);
    assert CallsName(fs, CALL_HELPER, "helper") && Reenters(fs, entered, IN_BATCH, CALL_HELPER);
    assert ReentersAny(fs, entered, IN_BATCH, [CALL_HELPER]) && Reenters(fs, entered, map[], batch);
    assert ReentersAny(fs, entered, map[], HARMLESS_BODY);
    assert Inlines(fs, {}, CALL_HELPER) && Reenters(fs, map[], map[], CALL_HELPER);
  }

  /** An active helper is called under a new alias, and yet the cut leaves out nothing. */
  lemma {:induction false} HarmlessRecursion()
    ensures ModuleReenters(HARMLESS_HELPER) && CutModule(HARMLESS_HELPER) == {}
  {
    HarmlessModule();
    HarmlessReenters();
    forall o
      ensures o !in CutModule(HARMLESS_HELPER)
    {
      ScopeSplits(HARMLESS_HELPER, o);
      if path, c, at :| Leads(HARMLESS_FUNCTIONS, map[], [CALL_HELPER], path, c, at) && IsOperation(c, at, o) {
        NothingLed(map[], [CALL_HELPER], path, c, at, o);
      }
    }
  }
}
