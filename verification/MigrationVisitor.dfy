/**
 `_UpgradeOperationVisitor` of backend/tools/migration_lint.py: what one visit records and what it
 leaves in the alias table (the functions), and the visitor object that does it in place.
 */
module MigrationVisitor {
  import opened Wrappers
  import opened Sequences
  import opened Strings
  import opened MigrationAst

  type Functions = map<string, seq<Node>>
  type Tables = map<string, string>

  datatype OperationCall = OperationCall(node: Node, name: string, table: Option<string>)

  datatype Visited = Visited(ops: seq<OperationCall>, tables: Tables)

  const NOT_INLINED: set<string> := {"upgrade", "downgrade"}

  /** What the call itself is recorded as, if anything. */
  function OperationOf(tables: Tables, n: Node): Option<OperationCall>
    requires n.Call?
  {
    if IsDirectOp(n) then Some(OperationCall(n, CallName(n), None))
    else if n.func.Attribute? && n.func.value.Name? && n.func.value.id in tables then
      Some(OperationCall(n, "op." + n.func.attr, Some(tables[n.func.value.id])))
    else None
  }

  function Recorded(tables: Tables, n: Node): seq<OperationCall>
    requires n.Call?
  {
    var operation := OperationOf(tables, n);
    if operation.Some? then [operation.value] else []
  }

  /** The helper a call inlines: known, not an entry point, and not already being visited. */
  predicate Inlines(fs: Functions, active: set<string>, n: Node)
    requires n.Call?
  {
    n.func.Name? && n.func.id in fs && n.func.id !in NOT_INLINED && n.func.id !in active
  }

  function Bind(tables: Tables, items: seq<WithItem>): Tables {
    if items == [] then tables
    else
      var before := Bind(tables, items[..|items| - 1]);
      var item := items[|items| - 1];
      if ItemAlias(item).Some? then before[ItemAlias(item).value := BatchTable(item.contextExpr).value] else before
  }

  function ItemAliases(items: seq<WithItem>): set<string> {
    set i | 0 <= i < |items| && ItemAlias(items[i]).Some? :: ItemAlias(items[i]).value
  }

  /** One more active helper leaves fewer to inline: the first component of the visit's measure. */
  lemma {:induction false} FewerInactive(fs: Functions, active: set<string>, h: string)
    requires h in fs && h !in active
    ensures |fs.Keys - (active + {h})| < |fs.Keys - active|
  {
    assert fs.Keys - (active + {h}) == (fs.Keys - active) - {h};
  }

  function Visit(fs: Functions, active: set<string>, tables: Tables, n: Node): Visited
    decreases |fs.Keys - active|, n, 2
  {
    match n
    case Attribute(value, _) => Visit(fs, active, tables, value)
    case Keyword(_, value) => Visit(fs, active, tables, value)
    case Other(children) => VisitAll(fs, active, tables, children)
    case With(items, body) =>
      var inner := VisitAll(fs, active, Bind(tables, items), body);
      Visited(inner.ops, inner.tables - ItemAliases(items))
    case Call(_, _, _, _) =>
      var helper := VisitHelper(fs, active, tables, n);
      var children := VisitChildren(fs, active, helper.tables, n);
      Visited(Recorded(tables, n) + helper.ops + children.ops, children.tables)
    case _ => Visited([], tables)
  }

  /** `generic_visit` of a call: the function expression, the arguments, the keywords. */
  function VisitChildren(fs: Functions, active: set<string>, tables: Tables, n: Node): Visited
    requires n.Call?
    decreases |fs.Keys - active|, n, 1
  {
    var func := Visit(fs, active, tables, n.func);
    var args := VisitAll(fs, active, func.tables, n.args);
    var keywords := VisitAll(fs, active, args.tables, n.keywords);
    Visited(func.ops + args.ops + keywords.ops, keywords.tables)
  }

  function VisitHelper(fs: Functions, active: set<string>, tables: Tables, n: Node): Visited
    requires n.Call?
    decreases |fs.Keys - active|, n, 0
  {
    if Inlines(fs, active, n) then
      FewerInactive(fs, active, n.func.id);
      VisitAll(fs, active + {n.func.id}, tables, fs[n.func.id])
    else Visited([], tables)
  }

  function VisitAll(fs: Functions, active: set<string>, tables: Tables, ns: seq<Node>): Visited
    decreases |fs.Keys - active|, ns, 0
  {
    if ns == [] then Visited([], tables)
    else
      var before := VisitAll(fs, active, tables, ns[..|ns| - 1]);
      var last := Visit(fs, active, before.tables, ns[|ns| - 1]);
      Visited(before.ops + last.ops, last.tables)
  }

  // ----- a module: its top-level functions (the last definition of a name wins) and its entry points

  function TopLevelFunctions(body: seq<Node>): Functions {
    if body == [] then map[]
    else
      var before := TopLevelFunctions(body[..|body| - 1]);
      var last := body[|body| - 1];
      if last.FunctionDef? then before[last.name := last.defBody] else before
  }

  predicate IsUpgrade(n: Node) {
    n.FunctionDef? && n.name == "upgrade"
  }

  function UpgradeStatements(body: seq<Node>): seq<Node> {
    if body == [] then []
    else
      var before := UpgradeStatements(body[..|body| - 1]);
      var last := body[|body| - 1];
      if IsUpgrade(last) then before + last.defBody else before
  }

  function VisitModule(body: seq<Node>): Visited {
    VisitAll(TopLevelFunctions(body), {}, map[], UpgradeStatements(body))
  }

  // ----- the visitor object

  class UpgradeOperationVisitor {
    var operations: seq<OperationCall>
    var batchTables: Tables
    var functions: Functions
    var activeHelpers: set<string>

    constructor ()
      ensures operations == [] && batchTables == map[] && functions == map[] && activeHelpers == {}
    {
      operations, batchTables, functions, activeHelpers := [], map[], map[], {};
    }

    twostate predicate Did(v: Visited)
      reads this
    {
      && operations == old(operations) + v.ops
      && batchTables == v.tables
      && activeHelpers == old(activeHelpers)
      && functions == old(functions)
    }

    method VisitStatements(ns: seq<Node>)
      modifies this
      ensures Did(VisitAll(old(functions), old(activeHelpers), old(batchTables), ns))
      decreases |functions.Keys - activeHelpers|, ns, 0
    {
      for i := 0 to |ns|
        invariant Did(VisitAll(old(functions), old(activeHelpers), old(batchTables), ns[..i]))
      {
        VisitNode(ns[i]);
        assert ns[..i + 1][..i] == ns[..i];
      }
      assert ns[..|ns|] == ns;
    }

    method VisitNode(n: Node)
      modifies this
      ensures Did(Visit(old(functions), old(activeHelpers), old(batchTables), n))
      decreases |functions.Keys - activeHelpers|, n, 3
    {
      match n
      case Attribute(value, _) => VisitNode(value);
      case Keyword(_, value) => VisitNode(value);
      case Other(children) => VisitStatements(children);
      case With(items, body) => VisitWith(n);
      case Call(_, _, _, _) => VisitCall(n);
      case _ =>
    }

    method VisitCall(n: Node)
      requires n.Call?
      modifies this
      ensures Did(Visit(old(functions), old(activeHelpers), old(batchTables), n))
      decreases |functions.Keys - activeHelpers|, n, 2
    {
      ghost var helper := VisitHelper(functions, activeHelpers, batchTables, n);
      ghost var children := VisitChildren(functions, activeHelpers, helper.tables, n);
      Joined(operations, Recorded(batchTables, n), helper.ops, children.ops);
      Record(n);
      VisitHelperCall(n);
      VisitCallChildren(n);
    }

    method Record(n: Node)
      requires n.Call?
      modifies `operations
      ensures operations == old(operations) + Recorded(batchTables, n)
    {
      var operation := OperationOf(batchTables, n);
      if operation.Some? {
        operations := operations + [operation.value];
      }
    }

    method VisitCallChildren(n: Node)
      requires n.Call?
      modifies this
      ensures Did(VisitChildren(old(functions), old(activeHelpers), old(batchTables), n))
      decreases |functions.Keys - activeHelpers|, n, 1
    {
      ghost var func := Visit(functions, activeHelpers, batchTables, n.func);
      ghost var args := VisitAll(functions, activeHelpers, func.tables, n.args);
      ghost var keywords := VisitAll(functions, activeHelpers, args.tables, n.keywords);
      Joined(operations, func.ops, args.ops, keywords.ops);
      VisitNode(n.func);
      VisitStatements(n.args);
      VisitStatements(n.keywords);
    }

    method VisitWith(n: Node)
      requires n.With?
      modifies this
      ensures Did(Visit(old(functions), old(activeHelpers), old(batchTables), n))
      decreases |functions.Keys - activeHelpers|, n, 0
    {
      var added := AddAliases(n.items);
      VisitStatements(n.body);
      DropAliases(added);
    }

    method AddAliases(items: seq<WithItem>) returns (added: seq<string>)
      modifies `batchTables
      ensures batchTables == Bind(old(batchTables), items) && Elements(added) == ItemAliases(items)
    {
      added := [];
      for i := 0 to |items|
        invariant batchTables == Bind(old(batchTables), items[..i]) && Elements(added) == ItemAliases(items[..i])
      {
        AliasStep(items, i);
        assert items[..i + 1][..i] == items[..i];
        var table := BatchTable(items[i].contextExpr);
        if table.Some? && items[i].optionalVars.Some? && items[i].optionalVars.value.Name? {
          var alias := items[i].optionalVars.value.id;
          batchTables := batchTables[alias := table.value];
          added := added + [alias];
        }
      }
      assert items[..|items|] == items;
    }

    method DropAliases(added: seq<string>)
      modifies `batchTables
      ensures batchTables == old(batchTables) - Elements(added)
    {
      for i := 0 to |added|
        invariant batchTables == old(batchTables) - Elements(added[..i])
      {
        batchTables := batchTables - {added[i]};
        assert Elements(added[..i + 1]) == Elements(added[..i]) + {added[i]};
      }
      assert added[..|added|] == added;
    }

    method VisitHelperCall(n: Node)
      requires n.Call?
      modifies this
      ensures Did(VisitHelper(old(functions), old(activeHelpers), old(batchTables), n))
      decreases |functions.Keys - activeHelpers|, n, 0
    {
      if !Inlines(functions, activeHelpers, n) {
        return;
      }
      var h := n.func.id;
      FewerInactive(functions, activeHelpers, h);
      activeHelpers := activeHelpers + {h};
      VisitStatements(functions[h]);
      activeHelpers := activeHelpers - {h};
    }

    method CollectFunctions(body: seq<Node>)
      modifies `functions
      ensures functions == TopLevelFunctions(body)
    {
      functions := map[];
      for i := 0 to |body|
        invariant functions == TopLevelFunctions(body[..i])
      {
        assert body[..i + 1][..i] == body[..i];
        if body[i].FunctionDef? {
          functions := functions[body[i].name := body[i].defBody];
        }
      }
      assert body[..|body|] == body;
    }

    method VisitModuleBody(body: seq<Node>)
      requires operations == [] && batchTables == map[] && activeHelpers == {}
      modifies this
      ensures operations == VisitModule(body).ops && batchTables == VisitModule(body).tables && activeHelpers == {}
    {
      CollectFunctions(body);
      for i := 0 to |body|
        invariant functions == TopLevelFunctions(body) && activeHelpers == {}
        invariant Visited(operations, batchTables) == VisitAll(functions, {}, map[], UpgradeStatements(body[..i]))
      {
        assert body[..i + 1][..i] == body[..i];
        if IsUpgrade(body[i]) {
          VisitStatements(body[i].defBody);
          VisitAllAppends(functions, {}, map[], UpgradeStatements(body[..i]), body[i].defBody);
        }
      }
      assert body[..|body|] == body;
    }
  }

  /** Statement lists are visited left to right, so visiting `xs + ys` is visiting `xs`, then `ys`. */
  lemma {:induction false} VisitAllAppends(fs: Functions, active: set<string>, tables: Tables, xs: seq<Node>,
                                           ys: seq<Node>)
    ensures var x := VisitAll(fs, active, tables, xs);
            var y := VisitAll(fs, active, x.tables, ys);
            VisitAll(fs, active, tables, xs + ys) == Visited(x.ops + y.ops, y.tables)
  {
    if ys == [] {
      assert xs + ys == xs;
    } else {
      assert (xs + ys)[..|xs + ys| - 1] == xs + ys[..|ys| - 1];
      VisitAllAppends(fs, active, tables, xs, ys[..|ys| - 1]);
    }
  }

  lemma {:induction false} AliasStep(items: seq<WithItem>, i: nat)
    requires i < |items|
    ensures ItemAliases(items[..i + 1]) ==
            ItemAliases(items[..i]) + (if ItemAlias(items[i]).Some? then {ItemAlias(items[i]).value} else {})
  {
    forall a | a in ItemAliases(items[..i])
      ensures a in ItemAliases(items[..i + 1])
    {
      var j :| 0 <= j < i && ItemAlias(items[..i][j]).Some? && ItemAlias(items[..i][j]).value == a;
      assert items[..i + 1][j] == items[..i][j];
    }
    if ItemAlias(items[i]).Some? {
      assert items[..i + 1][i] == items[i];
    }
  }
}
