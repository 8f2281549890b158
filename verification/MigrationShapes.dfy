/**
 What the linter of backend/tools/migration_lint.py takes for an operation, a batch, a helper and an
 entry point, said of the syntax tree alone.
 */
module MigrationShapes {
  import opened Wrappers
  import opened MigrationAst
  import opened MigrationVisitor

  /** Names are identifiers: there is no dot in them. */
  predicate IsIdentifier(name: string) {
    '.' !in name
  }

  /** A call `base.attr(...)`. */
  predicate IsMethodCall(n: Node, base: string, attr: string) {
    n.Call? && n.func == Attribute(Name(base), attr)
  }

  lemma {:induction false} PrefixIsOp(base: string, attr: string)
    requires IsIdentifier(base)
    ensures "op." <= base + "." + attr <==> base == "op"
  {
    var name := base + "." + attr;
    assert name[|base|] == '.' && forall i :: 0 <= i < |base| ==> name[i] == base[i] != '.';
    if "op." <= name {
      assert name[0] != '.' && name[1] != '.' && name[2] == '.';
      assert |base| == 2 && base == name[..2];
    }
  }

  /** A direct operation is a call `op.attr(...)`. */
  lemma {:induction false} DirectShape(n: Node)
    requires n.Call? && n.func.Attribute? && n.func.value.Name? ==> IsIdentifier(n.func.value.id)
    ensures IsDirectOp(n) <==> exists attr :: IsMethodCall(n, "op", attr)
  {
    if n.Call? && n.func.Attribute? && n.func.value.Name? {
      PrefixIsOp(n.func.value.id, n.func.attr);
      assert IsMethodCall(n, n.func.value.id, n.func.attr);
    } else if n.Call? {
      assert CallName(n) == "";
    }
  }

  /**
   What a call is recorded as: `op.attr(...)` under its own name and without a table, and `alias.attr(...)`
   as the operation `op.attr` on the table that the alias stands for.
   */
  lemma {:induction false} OperationShape(tables: Tables, n: Node, o: OperationCall)
    requires n.Call? && (n.func.Attribute? && n.func.value.Name? ==> IsIdentifier(n.func.value.id))
    ensures OperationOf(tables, n) == Some(o) <==>
            exists base, attr ::
              && IsMethodCall(n, base, attr) && o.node == n && o.name == "op." + attr
              && (if base == "op" then o.table == None else base in tables && o.table == Some(tables[base]))
  {
    if n.func.Attribute? && n.func.value.Name? {
      var (base, attr) := (n.func.value.id, n.func.attr);
      PrefixIsOp(base, attr);
      assert IsMethodCall(n, base, attr) && "op" + "." + attr == "op." + attr;
      assert CallName(n) == base + "." + attr;
    } else {
      assert CallName(n) == "" && !IsDirectOp(n);
    }
  }

  /** A with-item `op.batch_alter_table("table", ...) as alias`. */
  ghost predicate OpensBatch(item: WithItem, alias: string, table: string) {
    && IsMethodCall(item.contextExpr, "op", "batch_alter_table")
    && item.contextExpr.args != [] && item.contextExpr.args[0] == Constant(StringLiteral(table))
    && item.optionalVars == Some(Name(alias))
  }

  lemma {:induction false} BatchShape(item: WithItem, alias: string, table: string)
    requires var n := item.contextExpr;
             n.Call? && n.func.Attribute? && n.func.value.Name? ==>
               IsIdentifier(n.func.value.id) && IsIdentifier(n.func.attr)
    ensures ItemAlias(item) == Some(alias) && BatchTable(item.contextExpr) == Some(table)
            <==> OpensBatch(item, alias, table)
  {
    var n := item.contextExpr;
    if n.Call? && n.func.Attribute? && n.func.value.Name? {
      var (base, attr) := (n.func.value.id, n.func.attr);
      if base + "." + attr == "op.batch_alter_table" {
        assert "op." <= base + "." + attr;
        PrefixIsOp(base, attr);
        assert (base + "." + attr)[3..] == attr && "op.batch_alter_table"[3..] == "batch_alter_table";
      } else {
        assert "op" + "." + "batch_alter_table" == "op.batch_alter_table";
      }
    } else if n.Call? {
      assert CallName(n) == "";
    }
  }

  /** The item binds the alias, and no later one does. */
  ghost predicate BindsLast(items: seq<WithItem>, i: nat, alias: string) {
    i < |items| && ItemAlias(items[i]) == Some(alias)
    && forall j :: i < j < |items| ==> ItemAlias(items[j]) != Some(alias)
  }

  /** The last item of a with-statement that binds the alias decides its table. */
  lemma {:induction false} BindShape(tables: Tables, items: seq<WithItem>, alias: string, j: nat) returns (i: nat)
    requires j < |items| && ItemAlias(items[j]) == Some(alias)
    ensures BindsLast(items, i, alias) && alias in Bind(tables, items)
    ensures BatchTable(items[i].contextExpr) == Some(Bind(tables, items)[alias])
  {
    var (front, last) := (items[..|items| - 1], |items| - 1);
    BindOne(tables, items, alias);
    if ItemAlias(items[last]) == Some(alias) {
      i := last;
    } else {
      i := BindShape(tables, front, alias, j);
      LaterBinds(items, i, alias);
    }
  }

  lemma {:induction false} LaterBinds(items: seq<WithItem>, i: nat, alias: string)
    requires items != [] && BindsLast(items[..|items| - 1], i, alias)
    requires ItemAlias(items[|items| - 1]) != Some(alias)
    ensures BindsLast(items, i, alias)
  {
    var front := items[..|items| - 1];
    forall k | i < k < |items|
      ensures ItemAlias(items[k]) != Some(alias)
    {
      if k < |items| - 1 {
        assert items[k] == front[k];
      }
    }
  }

  /** The last item binds its alias, and leaves the others as the items before it do. */
  lemma {:induction false} BindOne(tables: Tables, items: seq<WithItem>, alias: string)
    requires items != []
    ensures var (all, front, last) := (Bind(tables, items), Bind(tables, items[..|items| - 1]), items[|items| - 1]);
            if ItemAlias(last) == Some(alias) then alias in all && BatchTable(last.contextExpr) == Some(all[alias])
            else (alias in all <==> alias in front) && (alias in all ==> all[alias] == front[alias])
  {
  }

  /** An alias that no item binds is as it was before. */
  lemma {:induction false} UnboundShape(tables: Tables, items: seq<WithItem>, alias: string)
    requires forall j :: 0 <= j < |items| ==> ItemAlias(items[j]) != Some(alias)
    ensures alias in Bind(tables, items) <==> alias in tables
    ensures alias in tables ==> Bind(tables, items)[alias] == tables[alias]
  {
    if items != [] {
      BindOne(tables, items, alias);
      UnboundShape(tables, items[..|items| - 1], alias);
    }
  }

  /** The functions of a module are those it defines at its top level, and of one name the last. */
  lemma {:induction false} FunctionsShape(body: seq<Node>, h: string)
    ensures h in TopLevelFunctions(body) <==> exists i :: 0 <= i < |body| && body[i].FunctionDef? && body[i].name == h
    ensures h in TopLevelFunctions(body) ==>
              exists i :: 0 <= i < |body| && body[i] == FunctionDef(h, TopLevelFunctions(body)[h])
                          && forall j :: i < j < |body| ==> !(body[j].FunctionDef? && body[j].name == h)
  {
    if body != [] {
      var (front, last) := (body[..|body| - 1], |body| - 1);
      FunctionsShape(front, h);
      OneMoreFunction(body, h);
      assert forall i :: 0 <= i < last ==> front[i] == body[i];
      if body[last].FunctionDef? && body[last].name == h {
        assert body[last] == FunctionDef(h, TopLevelFunctions(body)[h]);
      } else if h in TopLevelFunctions(body) {
        var i :| 0 <= i < |front| && front[i] == FunctionDef(h, TopLevelFunctions(front)[h])
          && forall j :: i < j < |front| ==> !(front[j].FunctionDef? && front[j].name == h);
        assert body[i] == FunctionDef(h, TopLevelFunctions(body)[h]);
      }
    }
  }

  lemma {:induction false} OneMoreFunction(body: seq<Node>, h: string)
    requires body != []
    ensures var (all, front) := (TopLevelFunctions(body), TopLevelFunctions(body[..|body| - 1]));
            var last := body[|body| - 1];
            if last.FunctionDef? && last.name == h then h in all && last == FunctionDef(h, all[h])
            else (h in all <==> h in front) && (h in all ==> all[h] == front[h])
  {
  }

  /** The visit starts from the statements of every function called `upgrade`, in order, and from no others. */
  lemma {:induction false} UpgradeShape(body: seq<Node>, i: nat)
    requires i < |body|
    ensures body[i].FunctionDef? && body[i].name == "upgrade" ==>
              UpgradeStatements(body) == UpgradeStatements(body[..i]) + body[i].defBody
                + UpgradeStatements(body[i + 1..])
    ensures !(body[i].FunctionDef? && body[i].name == "upgrade") ==>
              UpgradeStatements(body) == UpgradeStatements(body[..i]) + UpgradeStatements(body[i + 1..])
    decreases |body|
  {
    var (front, last) := (body[..|body| - 1], |body| - 1);
    if i == last {
      assert body[i + 1..] == [];
    } else {
      UpgradeShape(front, i);
      assert front[..i] == body[..i] && front[i] == body[i];
      assert body[i + 1..][..|body[i + 1..]| - 1] == front[i + 1..] && body[i + 1..][|body[i + 1..]| - 1] == body[last];
    }
  }

  /** A helper is inlined for a call `h(...)` of a known function that is no entry point and not being visited. */
  lemma {:induction false} InlineShape(fs: Functions, active: set<string>, n: Node, h: string)
    requires n.Call? && n.func == Name(h)
    ensures Inlines(fs, active, n) <==> h in fs && h !in active && h != "upgrade" && h != "downgrade"
  {
  }
}
