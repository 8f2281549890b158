/**
 The part of Python's `ast` that backend/tools/migration_lint.py looks at.  Node classes on which
 the linter's visitor has no method of its own, and which it does not inspect, are `Other`: the
 children in field order, which is the order in which `generic_visit` walks them.
 */
module MigrationAst {
  import opened Wrappers

  datatype Literal = NoneLiteral | BoolLiteral(b: bool) | StringLiteral(s: string) | OtherLiteral

  datatype Node =
    | Name(id: string)
    | Attribute(value: Node, attr: string)
    | Constant(literal: Literal)
    | Call(func: Node, args: seq<Node>, keywords: seq<Node>, lineno: nat)
    | Keyword(arg: Option<string>, kwValue: Node)
    | With(items: seq<WithItem>, body: seq<Node>)
    | FunctionDef(name: string, defBody: seq<Node>)
    | AsyncFunctionDef(asyncName: string, asyncBody: seq<Node>)
    | Other(children: seq<Node>)

  datatype WithItem = WithItem(contextExpr: Node, optionalVars: Option<Node>)

  /** The name of a call of the form `a.b(...)`, else the empty string. */
  function CallName(n: Node): string {
    if n.Call? && n.func.Attribute? && n.func.value.Name? then n.func.value.id + "." + n.func.attr else ""
  }

  predicate StartsWith(s: string, prefix: string) {
    prefix <= s
  }

  /** A call the linter records wherever it meets it: `op.<something>(...)`. */
  predicate IsDirectOp(n: Node) {
    n.Call? && StartsWith(CallName(n), "op.")
  }

  function LiteralArg(n: Node, index: nat): Option<string>
    requires n.Call?
  {
    if index < |n.args| && n.args[index].Constant? && n.args[index].literal.StringLiteral?
    then Some(n.args[index].literal.s)
    else None
  }

  /** The table a with-item opens a batch on. */
  function BatchTable(n: Node): Option<string> {
    if n.Call? && CallName(n) == "op.batch_alter_table" then LiteralArg(n, 0) else None
  }

  /** The alias a with-item binds, when it opens a batch under a plain name. */
  function ItemAlias(item: WithItem): Option<string> {
    if BatchTable(item.contextExpr).Some? && item.optionalVars.Some? && item.optionalVars.value.Name?
    then Some(item.optionalVars.value.id)
    else None
  }
}
