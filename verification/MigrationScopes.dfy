/**
 Batch aliases.  The visitor keeps one flat alias table and a with-statement ends by dropping its
 aliases, even one that an enclosing with-statement had bound.  This module says exactly what a
 visit leaves in the table, and exactly when a call on an alias still in scope goes unrecorded.
 */
module MigrationScopes {
  import opened MigrationAst
  import opened MigrationVisitor

  /** Every alias bound by a with-statement the visit meets. */
  function AliasesBound(fs: Functions, active: set<string>, n: Node): set<string>
    decreases |fs.Keys - active|, n, 2
  {
    match n
    case Attribute(value, _) => AliasesBound(fs, active, value)
    case Keyword(_, value) => AliasesBound(fs, active, value)
    case Other(children) => AliasesBoundAll(fs, active, children)
    case With(items, body) => ItemAliases(items) + AliasesBoundAll(fs, active, body)
    case Call(func, args, keywords, _) => AliasesBoundByHelper(fs, active, n) + AliasesBoundByChildren(fs, active, n)
    case _ => {}
  }

  function AliasesBoundByChildren(fs: Functions, active: set<string>, n: Node): set<string>
    requires n.Call?
    decreases |fs.Keys - active|, n, 1
  {
    AliasesBound(fs, active, n.func) + AliasesBoundAll(fs, active, n.args) + AliasesBoundAll(fs, active, n.keywords)
  }

  function AliasesBoundByHelper(fs: Functions, active: set<string>, n: Node): set<string>
    requires n.Call?
    decreases |fs.Keys - active|, n, 0
  {
    if Inlines(fs, active, n) then
      FewerInactive(fs, active, n.func.id);
      AliasesBoundAll(fs, active + {n.func.id}, fs[n.func.id])
    else {}
  }

  function AliasesBoundAll(fs: Functions, active: set<string>, ns: seq<Node>): set<string>
    decreases |fs.Keys - active|, ns, 0
  {
    if ns == [] then {}
    else AliasesBoundAll(fs, active, ns[..|ns| - 1]) + AliasesBound(fs, active, ns[|ns| - 1])
  }

  lemma {:induction false} BindTouchesAliases(tables: Tables, items: seq<WithItem>)
    ensures Bind(tables, items).Keys == tables.Keys + ItemAliases(items)
    ensures Bind(tables, items) - ItemAliases(items) == tables - ItemAliases(items)
  {
    if items != [] {
      var last := |items| - 1;
      BindTouchesAliases(tables, items[..last]);
      AliasStep(items, last);
      assert items[..last + 1] == items;
      assert ItemAliases(items[..last]) <= ItemAliases(items);
      var before := Bind(tables, items[..last]);
      forall a | a !in ItemAliases(items)
        ensures (a in Bind(tables, items) <==> a in tables) && (a in tables ==> Bind(tables, items)[a] == tables[a])
      {
        assert a in before <==> a in before - ItemAliases(items[..last]);
        assert a in tables ==> (before - ItemAliases(items[..last]))[a] == (tables - ItemAliases(items[..last]))[a];
      }
    }
  }

  /** A visit leaves the alias table as it was, less exactly the aliases bound on the way. */
  lemma {:induction false} TablesLeft(fs: Functions, active: set<string>, tables: Tables, n: Node)
    ensures Visit(fs, active, tables, n).tables == tables - AliasesBound(fs, active, n)
    decreases |fs.Keys - active|, n, 2
  {
    match n {
      case Attribute(value, _) => TablesLeft(fs, active, tables, value);
      case Keyword(_, value) => TablesLeft(fs, active, tables, value);
      case Other(children) => TablesLeftByAll(fs, active, tables, children);
      case With(items, body) =>
        TablesLeftByAll(fs, active, Bind(tables, items), body);
        BindTouchesAliases(tables, items);
        var (bound, aliases) := (AliasesBoundAll(fs, active, body), ItemAliases(items));
        assert (Bind(tables, items) - bound) - aliases == (Bind(tables, items) - aliases) - bound;
      case Call(_, _, _, _) =>
        TablesLeftByHelper(fs, active, tables, n);
        TablesLeftByChildren(fs, active, VisitHelper(fs, active, tables, n).tables, n);
      case _ =>
    }
  }

  lemma {:induction false} TablesLeftByChildren(fs: Functions, active: set<string>, tables: Tables, n: Node)
    requires n.Call?
    ensures VisitChildren(fs, active, tables, n).tables == tables - AliasesBoundByChildren(fs, active, n)
    decreases |fs.Keys - active|, n, 1
  {
    var func := Visit(fs, active, tables, n.func);
    var args := VisitAll(fs, active, func.tables, n.args);
    TablesLeft(fs, active, tables, n.func);
    TablesLeftByAll(fs, active, func.tables, n.args);
    TablesLeftByAll(fs, active, args.tables, n.keywords);
  }

  lemma {:induction false} TablesLeftByHelper(fs: Functions, active: set<string>, tables: Tables, n: Node)
    requires n.Call?
    ensures VisitHelper(fs, active, tables, n).tables == tables - AliasesBoundByHelper(fs, active, n)
    decreases |fs.Keys - active|, n, 0
  {
    if Inlines(fs, active, n) {
      FewerInactive(fs, active, n.func.id);
      TablesLeftByAll(fs, active + {n.func.id}, tables, fs[n.func.id]);
    }
  }

  lemma {:induction false} TablesLeftByAll(fs: Functions, active: set<string>, tables: Tables, ns: seq<Node>)
    ensures VisitAll(fs, active, tables, ns).tables == tables - AliasesBoundAll(fs, active, ns)
    decreases |fs.Keys - active|, ns, 0
  {
    if ns != [] {
      var last := |ns| - 1;
      TablesLeftByAll(fs, active, tables, ns[..last]);
      TablesLeft(fs, active, VisitAll(fs, active, tables, ns[..last]).tables, ns[last]);
    }
  }

  /** The table survives a visit whole exactly when no with-statement on the way rebinds a live alias. */
  lemma {:induction false} TablesSurvive(fs: Functions, active: set<string>, tables: Tables, n: Node)
    ensures var left := Visit(fs, active, tables, n).tables;
            && left.Keys <= tables.Keys && (forall a :: a in left ==> left[a] == tables[a])
            && (left == tables <==> AliasesBound(fs, active, n) !! tables.Keys)
  {
    TablesLeft(fs, active, tables, n);
  }

  // ----- the reference: an alias lives until its own with-statement ends (and active helpers are still cut)

  function Scoped(fs: Functions, active: set<string>, env: Tables, n: Node): seq<OperationCall>
    decreases |fs.Keys - active|, n, 2
  {
    match n
    case Attribute(value, _) => Scoped(fs, active, env, value)
    case Keyword(_, value) => Scoped(fs, active, env, value)
    case Other(children) => ScopedAll(fs, active, env, children)
    case With(items, body) => ScopedAll(fs, active, Bind(env, items), body)
    case Call(_, _, _, _) => Recorded(env, n) + ScopedHelper(fs, active, env, n) + ScopedChildren(fs, active, env, n)
    case _ => []
  }

  function ScopedChildren(fs: Functions, active: set<string>, env: Tables, n: Node): seq<OperationCall>
    requires n.Call?
    decreases |fs.Keys - active|, n, 1
  {
    Scoped(fs, active, env, n.func) + ScopedAll(fs, active, env, n.args) + ScopedAll(fs, active, env, n.keywords)
  }

  function ScopedHelper(fs: Functions, active: set<string>, env: Tables, n: Node): seq<OperationCall>
    requires n.Call?
    decreases |fs.Keys - active|, n, 0
  {
    if Inlines(fs, active, n) then
      FewerInactive(fs, active, n.func.id);
      ScopedAll(fs, active + {n.func.id}, env, fs[n.func.id])
    else []
  }

  function ScopedAll(fs: Functions, active: set<string>, env: Tables, ns: seq<Node>): seq<OperationCall>
    decreases |fs.Keys - active|, ns, 0
  {
    if ns == [] then []
    else ScopedAll(fs, active, env, ns[..|ns| - 1]) + Scoped(fs, active, env, ns[|ns| - 1])
  }

  function ScopedModule(body: seq<Node>): seq<OperationCall> {
    ScopedAll(TopLevelFunctions(body), {}, map[], UpgradeStatements(body))
  }

  /**
   With the aliases `env` in scope, of which `dropped` were bound again by a with-statement that has
   ended since: the operations still to come that are made on a dropped alias.
   */
  function Lost(fs: Functions, active: set<string>, env: Tables, dropped: set<string>, n: Node): seq<OperationCall>
    decreases |fs.Keys - active|, n, 2
  {
    match n
    case Attribute(value, _) => Lost(fs, active, env, dropped, value)
    case Keyword(_, value) => Lost(fs, active, env, dropped, value)
    case Other(children) => LostInAll(fs, active, env, dropped, children)
    case With(items, body) => LostInAll(fs, active, Bind(env, items), dropped - ItemAliases(items), body)
    case Call(_, _, _, _) =>
      LostCall(env, dropped, n) + LostInHelper(fs, active, env, dropped, n)
      + LostInChildren(fs, active, env, dropped + AliasesBoundByHelper(fs, active, n), n)
    case _ => []
  }

  function LostCall(env: Tables, dropped: set<string>, n: Node): seq<OperationCall>
    requires n.Call?
  {
    if !IsDirectOp(n) && n.func.Attribute? && n.func.value.Name? && n.func.value.id in dropped then Recorded(env, n)
    else []
  }

  function LostInChildren(fs: Functions, active: set<string>, env: Tables, dropped: set<string>, n: Node)
    : seq<OperationCall>
    requires n.Call?
    decreases |fs.Keys - active|, n, 1
  {
    var afterFunc := dropped + AliasesBound(fs, active, n.func);
    var afterArgs := afterFunc + AliasesBoundAll(fs, active, n.args);
    Lost(fs, active, env, dropped, n.func) + LostInAll(fs, active, env, afterFunc, n.args)
    + LostInAll(fs, active, env, afterArgs, n.keywords)
  }

  function LostInHelper(fs: Functions, active: set<string>, env: Tables, dropped: set<string>, n: Node)
    : seq<OperationCall>
    requires n.Call?
    decreases |fs.Keys - active|, n, 0
  {
    if Inlines(fs, active, n) then
      FewerInactive(fs, active, n.func.id);
      LostInAll(fs, active + {n.func.id}, env, dropped, fs[n.func.id])
    else []
  }

  function LostInAll(fs: Functions, active: set<string>, env: Tables, dropped: set<string>, ns: seq<Node>)
    : seq<OperationCall>
    decreases |fs.Keys - active|, ns, 0
  {
    if ns == [] then []
    else
      var bound := AliasesBoundAll(fs, active, ns[..|ns| - 1]);
      LostInAll(fs, active, env, dropped, ns[..|ns| - 1]) + Lost(fs, active, env, dropped + bound, ns[|ns| - 1])
  }

  /** The operations of the module that a call makes on an alias after a with-statement has ended it. */
  function LostModule(body: seq<Node>): seq<OperationCall> {
    LostInAll(TopLevelFunctions(body), {}, map[], {}, UpgradeStatements(body))
  }

  /** The recording `v` and what it lost make up the full recording `s`, which it is when nothing is lost. */
  ghost predicate Recording(v: seq<OperationCall>, s: seq<OperationCall>, lost: seq<OperationCall>) {
    multiset(v) + multiset(lost) == multiset(s) && (lost == [] ==> v == s)
  }

  lemma {:induction false} Both(v: seq<OperationCall>, s: seq<OperationCall>, l: seq<OperationCall>,
        v': seq<OperationCall>, s': seq<OperationCall>, l': seq<OperationCall>)
    requires Recording(v, s, l) && Recording(v', s', l')
    ensures Recording(v + v', s + s', l + l')
  {
  }

  lemma {:induction false} BindAfterDrop(env: Tables, dropped: set<string>, items: seq<WithItem>)
    ensures Bind(env - dropped, items) == Bind(env, items) - (dropped - ItemAliases(items))
  {
    var (aliases, bound, kept) := (ItemAliases(items), Bind(env, items), Bind(env - dropped, items));
    BindTouchesAliases(env, items);
    BindTouchesAliases(env - dropped, items);
    BindSetsAliases(env, env - dropped, items);
    forall a | a in kept
      ensures a in bound && a !in dropped - aliases && kept[a] == bound[a]
    {
      if a !in aliases {
        assert kept[a] == (kept - aliases)[a];
        assert bound[a] == (bound - aliases)[a];
      }
    }
    assert kept.Keys == (bound - (dropped - aliases)).Keys;
  }

  lemma {:induction false} BindSetsAliases(a: Tables, b: Tables, items: seq<WithItem>)
    ensures forall x :: x in ItemAliases(items)
              ==> x in Bind(a, items) && x in Bind(b, items) && Bind(a, items)[x] == Bind(b, items)[x]
  {
    if items != [] {
      var last := |items| - 1;
      BindSetsAliases(a, b, items[..last]);
      AliasStep(items, last);
      assert items[..last + 1] == items;
    }
  }

  lemma {:induction false} VisitAgainstScoped(fs: Functions, active: set<string>, env: Tables, dropped: set<string>,
                                              n: Node)
    ensures Recording(Visit(fs, active, env - dropped, n).ops, Scoped(fs, active, env, n),
                      Lost(fs, active, env, dropped, n))
    decreases |fs.Keys - active|, n, 2
  {
    match n {
      case Attribute(value, _) => VisitAgainstScoped(fs, active, env, dropped, value);
      case Keyword(_, value) => VisitAgainstScoped(fs, active, env, dropped, value);
      case Other(children) => AllAgainstScoped(fs, active, env, dropped, children);
      case With(items, body) =>
        BindAfterDrop(env, dropped, items);
        AllAgainstScoped(fs, active, Bind(env, items), dropped - ItemAliases(items), body);
      case Call(_, _, _, _) => CallAgainstScoped(fs, active, env, dropped, n);
      case _ =>
    }
  }

  lemma {:induction false} RecordedAgainstScoped(env: Tables, dropped: set<string>, n: Node)
    requires n.Call?
    ensures Recording(Recorded(env - dropped, n), Recorded(env, n), LostCall(env, dropped, n))
  {
  }

  lemma {:induction false} CallAgainstScoped(fs: Functions, active: set<string>, env: Tables, dropped: set<string>,
                                             n: Node)
    requires n.Call?
    ensures Recording(Visit(fs, active, env - dropped, n).ops, Scoped(fs, active, env, n),
                      Lost(fs, active, env, dropped, n))
    decreases |fs.Keys - active|, n, 1
  {
    var tables := env - dropped;
    var helper := VisitHelper(fs, active, tables, n);
    var bound := AliasesBoundByHelper(fs, active, n);
    HelperAgainstScoped(fs, active, env, dropped, n);
    TablesLeftByHelper(fs, active, tables, n);
    assert helper.tables == env - (dropped + bound);
    ChildrenAgainstScoped(fs, active, env, dropped + bound, n);
    var lost := LostCall(env, dropped, n);
    RecordedAgainstScoped(env, dropped, n);
    Both(Recorded(tables, n), Recorded(env, n), lost,
         helper.ops, ScopedHelper(fs, active, env, n), LostInHelper(fs, active, env, dropped, n));
    Both(Recorded(tables, n) + helper.ops, Recorded(env, n) + ScopedHelper(fs, active, env, n),
         lost + LostInHelper(fs, active, env, dropped, n),
         VisitChildren(fs, active, helper.tables, n).ops, ScopedChildren(fs, active, env, n),
         LostInChildren(fs, active, env, dropped + bound, n));
  }

  lemma {:induction false} ChildrenAgainstScoped(fs: Functions, active: set<string>, env: Tables, dropped: set<string>,
        n: Node)
    requires n.Call?
    ensures Recording(VisitChildren(fs, active, env - dropped, n).ops, ScopedChildren(fs, active, env, n),
                      LostInChildren(fs, active, env, dropped, n))
    decreases |fs.Keys - active|, n, 0
  {
    var func := Visit(fs, active, env - dropped, n.func);
    var args := VisitAll(fs, active, func.tables, n.args);
    var afterFunc := dropped + AliasesBound(fs, active, n.func);
    var afterArgs := afterFunc + AliasesBoundAll(fs, active, n.args);
    TablesLeft(fs, active, env - dropped, n.func);
    assert func.tables == env - afterFunc;
    TablesLeftByAll(fs, active, func.tables, n.args);
    assert args.tables == env - afterArgs;
    VisitAgainstScoped(fs, active, env, dropped, n.func);
    AllAgainstScoped(fs, active, env, afterFunc, n.args);
    AllAgainstScoped(fs, active, env, afterArgs, n.keywords);
    Both(func.ops, Scoped(fs, active, env, n.func), Lost(fs, active, env, dropped, n.func),
         args.ops, ScopedAll(fs, active, env, n.args), LostInAll(fs, active, env, afterFunc, n.args));
    Both(func.ops + args.ops, Scoped(fs, active, env, n.func) + ScopedAll(fs, active, env, n.args),
         Lost(fs, active, env, dropped, n.func) + LostInAll(fs, active, env, afterFunc, n.args),
         VisitAll(fs, active, args.tables, n.keywords).ops, ScopedAll(fs, active, env, n.keywords),
         LostInAll(fs, active, env, afterArgs, n.keywords));
  }

  lemma {:induction false} HelperAgainstScoped(fs: Functions, active: set<string>, env: Tables, dropped: set<string>,
        n: Node)
    requires n.Call?
    ensures Recording(VisitHelper(fs, active, env - dropped, n).ops, ScopedHelper(fs, active, env, n),
                      LostInHelper(fs, active, env, dropped, n))
    decreases |fs.Keys - active|, n, 0
  {
    if Inlines(fs, active, n) {
      FewerInactive(fs, active, n.func.id);
      AllAgainstScoped(fs, active + {n.func.id}, env, dropped, fs[n.func.id]);
    }
  }

  lemma {:induction false} AllAgainstScoped(fs: Functions, active: set<string>, env: Tables, dropped: set<string>,
        ns: seq<Node>)
    ensures Recording(VisitAll(fs, active, env - dropped, ns).ops, ScopedAll(fs, active, env, ns),
                      LostInAll(fs, active, env, dropped, ns))
    decreases |fs.Keys - active|, ns, 0
  {
    if ns != [] {
      var last := |ns| - 1;
      var bound := AliasesBoundAll(fs, active, ns[..last]);
      var before := VisitAll(fs, active, env - dropped, ns[..last]);
      AllAgainstScoped(fs, active, env, dropped, ns[..last]);
      TablesLeftByAll(fs, active, env - dropped, ns[..last]);
      assert before.tables == env - (dropped + bound);
      VisitAgainstScoped(fs, active, env, dropped + bound, ns[last]);
      Both(before.ops, ScopedAll(fs, active, env, ns[..last]), LostInAll(fs, active, env, dropped, ns[..last]),
           Visit(fs, active, before.tables, ns[last]).ops, Scoped(fs, active, env, ns[last]),
           Lost(fs, active, env, dropped + bound, ns[last]));
    }
  }

  /**
   What the visitor records and what it loses make up the operations of the reference, each as often as
   it is made there; and in their order exactly when nothing is lost.
   */
  lemma {:induction false} ModuleAgainstScoped(body: seq<Node>)
    ensures multiset(VisitModule(body).ops) + multiset(LostModule(body)) == multiset(ScopedModule(body))
    ensures VisitModule(body).ops == ScopedModule(body) <==> LostModule(body) == []
    ensures forall o :: o in ScopedModule(body) <==> o in VisitModule(body).ops || o in LostModule(body)
    ensures VisitModule(body).tables == map[]
  {
    var fs, ns := TopLevelFunctions(body), UpgradeStatements(body);
    var none: Tables := map[];
    assert none - {} == none;
    AllAgainstScoped(fs, {}, none, {}, ns);
    TablesLeftByAll(fs, {}, none, ns);
    var (v, lost, s) := (VisitModule(body).ops, LostModule(body), ScopedModule(body));
    assert |multiset(v)| == |v| && |multiset(lost)| == |lost| && |multiset(s)| == |s|;
    forall o
      ensures o in s <==> o in v || o in lost
    {
      assert o in multiset(s) <==> o in s;
      assert o in multiset(v) <==> o in v;
      assert o in multiset(lost) <==> o in lost;
    }
  }

  // ----- a guard that is easy to check: no with-statement is visited where its alias is in scope

  predicate Shadows(fs: Functions, active: set<string>, inScope: set<string>, n: Node)
    decreases |fs.Keys - active|, n, 2
  {
    match n
    case Attribute(value, _) => Shadows(fs, active, inScope, value)
    case Keyword(_, value) => Shadows(fs, active, inScope, value)
    case Other(children) => ShadowsAny(fs, active, inScope, children)
    case With(items, body) => !(ItemAliases(items) !! inScope)
      || ShadowsAny(fs, active, inScope + ItemAliases(items), body)
    case Call(_, _, _, _) => ShadowsInHelper(fs, active, inScope, n) || ShadowsInChildren(fs, active, inScope, n)
    case _ => false
  }

  predicate ShadowsInChildren(fs: Functions, active: set<string>, inScope: set<string>, n: Node)
    requires n.Call?
    decreases |fs.Keys - active|, n, 1
  {
    Shadows(fs, active, inScope, n.func) || ShadowsAny(fs, active, inScope, n.args)
      || ShadowsAny(fs, active, inScope, n.keywords)
  }

  predicate ShadowsInHelper(fs: Functions, active: set<string>, inScope: set<string>, n: Node)
    requires n.Call?
    decreases |fs.Keys - active|, n, 0
  {
    if Inlines(fs, active, n) then
      FewerInactive(fs, active, n.func.id);
      ShadowsAny(fs, active + {n.func.id}, inScope, fs[n.func.id])
    else false
  }

  predicate ShadowsAny(fs: Functions, active: set<string>, inScope: set<string>, ns: seq<Node>)
    decreases |fs.Keys - active|, ns, 0
  {
    ns != [] && (ShadowsAny(fs, active, inScope, ns[..|ns| - 1]) || Shadows(fs, active, inScope, ns[|ns| - 1]))
  }

  lemma {:induction false} UnshadowedLosesNothing(fs: Functions, active: set<string>, env: Tables,
        dropped: set<string>, n: Node)
    requires !Shadows(fs, active, env.Keys, n) && dropped !! env.Keys
    ensures AliasesBound(fs, active, n) !! env.Keys && Lost(fs, active, env, dropped, n) == []
    decreases |fs.Keys - active|, n, 2
  {
    match n {
      case Attribute(value, _) => UnshadowedLosesNothing(fs, active, env, dropped, value);
      case Keyword(_, value) => UnshadowedLosesNothing(fs, active, env, dropped, value);
      case Other(children) => UnshadowedLoseNothing(fs, active, env, dropped, children);
      case With(items, body) =>
        BindTouchesAliases(env, items);
        UnshadowedLoseNothing(fs, active, Bind(env, items), dropped - ItemAliases(items), body);
      case Call(_, _, _, _) =>
        UnshadowedHelperLosesNothing(fs, active, env, dropped, n);
        UnshadowedChildrenLoseNothing(fs, active, env, dropped + AliasesBoundByHelper(fs, active, n), n);
      case _ =>
    }
  }

  lemma {:induction false} UnshadowedChildrenLoseNothing(fs: Functions, active: set<string>, env: Tables,
        dropped: set<string>, n: Node)
    requires n.Call? && !ShadowsInChildren(fs, active, env.Keys, n) && dropped !! env.Keys
    ensures AliasesBoundByChildren(fs, active, n) !! env.Keys && LostInChildren(fs, active, env, dropped, n) == []
    decreases |fs.Keys - active|, n, 1
  {
    var afterFunc := dropped + AliasesBound(fs, active, n.func);
    UnshadowedLosesNothing(fs, active, env, dropped, n.func);
    UnshadowedLoseNothing(fs, active, env, afterFunc, n.args);
    UnshadowedLoseNothing(fs, active, env, afterFunc + AliasesBoundAll(fs, active, n.args), n.keywords);
  }

  lemma {:induction false} UnshadowedHelperLosesNothing(fs: Functions, active: set<string>, env: Tables,
        dropped: set<string>, n: Node)
    requires n.Call? && !ShadowsInHelper(fs, active, env.Keys, n) && dropped !! env.Keys
    ensures AliasesBoundByHelper(fs, active, n) !! env.Keys && LostInHelper(fs, active, env, dropped, n) == []
    decreases |fs.Keys - active|, n, 0
  {
    if Inlines(fs, active, n) {
      FewerInactive(fs, active, n.func.id);
      UnshadowedLoseNothing(fs, active + {n.func.id}, env, dropped, fs[n.func.id]);
    }
  }

  lemma {:induction false} UnshadowedLoseNothing(fs: Functions, active: set<string>, env: Tables, dropped: set<string>,
        ns: seq<Node>)
    requires !ShadowsAny(fs, active, env.Keys, ns) && dropped !! env.Keys
    ensures AliasesBoundAll(fs, active, ns) !! env.Keys && LostInAll(fs, active, env, dropped, ns) == []
    decreases |fs.Keys - active|, ns, 0
  {
    if ns != [] {
      var last := |ns| - 1;
      UnshadowedLoseNothing(fs, active, env, dropped, ns[..last]);
      UnshadowedLosesNothing(fs, active, env, dropped + AliasesBoundAll(fs, active, ns[..last]), ns[last]);
    }
  }

  predicate ModuleShadows(body: seq<Node>) {
    ShadowsAny(TopLevelFunctions(body), {}, {}, UpgradeStatements(body))
  }

  lemma {:induction false} UnshadowedModule(body: seq<Node>)
    requires !ModuleShadows(body)
    ensures VisitModule(body).ops == ScopedModule(body) && LostModule(body) == []
  {
    var none: Tables := map[];
    assert none.Keys == {};
    UnshadowedLoseNothing(TopLevelFunctions(body), {}, none, {}, UpgradeStatements(body));
    ModuleAgainstScoped(body);
  }
}
