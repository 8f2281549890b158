/**
 Batch aliases along chains of helper calls.  A call on an alias is in scope when some chain of calls,
 repeating helpers or not, carries the alias to it.  This module says which of these calls the cut at
 active helpers leaves out, and when it leaves out none.
 */
module MigrationRoutes {
  import opened Wrappers
  import opened Strings
  import opened MigrationAst
  import opened MigrationVisitor
  import opened MigrationScopes

  // ----- calls and the aliases in force at them

  /** `c` lies in `n` where the visitor descends; the aliases `env` are in force at `n`, and `at` at `c`. */
  ghost predicate Lies(env: Tables, n: Node, c: Node, at: Tables)
    decreases n
  {
    (c == n && at == env) ||
    match n
    case Attribute(value, _) => Lies(env, value, c, at)
    case Keyword(_, value) => Lies(env, value, c, at)
    case Call(func, args, keywords, _) =>
      Lies(env, func, c, at) || (exists i :: 0 <= i < |args| && Lies(env, args[i], c, at))
      || (exists i :: 0 <= i < |keywords| && Lies(env, keywords[i], c, at))
    case With(items, body) => exists i :: 0 <= i < |body| && Lies(Bind(env, items), body[i], c, at)
    case Other(children) => exists i :: 0 <= i < |children| && Lies(env, children[i], c, at)
    case _ => false
  }

  ghost predicate LiesAny(env: Tables, ns: seq<Node>, c: Node, at: Tables) {
    exists i :: 0 <= i < |ns| && Lies(env, ns[i], c, at)
  }

  predicate CallsName(fs: Functions, k: Node, h: string) {
    k.Call? && k.func == Name(h) && h in fs && h !in NOT_INLINED
  }

  /** A helper entered by a call, with the aliases in force at the call. */
  datatype Hop = Hop(helper: string, aliases: Tables)

  /** The statements `ns` call the helper of the hop under its aliases. */
  ghost predicate Enters(fs: Functions, env: Tables, ns: seq<Node>, hop: Hop) {
    exists k: Node :: LiesAny(env, ns, k, hop.aliases) && CallsName(fs, k, hop.helper)
  }

  /** A chain of calls with the aliases it carries: each hop is entered from the helper before it. */
  ghost predicate Route(fs: Functions, env: Tables, ns: seq<Node>, path: seq<Hop>)
    decreases |path|
  {
    path == [] || (Enters(fs, env, ns, path[0]) && Route(fs, path[0].aliases, fs[path[0].helper], path[1..]))
  }

  /** The chain leads to the call `c`, with the aliases `at` in force there. */
  ghost predicate Leads(fs: Functions, env: Tables, ns: seq<Node>, path: seq<Hop>, c: Node, at: Tables)
    decreases |path|
  {
    if path == [] then LiesAny(env, ns, c, at)
    else Enters(fs, env, ns, path[0]) && Leads(fs, path[0].aliases, fs[path[0].helper], path[1..], c, at)
  }

  function Helpers(path: seq<Hop>): seq<string> {
    seq(|path|, i requires 0 <= i < |path| => path[i].helper)
  }

  ghost predicate Avoids(path: seq<Hop>, active: set<string>) {
    forall i :: 0 <= i < |path| ==> path[i].helper !in active
  }

  ghost predicate IsOperation(c: Node, at: Tables, o: OperationCall) {
    c.Call? && OperationOf(at, c) == Some(o)
  }

  /** Some chain of calls leads to the operation. */
  ghost predicate InScope(body: seq<Node>, o: OperationCall) {
    exists path, c, at ::
      Leads(TopLevelFunctions(body), map[], UpgradeStatements(body), path, c, at) && IsOperation(c, at, o)
  }

  /** Some chain of calls without a repeated helper leads to the operation. */
  ghost predicate InScopeOnce(body: seq<Node>, o: OperationCall) {
    exists path, c, at ::
      && Leads(TopLevelFunctions(body), map[], UpgradeStatements(body), path, c, at)
      && NoRepeats(Helpers(path)) && IsOperation(c, at, o)
  }

  // ----- completeness: what a chain without repeats leads to is recorded

  lemma {:induction false} PartScoped(fs: Functions, active: set<string>, env: Tables, n: Node, c: Node, at: Tables)
    requires Lies(env, n, c, at)
    ensures forall o :: o in Scoped(fs, active, at, c) ==> o in Scoped(fs, active, env, n)
    decreases n, 1
  {
    if !(c == n && at == env) {
      match n {
        case Attribute(value, _) => PartScoped(fs, active, env, value, c, at);
        case Keyword(_, value) => PartScoped(fs, active, env, value, c, at);
        case Other(children) => PartOfAllScoped(fs, active, env, children, c, at);
        case With(items, body) => PartOfAllScoped(fs, active, Bind(env, items), body, c, at);
        case Call(func, args, keywords, _) =>
          if Lies(env, func, c, at) {
            PartScoped(fs, active, env, func, c, at);
          } else if LiesAny(env, args, c, at) {
            PartOfAllScoped(fs, active, env, args, c, at);
          } else {
            PartOfAllScoped(fs, active, env, keywords, c, at);
          }
      }
    }
  }

  lemma {:induction false} PartOfAllScoped(fs: Functions, active: set<string>, env: Tables, ns: seq<Node>, c: Node,
      at: Tables)
    requires LiesAny(env, ns, c, at)
    ensures forall o :: o in Scoped(fs, active, at, c) ==> o in ScopedAll(fs, active, env, ns)
    decreases ns, 0
  {
    var last := |ns| - 1;
    if Lies(env, ns[last], c, at) {
      PartScoped(fs, active, env, ns[last], c, at);
    } else {
      var i :| 0 <= i < |ns| && Lies(env, ns[i], c, at);
      assert ns[..last][i] == ns[i];
      PartOfAllScoped(fs, active, env, ns[..last], c, at);
    }
  }

  lemma {:induction false} RestAvoids(path: seq<Hop>, active: set<string>)
    requires path != [] && NoRepeats(Helpers(path)) && Avoids(path, active)
    ensures NoRepeats(Helpers(path[1..])) && Avoids(path[1..], active + {path[0].helper})
  {
    var rest := path[1..];
    forall i | 0 <= i < |rest|
      ensures rest[i].helper == Helpers(path)[i + 1] == Helpers(rest)[i] && rest[i].helper != path[0].helper
    {
      assert Helpers(path)[0] != Helpers(path)[i + 1];
    }
  }

  lemma {:induction false} SimpleRouteScoped(fs: Functions, active: set<string>, env: Tables, ns: seq<Node>,
      path: seq<Hop>, c: Node, at: Tables, o: OperationCall)
    requires Leads(fs, env, ns, path, c, at) && NoRepeats(Helpers(path)) && Avoids(path, active)
             && IsOperation(c, at, o)
    ensures o in ScopedAll(fs, active, env, ns)
    decreases |path|
  {
    if path == [] {
      PartOfAllScoped(fs, active, env, ns, c, at);
      assert Recorded(at, c)[0] == o;
    } else {
      var (h, e) := (path[0].helper, path[0].aliases);
      var k: Node :| LiesAny(env, ns, k, e) && CallsName(fs, k, h);
      RestAvoids(path, active);
      SimpleRouteScoped(fs, active + {h}, e, fs[h], path[1..], c, at, o);
      PartOfAllScoped(fs, active, env, ns, k, e);
      assert Inlines(fs, active, k) && o in ScopedHelper(fs, active, e, k);
    }
  }

  // ----- soundness: what is recorded is led to by a chain without repeats

  /** All that lies in `n`, entered under `env`, lies in `root`, entered under `start`. */
  ghost predicate Inside(env: Tables, n: Node, start: Tables, root: seq<Node>) {
    forall c, at :: Lies(env, n, c, at) ==> LiesAny(start, root, c, at)
  }

  ghost predicate AllInside(env: Tables, ns: seq<Node>, start: Tables, root: seq<Node>) {
    forall i :: 0 <= i < |ns| ==> Inside(env, ns[i], start, root)
  }

  /** A chain without repeats that avoids the active helpers leads to the operation. */
  ghost predicate LedTo(fs: Functions, active: set<string>, env: Tables, ns: seq<Node>, o: OperationCall) {
    exists path, c, at ::
      Leads(fs, env, ns, path, c, at) && NoRepeats(Helpers(path)) && Avoids(path, active) && IsOperation(c, at, o)
  }

  lemma {:induction false} ScopedIsLedTo(fs: Functions, active: set<string>, env: Tables, n: Node, start: Tables,
      root: seq<Node>, o: OperationCall)
    requires Inside(env, n, start, root) && o in Scoped(fs, active, env, n)
    ensures LedTo(fs, active, start, root, o)
    decreases |fs.Keys - active|, n, 1
  {
    match n {
      case Attribute(value, _) => ScopedIsLedTo(fs, active, env, value, start, root, o);
      case Keyword(_, value) => ScopedIsLedTo(fs, active, env, value, start, root, o);
      case Other(children) =>
        assert AllInside(env, children, start, root);
        AllScopedIsLedTo(fs, active, env, children, start, root, o);
      case With(items, body) =>
        assert AllInside(Bind(env, items), body, start, root);
        AllScopedIsLedTo(fs, active, Bind(env, items), body, start, root, o);
      case Call(func, args, keywords, _) =>
        assert Lies(env, n, n, env);
        if o in Recorded(env, n) {
          assert Leads(fs, start, root, [], n, env) && IsOperation(n, env, o) && Helpers([]) == [];
        } else if o in ScopedHelper(fs, active, env, n) {
          HelperScopedIsLedTo(fs, active, env, n, start, root, o);
        } else if o in Scoped(fs, active, env, func) {
          ScopedIsLedTo(fs, active, env, func, start, root, o);
        } else if o in ScopedAll(fs, active, env, args) {
          assert AllInside(env, args, start, root);
          AllScopedIsLedTo(fs, active, env, args, start, root, o);
        } else {
          assert AllInside(env, keywords, start, root);
          AllScopedIsLedTo(fs, active, env, keywords, start, root, o);
        }
    }
  }

  lemma {:induction false} HelperScopedIsLedTo(fs: Functions, active: set<string>, env: Tables, n: Node, start: Tables,
      root: seq<Node>, o: OperationCall)
    requires n.Call? && LiesAny(start, root, n, env) && o in ScopedHelper(fs, active, env, n)
    ensures LedTo(fs, active, start, root, o)
    decreases |fs.Keys - active|, n, 0
  {
    var h := n.func.id;
    FewerInactive(fs, active, h);
    forall i | 0 <= i < |fs[h]|
      ensures Inside(env, fs[h][i], env, fs[h])
    {
    }
    AllScopedIsLedTo(fs, active + {h}, env, fs[h], env, fs[h], o);
    var path, c, at :|
      Leads(fs, env, fs[h], path, c, at) && NoRepeats(Helpers(path)) && Avoids(path, active + {h})
        && IsOperation(c, at, o);
    assert CallsName(fs, n, h) && Enters(fs, start, root, Hop(h, env));
    OneMoreHop(fs, active, start, root, Hop(h, env), path, c, at);
  }

  lemma {:induction false} OneMoreHop(fs: Functions, active: set<string>, start: Tables, root: seq<Node>, hop: Hop,
      path: seq<Hop>, c: Node, at: Tables)
    requires hop.helper !in active && Enters(fs, start, root, hop)
             && Leads(fs, hop.aliases, fs[hop.helper], path, c, at)
    requires NoRepeats(Helpers(path)) && Avoids(path, active + {hop.helper})
    ensures Leads(fs, start, root, [hop] + path, c, at) && NoRepeats(Helpers([hop] + path))
            && Avoids([hop] + path, active)
  {
    var longer := [hop] + path;
    assert longer[1..] == path && Helpers(longer) == [hop.helper] + Helpers(path);
  }

  lemma {:induction false} AllScopedIsLedTo(fs: Functions, active: set<string>, env: Tables, ns: seq<Node>,
      start: Tables, root: seq<Node>, o: OperationCall)
    requires AllInside(env, ns, start, root) && o in ScopedAll(fs, active, env, ns)
    ensures LedTo(fs, active, start, root, o)
    decreases |fs.Keys - active|, ns, 0
  {
    var last := |ns| - 1;
    if o in ScopedAll(fs, active, env, ns[..last]) {
      AllScopedIsLedTo(fs, active, env, ns[..last], start, root, o);
    } else {
      ScopedIsLedTo(fs, active, env, ns[last], start, root, o);
    }
  }

  /**
   The reference of the visitor, call by call: an operation is in it exactly when some chain of calls
   leads to it that repeats no helper.
   */
  lemma {:induction false} ScopedExactly(body: seq<Node>, o: OperationCall)
    ensures o in ScopedModule(body) <==> InScopeOnce(body, o)
  {
    var (fs, ns) := (TopLevelFunctions(body), UpgradeStatements(body));
    if o in ScopedModule(body) {
      assert AllInside(map[], ns, map[], ns);
      AllScopedIsLedTo(fs, {}, map[], ns, map[], ns, o);
    }
    if InScopeOnce(body, o) {
      var path, c, at :| Leads(fs, map[], ns, path, c, at) && NoRepeats(Helpers(path)) && IsOperation(c, at, o);
      SimpleRouteScoped(fs, {}, map[], ns, path, c, at, o);
    }
  }

  // ----- the guard: an active helper is never called under an alias its own visit did not have

  predicate SubTable(a: Tables, b: Tables) {
    forall x :: x in a ==> x in b && a[x] == b[x]
  }

  /** `entered` holds the active helpers with the aliases they were entered under. */
  predicate Reenters(fs: Functions, entered: map<string, Tables>, env: Tables, n: Node)
    decreases |fs.Keys - entered.Keys|, n, 2
  {
    match n
    case Attribute(value, _) => Reenters(fs, entered, env, value)
    case Keyword(_, value) => Reenters(fs, entered, env, value)
    case Other(children) => ReentersAny(fs, entered, env, children)
    case With(items, body) => ReentersAny(fs, entered, Bind(env, items), body)
    case Call(func, args, keywords, _) =>
      || (n.func.Name? && CallsName(fs, n, n.func.id) && n.func.id in entered && !SubTable(env, entered[n.func.id]))
      || ReentersInHelper(fs, entered, env, n)
      || Reenters(fs, entered, env, func) || ReentersAny(fs, entered, env, args)
         || ReentersAny(fs, entered, env, keywords)
    case _ => false
  }

  predicate ReentersInHelper(fs: Functions, entered: map<string, Tables>, env: Tables, n: Node)
    requires n.Call?
    decreases |fs.Keys - entered.Keys|, n, 0
  {
    if Inlines(fs, entered.Keys, n) then
      FewerInactive(fs, entered.Keys, n.func.id);
      assert entered[n.func.id := env].Keys == entered.Keys + {n.func.id};
      ReentersAny(fs, entered[n.func.id := env], env, fs[n.func.id])
    else false
  }

  predicate ReentersAny(fs: Functions, entered: map<string, Tables>, env: Tables, ns: seq<Node>)
    decreases |fs.Keys - entered.Keys|, ns, 0
  {
    ns != [] && (ReentersAny(fs, entered, env, ns[..|ns| - 1]) || Reenters(fs, entered, env, ns[|ns| - 1]))
  }

  predicate ModuleReenters(body: seq<Node>) {
    ReentersAny(TopLevelFunctions(body), map[], map[], UpgradeStatements(body))
  }

  lemma {:induction false} PartReenters(fs: Functions, entered: map<string, Tables>, env: Tables, n: Node, c: Node,
      at: Tables)
    requires Lies(env, n, c, at) && !Reenters(fs, entered, env, n)
    ensures !Reenters(fs, entered, at, c)
    decreases n, 1
  {
    if !(c == n && at == env) {
      match n {
        case Attribute(value, _) => PartReenters(fs, entered, env, value, c, at);
        case Keyword(_, value) => PartReenters(fs, entered, env, value, c, at);
        case Other(children) => PartOfAllReenters(fs, entered, env, children, c, at);
        case With(items, body) => PartOfAllReenters(fs, entered, Bind(env, items), body, c, at);
        case Call(func, args, keywords, _) =>
          if Lies(env, func, c, at) {
            PartReenters(fs, entered, env, func, c, at);
          } else if LiesAny(env, args, c, at) {
            PartOfAllReenters(fs, entered, env, args, c, at);
          } else {
            PartOfAllReenters(fs, entered, env, keywords, c, at);
          }
      }
    }
  }

  lemma {:induction false} PartOfAllReenters(fs: Functions, entered: map<string, Tables>, env: Tables, ns: seq<Node>,
      c: Node, at: Tables)
    requires LiesAny(env, ns, c, at) && !ReentersAny(fs, entered, env, ns)
    ensures !Reenters(fs, entered, at, c)
    decreases ns, 0
  {
    var last := |ns| - 1;
    if Lies(env, ns[last], c, at) {
      PartReenters(fs, entered, env, ns[last], c, at);
    } else {
      var i :| 0 <= i < |ns| && Lies(env, ns[i], c, at);
      assert ns[..last][i] == ns[i];
      PartOfAllReenters(fs, entered, env, ns[..last], c, at);
    }
  }

  /** The helper is entered again under no alias that it, or the helper already active, did not have. */
  ghost predicate EnteredBefore(entered: map<string, Tables>, path: seq<Hop>, j: nat)
    requires j < |path|
  {
    || (path[j].helper in entered && SubTable(path[j].aliases, entered[path[j].helper]))
    || exists i :: 0 <= i < j && path[i].helper == path[j].helper && SubTable(path[j].aliases, path[i].aliases)
  }

  /** Under the guard, the first helper on a chain that is active already is entered under no new alias. */
  lemma {:induction false} FirstRepeat(fs: Functions, entered: map<string, Tables>, env: Tables, ns: seq<Node>,
      path: seq<Hop>, j: nat)
    requires Route(fs, env, ns, path) && !ReentersAny(fs, entered, env, ns) && j < |path|
    requires NoRepeats(Helpers(path[..j])) && Avoids(path[..j], entered.Keys)
    requires path[j].helper in entered || path[j].helper in Helpers(path[..j])
    ensures EnteredBefore(entered, path, j)
    decreases j
  {
    var (h, e) := (path[0].helper, path[0].aliases);
    var k: Node :| LiesAny(env, ns, k, e) && CallsName(fs, k, h);
    PartOfAllReenters(fs, entered, env, ns, k, e);
    if j > 0 {
      var (rest, more) := (path[1..], entered[h := e]);
      assert path[..j][0] == path[0] && rest[..j - 1] == path[..j][1..];
      assert Helpers(path[..j]) == [h] + Helpers(rest[..j - 1]);
      RestAvoids(path[..j], entered.Keys);
      assert more.Keys == entered.Keys + {h};
      assert Inlines(fs, entered.Keys, k) && !ReentersAny(fs, more, e, fs[h]);
      FirstRepeat(fs, more, e, fs[h], rest, j - 1);
      if i :| 0 <= i < j - 1 && rest[i].helper == rest[j - 1].helper && SubTable(rest[j - 1].aliases, rest[i].aliases) {
        assert path[i + 1] == rest[i];
      }
    }
  }

  // ----- more aliases lead to the same operations

  lemma {:induction false} BindKeepsSub(a: Tables, b: Tables, items: seq<WithItem>)
    requires SubTable(a, b)
    ensures SubTable(Bind(a, items), Bind(b, items))
  {
    if items != [] {
      BindKeepsSub(a, b, items[..|items| - 1]);
    }
  }

  lemma {:induction false} LiesUnderMore(a: Tables, b: Tables, n: Node, c: Node, at: Tables) returns (more: Tables)
    requires SubTable(a, b) && Lies(a, n, c, at)
    ensures SubTable(at, more) && Lies(b, n, c, more)
    decreases n, 1
  {
    if c == n && at == a {
      more := b;
    } else {
      match n {
        case Attribute(value, _) => more := LiesUnderMore(a, b, value, c, at);
        case Keyword(_, value) => more := LiesUnderMore(a, b, value, c, at);
        case Other(children) => more := AllLieUnderMore(a, b, children, c, at);
        case With(items, body) =>
          BindKeepsSub(a, b, items);
          more := AllLieUnderMore(Bind(a, items), Bind(b, items), body, c, at);
        case Call(func, args, keywords, _) =>
          if Lies(a, func, c, at) {
            more := LiesUnderMore(a, b, func, c, at);
          } else if LiesAny(a, args, c, at) {
            more := AllLieUnderMore(a, b, args, c, at);
          } else {
            more := AllLieUnderMore(a, b, keywords, c, at);
          }
      }
    }
  }

  lemma {:induction false} AllLieUnderMore(a: Tables, b: Tables, ns: seq<Node>, c: Node, at: Tables)
    returns (more: Tables)
    requires SubTable(a, b) && LiesAny(a, ns, c, at)
    ensures SubTable(at, more) && LiesAny(b, ns, c, more)
    decreases ns, 0
  {
    var i :| 0 <= i < |ns| && Lies(a, ns[i], c, at);
    more := LiesUnderMore(a, b, ns[i], c, at);
  }

  /** The same chain under more aliases. */
  lemma {:induction false} LeadsUnderMore(fs: Functions, a: Tables, b: Tables, ns: seq<Node>, path: seq<Hop>, c: Node,
      at: Tables) returns (other: seq<Hop>, more: Tables)
    requires SubTable(a, b) && Leads(fs, a, ns, path, c, at)
    ensures |other| == |path| && SubTable(at, more) && Leads(fs, b, ns, other, c, more)
    decreases |path|
  {
    if path == [] {
      other := [];
      more := AllLieUnderMore(a, b, ns, c, at);
    } else {
      var (h, e) := (path[0].helper, path[0].aliases);
      var k: Node :| LiesAny(a, ns, k, e) && CallsName(fs, k, h);
      var e' := AllLieUnderMore(a, b, ns, k, e);
      var rest, rest' := path[1..], [];
      rest', more := LeadsUnderMore(fs, e, e', fs[h], rest, c, at);
      other := [Hop(h, e')] + rest';
      assert other[1..] == rest' && Enters(fs, b, ns, other[0]);
    }
  }

  lemma {:induction false} SameOperation(c: Node, at: Tables, more: Tables, o: OperationCall)
    requires SubTable(at, more) && IsOperation(c, at, o)
    ensures IsOperation(c, more, o)
  {
  }

  // ----- cutting a chain at its first repeat

  lemma {:induction false} LeadsIsRoute(fs: Functions, env: Tables, ns: seq<Node>, path: seq<Hop>, c: Node, at: Tables)
    requires Leads(fs, env, ns, path, c, at)
    ensures Route(fs, env, ns, path)
    decreases |path|
  {
    if path != [] {
      LeadsIsRoute(fs, path[0].aliases, fs[path[0].helper], path[1..], c, at);
    }
  }

  /** What follows the hop `j`. */
  lemma {:induction false} LeadsFrom(fs: Functions, env: Tables, ns: seq<Node>, path: seq<Hop>, j: nat, c: Node,
                                     at: Tables)
    requires Leads(fs, env, ns, path, c, at) && j < |path|
    ensures path[j].helper in fs && Leads(fs, path[j].aliases, fs[path[j].helper], path[j + 1..], c, at)
    decreases j
  {
    if j > 0 {
      LeadsFrom(fs, path[0].aliases, fs[path[0].helper], path[1..], j - 1, c, at);
      assert path[1..][j - 1] == path[j] && path[1..][j..] == path[j + 1..];
    }
  }

  /** Another way on from the hop `i`. */
  lemma {:induction false} LeadsElsewhere(fs: Functions, env: Tables, ns: seq<Node>, path: seq<Hop>, i: nat,
      rest: seq<Hop>, c: Node, at: Tables)
    requires Route(fs, env, ns, path) && i < |path| && path[i].helper in fs
    requires Leads(fs, path[i].aliases, fs[path[i].helper], rest, c, at)
    ensures Leads(fs, env, ns, path[..i + 1] + rest, c, at)
    decreases i
  {
    var joined := path[..i + 1] + rest;
    if i == 0 {
      assert joined[1..] == rest;
    } else {
      assert path[1..][..i] == path[1..i + 1] && joined[1..] == path[1..][..i] + rest;
      assert path[1..][i - 1] == path[i];
      LeadsElsewhere(fs, path[0].aliases, fs[path[0].helper], path[1..], i - 1, rest, c, at);
    }
  }

  lemma {:induction false} FindRepeat(path: seq<Hop>) returns (j: nat)
    requires !NoRepeats(Helpers(path))
    ensures j < |path| && NoRepeats(Helpers(path[..j])) && path[j].helper in Helpers(path[..j])
  {
    var front := path[..|path| - 1];
    assert forall i :: 0 <= i < |front| ==> Helpers(front)[i] == Helpers(path)[i];
    if NoRepeats(Helpers(front)) {
      j := |path| - 1;
      var i, k :| 0 <= i < k < |path| && Helpers(path)[i] == Helpers(path)[k];
      assert k == j && Helpers(front)[i] == path[j].helper;
    } else {
      j := FindRepeat(front);
      assert front[..j] == path[..j];
    }
  }

  /** Under the guard, every chain can be replaced by one without repeats that leads to the same operation. */
  lemma {:induction false} RepeatsCutOut(fs: Functions, env: Tables, ns: seq<Node>, path: seq<Hop>, c: Node, at: Tables,
      o: OperationCall)
    requires Leads(fs, env, ns, path, c, at) && IsOperation(c, at, o) && !ReentersAny(fs, map[], env, ns)
    ensures LedTo(fs, {}, env, ns, o)
    decreases |path|
  {
    if !NoRepeats(Helpers(path)) {
      var j := FindRepeat(path);
      LeadsIsRoute(fs, env, ns, path, c, at);
      FirstRepeat(fs, map[], env, ns, path, j);
      var i :| 0 <= i < j && path[i].helper == path[j].helper && SubTable(path[j].aliases, path[i].aliases);
      LeadsFrom(fs, env, ns, path, j, c, at);
      var rest, more := LeadsUnderMore(fs, path[j].aliases, path[i].aliases, fs[path[j].helper], path[j + 1..], c, at);
      LeadsElsewhere(fs, env, ns, path, i, rest, c, more);
      SameOperation(c, at, more, o);
      RepeatsCutOut(fs, env, ns, path[..i + 1] + rest, c, more, o);
    }
  }

  /**
   A guard on the text: where no active helper is called under an alias its own visit did not have, the
   operations in scope are exactly those of the visitor's reference, so the cut loses nothing.
   */
  lemma {:induction false} CutLosesNothing(body: seq<Node>, o: OperationCall)
    ensures InScopeOnce(body, o) ==> InScope(body, o)
    ensures !ModuleReenters(body) ==> (InScope(body, o) <==> InScopeOnce(body, o))
  {
    var (fs, ns) := (TopLevelFunctions(body), UpgradeStatements(body));
    if InScope(body, o) && !ModuleReenters(body) {
      var path, c, at :| Leads(fs, map[], ns, path, c, at) && IsOperation(c, at, o);
      RepeatsCutOut(fs, map[], ns, path, c, at, o);
    }
  }

  /**
   The visitor against the chains: it records only operations in scope; and all of them, wherever no
   call follows a rebinding of its alias and no active helper is called under a new alias.
   */
  lemma {:induction false} RecordedInScope(body: seq<Node>, o: OperationCall)
    ensures o in VisitModule(body).ops ==> InScope(body, o)
    ensures LostModule(body) == [] ==> (o in VisitModule(body).ops <==> InScopeOnce(body, o))
    ensures LostModule(body) == [] && !ModuleReenters(body) ==> (o in VisitModule(body).ops <==> InScope(body, o))
  {
    ModuleAgainstScoped(body);
    ScopedExactly(body, o);
    CutLosesNothing(body, o);
  }

  /** The same with the guard on the text: no with-statement is visited where its alias is in scope. */
  lemma {:induction false} UnshadowedInScope(body: seq<Node>, o: OperationCall)
    requires !ModuleShadows(body) && !ModuleReenters(body)
    ensures o in VisitModule(body).ops <==> InScope(body, o)
  {
    UnshadowedModule(body);
    ScopedExactly(body, o);
    CutLosesNothing(body, o);
  }
}
