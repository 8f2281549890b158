/**
 What the cut at active helpers leaves out, exactly.  A helper can be entered under finitely many
 alias tables only, so following calls until a helper would be entered again under the same table
 finds every operation that any chain of calls leads to.
 */
module MigrationCut {
  import opened Wrappers
  import opened Strings
  import opened MigrationAst
  import opened MigrationVisitor
  import opened MigrationScopes
  import opened MigrationRoutes

  // ----- the nodes of a text, with the aliases in force at each

  datatype Place = Place(node: Node, aliases: Tables)

  function Places(env: Tables, n: Node): set<Place>
    decreases n, 1
  {
    {Place(n, env)} +
    match n
    case Attribute(value, _) => Places(env, value)
    case Keyword(_, value) => Places(env, value)
    case Call(func, args, keywords, _) => Places(env, func) + PlacesAll(env, args) + PlacesAll(env, keywords)
    case With(items, body) => PlacesAll(Bind(env, items), body)
    case Other(children) => PlacesAll(env, children)
    case _ => {}
  }

  function PlacesAll(env: Tables, ns: seq<Node>): set<Place>
    decreases ns, 0
  {
    if ns == [] then {} else PlacesAll(env, ns[..|ns| - 1]) + Places(env, ns[|ns| - 1])
  }

  lemma {:induction false} PlacesLie(env: Tables, n: Node, p: Place)
    ensures p in Places(env, n) <==> Lies(env, n, p.node, p.aliases)
    decreases n, 1
  {
    match n
    case Attribute(value, _) => PlacesLie(env, value, p);
    case Keyword(_, value) => PlacesLie(env, value, p);
    case Other(children) => AllPlacesLie(env, children, p);
    case With(items, body) => AllPlacesLie(Bind(env, items), body, p);
    case Call(func, args, keywords, _) =>
      PlacesLie(env, func, p);
      AllPlacesLie(env, args, p);
      AllPlacesLie(env, keywords, p);
    case _ =>
  }

  lemma {:induction false} AllPlacesLie(env: Tables, ns: seq<Node>, p: Place)
    ensures p in PlacesAll(env, ns) <==> LiesAny(env, ns, p.node, p.aliases)
    decreases ns, 0
  {
    if ns != [] {
      var last := |ns| - 1;
      AllPlacesLie(env, ns[..last], p);
      PlacesLie(env, ns[last], p);
      assert forall i :: 0 <= i < last ==> ns[..last][i] == ns[i];
    }
  }

  /** The helper that is called at the place, if any. */
  predicate IsCall(fs: Functions, p: Place) {
    p.node.Call? && p.node.func.Name? && CallsName(fs, p.node, p.node.func.id)
  }

  function HopOf(p: Place): Hop
    requires p.node.Call? && p.node.func.Name?
  {
    Hop(p.node.func.id, p.aliases)
  }

  lemma {:induction false} EntersAtPlace(fs: Functions, env: Tables, ns: seq<Node>, hop: Hop) returns (p: Place)
    requires Enters(fs, env, ns, hop)
    ensures p in PlacesAll(env, ns) && IsCall(fs, p) && HopOf(p) == hop
  {
    var k: Node :| LiesAny(env, ns, k, hop.aliases) && CallsName(fs, k, hop.helper);
    p := Place(k, hop.aliases);
    AllPlacesLie(env, ns, p);
  }

  lemma {:induction false} PlaceEnters(fs: Functions, env: Tables, ns: seq<Node>, p: Place)
    requires p in PlacesAll(env, ns) && IsCall(fs, p)
    ensures Enters(fs, env, ns, HopOf(p))
  {
    AllPlacesLie(env, ns, p);
    assert LiesAny(env, ns, p.node, HopOf(p).aliases);
  }

  function OperationsAt(places: set<Place>): set<OperationCall> {
    set p | p in places && p.node.Call? && OperationOf(p.aliases, p.node).Some? ::
      OperationOf(p.aliases, p.node).value
  }

  // ----- everything that chains of calls lead to

  /** The operations met when calls are followed as long as the hop is among those `left`. */
  function Full(fs: Functions, left: set<Hop>, env: Tables, ns: seq<Node>): set<OperationCall>
    decreases left
  {
    OperationsAt(PlacesAll(env, ns))
    + set p, o | p in PlacesAll(env, ns) && IsCall(fs, p) && HopOf(p) in left
                 && o in Full(fs, left - {HopOf(p)}, p.aliases, fs[p.node.func.id]) :: o
  }

  /** Some chain of calls leads from `ns` to the operation. */
  ghost predicate Led(fs: Functions, env: Tables, ns: seq<Node>, o: OperationCall) {
    exists path, c, at :: Leads(fs, env, ns, path, c, at) && IsOperation(c, at, o)
  }

  lemma {:induction false} LedByHop(fs: Functions, env: Tables, ns: seq<Node>, hop: Hop, o: OperationCall)
    requires Enters(fs, env, ns, hop) && hop.helper in fs && Led(fs, hop.aliases, fs[hop.helper], o)
    ensures Led(fs, env, ns, o)
  {
    var path, c, at :| Leads(fs, hop.aliases, fs[hop.helper], path, c, at) && IsOperation(c, at, o);
    assert ([hop] + path)[1..] == path;
    assert Leads(fs, env, ns, [hop] + path, c, at);
  }

  lemma {:induction false} LedAtOnce(fs: Functions, env: Tables, ns: seq<Node>, o: OperationCall)
    requires o in OperationsAt(PlacesAll(env, ns))
    ensures Led(fs, env, ns, o)
  {
    var p :| p in PlacesAll(env, ns) && p.node.Call? && OperationOf(p.aliases, p.node) == Some(o);
    AllPlacesLie(env, ns, p);
    assert Leads(fs, env, ns, [], p.node, p.aliases);
  }

  lemma {:induction false} FullIsLed(fs: Functions, left: set<Hop>, env: Tables, ns: seq<Node>, o: OperationCall)
    requires o in Full(fs, left, env, ns)
    ensures Led(fs, env, ns, o)
    decreases left
  {
    if o in OperationsAt(PlacesAll(env, ns)) {
      LedAtOnce(fs, env, ns, o);
    } else {
      var p :| p in PlacesAll(env, ns) && IsCall(fs, p) && HopOf(p) in left
               && o in Full(fs, left - {HopOf(p)}, p.aliases, fs[p.node.func.id]);
      FullIsLed(fs, left - {HopOf(p)}, p.aliases, fs[p.node.func.id], o);
      PlaceEnters(fs, env, ns, p);
      LedByHop(fs, env, ns, HopOf(p), o);
    }
  }

  ghost predicate Distinct(path: seq<Hop>) {
    forall i, j :: 0 <= i < j < |path| ==> path[i] != path[j]
  }

  ghost predicate AllIn(path: seq<Hop>, left: set<Hop>) {
    forall i :: 0 <= i < |path| ==> path[i] in left
  }

  lemma {:induction false} DistinctIsFull(fs: Functions, left: set<Hop>, env: Tables, ns: seq<Node>, path: seq<Hop>,
      c: Node, at: Tables, o: OperationCall)
    requires Leads(fs, env, ns, path, c, at) && IsOperation(c, at, o) && Distinct(path) && AllIn(path, left)
    ensures o in Full(fs, left, env, ns)
    decreases |path|
  {
    if path == [] {
      AllPlacesLie(env, ns, Place(c, at));
      assert Place(c, at) in PlacesAll(env, ns);
    } else {
      var p := EntersAtPlace(fs, env, ns, path[0]);
      DistinctIsFull(fs, left - {path[0]}, path[0].aliases, fs[path[0].helper], path[1..], c, at, o);
    }
  }

  /** A chain that comes back to a hop can be cut there: what follows is the same. */
  lemma {:induction false} MadeDistinct(fs: Functions, env: Tables, ns: seq<Node>, path: seq<Hop>, c: Node, at: Tables)
    returns (short: seq<Hop>)
    requires Leads(fs, env, ns, path, c, at)
    ensures Leads(fs, env, ns, short, c, at) && Distinct(short)
    decreases |path|
  {
    if Distinct(path) {
      short := path;
    } else {
      var i, j :| 0 <= i < j < |path| && path[i] == path[j];
      LeadsIsRoute(fs, env, ns, path, c, at);
      LeadsFrom(fs, env, ns, path, j, c, at);
      LeadsElsewhere(fs, env, ns, path, i, path[j + 1..], c, at);
      short := MadeDistinct(fs, env, ns, path[..i + 1] + path[j + 1..], c, at);
    }
  }

  // ----- finitely many hops

  type Binding = (string, string)

  function ItemBindings(items: seq<WithItem>): seq<Binding> {
    if items == [] then []
    else
      var (before, item) := (ItemBindings(items[..|items| - 1]), items[|items| - 1]);
      if ItemAlias(item).Some? then before + [(ItemAlias(item).value, BatchTable(item.contextExpr).value)] else before
  }

  /** The alias and the table of every batch opened in the text. */
  function Bindings(n: Node): seq<Binding>
    decreases n, 1
  {
    match n
    case Attribute(value, _) => Bindings(value)
    case Keyword(_, value) => Bindings(value)
    case Call(func, args, keywords, _) => Bindings(func) + BindingsAll(args) + BindingsAll(keywords)
    case With(items, body) => ItemBindings(items) + BindingsAll(body)
    case Other(children) => BindingsAll(children)
    case _ => []
  }

  function BindingsAll(ns: seq<Node>): seq<Binding>
    decreases ns, 0
  {
    if ns == [] then [] else BindingsAll(ns[..|ns| - 1]) + Bindings(ns[|ns| - 1])
  }

  function ModuleBindings(body: seq<Node>): seq<Binding> {
    if body == [] then []
    else
      var (before, last) := (ModuleBindings(body[..|body| - 1]), body[|body| - 1]);
      if last.FunctionDef? then before + BindingsAll(last.defBody) else before
  }

  /** Every alias table that can be put together from the bindings. */
  function TablesOf(bs: seq<Binding>): set<Tables> {
    if bs == [] then {map[]}
    else
      var rest := TablesOf(bs[1..]);
      rest + set t | t in rest :: t[bs[0].0 := bs[0].1]
  }

  ghost predicate Known(bs: seq<Binding>, env: Tables) {
    forall x :: x in env ==> (x, env[x]) in bs
  }

  ghost predicate Within(some: seq<Binding>, bs: seq<Binding>) {
    forall b :: b in some ==> b in bs
  }

  lemma {:induction false} KnownIsListed(bs: seq<Binding>, env: Tables)
    requires Known(bs, env)
    ensures env in TablesOf(bs)
    decreases |bs|
  {
    if bs == [] {
      assert env == map[];
    } else {
      var (x, table) := bs[0];
      assert bs == [bs[0]] + bs[1..];
      if x in env && env[x] == table {
        var rest := env - {x};
        assert forall y :: y in rest ==> rest[y] == env[y] && (y, env[y]) != bs[0];
        KnownIsListed(bs[1..], rest);
        assert rest[x := table] == env;
      } else {
        assert forall y :: y in env ==> (y, env[y]) != bs[0];
        KnownIsListed(bs[1..], env);
      }
    }
  }

  lemma {:induction false} BindIsKnown(bs: seq<Binding>, env: Tables, items: seq<WithItem>)
    requires Known(bs, env) && Within(ItemBindings(items), bs)
    ensures Known(bs, Bind(env, items))
  {
    if items != [] {
      var (front, item) := (items[..|items| - 1], items[|items| - 1]);
      BindIsKnown(bs, env, front);
      if ItemAlias(item).Some? {
        var b := (ItemAlias(item).value, BatchTable(item.contextExpr).value);
        assert b == ItemBindings(items)[|ItemBindings(front)|];
      }
    }
  }

  lemma {:induction false} LyingIsKnown(bs: seq<Binding>, env: Tables, n: Node, c: Node, at: Tables)
    requires Known(bs, env) && Within(Bindings(n), bs) && Lies(env, n, c, at)
    ensures Known(bs, at)
    decreases n, 1
  {
    if !(c == n && at == env) {
      match n {
        case Attribute(value, _) => LyingIsKnown(bs, env, value, c, at);
        case Keyword(_, value) => LyingIsKnown(bs, env, value, c, at);
        case Other(children) => AllLyingIsKnown(bs, env, children, c, at);
        case With(items, body) =>
          BindIsKnown(bs, env, items);
          AllLyingIsKnown(bs, Bind(env, items), body, c, at);
        case Call(func, args, keywords, _) =>
          if Lies(env, func, c, at) {
            LyingIsKnown(bs, env, func, c, at);
          } else if LiesAny(env, args, c, at) {
            AllLyingIsKnown(bs, env, args, c, at);
          } else {
            AllLyingIsKnown(bs, env, keywords, c, at);
          }
      }
    }
  }

  lemma {:induction false} AllLyingIsKnown(bs: seq<Binding>, env: Tables, ns: seq<Node>, c: Node, at: Tables)
    requires Known(bs, env) && Within(BindingsAll(ns), bs) && LiesAny(env, ns, c, at)
    ensures Known(bs, at)
    decreases ns, 0
  {
    var last := |ns| - 1;
    if Lies(env, ns[last], c, at) {
      LyingIsKnown(bs, env, ns[last], c, at);
    } else {
      var i :| 0 <= i < |ns| && Lies(env, ns[i], c, at);
      assert ns[..last][i] == ns[i];
      AllLyingIsKnown(bs, env, ns[..last], c, at);
    }
  }

  /** All that a chain through these functions can be entered under. */
  function Hops(fs: Functions, bs: seq<Binding>): set<Hop> {
    set h, t | h in fs.Keys && t in TablesOf(bs) :: Hop(h, t)
  }

  ghost predicate Closed(fs: Functions, bs: seq<Binding>) {
    forall h :: h in fs ==> Within(BindingsAll(fs[h]), bs)
  }

  lemma {:induction false} HopIsKnown(fs: Functions, bs: seq<Binding>, env: Tables, ns: seq<Node>, hop: Hop)
    requires Enters(fs, env, ns, hop) && Known(bs, env) && Within(BindingsAll(ns), bs)
    ensures Known(bs, hop.aliases) && hop in Hops(fs, bs)
  {
    var k: Node :| LiesAny(env, ns, k, hop.aliases) && CallsName(fs, k, hop.helper);
    AllLyingIsKnown(bs, env, ns, k, hop.aliases);
    KnownIsListed(bs, hop.aliases);
  }

  lemma {:induction false} ChainIsKnown(fs: Functions, bs: seq<Binding>, env: Tables, ns: seq<Node>, path: seq<Hop>,
      c: Node, at: Tables)
    requires Leads(fs, env, ns, path, c, at) && Closed(fs, bs) && Known(bs, env) && Within(BindingsAll(ns), bs)
    ensures AllIn(path, Hops(fs, bs))
    decreases |path|
  {
    if path != [] {
      HopIsKnown(fs, bs, env, ns, path[0]);
      ChainIsKnown(fs, bs, path[0].aliases, fs[path[0].helper], path[1..], c, at);
      assert forall i :: 0 < i < |path| ==> path[i] == path[1..][i - 1];
    }
  }

  /** Following the finitely many hops finds exactly what any chain leads to. */
  lemma {:induction false} FullExactly(fs: Functions, bs: seq<Binding>, env: Tables, ns: seq<Node>, o: OperationCall)
    requires Closed(fs, bs) && Known(bs, env) && Within(BindingsAll(ns), bs)
    ensures o in Full(fs, Hops(fs, bs), env, ns) <==> Led(fs, env, ns, o)
  {
    if o in Full(fs, Hops(fs, bs), env, ns) {
      FullIsLed(fs, Hops(fs, bs), env, ns, o);
    }
    if path, c, at :| Leads(fs, env, ns, path, c, at) && IsOperation(c, at, o) {
      var short := MadeDistinct(fs, env, ns, path, c, at);
      ChainIsKnown(fs, bs, env, ns, short, c, at);
      DistinctIsFull(fs, Hops(fs, bs), env, ns, short, c, at, o);
    }
  }

  // ----- what the cut leaves out

  /**
   What the calls that the visit cuts, because their helper is active, lead to.  `all` are the hops
   there are.
   */
  function Cut(fs: Functions, all: set<Hop>, active: set<string>, env: Tables, ns: seq<Node>): set<OperationCall>
    decreases fs.Keys - active
  {
    (set p, o | p in PlacesAll(env, ns) && IsCall(fs, p) && p.node.func.id in active
                && o in Full(fs, all, p.aliases, fs[p.node.func.id]) :: o)
    + (set p, o | p in PlacesAll(env, ns) && IsCall(fs, p) && p.node.func.id !in active
                  && o in Cut(fs, all, active + {p.node.func.id}, p.aliases, fs[p.node.func.id]) :: o)
  }

  lemma {:induction false} CutIsLed(fs: Functions, all: set<Hop>, active: set<string>, env: Tables, ns: seq<Node>,
      o: OperationCall)
    requires o in Cut(fs, all, active, env, ns)
    ensures Led(fs, env, ns, o)
    decreases fs.Keys - active
  {
    if p :| p in PlacesAll(env, ns) && IsCall(fs, p) && p.node.func.id in active
            && o in Full(fs, all, p.aliases, fs[p.node.func.id]) {
      FullIsLed(fs, all, p.aliases, fs[p.node.func.id], o);
      PlaceEnters(fs, env, ns, p);
      LedByHop(fs, env, ns, HopOf(p), o);
    } else {
      var p :| p in PlacesAll(env, ns) && IsCall(fs, p) && p.node.func.id !in active
               && o in Cut(fs, all, active + {p.node.func.id}, p.aliases, fs[p.node.func.id]);
      CutIsLed(fs, all, active + {p.node.func.id}, p.aliases, fs[p.node.func.id], o);
      PlaceEnters(fs, env, ns, p);
      LedByHop(fs, env, ns, HopOf(p), o);
    }
  }

  /** A chain leads where one without repeats does, or to something that a cut call leads to. */
  lemma {:induction false} LedOrCut(fs: Functions, bs: seq<Binding>, active: set<string>, env: Tables, ns: seq<Node>,
      path: seq<Hop>, c: Node, at: Tables, o: OperationCall)
    requires Closed(fs, bs) && Known(bs, env) && Within(BindingsAll(ns), bs)
    requires Leads(fs, env, ns, path, c, at) && IsOperation(c, at, o)
    ensures LedTo(fs, active, env, ns, o) || o in Cut(fs, Hops(fs, bs), active, env, ns)
    decreases |path|
  {
    if path == [] {
      assert Helpers(path) == [] && Avoids(path, active);
    } else {
      var (h, e) := (path[0].helper, path[0].aliases);
      var p := EntersAtPlace(fs, env, ns, path[0]);
      HopIsKnown(fs, bs, env, ns, path[0]);
      if h in active {
        assert Led(fs, e, fs[h], o);
        FullExactly(fs, bs, e, fs[h], o);
      } else {
        LedOrCut(fs, bs, active + {h}, e, fs[h], path[1..], c, at, o);
        if LedTo(fs, active + {h}, e, fs[h], o) {
          var rest, c', at' :| Leads(fs, e, fs[h], rest, c', at') && NoRepeats(Helpers(rest))
            && Avoids(rest, active + {h}) && IsOperation(c', at', o);
          OneMoreHop(fs, active, env, ns, path[0], rest, c', at');
        }
      }
    }
  }

  function CutModule(body: seq<Node>): set<OperationCall> {
    var fs := TopLevelFunctions(body);
    Cut(fs, Hops(fs, ModuleBindings(body)), {}, map[], UpgradeStatements(body))
  }

  lemma {:induction false} ModuleCloses(body: seq<Node>)
    ensures Closed(TopLevelFunctions(body), ModuleBindings(body))
    ensures Within(BindingsAll(UpgradeStatements(body)), ModuleBindings(body))
  {
    if body != [] {
      var (front, last) := (body[..|body| - 1], body[|body| - 1]);
      ModuleCloses(front);
      if IsUpgrade(last) {
        BindingsAppend(UpgradeStatements(front), last.defBody);
      }
    }
  }

  lemma {:induction false} BindingsAppend(xs: seq<Node>, ys: seq<Node>)
    ensures BindingsAll(xs + ys) == BindingsAll(xs) + BindingsAll(ys)
  {
    if ys == [] {
      assert xs + ys == xs;
    } else {
      assert (xs + ys)[..|xs + ys| - 1] == xs + ys[..|ys| - 1];
      BindingsAppend(xs, ys[..|ys| - 1]);
    }
  }

  /** The operations in scope are those that chains without repeats lead to, and those of the cut calls. */
  lemma {:induction false} ScopeSplits(body: seq<Node>, o: OperationCall)
    ensures InScope(body, o) <==> InScopeOnce(body, o) || o in CutModule(body)
  {
    var (fs, ns, bs) := (TopLevelFunctions(body), UpgradeStatements(body), ModuleBindings(body));
    ModuleCloses(body);
    if path, c, at :| Leads(fs, map[], ns, path, c, at) && IsOperation(c, at, o) {
      LedOrCut(fs, bs, {}, map[], ns, path, c, at, o);
    }
    if o in CutModule(body) {
      CutIsLed(fs, Hops(fs, bs), {}, map[], ns, o);
    }
  }

  /** The cut loses nothing exactly when all that a cut call leads to is met elsewhere by the visit. */
  lemma {:induction false} CutIsHarmlessExactly(body: seq<Node>)
    ensures (forall o :: InScope(body, o) ==> InScopeOnce(body, o))
            <==> forall o :: o in CutModule(body) ==> o in ScopedModule(body)
  {
    forall o
      ensures InScope(body, o) <==> InScopeOnce(body, o) || o in CutModule(body)
      ensures o in ScopedModule(body) <==> InScopeOnce(body, o)
    {
      ScopeSplits(body, o);
      ScopedExactly(body, o);
    }
  }

  /**
   What is in scope is what the visitor records, what it loses to a rebinding, and what the calls that
   it cuts lead to.
   */
  lemma {:induction false} RecordExactly(body: seq<Node>, o: OperationCall)
    ensures InScope(body, o) <==> o in VisitModule(body).ops || o in LostModule(body) || o in CutModule(body)
  {
    ModuleAgainstScoped(body);
    ScopedExactly(body, o);
    ScopeSplits(body, o);
  }

  /** Every operation in scope is recorded exactly when all that is lost or cut is recorded elsewhere. */
  lemma {:induction false} RecordIsComplete(body: seq<Node>)
    ensures (forall o :: InScope(body, o) ==> o in VisitModule(body).ops)
            <==> forall o :: o in LostModule(body) || o in CutModule(body) ==> o in VisitModule(body).ops
  {
    forall o
      ensures InScope(body, o) <==> o in VisitModule(body).ops || o in LostModule(body) || o in CutModule(body)
    {
      RecordExactly(body, o);
    }
  }
}
