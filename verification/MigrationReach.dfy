/**
 Completeness and soundness of helper inlining: what the visitor records of `op.<x>(...)` calls is
 exactly what lies in `upgrade` or in a helper that some chain of calls leads to, even though each
 helper is cut while it is being visited.
 */
module MigrationReach {
  import opened Wrappers
  import opened Strings
  import opened MigrationAst
  import opened MigrationVisitor

  /** `c` lies in `n` where the visitor descends: not in nested definitions, not in with-items. */
  ghost predicate Within(c: Node, n: Node) {
    c == n ||
    match n
    case Attribute(value, _) => Within(c, value)
    case Keyword(_, value) => Within(c, value)
    case Call(func, args, keywords, _) =>
      Within(c, func) || (exists i :: 0 <= i < |args| && Within(c, args[i]))
      || (exists i :: 0 <= i < |keywords| && Within(c, keywords[i]))
    case With(_, body) => exists i :: 0 <= i < |body| && Within(c, body[i])
    case Other(children) => exists i :: 0 <= i < |children| && Within(c, children[i])
    case _ => false
  }

  ghost predicate WithinAny(c: Node, ns: seq<Node>) {
    exists i :: 0 <= i < |ns| && Within(c, ns[i])
  }

  /** The statements `ns` call the helper `h` somewhere the visitor looks. */
  ghost predicate CallsHelper(fs: Functions, ns: seq<Node>, h: string) {
    h in fs && h !in NOT_INLINED && exists k: Node :: WithinAny(k, ns) && k.Call? && k.func == Name(h)
  }

  /** A chain of calls: `ns` calls `path[0]`, whose body calls `path[1]`, and so on. */
  ghost predicate Chain(fs: Functions, ns: seq<Node>, path: seq<string>)
    decreases |path|
  {
    path == [] || (CallsHelper(fs, ns, path[0]) && Chain(fs, fs[path[0]], path[1..]))
  }

  ghost function ChainEnd(fs: Functions, ns: seq<Node>, path: seq<string>): seq<Node>
    requires Chain(fs, ns, path)
    decreases |path|
  {
    if path == [] then ns else ChainEnd(fs, fs[path[0]], path[1..])
  }

  /** The call `c` lies in the statements `ns` or in a helper that some chain of calls leads to. */
  ghost predicate Reachable(fs: Functions, ns: seq<Node>, c: Node) {
    exists path :: Chain(fs, ns, path) && WithinAny(c, ChainEnd(fs, ns, path))
  }

  // ----- completeness

  /** Whatever visiting a part records, visiting the whole records too. */
  lemma {:induction false} PartRecorded(fs: Functions, active: set<string>, tables: Tables, n: Node,
        k: Node) returns (t: Tables)
    requires Within(k, n)
    ensures forall o :: o in Visit(fs, active, t, k).ops ==> o in Visit(fs, active, tables, n).ops
    decreases n, 1
  {
    t := tables;
    if k != n {
      match n {
        case Attribute(value, _) => t := PartRecorded(fs, active, tables, value, k);
        case Keyword(_, value) => t := PartRecorded(fs, active, tables, value, k);
        case Other(children) => t := PartOfAllRecorded(fs, active, tables, children, k);
        case With(items, body) => t := PartOfAllRecorded(fs, active, Bind(tables, items), body, k);
        case Call(func, args, keywords, _) =>
          var helper := VisitHelper(fs, active, tables, n);
          t := PartOfCallRecorded(fs, active, helper.tables, n, k);
      }
    }
  }

  lemma {:induction false} PartOfCallRecorded(fs: Functions, active: set<string>, tables: Tables, n: Node,
        k: Node) returns (t: Tables)
    requires n.Call? && Within(k, n) && k != n
    ensures forall o :: o in Visit(fs, active, t, k).ops ==> o in VisitChildren(fs, active, tables, n).ops
    decreases n, 0
  {
    var func := Visit(fs, active, tables, n.func);
    var args := VisitAll(fs, active, func.tables, n.args);
    if Within(k, n.func) {
      t := PartRecorded(fs, active, tables, n.func, k);
    } else if WithinAny(k, n.args) {
      t := PartOfAllRecorded(fs, active, func.tables, n.args, k);
    } else {
      t := PartOfAllRecorded(fs, active, args.tables, n.keywords, k);
    }
  }

  lemma {:induction false} PartOfAllRecorded(fs: Functions, active: set<string>, tables: Tables, ns: seq<Node>,
        k: Node) returns (t: Tables)
    requires WithinAny(k, ns)
    ensures forall o :: o in Visit(fs, active, t, k).ops ==> o in VisitAll(fs, active, tables, ns).ops
    decreases ns, 0
  {
    var last := |ns| - 1;
    if Within(k, ns[last]) {
      t := PartRecorded(fs, active, VisitAll(fs, active, tables, ns[..last]).tables, ns[last], k);
    } else {
      var i :| 0 <= i < |ns| && Within(k, ns[i]);
      assert ns[..last][i] == ns[i];
      t := PartOfAllRecorded(fs, active, tables, ns[..last], k);
    }
  }

  /** A chain without repeats that avoids the active helpers is followed to its end. */
  lemma {:induction false} SimpleChainRecorded(fs: Functions, active: set<string>, tables: Tables, ns: seq<Node>,
        path: seq<string>, c: Node)
    requires Chain(fs, ns, path) && NoRepeats(path) && (forall h :: h in path ==> h !in active)
    requires WithinAny(c, ChainEnd(fs, ns, path)) && IsDirectOp(c)
    ensures OperationCall(c, CallName(c), None) in VisitAll(fs, active, tables, ns).ops
    decreases |path|
  {
    if path == [] {
      var t := PartOfAllRecorded(fs, active, tables, ns, c);
      assert OperationOf(t, c) == Some(OperationCall(c, CallName(c), None));
      assert Recorded(t, c)[0] in Visit(fs, active, t, c).ops;
    } else {
      var h := path[0];
      var k: Node :| WithinAny(k, ns) && k.Call? && k.func == Name(h);
      var t := PartOfAllRecorded(fs, active, tables, ns, k);
      SimpleChainRecorded(fs, active + {h}, t, fs[h], path[1..], c);
      assert h in path;
      assert Inlines(fs, active, k);
      assert OperationCall(c, CallName(c), None) in VisitHelper(fs, active, t, k).ops;
    }
  }

  /** From the second visit of a helper on, a chain can start over at the first: loops cut out. */
  lemma {:induction false} LoopFree(fs: Functions, ns: seq<Node>, path: seq<string>) returns (simple: seq<string>)
    requires Chain(fs, ns, path)
    ensures Chain(fs, ns, simple) && NoRepeats(simple) && ChainEnd(fs, ns, simple) == ChainEnd(fs, ns, path)
    decreases |path|
  {
    if path == [] {
      simple := [];
    } else {
      var rest := LoopFree(fs, fs[path[0]], path[1..]);
      if path[0] in rest {
        var j :| 0 <= j < |rest| && rest[j] == path[0];
        ChainSuffix(fs, fs[path[0]], rest, j);
        simple := rest[j..];
      } else {
        simple := [path[0]] + rest;
        assert simple[1..] == rest;
      }
    }
  }

  lemma {:induction false} ChainSuffix(fs: Functions, ns: seq<Node>, path: seq<string>, j: nat)
    requires Chain(fs, ns, path) && j < |path|
    ensures path[j] in fs && Chain(fs, fs[path[j]], path[j + 1..])
    ensures ChainEnd(fs, fs[path[j]], path[j + 1..]) == ChainEnd(fs, ns, path)
    decreases |path|
  {
    if j > 0 {
      ChainSuffix(fs, fs[path[0]], path[1..], j - 1);
      assert path[1..][j..] == path[j + 1..];
    }
  }

  // ----- soundness

  /** Everything in `n` is also in `root`: `n` is a visited part of the statements `root`. */
  ghost predicate PartOf(n: Node, root: seq<Node>) {
    forall k :: Within(k, n) ==> WithinAny(k, root)
  }

  ghost predicate AllPartOf(ns: seq<Node>, root: seq<Node>) {
    forall i :: 0 <= i < |ns| ==> PartOf(ns[i], root)
  }

  lemma {:induction false} RecordedIsReachable(fs: Functions, active: set<string>, tables: Tables, n: Node,
        root: seq<Node>, o: OperationCall)
    requires PartOf(n, root)
    requires o in Visit(fs, active, tables, n).ops && o.table.None?
    ensures IsDirectOp(o.node) && o.name == CallName(o.node) && Reachable(fs, root, o.node)
    decreases |fs.Keys - active|, n, 1
  {
    match n {
      case Attribute(value, _) => RecordedIsReachable(fs, active, tables, value, root, o);
      case Keyword(_, value) => RecordedIsReachable(fs, active, tables, value, root, o);
      case Other(children) =>
        assert AllPartOf(children, root);
        AllRecordedIsReachable(fs, active, tables, children, root, o);
      case With(items, body) =>
        assert AllPartOf(body, root);
        AllRecordedIsReachable(fs, active, Bind(tables, items), body, root, o);
      case Call(func, args, keywords, _) =>
        var helper := VisitHelper(fs, active, tables, n);
        if o in Recorded(tables, n) {
          assert Within(n, n);
          assert Chain(fs, root, []) && ChainEnd(fs, root, []) == root;
        } else if o in helper.ops {
          HelperRecordedIsReachable(fs, active, tables, n, root, o);
        } else {
          var f := Visit(fs, active, helper.tables, func);
          var a := VisitAll(fs, active, f.tables, args);
          if o in f.ops {
            RecordedIsReachable(fs, active, helper.tables, func, root, o);
          } else if o in a.ops {
            assert AllPartOf(args, root);
            AllRecordedIsReachable(fs, active, f.tables, args, root, o);
          } else {
            assert AllPartOf(keywords, root);
            AllRecordedIsReachable(fs, active, a.tables, keywords, root, o);
          }
        }
    }
  }

  lemma {:induction false} HelperRecordedIsReachable(fs: Functions, active: set<string>, tables: Tables, n: Node,
        root: seq<Node>, o: OperationCall)
    requires n.Call? && PartOf(n, root)
    requires o in VisitHelper(fs, active, tables, n).ops && o.table.None?
    ensures IsDirectOp(o.node) && o.name == CallName(o.node) && Reachable(fs, root, o.node)
    decreases |fs.Keys - active|, n, 0
  {
    var h := n.func.id;
    FewerInactive(fs, active, h);
    assert AllPartOf(fs[h], fs[h]);
    AllRecordedIsReachable(fs, active + {h}, tables, fs[h], fs[h], o);
    var path :| Chain(fs, fs[h], path) && WithinAny(o.node, ChainEnd(fs, fs[h], path));
    assert Within(n, n) && n.func == Name(h);
    assert CallsHelper(fs, root, h);
    assert ([h] + path)[1..] == path;
    assert Chain(fs, root, [h] + path);
  }

  lemma {:induction false} AllRecordedIsReachable(fs: Functions, active: set<string>, tables: Tables, ns: seq<Node>,
        root: seq<Node>, o: OperationCall)
    requires AllPartOf(ns, root)
    requires o in VisitAll(fs, active, tables, ns).ops && o.table.None?
    ensures IsDirectOp(o.node) && o.name == CallName(o.node) && Reachable(fs, root, o.node)
    decreases |fs.Keys - active|, ns, 0
  {
    var last := |ns| - 1;
    var before := VisitAll(fs, active, tables, ns[..last]);
    if o in before.ops {
      AllRecordedIsReachable(fs, active, tables, ns[..last], root, o);
    } else {
      RecordedIsReachable(fs, active, before.tables, ns[last], root, o);
    }
  }

  // ----- the two together

  /**
   The direct operations recorded for a module are exactly the reachable `op.<x>(...)` calls: any
   chain of helper calls counts, mutually recursive ones included.
   */
  lemma {:induction false} DirectOperationsExact(body: seq<Node>, o: OperationCall)
    requires o.table.None?
    ensures o in VisitModule(body).ops <==>
            IsDirectOp(o.node) && o.name == CallName(o.node)
            && Reachable(TopLevelFunctions(body), UpgradeStatements(body), o.node)
  {
    var fs, ns := TopLevelFunctions(body), UpgradeStatements(body);
    if o in VisitModule(body).ops {
      assert AllPartOf(ns, ns);
      AllRecordedIsReachable(fs, {}, map[], ns, ns, o);
    }
    if IsDirectOp(o.node) && o.name == CallName(o.node) && Reachable(fs, ns, o.node) {
      var path :| Chain(fs, ns, path) && WithinAny(o.node, ChainEnd(fs, ns, path));
      var simple := LoopFree(fs, ns, path);
      SimpleChainRecorded(fs, {}, map[], ns, simple, o.node);
    }
  }
}
