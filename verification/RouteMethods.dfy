/**
 The method guard of backend/app/main.py: the one-pass lookup of the methods of the most specific
 routes that match a path, over a table that is built once and cached.
 */
module RouteMethods {
  import opened Wrappers

  /** An API route: its path format, what its path regex matches, and its methods. */
  datatype Route = Route(pathFormat: string, matches: string -> bool, methods: set<string>)

  // ----- specificity

  /** The segments of a path format, split at the slashes; empty ones included. */
  function Segments(path: string): (r: seq<string>)
    ensures r != []
  {
    if path == "" then [""]
    else
      var rest := Segments(path[1..]);
      if path[0] == '/' then [""] + rest else [[path[0]] + rest[0]] + rest[1..]
  }

  predicate IsStatic(segment: string) {
    segment != "" && segment[0] != '{'
  }

  /** How many static segments there are, and how long they are together. */
  function StaticSegments(segments: seq<string>): (nat, nat) {
    if segments == [] then (0, 0)
    else
      var (count, length) := StaticSegments(segments[1..]);
      if IsStatic(segments[0]) then (count + 1, length + |segments[0]|) else (count, length)
  }

  function Specificity(pathFormat: string): (nat, nat) {
    StaticSegments(Segments(pathFormat))
  }

  /** Tuples compare by their first component, then by their second. */
  predicate Less(a: (nat, nat), b: (nat, nat)) {
    a.0 < b.0 || (a.0 == b.0 && a.1 < b.1)
  }

  // ----- specificity, said of the path formats

  /** The segments with a slash between any two. */
  function Joined(segments: seq<string>): string
    requires segments != []
  {
    if |segments| == 1 then segments[0] else segments[0] + "/" + Joined(segments[1..])
  }

  /** The path format consists of these segments. */
  ghost predicate IsSplit(segments: seq<string>, path: string) {
    segments != [] && (forall i :: 0 <= i < |segments| ==> '/' !in segments[i]) && Joined(segments) == path
  }

  lemma {:induction false} SegmentsSplit(path: string)
    ensures IsSplit(Segments(path), path)
  {
    if path != "" {
      var (rest, all) := (Segments(path[1..]), Segments(path));
      SegmentsSplit(path[1..]);
      if path[0] == '/' {
        assert all[1..] == rest && Joined(all) == "/" + path[1..];
      } else if |rest| == 1 {
        assert Joined(all) == [path[0]] + path[1..];
      } else {
        assert all[1..] == rest[1..];
        assert Joined(all) == [path[0]] + rest[0] + "/" + Joined(rest[1..]) == [path[0]] + path[1..];
      }
    }
  }

  /** There is only one way to split a path format. */
  lemma {:induction false} SplitIsSegments(segments: seq<string>, path: string)
    requires IsSplit(segments, path)
    ensures Segments(path) == segments
    decreases |path|
  {
    var (first, rest) := (segments[0], segments[1..]);
    if first == "" {
      if rest != [] {
        assert path == "/" + Joined(rest) && path[1..] == Joined(rest);
        SplitIsSegments(rest, path[1..]);
      }
    } else {
      var shorter := [first[1..]] + rest;
      assert path[0] == first[0] && path[0] != '/';
      assert |segments| > 1 ==> shorter[1..] == rest;
      assert path[1..] == Joined(shorter);
      SplitIsSegments(shorter, path[1..]);
      assert [path[0]] + shorter[0] == first && [first] + shorter[1..] == segments;
    }
  }

  /** The segments that are neither empty nor parameters. */
  ghost function Statics(segments: seq<string>): seq<string> {
    if segments == [] then []
    else (if |segments[0]| > 0 && segments[0][0] != '{' then [segments[0]] else []) + Statics(segments[1..])
  }

  ghost function Concatenated(texts: seq<string>): string {
    if texts == [] then "" else texts[0] + Concatenated(texts[1..])
  }

  lemma {:induction false} StaticsCount(segments: seq<string>)
    ensures StaticSegments(segments) == (|Statics(segments)|, |Concatenated(Statics(segments))|)
  {
    if segments != [] {
      StaticsCount(segments[1..]);
      if IsStatic(segments[0]) {
        assert Statics(segments)[1..] == Statics(segments[1..]);
      } else {
        assert Statics(segments) == Statics(segments[1..]);
      }
    }
  }

  /** The one format has fewer static segments than the other, or as many, which are shorter together. */
  ghost predicate RanksBelow(format: string, other: string) {
    exists a, b ::
      && IsSplit(a, format) && IsSplit(b, other)
      && (|| |Statics(a)| < |Statics(b)|
          || (|Statics(a)| == |Statics(b)| && |Concatenated(Statics(a))| < |Concatenated(Statics(b))|))
  }

  lemma {:induction false} RanksExactly(format: string, other: string)
    ensures Less(Specificity(format), Specificity(other)) <==> RanksBelow(format, other)
  {
    SegmentsSplit(format);
    SegmentsSplit(other);
    StaticsCount(Segments(format));
    StaticsCount(Segments(other));
    forall segments | IsSplit(segments, format)
      ensures segments == Segments(format)
    {
      SplitIsSegments(segments, format);
    }
    forall segments | IsSplit(segments, other)
      ensures segments == Segments(other)
    {
      SplitIsSegments(segments, other);
    }
  }

  lemma {:induction false} StaticsAppend(xs: seq<string>, ys: seq<string>)
    ensures Statics(xs + ys) == Statics(xs) + Statics(ys)
  {
    if xs == [] {
      assert xs + ys == ys;
    } else {
      assert (xs + ys)[1..] == xs[1..] + ys;
      StaticsAppend(xs[1..], ys);
    }
  }

  /** Turning a static segment of a path format into a parameter, or emptying it, makes the format rank lower. */
  lemma {:induction false} ParameterRanksBelow(before: seq<string>, segment: string, parameter: string,
      after: seq<string>)
    requires forall i :: 0 <= i < |before| ==> '/' !in before[i]
    requires forall i :: 0 <= i < |after| ==> '/' !in after[i]
    requires '/' !in segment && segment != "" && segment[0] != '{'
    requires '/' !in parameter && (parameter == "" || parameter[0] == '{')
    ensures RanksBelow(Joined(before + [parameter] + after), Joined(before + [segment] + after))
  {
    var (a, b) := (before + [parameter] + after, before + [segment] + after);
    StaticsAppend(before + [parameter], after);
    StaticsAppend(before, [parameter]);
    StaticsAppend(before + [segment], after);
    StaticsAppend(before, [segment]);
    assert Statics([segment]) == [segment] + Statics([]) && Statics([parameter]) == Statics([]);
    assert IsSplit(a, Joined(a)) && IsSplit(b, Joined(b));
  }

  lemma {:induction false} AccountRouteOutranks(segment: string, parameter: string)
    requires '/' !in segment && segment != "" && segment[0] != '{'
    requires '/' !in parameter && (parameter == "" || parameter[0] == '{')
    ensures RanksBelow("/api/accounts/" + parameter, "/api/accounts/" + segment)
  {
    var before := ["", "api", "accounts"];
    ParameterRanksBelow(before, segment, parameter, []);
    JoinedFour(parameter, before);
    JoinedFour(segment, before);
  }

  /** So a static route outranks the one with a parameter in its place. */
  lemma {:induction false} SummaryOutranksAccount()
    ensures RanksBelow("/api/accounts/" + "{account_id}", "/api/accounts/" + "safety-summary")
  {
    AccountRouteOutranks("safety-summary", "{account_id}");
  }

  lemma {:induction false} JoinedFour(last: string, before: seq<string>)
    requires before == ["", "api", "accounts"]
    ensures Joined(before + [last] + []) == "/api/accounts/" + last
  {
    var all := before + [last] + [];
    assert all[1..][1..][1..] == [last];
    assert Joined(all[1..][1..]) == "accounts" + "/" + last;
    assert Joined(all[1..]) == "api" + "/" + ("accounts" + "/" + last);
    assert "" + "/" + ("api" + "/" + ("accounts" + "/" + last)) == "/api/accounts/" + last;
  }

  // ----- the answer, declaratively

  /** What the lookup needs of a route. */
  datatype Row = Row(matches: string -> bool, specificity: (nat, nat), allowed: set<string>)

  /** A route that takes GET also takes HEAD. */
  function RowOf(route: Route): Row {
    Row(route.matches, Specificity(route.pathFormat), if "GET" in route.methods then route.methods + {"HEAD"}
        else route.methods)
  }

  function Table(routes: seq<Route>): seq<Row> {
    seq(|routes|, i requires 0 <= i < |routes| => RowOf(routes[i]))
  }

  /** No matching row is more specific than this one. */
  predicate IsBest(rows: seq<Row>, path: string, i: nat)
    requires i < |rows|
  {
    && rows[i].matches(path)
    && forall j :: 0 <= j < |rows| && rows[j].matches(path) ==> !Less(rows[i].specificity, rows[j].specificity)
  }

  /** `answer` is none where no row matches, else the union of the methods of the most specific matches. */
  ghost predicate IsAnswer(rows: seq<Row>, path: string, answer: Option<set<string>>) {
    match answer
    case None => forall i :: 0 <= i < |rows| ==> !rows[i].matches(path)
    case Some(methods) =>
      && (exists i :: 0 <= i < |rows| && rows[i].matches(path))
      && (forall m :: m in methods <==> exists i :: 0 <= i < |rows| && IsBest(rows, path, i) && m in rows[i].allowed)
  }

  /** The answer does not depend on the order of the rows, or on repeating some. */
  lemma {:induction false} OrderDoesNotMatter(rows: seq<Row>, others: seq<Row>, path: string, a: Option<set<string>>,
        b: Option<set<string>>)
    requires forall r :: r in rows <==> r in others
    requires IsAnswer(rows, path, a) && IsAnswer(others, path, b)
    ensures a == b
  {
    OrderOneWay(rows, others, path, a, b);
    OrderOneWay(others, rows, path, b, a);
    if a.Some? && b.Some? {
      assert a.value == b.value;
    }
  }

  lemma {:induction false} OrderOneWay(rows: seq<Row>, others: seq<Row>, path: string, a: Option<set<string>>,
        b: Option<set<string>>)
    requires forall r :: r in rows <==> r in others
    requires IsAnswer(rows, path, a) && IsAnswer(others, path, b)
    ensures a.Some? ==> b.Some? && a.value <= b.value
  {
    if a.Some? {
      var i :| 0 <= i < |rows| && rows[i].matches(path);
      assert rows[i] in others;
      forall m | m in a.value
        ensures m in b.value
      {
        var j :| 0 <= j < |rows| && IsBest(rows, path, j) && m in rows[j].allowed;
        assert rows[j] in others;
        var k :| 0 <= k < |others| && others[k] == rows[j];
        forall l | 0 <= l < |others| && others[l].matches(path)
          ensures !Less(others[k].specificity, others[l].specificity)
        {
          assert others[l] in rows;
        }
        assert IsBest(others, path, k);
      }
    }
  }

  // ----- one pass

  /** What one pass over the rows collects: the best specificity so far and the methods that go with it. */
  function OnePass(rows: seq<Row>, path: string): Option<((nat, nat), set<string>)> {
    if rows == [] then None
    else
      var (before, row) := (OnePass(rows[..|rows| - 1], path), rows[|rows| - 1]);
      if !row.matches(path) then before
      else if before.None? || Less(before.value.0, row.specificity) then Some((row.specificity, row.allowed))
      else if row.specificity == before.value.0 then Some((row.specificity, before.value.1 + row.allowed))
      else before
  }

  /** Row `i` of the rows matches with the specificity `s`. */
  predicate MatchesWith(rows: seq<Row>, path: string, i: nat, s: (nat, nat))
    requires i < |rows|
  {
    rows[i].matches(path) && rows[i].specificity == s
  }

  /** The best specificity is that of some match, and of no match a lesser one. */
  lemma {:induction false} OnePassFindsBest(rows: seq<Row>, path: string)
    ensures OnePass(rows, path).None? <==> forall i :: 0 <= i < |rows| ==> !rows[i].matches(path)
    ensures OnePass(rows, path).Some? ==>
              var best := OnePass(rows, path).value.0;
              && (exists i :: 0 <= i < |rows| && MatchesWith(rows, path, i, best))
              && (forall i :: 0 <= i < |rows| && rows[i].matches(path) ==> !Less(best, rows[i].specificity))
  {
    if rows != [] {
      var (front, last) := (rows[..|rows| - 1], |rows| - 1);
      OnePassFindsBest(front, path);
      assert forall i :: 0 <= i < last ==> rows[i] == front[i];
      if OnePass(rows, path).Some? {
        var best := OnePass(rows, path).value.0;
        if rows[last].matches(path) && rows[last].specificity == best {
          assert MatchesWith(rows, path, last, best);
        } else {
          var i :| 0 <= i < |front| && MatchesWith(front, path, i, best);
          assert MatchesWith(rows, path, i, best);
        }
      }
    }
  }

  /** The methods collected are those of the matches with the best specificity. */
  lemma {:induction false} OnePassCollects(rows: seq<Row>, path: string, m: string)
    requires OnePass(rows, path).Some?
    ensures m in OnePass(rows, path).value.1 <==>
            exists i :: 0 <= i < |rows| && MatchesWith(rows, path, i, OnePass(rows, path).value.0)
              && m in rows[i].allowed
  {
    var (front, last, best) := (rows[..|rows| - 1], |rows| - 1, OnePass(rows, path).value.0);
    OnePassFindsBest(front, path);
    assert forall i :: 0 <= i < last ==> rows[i] == front[i];
    assert forall i :: 0 <= i < last ==> (MatchesWith(rows, path, i, best) <==> MatchesWith(front, path, i, best));
    if OnePass(front, path).Some? {
      OnePassCollects(front, path, m);
    }
    if MatchesWith(rows, path, last, best) && m in rows[last].allowed {
      assert m in OnePass(rows, path).value.1;
    }
  }

  /** The pass answers the declarative question. */
  lemma {:induction false} OnePassIsAnswer(rows: seq<Row>, path: string)
    ensures var found := OnePass(rows, path); IsAnswer(rows, path, if found.None? then None else Some(found.value.1))
  {
    OnePassFindsBest(rows, path);
    var found := OnePass(rows, path);
    if found.Some? {
      forall i | 0 <= i < |rows|
        ensures IsBest(rows, path, i) <==> MatchesWith(rows, path, i, found.value.0)
      {
      }
      forall m
        ensures m in found.value.1 <==> exists i :: 0 <= i < |rows| && IsBest(rows, path, i) && m in rows[i].allowed
      {
        OnePassCollects(rows, path, m);
      }
    }
  }

  // ----- the cached lookup

  /** A set of methods as an object of its own, which `update` changes in place. */
  class MethodSet {
    var items: set<string>

    constructor (items: set<string>)
      ensures this.items == items
    {
      this.items := items;
    }

    method Update(more: set<string>)
      modifies this
      ensures items == old(items) + more
    {
      items := items + more;
    }
  }

  datatype Entry = Entry(matches: string -> bool, specificity: (nat, nat), methods: MethodSet)

  // ----- requests and decisions

  /** A request by its method, its path and the names of its headers in lower case. */
  datatype Request = Request(method_: string, path: string, headers: set<string>)

  datatype Decision = PassOn | MethodNotAllowed(allow: set<string>)

  /** `_is_cors_preflight`. */
  predicate IsCorsPreflight(request: Request) {
    request.method_ == "OPTIONS" && {"origin", "access-control-request-method"} <= request.headers
  }

  /** A route takes its own methods, and HEAD along with GET. */
  ghost predicate RouteTakes(route: Route, method_: string) {
    method_ in route.methods || (method_ == "HEAD" && "GET" in route.methods)
  }

  /** The route matches the path, and no route that matches it ranks above. */
  ghost predicate IsBestRoute(routes: seq<Route>, path: string, i: int) {
    && 0 <= i < |routes| && routes[i].matches(path)
    && forall j :: 0 <= j < |routes| && routes[j].matches(path) ==>
         !RanksBelow(routes[i].pathFormat, routes[j].pathFormat)
  }

  /** Some most specific route that matches the path takes the method. */
  ghost predicate Takes(routes: seq<Route>, path: string, method_: string) {
    exists i :: IsBestRoute(routes, path, i) && RouteTakes(routes[i], method_)
  }

  ghost predicate AnyMatches(routes: seq<Route>, path: string) {
    exists i :: 0 <= i < |routes| && routes[i].matches(path)
  }

  ghost predicate IsPreflight(request: Request) {
    request.method_ == "OPTIONS" && "origin" in request.headers && "access-control-request-method" in request.headers
  }

  /** The decision on a request, by the routes alone. */
  ghost predicate TurnsAway(routes: seq<Route>, request: Request, decision: Decision) {
    && (decision.MethodNotAllowed? <==>
          !IsPreflight(request) && AnyMatches(routes, request.path) && !Takes(routes, request.path, request.method_))
    && (decision.MethodNotAllowed? ==> forall m :: m in decision.allow <==> Takes(routes, request.path, m))
  }

  lemma {:induction false} BestRowIsBestRoute(routes: seq<Route>, path: string, i: nat)
    requires i < |routes|
    ensures IsBest(Table(routes), path, i) <==> IsBestRoute(routes, path, i)
  {
    forall j | 0 <= j < |routes|
      ensures Less(Table(routes)[i].specificity, Table(routes)[j].specificity)
              <==> RanksBelow(routes[i].pathFormat, routes[j].pathFormat)
    {
      RanksExactly(routes[i].pathFormat, routes[j].pathFormat);
    }
    assert forall j :: 0 <= j < |routes| ==> Table(routes)[j] == RowOf(routes[j]);
  }

  /** The answer over the table is the answer over the routes. */
  lemma {:induction false} AnswerOverRoutes(routes: seq<Route>, path: string, answer: Option<set<string>>)
    requires IsAnswer(Table(routes), path, answer)
    ensures answer.Some? <==> AnyMatches(routes, path)
    ensures answer.Some? ==> forall m :: m in answer.value <==> Takes(routes, path, m)
  {
    var rows := Table(routes);
    assert forall i :: 0 <= i < |routes| ==> rows[i] == RowOf(routes[i]);
    forall i | 0 <= i < |routes|
      ensures IsBest(rows, path, i) <==> IsBestRoute(routes, path, i)
      ensures forall m :: m in rows[i].allowed <==> RouteTakes(routes[i], m)
    {
      BestRowIsBestRoute(routes, path, i);
    }
    assert answer.Some? ==> forall m :: m in answer.value ==>
        exists i :: 0 <= i < |rows| && IsBest(rows, path, i) && m in rows[i].allowed;
  }

  /** What any list of the same routes decides is one and the same. */
  lemma {:induction false} DecisionIsUnique(routes: seq<Route>, others: seq<Route>, request: Request, a: Decision,
      b: Decision)
    requires forall r :: r in routes <==> r in others
    requires TurnsAway(routes, request, a) && TurnsAway(others, request, b)
    ensures a == b
  {
    forall m
      ensures Takes(routes, request.path, m) <==> Takes(others, request.path, m)
    {
      TakesOneWay(routes, others, request.path, m);
      TakesOneWay(others, routes, request.path, m);
    }
    assert forall r :: r in routes && r.matches(request.path) ==> AnyMatches(others, request.path);
    assert forall r :: r in others && r.matches(request.path) ==> AnyMatches(routes, request.path);
    if a.MethodNotAllowed? && b.MethodNotAllowed? {
      assert a.allow == b.allow;
    }
  }

  lemma {:induction false} TakesOneWay(routes: seq<Route>, others: seq<Route>, path: string, method_: string)
    requires forall r :: r in routes <==> r in others
    ensures Takes(routes, path, method_) ==> Takes(others, path, method_)
  {
    if i :| IsBestRoute(routes, path, i) && RouteTakes(routes[i], method_) {
      assert routes[i] in others;
      var k :| 0 <= k < |others| && others[k] == routes[i];
      forall j | 0 <= j < |others| && others[j].matches(path)
        ensures !RanksBelow(others[k].pathFormat, others[j].pathFormat)
      {
        assert others[j] in routes;
      }
      assert IsBestRoute(others, path, k);
    }
  }

  class Application {
    const routes: seq<Route>
    var cache: Option<seq<Entry>>

    constructor (routes: seq<Route>)
      ensures this.routes == routes && Valid()
    {
      this.routes := routes;
      cache := None;
    }

    ghost function Repr(): set<object>
      reads this
    {
      if cache.None? then {} else set i | 0 <= i < |cache.value| :: cache.value[i].methods as object
    }

    ghost predicate Holds(entry: Entry, row: Row)
      reads entry.methods
    {
      entry.matches == row.matches && entry.specificity == row.specificity && entry.methods.items == row.allowed
    }

    /** The cache, once filled, lists the rows of the routes. */
    ghost predicate Valid()
      reads this, Repr()
    {
      cache.Some? ==>
        |cache.value| == |routes| && forall i :: 0 <= i < |routes| ==> Holds(cache.value[i], Table(routes)[i])
    }

    method FillCache()
      requires cache == None
      modifies this
      ensures Valid() && cache.Some? && fresh(Repr())
    {
      var entries: seq<Entry> := [];
      for i := 0 to |routes|
        invariant cache == None && |entries| == i
        invariant forall j :: 0 <= j < i ==> fresh(entries[j].methods) && Holds(entries[j], Table(routes)[j])
      {
        var methods := new MethodSet(routes[i].methods);
        if "GET" in methods.items {
          methods.Update({"HEAD"});
        }
        entries := entries + [Entry(routes[i].matches, Specificity(routes[i].pathFormat), methods)];
      }
      cache := Some(entries);
    }

    /**
     `_route_methods_for_path`.  It answers the declarative question, and the cached sets of methods
     are the same objects with the same items afterwards.
     */
    method MethodsForPath(path: string) returns (answer: Option<set<string>>)
      requires Valid()
      modifies this
      ensures Valid() && IsAnswer(Table(routes), path, answer)
      ensures answer.Some? <==> AnyMatches(routes, path)
      ensures answer.Some? ==> forall m :: m in answer.value <==> Takes(routes, path, m)
      ensures old(cache).Some? ==> cache == old(cache)
      ensures forall o: MethodSet :: old(allocated(o)) ==> o.items == old(o.items)
    {
      if cache.None? {
        FillCache();
      }
      answer := LookUp(path);
      AnswerOverRoutes(routes, path, answer);
    }

    method LookUp(path: string) returns (answer: Option<set<string>>)
      requires Valid() && cache.Some?
      ensures IsAnswer(Table(routes), path, answer)
    {
      ghost var rows := Table(routes);
      var best: Option<(nat, nat)> := None;
      var allowed := new MethodSet({});
      for i := 0 to |cache.value|
        invariant fresh(allowed)
        invariant OnePass(rows[..i], path) == if best.None? then None else Some((best.value, allowed.items))
      {
        var entry := cache.value[i];
        assert Holds(entry, rows[i]);
        assert rows[..i + 1][..i] == rows[..i];
        if entry.matches(path) {
          if best.None? || Less(best.value, entry.specificity) {
            best := Some(entry.specificity);
            allowed := new MethodSet(entry.methods.items);
          } else if entry.specificity == best.value {
            allowed.Update(entry.methods.items);
          }
        }
      }
      assert rows[..|rows|] == rows;
      OnePassIsAnswer(rows, path);
      answer := if best.None? then None else Some(allowed.items);
    }

    /**
     `static_route_method_guard_middleware`.  A request is turned away exactly when it is no preflight,
     some route matches its path, and none of the most specific ones takes its method; the answer then
     lists the methods those take.
     */
    method GuardMethod(request: Request) returns (decision: Decision)
      requires Valid()
      modifies this
      ensures Valid() && TurnsAway(routes, request, decision)
      ensures old(cache).Some? ==> cache == old(cache)
      ensures forall o: MethodSet :: old(allocated(o)) ==> o.items == old(o.items)
    {
      if IsCorsPreflight(request) {
        return PassOn;
      }
      var allowed := MethodsForPath(request.path);
      if allowed.Some? && request.method_ !in allowed.value {
        return MethodNotAllowed(allowed.value);
      }
      return PassOn;
    }
  }
}
