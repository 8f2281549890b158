/** The interpolated percentile and the budget check of backend/tools/check_benchmark_budget.py, over real numbers. */
module BenchmarkBudget {
  import opened Wrappers

  // ----- sorted samples

  ghost predicate IsSorted(s: seq<real>) {
    forall i, j :: 0 <= i < j < |s| ==> s[i] <= s[j]
  }

  function Insert(s: seq<real>, x: real): seq<real> {
    if s == [] || x >= s[|s| - 1] then s + [x] else Insert(s[..|s| - 1], x) + [s[|s| - 1]]
  }

  function Sorted(s: seq<real>): seq<real> {
    if s == [] then [] else Insert(Sorted(s[..|s| - 1]), s[|s| - 1])
  }

  lemma {:induction false} InsertAdds(s: seq<real>, x: real)
    ensures |Insert(s, x)| == |s| + 1 && multiset(Insert(s, x)) == multiset(s) + multiset{x}
  {
    if s != [] && x < s[|s| - 1] {
      InsertAdds(s[..|s| - 1], x);
      LastSplit(s);
    }
  }

  lemma {:induction false} InsertSorts(s: seq<real>, x: real)
    requires IsSorted(s)
    ensures IsSorted(Insert(s, x))
  {
    if s != [] && x < s[|s| - 1] {
      var (front, last) := (s[..|s| - 1], s[|s| - 1]);
      InsertSorts(front, x);
      InsertAdds(front, x);
      var longer := Insert(front, x);
      forall i | 0 <= i < |longer|
        ensures longer[i] <= last
      {
        assert longer[i] in multiset(longer);
        assert longer[i] in front || longer[i] == x;
      }
    }
  }

  lemma {:induction false} SortedSorts(s: seq<real>)
    ensures IsSorted(Sorted(s)) && |Sorted(s)| == |s| && multiset(Sorted(s)) == multiset(s)
  {
    if s != [] {
      SortedSorts(s[..|s| - 1]);
      InsertSorts(Sorted(s[..|s| - 1]), s[|s| - 1]);
      InsertAdds(Sorted(s[..|s| - 1]), s[|s| - 1]);
      assert s == s[..|s| - 1] + [s[|s| - 1]];
    }
  }

  lemma {:induction false} LastIsGreatest(s: seq<real>)
    requires s != [] && IsSorted(s)
    ensures s[|s| - 1] in multiset(s) && forall v :: v in multiset(s) ==> v <= s[|s| - 1]
    ensures multiset(s[..|s| - 1]) == multiset(s) - multiset{s[|s| - 1]} && IsSorted(s[..|s| - 1])
  {
    assert s == s[..|s| - 1] + [s[|s| - 1]];
    forall v | v in multiset(s)
      ensures v <= s[|s| - 1]
    {
      assert v in s;
    }
  }

  lemma {:induction false} SameGreatest(a: seq<real>, b: seq<real>)
    requires a != [] && b != [] && IsSorted(a) && IsSorted(b) && multiset(a) == multiset(b)
    ensures a[|a| - 1] == b[|b| - 1] && multiset(a[..|a| - 1]) == multiset(b[..|b| - 1])
    ensures IsSorted(a[..|a| - 1]) && IsSorted(b[..|b| - 1])
  {
    LastIsGreatest(a);
    LastIsGreatest(b);
    assert a[|a| - 1] in multiset(b) && b[|b| - 1] in multiset(a);
  }

  /** Sorted sequences of the same samples are the same. */
  lemma {:induction false} SortedUnique(a: seq<real>, b: seq<real>)
    requires IsSorted(a) && IsSorted(b) && multiset(a) == multiset(b)
    ensures a == b
  {
    assert b != [] ==> b[0] in multiset(a);
    if a != [] {
      assert a[0] in multiset(b);
      SameGreatest(a, b);
      SortedUnique(a[..|a| - 1], b[..|b| - 1]);
      LastSplit(a);
      LastSplit(b);
    }
  }

  lemma {:induction false} LastSplit(s: seq<real>)
    requires s != []
    ensures s == s[..|s| - 1] + [s[|s| - 1]]
  {
  }

  ghost predicate Below(a: seq<real>, b: seq<real>) {
    |a| == |b| && forall i :: 0 <= i < |a| ==> a[i] <= b[i]
  }

  lemma {:induction false} InsertMonotone(a: seq<real>, b: seq<real>, x: real, y: real)
    requires IsSorted(a) && IsSorted(b) && Below(a, b) && x <= y
    ensures Below(Insert(a, x), Insert(b, y))
  {
    if a != [] {
      var (f, g) := (a[..|a| - 1], b[..|b| - 1]);
      var (p, q) := (a[|a| - 1], b[|b| - 1]);
      if x < p && y < q {
        InsertMonotone(f, g, x, y);
      } else if x < p {
        InsertMonotone(f, g, x, q);
        assert Insert(g, q) == g + [q];
      } else if y < q {
        InsertMonotone(f, g, p, y);
        assert Insert(f, p) == f + [p];
      }
    }
  }

  lemma {:induction false} SortedMonotone(a: seq<real>, b: seq<real>)
    requires Below(a, b)
    ensures Below(Sorted(a), Sorted(b))
  {
    if a != [] {
      SortedMonotone(a[..|a| - 1], b[..|b| - 1]);
      SortedSorts(a[..|a| - 1]);
      SortedSorts(b[..|b| - 1]);
      InsertMonotone(Sorted(a[..|a| - 1]), Sorted(b[..|b| - 1]), a[|a| - 1], b[|b| - 1]);
    }
  }

  // ----- the percentile

  /** The mean of `a` and `b` with weight `w` on `b`. */
  function Mean(a: real, b: real, w: real): real {
    a * (1.0 - w) + b * w
  }

  /** The value at a fractional rank of sorted samples, interpolated between its neighbours. */
  function AtRank(ordered: seq<real>, rank: real): real
    requires 0.0 <= rank <= (|ordered| - 1) as real
  {
    var lower := rank.Floor;
    if lower as real == rank then ordered[lower] else Mean(ordered[lower], ordered[lower + 1], rank - lower as real)
  }

  predicate IsPercentage(percentile: real) {
    0.0 <= percentile <= 1.0
  }

  function Rank(n: nat, percentile: real): (rank: real)
    requires n > 0 && IsPercentage(percentile)
    ensures 0.0 <= rank <= (n - 1) as real
  {
    (n - 1) as real * percentile
  }

  /** `_percentile`; the empty sample raises. */
  function Percentile(values: seq<real>, percentile: real): Option<real>
    requires IsPercentage(percentile)
  {
    if values == [] then None
    else if |values| == 1 then Some(values[0])
    else
      SortedSorts(values);
      Some(AtRank(Sorted(values), Rank(|values|, percentile)))
  }

  lemma {:induction false} Product(x: real, y: real)
    requires 0.0 <= x && 0.0 <= y
    ensures 0.0 <= x * y
  {
  }

  /** A weighted mean lies between what it is the mean of. */
  lemma {:induction false} MeanBetween(a: real, b: real, w: real)
    requires a <= b && 0.0 <= w <= 1.0
    ensures a <= Mean(a, b, w) <= b
  {
    Product(b - a, w);
    Product(b - a, 1.0 - w);
    assert Mean(a, b, w) == a + (b - a) * w == b - (b - a) * (1.0 - w);
  }

  lemma {:induction false} MeanMonotone(a: real, b: real, v: real, w: real)
    requires a <= b && v <= w
    ensures Mean(a, b, v) <= Mean(a, b, w)
  {
    Product(b - a, w - v);
    assert Mean(a, b, w) - Mean(a, b, v) == (b - a) * (w - v);
  }

  lemma {:induction false} MeanBelow(a: real, b: real, c: real, d: real, w: real)
    requires a <= c && b <= d && 0.0 <= w <= 1.0
    ensures Mean(a, b, w) <= Mean(c, d, w)
  {
    Product(c - a, 1.0 - w);
    Product(d - b, w);
    assert Mean(c, d, w) - Mean(a, b, w) == (c - a) * (1.0 - w) + (d - b) * w;
  }

  /** The value at a rank lies between the samples around it. */
  lemma {:induction false} AtRankBetween(ordered: seq<real>, rank: real)
    requires IsSorted(ordered) && 0.0 <= rank <= (|ordered| - 1) as real
    ensures var lower := rank.Floor;
            ordered[lower] <= AtRank(ordered, rank) <= (if lower + 1 < |ordered| then ordered[lower + 1]
                                                        else ordered[lower])
  {
    var lower := rank.Floor;
    if lower as real != rank {
      MeanBetween(ordered[lower], ordered[lower + 1], rank - lower as real);
    }
  }

  lemma {:induction false} AtRankMonotone(ordered: seq<real>, low: real, high: real)
    requires IsSorted(ordered) && 0.0 <= low <= high <= (|ordered| - 1) as real
    ensures AtRank(ordered, low) <= AtRank(ordered, high)
  {
    AtRankBetween(ordered, low);
    AtRankBetween(ordered, high);
    if low.Floor == high.Floor {
      if high.Floor as real != high {
        MeanMonotone(ordered[low.Floor], ordered[low.Floor + 1], low - low.Floor as real, high - low.Floor as real);
        assert low == low.Floor as real ==> Mean(ordered[low.Floor], ordered[low.Floor + 1], 0.0) == ordered[low.Floor];
      }
    } else {
      assert low.Floor + 1 <= high.Floor;
    }
  }

  lemma {:induction false} AtRankMonotoneInSamples(a: seq<real>, b: seq<real>, rank: real)
    requires Below(a, b) && 0.0 <= rank <= (|a| - 1) as real
    ensures AtRank(a, rank) <= AtRank(b, rank)
  {
    var lower := rank.Floor;
    if lower as real != rank {
      MeanBelow(a[lower], a[lower + 1], b[lower], b[lower + 1], rank - lower as real);
    }
  }

  lemma {:induction false} RankMonotone(n: nat, low: real, high: real)
    requires n > 0 && IsPercentage(low) && IsPercentage(high) && low <= high
    ensures Rank(n, low) <= Rank(n, high)
  {
    Product((n - 1) as real, high - low);
    assert Rank(n, high) - Rank(n, low) == (n - 1) as real * (high - low);
  }

  lemma {:induction false} SortedWithin(values: seq<real>, least: real, greatest: real)
    requires forall v :: v in values ==> least <= v <= greatest
    ensures |Sorted(values)| == |values| && forall i :: 0 <= i < |values| ==> least <= Sorted(values)[i] <= greatest
  {
    SortedSorts(values);
    forall i | 0 <= i < |values|
      ensures least <= Sorted(values)[i] <= greatest
    {
      assert Sorted(values)[i] in multiset(Sorted(values));
      assert Sorted(values)[i] in values;
    }
  }

  /** The percentile lies between the least and the greatest sample. */
  lemma {:induction false} PercentileBetween(values: seq<real>, percentile: real, least: real, greatest: real)
    requires values != [] && IsPercentage(percentile) && forall v :: v in values ==> least <= v <= greatest
    ensures least <= Percentile(values, percentile).value <= greatest
  {
    if |values| > 1 {
      SortedSorts(values);
      SortedWithin(values, least, greatest);
      AtRankBetween(Sorted(values), Rank(|values|, percentile));
    } else {
      assert values[0] in values;
    }
  }

  /** It depends on the samples, not on their order. */
  lemma {:induction false} PercentileIgnoresOrder(a: seq<real>, b: seq<real>, percentile: real)
    requires IsPercentage(percentile) && multiset(a) == multiset(b)
    ensures Percentile(a, percentile) == Percentile(b, percentile)
  {
    assert |a| == |multiset(a)| == |multiset(b)| == |b|;
    SortedSorts(a);
    SortedSorts(b);
    SortedUnique(Sorted(a), Sorted(b));
    if |a| == 1 {
      assert a[0] in multiset(b);
    }
  }

  /** A higher percentile, or higher samples, never give a lower value. */
  lemma {:induction false} PercentileMonotone(a: seq<real>, b: seq<real>, low: real, high: real)
    requires a != [] && Below(a, b) && IsPercentage(low) && IsPercentage(high) && low <= high
    ensures Percentile(a, low).value <= Percentile(b, high).value
  {
    if |a| > 1 {
      SortedSorts(a);
      SortedSorts(b);
      SortedMonotone(a, b);
      RankMonotone(|a|, low, high);
      AtRankMonotone(Sorted(a), Rank(|a|, low), Rank(|a|, high));
      AtRankMonotoneInSamples(Sorted(a), Sorted(b), Rank(|a|, high));
    }
  }

  lemma {:induction false} RankAt(n: nat, position: real)
    requires n > 1 && 0.0 <= position <= (n - 1) as real
    ensures IsPercentage(position / (n - 1) as real) && Rank(n, position / (n - 1) as real) == position
  {
    var steps := (n - 1) as real;
    var percentile := position / steps;
    assert percentile * steps == position;
    assert (1.0 - percentile) * steps == steps - position;
    Factor(percentile, steps);
    Factor(1.0 - percentile, steps);
  }

  lemma {:induction false} Factor(x: real, y: real)
    requires 0.0 < y && 0.0 <= x * y
    ensures 0.0 <= x
  {
  }

  /**
   Between the order statistics `k` and `k + 1`, which it takes at the percentiles `k / (n - 1)` and
   `(k + 1) / (n - 1)`, the percentile is linear.
   */
  lemma {:induction false} PercentileInterpolates(values: seq<real>, k: nat, t: real)
    requires k + 1 < |values| && 0.0 <= t <= 1.0
    ensures var p := (k as real + t) / (|values| - 1) as real;
            && IsPercentage(p) && |Sorted(values)| == |values|
            && Percentile(values, p) == Some(Mean(Sorted(values)[k], Sorted(values)[k + 1], t))
  {
    SortedSorts(values);
    var position := k as real + t;
    RankAt(|values|, position);
    if t == 1.0 {
      assert position == (k + 1) as real && position.Floor == k + 1;
    } else {
      assert position.Floor == k;
      assert t == 0.0 ==> Mean(Sorted(values)[k], Sorted(values)[k + 1], t) == Sorted(values)[k];
    }
  }

  // ----- the budget check

  /** A benchmark of the report: its group, and its samples, where a sample can be no number. */
  datatype Benchmark = Benchmark(group: string, data: Option<seq<Option<real>>>)

  datatype Failure =
    | MissingData(group: string)
    | NonNumeric(group: string)
    | OverBudget(group: string)
    | MissingGroup(group: string)

  const BUDGETS: map<string, real> := map[
    "account_safety_gate.evaluate.cache_hit" := 0.050,
    "account_safety_gate.evaluate.cold" := 0.200,
    "account_safety_gate.reserve.lua" := 0.005]

  ghost predicate AllNumeric(data: seq<Option<real>>) {
    forall i :: 0 <= i < |data| ==> data[i].Some?
  }

  function Numbers(data: seq<Option<real>>): seq<real> {
    if data == [] then []
    else Numbers(data[..|data| - 1]) + (if data[|data| - 1].Some? then [data[|data| - 1].value] else [])
  }

  ghost predicate AreNumbers(data: seq<Option<real>>, values: seq<real>)
    ensures AreNumbers(data, values) && data != [] ==> values != []
  {
    |values| == |data| && forall i :: 0 <= i < |data| ==> data[i] == Some(values[i])
  }

  /** The benchmark has samples, all of them numbers, with their 95th percentile within the budget. */
  ghost predicate WithinBudget(b: Benchmark, budget: real) {
    && b.data.Some? && b.data.value != []
    && exists values :: AreNumbers(b.data.value, values) && Percentile(values, 0.95).value <= budget
  }

  /** What is reported of a benchmark that does not keep its budget. */
  ghost predicate Reports(b: Benchmark, f: Failure) {
    match f
    case MissingData(group) => group == b.group && (b.data.None? || b.data.value == [])
    case NonNumeric(group) => group == b.group && b.data.Some? && !AllNumeric(b.data.value)
    case OverBudget(group) => group == b.group && b.data.Some? && b.data.value != [] && AllNumeric(b.data.value)
    case MissingGroup(_) => false
  }

  lemma {:induction false} NumbersCount(data: seq<Option<real>>)
    ensures |Numbers(data)| <= |data|
    ensures |Numbers(data)| == |data| <==> AllNumeric(data)
  {
    if data != [] {
      NumbersCount(data[..|data| - 1]);
    }
  }

  lemma {:induction false} NumbersExactly(data: seq<Option<real>>, values: seq<real>)
    ensures AreNumbers(data, values) <==> AllNumeric(data) && values == Numbers(data)
  {
    NumbersCount(data);
    if data != [] && values != [] {
      var (front, last) := (data[..|data| - 1], |data| - 1);
      NumbersExactly(front, values[..|values| - 1]);
      assert AllNumeric(data) <==> AllNumeric(front) && data[last].Some?;
      if AllNumeric(data) && values == Numbers(data) {
        assert values[..|values| - 1] == Numbers(front);
      }
      if AreNumbers(data, values) {
        assert values == values[..last] + [values[last]];
      }
    }
  }

  lemma {:induction false} WithinExactly(b: Benchmark, budget: real)
    requires b.data.Some? && b.data.value != []
    ensures var (data, numbers) := (b.data.value, Numbers(b.data.value));
            WithinBudget(b, budget) <==> AllNumeric(data) && numbers != [] && Percentile(numbers, 0.95).value <= budget
  {
    forall values
      ensures AreNumbers(b.data.value, values) <==> AllNumeric(b.data.value) && values == Numbers(b.data.value)
    {
      NumbersExactly(b.data.value, values);
    }
  }

  method CheckBenchmark(b: Benchmark, budget: real) returns (failures: seq<Failure>)
    ensures failures == [] <==> WithinBudget(b, budget)
    ensures forall f :: f in failures <==> !WithinBudget(b, budget) && Reports(b, f)
  {
    if b.data.None? || b.data.value == [] {
      return [MissingData(b.group)];
    }
    var data := b.data.value;
    var samples: seq<real> := [];
    for i := 0 to |data|
      invariant samples == Numbers(data[..i]) && |samples| == i
    {
      assert data[..i + 1][..i] == data[..i];
      if data[i].None? {
        NumbersCount(data);
        return [NonNumeric(b.group)];
      }
      samples := samples + [data[i].value];
    }
    assert data[..|data|] == data;
    NumbersCount(data);
    WithinExactly(b, budget);
    var p95 := Percentile(samples, 0.95);
    return if p95.value > budget then [OverBudget(b.group)] else [];
  }

  ghost predicate Covers(report: seq<Benchmark>, group: string) {
    exists i :: 0 <= i < |report| && report[i].group == group
  }

  /** The group was measured, and each of its benchmarks keeps the budget. */
  ghost predicate KeepsWithin(report: seq<Benchmark>, group: string, budget: real) {
    && Covers(report, group)
    && forall i :: 0 <= i < |report| && report[i].group == group ==> WithinBudget(report[i], budget)
  }

  lemma {:induction false} EachBudget(report: seq<Benchmark>, group: string, budget: real)
    requires group in BUDGETS && BUDGETS[group] == budget
    ensures (forall i :: 0 <= i < |report| ==> KeepsBudget(BUDGETS, report[i])) && Covers(report, group)
            ==> KeepsWithin(report, group, budget)
    ensures KeepsWithin(report, group, budget) ==> Covers(report, group)
  {
  }

  lemma {:induction false} KeptByEach(report: seq<Benchmark>)
    requires forall group :: group in BUDGETS ==> KeepsWithin(report, group, BUDGETS[group])
    ensures forall i :: 0 <= i < |report| ==> KeepsBudget(BUDGETS, report[i])
  {
  }

  /** `check_budget` with the budgets of the script. */
  method CheckReport(report: seq<Benchmark>) returns (failures: seq<Failure>)
    ensures failures == [] <==>
            && KeepsWithin(report, "account_safety_gate.evaluate.cache_hit", 0.050)
            && KeepsWithin(report, "account_safety_gate.evaluate.cold", 0.200)
            && KeepsWithin(report, "account_safety_gate.reserve.lua", 0.005)
  {
    failures := CheckBudget(BUDGETS, report);
    EachBudget(report, "account_safety_gate.evaluate.cache_hit", 0.050);
    EachBudget(report, "account_safety_gate.evaluate.cold", 0.200);
    EachBudget(report, "account_safety_gate.reserve.lua", 0.005);
    assert BUDGETS.Keys == {"account_safety_gate.evaluate.cache_hit", "account_safety_gate.evaluate.cold",
                            "account_safety_gate.reserve.lua"};
    if forall group :: group in BUDGETS ==> KeepsWithin(report, group, BUDGETS[group]) {
      KeptByEach(report);
    }
  }

  /** The failure is about a benchmark that does not keep the budget of its group. */
  ghost predicate Breaks(budgets: map<string, real>, b: Benchmark, f: Failure) {
    b.group in budgets && !WithinBudget(b, budgets[b.group]) && Reports(b, f)
  }

  ghost predicate SomeBreaks(budgets: map<string, real>, report: seq<Benchmark>, f: Failure) {
    report != [] && (SomeBreaks(budgets, report[..|report| - 1], f) || Breaks(budgets, report[|report| - 1], f))
  }

  lemma {:induction false} SomeBreaksIsSome(budgets: map<string, real>, report: seq<Benchmark>, f: Failure)
    ensures SomeBreaks(budgets, report, f) <==> exists i :: 0 <= i < |report| && Breaks(budgets, report[i], f)
  {
    if report != [] {
      var front := report[..|report| - 1];
      SomeBreaksIsSome(budgets, front, f);
      assert forall i :: 0 <= i < |front| ==> report[i] == front[i];
    }
  }

  /** The benchmark keeps the budget of its group, if the group has one. */
  ghost predicate KeepsBudget(budgets: map<string, real>, b: Benchmark) {
    b.group in budgets ==> WithinBudget(b, budgets[b.group])
  }

  ghost predicate AllKeepBudgets(budgets: map<string, real>, report: seq<Benchmark>) {
    report == [] || (AllKeepBudgets(budgets, report[..|report| - 1]) && KeepsBudget(budgets, report[|report| - 1]))
  }

  function GroupsSeen(budgets: map<string, real>, report: seq<Benchmark>): set<string> {
    if report == [] then {}
    else
      var last := report[|report| - 1];
      GroupsSeen(budgets, report[..|report| - 1]) + (if last.group in budgets then {last.group} else {})
  }

  lemma {:induction false} AllKeepEach(budgets: map<string, real>, report: seq<Benchmark>)
    ensures AllKeepBudgets(budgets, report) <==> forall i :: 0 <= i < |report| ==> KeepsBudget(budgets, report[i])
  {
    if report != [] {
      AllKeepEach(budgets, report[..|report| - 1]);
    }
  }

  lemma {:induction false} SeenCovers(budgets: map<string, real>, report: seq<Benchmark>, group: string)
    ensures group in GroupsSeen(budgets, report) <==> group in budgets && Covers(report, group)
  {
    if report != [] {
      SeenCovers(budgets, report[..|report| - 1], group);
      CoversMore(report, |report| - 1);
      assert report[..|report|] == report;
    }
  }

  /** The check passes exactly when every budget has a benchmark and every benchmark of a budget keeps it. */
  method CheckBudget(budgets: map<string, real>, report: seq<Benchmark>) returns (failures: seq<Failure>)
    ensures failures == [] <==>
            && (forall i :: 0 <= i < |report| ==> KeepsBudget(budgets, report[i]))
            && (forall group :: group in budgets ==> Covers(report, group))
    ensures forall f :: f in failures <==>
              || (exists i :: 0 <= i < |report| && Breaks(budgets, report[i], f))
              || (f.MissingGroup? && f.group in budgets && !Covers(report, f.group))
  {
    var seen: set<string> := {};
    failures := [];
    for i := 0 to |report|
      invariant seen == GroupsSeen(budgets, report[..i])
      invariant failures == [] <==> AllKeepBudgets(budgets, report[..i])
      invariant forall f :: f in failures <==> SomeBreaks(budgets, report[..i], f)
    {
      assert report[..i + 1][..i] == report[..i];
      if report[i].group in budgets {
        seen := seen + {report[i].group};
        var more := CheckBenchmark(report[i], budgets[report[i].group]);
        failures := failures + more;
      }
    }
    assert report[..|report|] == report;
    var missing := MissingGroups(budgets, seen);
    failures := failures + missing;
    AllKeepEach(budgets, report);
    forall f
      ensures SomeBreaks(budgets, report, f) <==> exists i :: 0 <= i < |report| && Breaks(budgets, report[i], f)
    {
      SomeBreaksIsSome(budgets, report, f);
    }
    forall group
      ensures group in seen <==> group in budgets && Covers(report, group)
    {
      SeenCovers(budgets, report, group);
    }
  }

  method MissingGroups(budgets: map<string, real>, seen: set<string>) returns (failures: seq<Failure>)
    ensures failures == [] <==> forall group :: group in budgets ==> group in seen
    ensures forall f :: f in failures <==> f.MissingGroup? && f.group in budgets && f.group !in seen
  {
    failures := [];
    var missing := budgets.Keys - seen;
    ghost var all := missing;
    while missing != {}
      invariant missing <= all && (failures == [] <==> missing == all)
      invariant forall f :: f in failures <==> f.MissingGroup? && f.group in all && f.group !in missing
      decreases missing
    {
      var group :| group in missing;
      missing := missing - {group};
      failures := failures + [MissingGroup(group)];
    }
    assert forall group :: group in all <==> group in budgets && group !in seen;
  }

  lemma {:induction false} CoversMore(report: seq<Benchmark>, i: nat)
    requires i < |report|
    ensures forall g :: Covers(report[..i + 1], g) <==> Covers(report[..i], g) || g == report[i].group
  {
    forall g | Covers(report[..i], g)
      ensures Covers(report[..i + 1], g)
    {
      var j :| 0 <= j < i && report[..i][j].group == g;
      assert report[..i + 1][j].group == g;
    }
    assert report[..i + 1][i] == report[i];
  }
}
