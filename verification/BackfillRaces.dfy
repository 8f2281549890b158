/**
 Several runs of the backfill at once: their own statistics, and what happens to two runs that no lock
 keeps apart.
 */
module BackfillRaces {
  import opened Wrappers
  import opened Strings
  import opened Backfill
  import opened BackfillRuns

  // ----- the statistics of each run

  datatype Measure = Done(x: Action) | Seen | Batches | Events

  function Value(st: Stats, m: Measure): nat {
    match m
    case Done(x) => Counter(st, x)
    case Seen => st.seen
    case Batches => st.batches
    case Events => st.events
  }

  /** What run `r` counts of its own batches among the steps, starting from nothing. */
  function OwnStats(w: World, d: Db, steps: seq<Step>, r: nat): Stats {
    if steps == [] then NO_STATS
    else
      var (front, last) := (steps[..|steps| - 1], steps[|steps| - 1]);
      var own := OwnStats(w, d, front, r);
      if last.options.run != r then own
      else Batch(last.options, StepperOf(last.options, w), w, Interleave(w, d, front).0, own, last.ids).1
  }

  function Sum(f: nat -> nat, n: nat): nat {
    if n == 0 then 0 else Sum(f, n - 1) + f(n - 1)
  }

  lemma {:induction false} SumBumped(f: nat -> nat, g: nat -> nat, n: nat, r: nat, more: nat)
    requires forall i: nat :: i < n ==> g(i) == f(i) + (if i == r then more else 0)
    ensures Sum(g, n) == Sum(f, n) + (if r < n then more else 0)
  {
    if n > 0 {
      SumBumped(f, g, n - 1, r, more);
    }
  }

  /** What an account does to the database, and adds to the statistics, does not depend on the statistics. */
  lemma {:induction false} ProcessAdds(o: Options, w: World, d: Db, st: Stats, other: Stats, a: string, m: Measure)
    ensures var (step, step') := (StepperOf(o, w)(d, st, a), StepperOf(o, w)(d, other, a));
            step.0 == step'.0 && Value(step.1, m) - Value(st, m) == Value(step'.1, m) - Value(other, m) >= 0
  {
  }

  lemma {:induction false} ProcessAllAdds(o: Options, w: World, d: Db, st: Stats, other: Stats, ids: seq<string>,
                                          m: Measure)
    ensures var (all, all') := (ProcessAll(StepperOf(o, w), d, st, ids), ProcessAll(StepperOf(o, w), d, other, ids));
            all.0 == all'.0 && Value(all.1, m) - Value(st, m) == Value(all'.1, m) - Value(other, m) >= 0
  {
    if ids != [] {
      var (step, front, a) := (StepperOf(o, w), ids[..|ids| - 1], ids[|ids| - 1]);
      ProcessAllAdds(o, w, d, st, other, front, m);
      var (before, before') := (ProcessAll(step, d, st, front), ProcessAll(step, d, other, front));
      ProcessAdds(o, w, before.0, before.1, before'.1, a, m);
    }
  }

  lemma {:induction false} BatchAdds(o: Options, w: World, d: Db, st: Stats, other: Stats, ids: set<string>, m: Measure)
    ensures var (batch, batch') :=
            (Batch(o, StepperOf(o, w), w, d, st, ids), Batch(o, StepperOf(o, w), w, d, other, ids));
            batch.0 == batch'.0 && Value(batch.1, m) - Value(st, m) == Value(batch'.1, m) - Value(other, m) >= 0
  {
    ProcessAllAdds(o, w, d, st, other, Selected(w, d, o.workspace, ids), m);
  }

  /** The statistics of the runs, each of its own batches, add up to the statistics of all steps. */
  lemma {:induction false} StatsAddUp(w: World, d: Db, steps: seq<Step>, runs: nat, m: Measure)
    requires forall i :: 0 <= i < |steps| ==> steps[i].options.run < runs
    ensures Sum(r => Value(OwnStats(w, d, steps, r), m), runs) == Value(Interleave(w, d, steps).1, m)
  {
    if steps == [] {
      NothingAddsUp(w, d, runs, m);
    } else {
      var (front, last) := (steps[..|steps| - 1], steps[|steps| - 1]);
      var (before, total) := Interleave(w, d, front);
      var own := OwnStats(w, d, front, last.options.run);
      StatsAddUp(w, d, front, runs, m);
      BatchAdds(last.options, w, before, total, own, last.ids, m);
      var more := Value(Interleave(w, d, steps).1, m) - Value(total, m);
      SumBumped(r => Value(OwnStats(w, d, front, r), m), r => Value(OwnStats(w, d, steps, r), m), runs,
                last.options.run, more);
    }
  }

  lemma {:induction false} NothingAddsUp(w: World, d: Db, runs: nat, m: Measure)
    ensures Sum(r => Value(OwnStats(w, d, [], r), m), runs) == 0
  {
    SumBumped(r => 0, r => Value(OwnStats(w, d, [], r), m), runs, 0, 0);
    SumOfZeros(runs);
  }

  lemma {:induction false} SumOfZeros(n: nat)
    ensures Sum(r => 0, n) == 0
  {
    if n > 0 {
      SumOfZeros(n - 1);
    }
  }

  /**
   Once one of several runs has finished, the counters the runs report of themselves add up to the gaps
   of the start, and their events to the accounts that had one.
   */
  lemma {:induction false} RunsAddUp(w: World, d: Db, o: Options, steps: seq<Step>, size: nat, runs: nat)
    requires Enumerates(w) && RealSteps(steps, o.workspace) && !o.dryRun && o.batchSize > 0
    requires RunFinished(steps, w.enumerate(InWorkspace(d, o.workspace)), size)
    requires forall i :: 0 <= i < |steps| ==> steps[i].options.run < runs
    ensures forall x :: Sum(r => Value(OwnStats(w, d, steps, r), Done(x)), runs) == |Lacking(d, o.workspace, x)|
    ensures Sum(r => Value(OwnStats(w, d, steps, r), Events), runs) == |Needy(d, o.workspace)|
  {
    InterleavedRuns(w, d, o, steps, size);
    forall x
      ensures Sum(r => Value(OwnStats(w, d, steps, r), Done(x)), runs) == |Lacking(d, o.workspace, x)|
    {
      StatsAddUp(w, d, steps, runs, Done(x));
    }
    StatsAddUp(w, d, steps, runs, Events);
  }

  // ----- two runs without a lock

  ghost predicate Known(planned: Db, d: Db, ids: seq<string>) {
    planned.accounts.Keys == d.accounts.Keys && forall i :: 0 <= i < |ids| ==> ids[i] in d.accounts
  }

  /** One account, with the plan made for it. */
  function ApplyPlan(w: World, d: Db, st: Stats, a: string, plan: set<Action>, run: nat): (Db, Stats)
    requires a in d.accounts
  {
    if plan == {} then (d, st)
    else
      var applied := Effective(d, a, plan);
      (Apply(w, d, a, plan, run), Count(st.(events := st.events + (if applied == {} then 0 else 1)), applied))
  }

  /** A run that applies to `d`, account by account, the plans it made when the database was `planned`. */
  function ApplyPlans(w: World, planned: Db, d: Db, ids: seq<string>, run: nat): (r: (Db, Stats))
    requires Known(planned, d, ids)
    ensures r.0.accounts.Keys == d.accounts.Keys
  {
    if ids == [] then (d, NO_STATS)
    else
      var (before, st) := ApplyPlans(w, planned, d, ids[..|ids| - 1], run);
      var a := ids[|ids| - 1];
      ApplyPlan(w, before, st, a, Planned(planned, a), run)
  }

  /** A plan that is up to date does what a run alone does. */
  lemma {:induction false} FreshPlanFills(w: World, d0: Db, d: Db, st: Stats, filled: set<string>, a: string, run: nat)
    requires Filled(w, d0, d, filled) && EventsTell(d0, d.events, filled) && a in d.accounts && a !in filled
    ensures var after := ApplyPlan(w, d, st, a, Planned(d0, a), run).0;
            Filled(w, d0, after, filled + {a}) && EventsTell(d0, after.events, filled + {a})
  {
    PlanOfFilled(w, d0, d, filled, a);
    FillFills(w, d0, d, filled, a, run);
    FillTells(w, d0, d, filled, a, run);
  }

  /** The first to apply does what a run alone does. */
  lemma {:induction false} FirstApplies(w: World, d0: Db, ids: seq<string>, run: nat)
    requires Known(d0, d0, ids) && NoRepeats(ids)
    ensures var d := ApplyPlans(w, d0, d0, ids, run).0;
            Filled(w, d0, d, Elements(ids)) && EventsTell(d0, d.events, Elements(ids))
  {
    if ids == [] {
      NothingFilled(w, d0);
      assert Elements(ids) == {};
    } else {
      var (front, a) := (ids[..|ids| - 1], ids[|ids| - 1]);
      var (before, st) := ApplyPlans(w, d0, d0, front, run);
      FirstApplies(w, d0, front, run);
      LastElement(ids);
      FreshPlanFills(w, d0, before, st, Elements(front), a, run);
    }
  }

  lemma {:induction false} LastElement(ids: seq<string>)
    requires ids != []
    ensures var (front, a) := (ids[..|ids| - 1], ids[|ids| - 1]); Elements(ids) == Elements(front) + {a}
    ensures NoRepeats(ids) ==> ids[|ids| - 1] !in Elements(ids[..|ids| - 1])
  {
    assert ids == ids[..|ids| - 1] + [ids[|ids| - 1]];
  }

  /** The two actions that are plain updates, and not inserts that do nothing on a conflict. */
  predicate IsUpdate(x: Action) {
    x == OriginSet || x == GracePeriodSet
  }

  /** What of a plan still takes effect once the account is filled in. */
  function UpdatesOf(plan: set<Action>): set<Action> {
    (if OriginSet in plan then {OriginSet} else {}) + (if GracePeriodSet in plan then {GracePeriodSet} else {})
  }

  predicate Lacks(d0: Db, a: string, x: Action) {
    a in d0.accounts && x in Planned(d0, a)
  }

  /** The origin or the grace date of the account was missing. */
  predicate NeedsUpdate(d0: Db, a: string) {
    Lacks(d0, a, OriginSet) || Lacks(d0, a, GracePeriodSet)
  }

  /** How many of the accounts lacked `x`. */
  function LackCount(d0: Db, ids: seq<string>, x: Action): nat {
    if ids == [] then 0 else LackCount(d0, ids[..|ids| - 1], x) + (if Lacks(d0, ids[|ids| - 1], x) then 1 else 0)
  }

  /** How many of the accounts lacked an origin or a grace date. */
  function UpdateCount(d0: Db, ids: seq<string>): nat {
    if ids == [] then 0 else UpdateCount(d0, ids[..|ids| - 1]) + (if NeedsUpdate(d0, ids[|ids| - 1]) then 1 else 0)
  }

  lemma {:induction false} NoneNeedsUpdate(d0: Db, ids: seq<string>)
    ensures UpdateCount(d0, ids) == 0 <==> forall i :: 0 <= i < |ids| ==> !NeedsUpdate(d0, ids[i])
  {
    if ids != [] {
      NoneNeedsUpdate(d0, ids[..|ids| - 1]);
      assert forall i :: 0 <= i < |ids| - 1 ==> ids[..|ids| - 1][i] == ids[i];
    }
  }

  /** The rows are there already, so only the updates take effect again. */
  lemma {:induction false} OnlyUpdatesAgain(w: World, d0: Db, d: Db, filled: set<string>, a: string)
    requires Filled(w, d0, d, filled) && a in filled && a in d.accounts
    ensures Effective(d, a, Planned(d0, a)) == UpdatesOf(Planned(d0, a))
  {
    PlanOfFilled(w, d0, d, filled, a);
    assert RowOf(d0, filled, (d0.accounts[a].workspace, a));
  }

  /** Applying a plan again to an account that is filled in already. */
  lemma {:induction false} AppliedAgain(w: World, d0: Db, d: Db, filled: set<string>, a: string, run: nat)
    requires Filled(w, d0, d, filled) && a in filled && a in d.accounts
    ensures var after := Apply(w, d, a, Planned(d0, a), run);
            && after.ggr == d.ggr && after.behavior == d.behavior && Filled(w, d0, after, filled)
  {
    var after := Apply(w, d, a, Planned(d0, a), run);
    OnlyUpdatesAgain(w, d0, d, filled, a);
    AccountAgain(w, d0.accounts[a], d.accounts[a], after.accounts[a], Planned(d0, a), d.tick);
    FilledStill(w, d0, d, after, filled, a);
  }

  /** Only one account changed, and it is still filled in. */
  lemma {:induction false} FilledStill(w: World, d0: Db, d: Db, after: Db, filled: set<string>, a: string)
    requires Filled(w, d0, d, filled) && after.ggr == d.ggr && after.behavior == d.behavior
    requires after.accounts.Keys == d.accounts.Keys && a in d.accounts
    requires AccountFilled(w, d0.accounts[a], after.accounts[a], a in filled)
    requires forall b :: b in d.accounts && b != a ==> after.accounts[b] == d.accounts[b]
    ensures Filled(w, d0, after, filled)
  {
  }

  lemma {:induction false} AccountAgain(w: World, before: Account, once: Account, twice: Account, plan: set<Action>,
                                        tick: nat)
    requires AccountFilled(w, before, once, true)
    requires OriginSet in plan <==> before.origin.None?
    requires GracePeriodSet in plan <==> before.grace.None?
    requires twice == Account(once.workspace, if OriginSet in plan then Some("imported") else once.origin,
                              if GracePeriodSet in plan then Some(GraceDate(w, tick)) else once.grace)
    ensures AccountFilled(w, before, twice, true)
  {
  }

  lemma {:induction false} PlanAgain(w: World, d0: Db, d: Db, st: Stats, filled: set<string>, a: string, run: nat)
    requires Filled(w, d0, d, filled) && a in filled && a in d.accounts
    ensures var after := ApplyPlan(w, d, st, a, Planned(d0, a), run).0;
            && after.ggr == d.ggr && after.behavior == d.behavior && Filled(w, d0, after, filled)
  {
    AppliedAgain(w, d0, d, filled, a, run);
  }

  /** What a second run with the same plans leaves: the rows of the first, and every gap still filled. */
  lemma {:induction false} SecondLeaves(w: World, d0: Db, d1: Db, all: set<string>, ids: seq<string>, run: nat)
    requires Filled(w, d0, d1, all) && Known(d0, d1, ids) && Elements(ids) <= all
    ensures var d2 := ApplyPlans(w, d0, d1, ids, run).0;
            Filled(w, d0, d2, all) && d2.ggr == d1.ggr && d2.behavior == d1.behavior
  {
    if ids != [] {
      var (front, a) := (ids[..|ids| - 1], ids[|ids| - 1]);
      LastElement(ids);
      var (before, st) := ApplyPlans(w, d0, d1, front, run);
      SecondLeaves(w, d0, d1, all, front, run);
      PlanAgain(w, d0, before, st, all, a, run);
    }
  }

  /** Of each plan only the updates take effect. */
  ghost predicate OnlyUpdates(w: World, d0: Db, d1: Db, ids: seq<string>, run: nat)
    requires Known(d0, d1, ids)
  {
    ids == [] ||
    var (front, a) := (ids[..|ids| - 1], ids[|ids| - 1]);
    OnlyUpdates(w, d0, d1, front, run)
    && Effective(ApplyPlans(w, d0, d1, front, run).0, a, Planned(d0, a)) == UpdatesOf(Planned(d0, a))
  }

  lemma {:induction false} SecondOnlyUpdates(w: World, d0: Db, d1: Db, all: set<string>, ids: seq<string>, run: nat)
    requires Filled(w, d0, d1, all) && Known(d0, d1, ids) && Elements(ids) <= all
    ensures OnlyUpdates(w, d0, d1, ids, run)
  {
    if ids != [] {
      var (front, a) := (ids[..|ids| - 1], ids[|ids| - 1]);
      LastElement(ids);
      SecondOnlyUpdates(w, d0, d1, all, front, run);
      SecondLeaves(w, d0, d1, all, front, run);
      OnlyUpdatesAgain(w, d0, ApplyPlans(w, d0, d1, front, run).0, all, a);
    }
  }

  /** What one of these plans counts and reports. */
  lemma {:induction false} UpdateCounts(w: World, d: Db, st: Stats, a: string, plan: set<Action>, run: nat, x: Action)
    requires a in d.accounts && Effective(d, a, plan) == UpdatesOf(plan)
    ensures var (after, stats) := ApplyPlan(w, d, st, a, plan, run);
            var more := if OriginSet in plan || GracePeriodSet in plan then 1 else 0;
            && Counter(stats, x) == Counter(st, x) + (if IsUpdate(x) && x in plan then 1 else 0)
            && stats.events == st.events + more && |after.events| == |d.events| + more && d.events <= after.events
            && (more == 1 ==> after.events[|d.events|].account == a)
  {
    CountCounts(st, UpdatesOf(plan), x);
  }

  /** What a second run counts: the updates, a second time. */
  lemma {:induction false} SecondCounts(w: World, d0: Db, d1: Db, ids: seq<string>, run: nat, x: Action)
    requires Known(d0, d1, ids) && OnlyUpdates(w, d0, d1, ids, run)
    ensures Counter(ApplyPlans(w, d0, d1, ids, run).1, x) == if IsUpdate(x) then LackCount(d0, ids, x) else 0
  {
    if ids == [] {
      assert Counter(NO_STATS, x) == 0;
    } else {
      var (front, a) := (ids[..|ids| - 1], ids[|ids| - 1]);
      var (before, st) := ApplyPlans(w, d0, d1, front, run);
      SecondCounts(w, d0, d1, front, run, x);
      UpdateCounts(w, before, st, a, Planned(d0, a), run, x);
    }
  }

  /** What it reports: one more event for each account with an update. */
  lemma {:induction false} SecondReports(w: World, d0: Db, d1: Db, ids: seq<string>, run: nat)
    requires Known(d0, d1, ids) && OnlyUpdates(w, d0, d1, ids, run)
    ensures var (d2, st) := ApplyPlans(w, d0, d1, ids, run);
            st.events == UpdateCount(d0, ids) && Adds(d0, d1.events, d2.events, ids)
  {
    if ids != [] {
      var (front, a) := (ids[..|ids| - 1], ids[|ids| - 1]);
      var (before, st) := ApplyPlans(w, d0, d1, front, run);
      SecondReports(w, d0, d1, front, run);
      UpdateCounts(w, before, st, a, Planned(d0, a), run, OriginSet);
      AddsOneMore(d0, d1.events, before.events, ApplyPlans(w, d0, d1, ids, run).0.events, ids);
    }
  }

  /** `after` is `before` and one more event for each account with an update. */
  ghost predicate Adds(d0: Db, before: seq<EventRow>, after: seq<EventRow>, ids: seq<string>) {
    && before <= after && |after| == |before| + UpdateCount(d0, ids)
    && forall i :: |before| <= i < |after| ==> after[i].account in ids && NeedsUpdate(d0, after[i].account)
  }

  lemma {:induction false} AddsOneMore(d0: Db, start: seq<EventRow>, before: seq<EventRow>, after: seq<EventRow>,
                                       ids: seq<string>)
    requires ids != [] && Adds(d0, start, before, ids[..|ids| - 1]) && before <= after
    requires |after| == |before| + (if NeedsUpdate(d0, ids[|ids| - 1]) then 1 else 0)
    requires |after| > |before| ==> after[|before|].account == ids[|ids| - 1]
    ensures Adds(d0, start, after, ids)
  {
    assert ids == ids[..|ids| - 1] + [ids[|ids| - 1]];
    forall i | |start| <= i < |after|
      ensures after[i].account in ids && NeedsUpdate(d0, after[i].account)
    {
      if i < |before| {
        assert after[i] == before[i];
      }
    }
  }

  /**
   Two runs that plan on the same state and then both apply.  The database ends as after one run, up to
   ids and times, because what both plan was missing for both.  But the second run counts every origin
   and grace date a second time, and adds a second event for each account that lacked one: so the events
   tell what was done exactly when no account lacked an origin or a grace date.
   */
  lemma {:induction false} RaceExactly(w: World, d0: Db, ids: seq<string>, first: nat, second: nat)
    requires Known(d0, d0, ids) && NoRepeats(ids)
    ensures var d1 := ApplyPlans(w, d0, d0, ids, first).0;
            var (d2, st) := ApplyPlans(w, d0, d1, ids, second);
            && Alike(w, d0, d1, d2) && d2.ggr == d1.ggr && d2.behavior == d1.behavior
            && (forall x :: Counter(st, x) == if IsUpdate(x) then LackCount(d0, ids, x) else 0)
            && |d2.events| == |d1.events| + UpdateCount(d0, ids)
            && (EventsTell(d0, d2.events, Elements(ids)) <==> forall i :: 0 <= i < |ids| ==> !NeedsUpdate(d0, ids[i]))
  {
    var d1 := ApplyPlans(w, d0, d0, ids, first).0;
    FirstApplies(w, d0, ids, first);
    var (d2, st) := ApplyPlans(w, d0, d1, ids, second);
    RaceState(w, d0, d1, ids, second);
    SecondOnlyUpdates(w, d0, d1, Elements(ids), ids, second);
    RaceCounts(w, d0, d1, st, ids, second);
    RaceEvents(w, d0, d1, d2, st, ids, second);
  }

  lemma {:induction false} RaceState(w: World, d0: Db, d1: Db, ids: seq<string>, second: nat)
    requires Known(d0, d1, ids) && Filled(w, d0, d1, Elements(ids))
    ensures var d2 := ApplyPlans(w, d0, d1, ids, second).0;
            Alike(w, d0, d1, d2) && d2.ggr == d1.ggr && d2.behavior == d1.behavior
  {
    SecondLeaves(w, d0, d1, Elements(ids), ids, second);
    FilledAlike(w, d0, d1, ApplyPlans(w, d0, d1, ids, second).0, Elements(ids));
  }

  lemma {:induction false} RaceCounts(w: World, d0: Db, d1: Db, st: Stats, ids: seq<string>, second: nat)
    requires Known(d0, d1, ids) && OnlyUpdates(w, d0, d1, ids, second) && st == ApplyPlans(w, d0, d1, ids, second).1
    ensures forall x :: Counter(st, x) == if IsUpdate(x) then LackCount(d0, ids, x) else 0
  {
    forall x
      ensures Counter(st, x) == if IsUpdate(x) then LackCount(d0, ids, x) else 0
    {
      SecondCounts(w, d0, d1, ids, second, x);
    }
  }

  lemma {:induction false} RaceEvents(w: World, d0: Db, d1: Db, d2: Db, st: Stats, ids: seq<string>, second: nat)
    requires Known(d0, d1, ids) && OnlyUpdates(w, d0, d1, ids, second) && EventsTell(d0, d1.events, Elements(ids))
    requires (d2, st) == ApplyPlans(w, d0, d1, ids, second)
    ensures |d2.events| == |d1.events| + UpdateCount(d0, ids)
    ensures EventsTell(d0, d2.events, Elements(ids)) <==> forall i :: 0 <= i < |ids| ==> !NeedsUpdate(d0, ids[i])
  {
    SecondReports(w, d0, d1, ids, second);
    EventsTellAfterRace(d0, d1.events, d2.events, ids);
  }

  lemma {:induction false} EventsTellAfterRace(d0: Db, once: seq<EventRow>, both: seq<EventRow>, ids: seq<string>)
    requires EventsTell(d0, once, Elements(ids)) && Adds(d0, once, both, ids)
    ensures EventsTell(d0, both, Elements(ids)) <==> forall i :: 0 <= i < |ids| ==> !NeedsUpdate(d0, ids[i])
  {
    NoneNeedsUpdate(d0, ids);
    if UpdateCount(d0, ids) == 0 {
      assert both == once;
    } else {
      RepeatedEvent(d0, once, both, Elements(ids));
    }
  }

  /** One more event than the accounts had gaps for repeats an account. */
  lemma {:induction false} RepeatedEvent(d0: Db, first: seq<EventRow>, both: seq<EventRow>, done: set<string>)
    requires EventsTell(d0, first, done) && first < both
    requires both[|first|].account in done && both[|first|].account in d0.accounts
             && Planned(d0, both[|first|].account) != {}
    ensures !EventsTell(d0, both, done)
  {
    var a := both[|first|].account;
    assert HasEvent(first[|d0.events|..], a);
    var i :| 0 <= i < |first[|d0.events|..]| && first[|d0.events|..][i].account == a;
    assert both[|d0.events| + i].account == a;
  }

  const CLOCK := World(t => 100 * t, _ => 0, _ => [])
  /** An account without an origin or a grace date. */
  const ONE_GAP := Db(map["a" := Account("w", None, None)], map[], map[], [], 0)

  /** Two runs race on one account: two events, and the grace date of the first is moved. */
  lemma {:induction false} RaceMovesDate()
    ensures Known(ONE_GAP, ONE_GAP, ["a"])
    ensures var d1 := ApplyPlans(CLOCK, ONE_GAP, ONE_GAP, ["a"], 1).0;
            var d2 := ApplyPlans(CLOCK, ONE_GAP, d1, ["a"], 2).0;
            && d1.accounts["a"].grace == Some(GraceDate(CLOCK, 0))
               && d2.accounts["a"].grace == Some(GraceDate(CLOCK, 1))
            && GraceDate(CLOCK, 0) != GraceDate(CLOCK, 1)
            && |d2.events| == 2 && d2.events[0].account == d2.events[1].account == "a"
  {
    var (w, d0, plan) := (CLOCK, ONE_GAP, Planned(ONE_GAP, "a"));
    assert plan == {GgrCreated, BehaviorCreated, OriginSet, GracePeriodSet} && ["a"][..0] == [];
    var d1 := Apply(w, d0, "a", plan, 1);
    assert ApplyPlans(w, d0, d0, ["a"], 1).0 == d1 && d1.tick == 1;
    assert Effective(d1, "a", plan) == {OriginSet, GracePeriodSet};
    assert ApplyPlans(w, d0, d1, ["a"], 2).0 == Apply(w, d1, "a", plan, 2);
  }
}
