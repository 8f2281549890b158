/**
 What runs of the backfill add up to: a complete workspace, nothing overwritten, every missing row
 counted once, and the same outcome for any interleaving of committed batches.
 */
module BackfillRuns {
  import opened Wrappers
  import opened Strings
  import opened Backfill

  // ----- the state after some accounts were filled in

  /** A grace date as an application sets it: thirty days after its time. */
  ghost predicate IsGraceDate(w: World, grace: Option<int>) {
    exists t: nat :: grace == Some(w.now(t) + 30 * 24 * 60 * 60)
  }

  ghost predicate AccountFilled(w: World, before: Account, after: Account, filled: bool) {
    && after.workspace == before.workspace
    && (if before.origin.None? && filled then after.origin == Some("imported") else after.origin == before.origin)
    && (if before.grace.None? && filled then IsGraceDate(w, after.grace) else after.grace == before.grace)
  }

  /** A score row as an application creates it: its id and its time belong together. */
  ghost predicate IsDefaultGgr(w: World, row: GgrRow) {
    row.score == 5.0 && row.bucket == "medium" && row.nextCalculation == w.now(row.id)
  }

  ghost predicate IsDefaultBehavior(w: World, row: BehaviorRow, account: string) {
    && row.typingCpm == 200 && row.typoRate == 0.02 && row.profileView == 0.15 && row.scroll == 0.30
    && row.deletion == 0.005 && row.seed == w.seed(account)
  }

  /** The row of a filled account. */
  predicate RowOf(d: Db, filled: set<string>, key: Key) {
    key.1 in filled && key.1 in d.accounts && d.accounts[key.1].workspace == key.0
  }

  /**
   `d` is `d0` with exactly the accounts `filled` filled in: every existing value and row is as it
   was, and each gap of those accounts, and no other, holds the default, up to ids and times.
   */
  ghost predicate Filled(w: World, d0: Db, d: Db, filled: set<string>) {
    && d.accounts.Keys == d0.accounts.Keys
    && (forall a :: a in d0.accounts ==> AccountFilled(w, d0.accounts[a], d.accounts[a], a in filled))
    && (forall k :: k in d.ggr <==> k in d0.ggr || RowOf(d0, filled, k))
    && (forall k :: k in d.ggr ==> if k in d0.ggr then d.ggr[k] == d0.ggr[k] else IsDefaultGgr(w, d.ggr[k]))
    && (forall k :: k in d.behavior <==> k in d0.behavior || RowOf(d0, filled, k))
    && (forall k :: k in d.behavior
          ==> if k in d0.behavior then d.behavior[k] == d0.behavior[k] else IsDefaultBehavior(w, d.behavior[k], k.1))
  }

  /** The application of a plan does this to the account. */
  ghost predicate HasEffect(d: Db, a: string, plan: set<Action>, x: Action)
    requires a in d.accounts
  {
    var key := (d.accounts[a].workspace, a);
    match x
    case GgrCreated => x in plan && key !in d.ggr
    case BehaviorCreated => x in plan && key !in d.behavior
    case _ => x in plan
  }

  /** An application touches the rows of its account alone, and tells what it did in one event, if anything. */
  lemma {:induction false} AppliesExactly(w: World, d: Db, a: string, plan: set<Action>, run: nat)
    returns (actions: set<Action>)
    requires a in d.accounts
    ensures forall x :: x in actions <==> HasEffect(d, a, plan, x)
    ensures var (after, before, now) := (Apply(w, d, a, plan, run), d.accounts[a], w.now(d.tick));
            var key := (before.workspace, a);
            && after.accounts.Keys == d.accounts.Keys && after.accounts[a].workspace == before.workspace
            && (forall b :: b in d.accounts && b != a ==> after.accounts[b] == d.accounts[b])
            && after.accounts[a].origin == (if OriginSet in plan then Some("imported") else before.origin)
            && after.accounts[a].grace
               == (if GracePeriodSet in plan then Some(now + 30 * 24 * 60 * 60) else before.grace)
            && after.ggr - {key} == d.ggr - {key} && after.behavior - {key} == d.behavior - {key}
            && (if GgrCreated in actions then key in after.ggr && IsDefaultGgr(w, after.ggr[key])
                else after.ggr == d.ggr)
            && (if BehaviorCreated in actions then key in after.behavior && IsDefaultBehavior(w, after.behavior[key], a)
                else after.behavior == d.behavior)
            && after.events == d.events + (if actions == {} then []
                                           else [EventRow(d.tick, before.workspace, a, actions, run, now)])
  {
    actions := Effective(d, a, plan);
  }

  /** One account filled in, as a real run does it. */
  function Fill(w: World, d: Db, a: string, run: nat): Db
    requires a in d.accounts
  {
    if Planned(d, a) == {} then d else Apply(w, d, a, Planned(d, a), run)
  }

  lemma {:induction false} PlanIsEffective(d: Db, a: string)
    requires a in d.accounts
    ensures Effective(d, a, Planned(d, a)) == Planned(d, a)
  {
  }

  lemma {:induction false} FillFills(w: World, d0: Db, d: Db, filled: set<string>, a: string, run: nat)
    requires Filled(w, d0, d, filled) && a in d.accounts
    ensures Filled(w, d0, Fill(w, d, a, run), filled + {a})
  {
    var (plan, after, key) := (Planned(d, a), Fill(w, d, a, run), (d.accounts[a].workspace, a));
    assert d.accounts[a].workspace == d0.accounts[a].workspace;
    forall b | b in d0.accounts
      ensures AccountFilled(w, d0.accounts[b], after.accounts[b], b in filled + {a})
    {
      assert AccountFilled(w, d0.accounts[b], d.accounts[b], b in filled);
    }
    GgrFilled(w, d0, d, filled, a, run);
    BehaviorFilled(w, d0, d, filled, a, run);
  }

  lemma {:induction false} GgrFilled(w: World, d0: Db, d: Db, filled: set<string>, a: string, run: nat)
    requires Filled(w, d0, d, filled) && a in d.accounts && d.accounts[a].workspace == d0.accounts[a].workspace
    ensures var after := Fill(w, d, a, run);
            && (forall k :: k in after.ggr <==> k in d0.ggr || RowOf(d0, filled + {a}, k))
            && (forall k :: k in after.ggr
                  ==> if k in d0.ggr then after.ggr[k] == d0.ggr[k] else IsDefaultGgr(w, after.ggr[k]))
  {
    var key := (d.accounts[a].workspace, a);
    var after := Fill(w, d, a, run);
    assert after.ggr == if key in d.ggr then d.ggr else d.ggr[key := DefaultGgr(d.tick, w.now(d.tick))];
    assert forall k :: RowOf(d0, filled + {a}, k) <==> RowOf(d0, filled, k) || k == key;
  }

  lemma {:induction false} BehaviorFilled(w: World, d0: Db, d: Db, filled: set<string>, a: string, run: nat)
    requires Filled(w, d0, d, filled) && a in d.accounts && d.accounts[a].workspace == d0.accounts[a].workspace
    ensures var after := Fill(w, d, a, run);
            && (forall k :: k in after.behavior <==> k in d0.behavior || RowOf(d0, filled + {a}, k))
            && (forall k :: k in after.behavior
                  ==> if k in d0.behavior then after.behavior[k] == d0.behavior[k]
                      else IsDefaultBehavior(w, after.behavior[k], k.1))
  {
    var key := (d.accounts[a].workspace, a);
    var after := Fill(w, d, a, run);
    assert after.behavior == if key in d.behavior then d.behavior else d.behavior[key := DefaultBehavior(w, d.tick, a)];
    assert forall k :: RowOf(d0, filled + {a}, k) <==> RowOf(d0, filled, k) || k == key;
  }

  // ----- the events

  /** The event tells which gaps of the account there were at the start. */
  ghost predicate Tells(d0: Db, e: EventRow) {
    && e.account in d0.accounts && e.workspace == d0.accounts[e.account].workspace
    && e.actions == Planned(d0, e.account) && e.actions != {}
  }

  /** To the events of the start, one was added for each account of `done` that had a gap, telling its gaps. */
  ghost predicate EventsTell(d0: Db, events: seq<EventRow>, done: set<string>) {
    && d0.events <= events
    && (forall i :: |d0.events| <= i < |events| ==> Tells(d0, events[i]) && events[i].account in done)
    && (forall i, j :: |d0.events| <= i < j < |events| ==> events[i].account != events[j].account)
    && (forall a :: a in done && a in d0.accounts && Planned(d0, a) != {} ==> HasEvent(events[|d0.events|..], a))
  }

  ghost predicate HasEvent(events: seq<EventRow>, a: string) {
    exists i :: 0 <= i < |events| && events[i].account == a
  }

  lemma {:induction false} OneMoreEvent(d0: Db, events: seq<EventRow>, done: set<string>, e: EventRow)
    requires EventsTell(d0, events, done) && Tells(d0, e) && e.account !in done
    ensures EventsTell(d0, events + [e], done + {e.account})
  {
    var (before, after) := (events[|d0.events|..], (events + [e])[|d0.events|..]);
    assert after == before + [e];
    assert after[|before|] == e;
    forall b | HasEvent(before, b)
      ensures HasEvent(after, b)
    {
      var i :| 0 <= i < |before| && before[i].account == b;
      assert after[i].account == b;
    }
  }

  lemma {:induction false} NoMoreEvent(d0: Db, events: seq<EventRow>, done: set<string>, a: string)
    requires EventsTell(d0, events, done) && a in d0.accounts && (a in done || Planned(d0, a) == {})
    ensures EventsTell(d0, events, done + {a})
  {
  }

  /** The plan of an account is empty once it is filled in, and unchanged until then. */
  lemma {:induction false} PlanOfFilled(w: World, d0: Db, d: Db, filled: set<string>, a: string)
    requires Filled(w, d0, d, filled) && a in d.accounts
    ensures d.accounts[a].workspace == d0.accounts[a].workspace
    ensures Planned(d, a) == if a in filled then {} else Planned(d0, a)
  {
    assert AccountFilled(w, d0.accounts[a], d.accounts[a], a in filled);
    assert RowOf(d0, filled, (d0.accounts[a].workspace, a)) <==> a in filled;
  }

  lemma {:induction false} FillTells(w: World, d0: Db, d: Db, filled: set<string>, a: string, run: nat)
    requires Filled(w, d0, d, filled) && EventsTell(d0, d.events, filled) && a in d.accounts
    ensures EventsTell(d0, Fill(w, d, a, run).events, filled + {a})
  {
    PlanOfFilled(w, d0, d, filled, a);
    PlanIsEffective(d, a);
    if Planned(d, a) == {} {
      NoMoreEvent(d0, d.events, filled, a);
    } else {
      OneMoreEvent(d0, d.events, filled,
                   EventRow(d.tick, d.accounts[a].workspace, a, Planned(d, a), run, w.now(d.tick)));
    }
  }

  // ----- what is still missing

  /** The accounts of the workspace for which `x` is still to be done. */
  function Lacking(d: Db, workspace: string, x: Action): set<string> {
    set a | a in d.accounts && d.accounts[a].workspace == workspace && x in Planned(d, a)
  }

  /** The accounts of the workspace for which anything is still to be done. */
  function Needy(d: Db, workspace: string): set<string> {
    set a | a in d.accounts && d.accounts[a].workspace == workspace && Planned(d, a) != {}
  }

  lemma {:induction false} FillPlans(w: World, d: Db, a: string, run: nat, b: string)
    requires a in d.accounts && b in d.accounts
    ensures b in Fill(w, d, a, run).accounts && Fill(w, d, a, run).accounts[b].workspace == d.accounts[b].workspace
    ensures Planned(Fill(w, d, a, run), b) == if a == b then {} else Planned(d, b)
  {
  }

  lemma {:induction false} FillRemoves(w: World, d: Db, workspace: string, a: string, run: nat)
    requires a in InWorkspace(d, workspace)
    ensures forall x :: Lacking(Fill(w, d, a, run), workspace, x) == Lacking(d, workspace, x) - {a}
    ensures Needy(Fill(w, d, a, run), workspace) == Needy(d, workspace) - {a}
    ensures InWorkspace(Fill(w, d, a, run), workspace) == InWorkspace(d, workspace)
  {
    var after := Fill(w, d, a, run);
    forall b | b in d.accounts
      ensures after.accounts[b].workspace == d.accounts[b].workspace && Planned(after, b) == if a == b then {}
              else Planned(d, b)
    {
      FillPlans(w, d, a, run, b);
    }
  }

  /** What was counted and what is still missing, together. */
  ghost predicate Balance(workspace: string, d0: Db, st0: Stats, d: Db, st: Stats) {
    && (forall x :: Counter(st, x) + |Lacking(d, workspace, x)| == Counter(st0, x) + |Lacking(d0, workspace, x)|)
    && st.events + |Needy(d, workspace)| == st0.events + |Needy(d0, workspace)|
    && |d.events| - |d0.events| == st.events - st0.events
  }

  lemma {:induction false} CountCounts(st: Stats, actions: set<Action>, x: Action)
    ensures Counter(Count(st, actions), x) == Counter(st, x) + (if x in actions then 1 else 0)
    ensures Count(st, actions).events == st.events && Count(st, actions).seen == st.seen
            && Count(st, actions).batches == st.batches
  {
  }

  lemma {:induction false} RemovedOne(s: set<string>, a: string)
    ensures |s - {a}| == |s| - (if a in s then 1 else 0)
  {
    if a !in s {
      assert s - {a} == s;
    }
  }

  /** A real run fills the account in, counts what it did, and adds an event if it did anything. */
  lemma {:induction false} RealProcess(o: Options, w: World, d: Db, st: Stats, a: string)
    requires !o.dryRun && a in d.accounts
    ensures var (after, stats) := Process(o, w, d, st, a);
            && after == Fill(w, d, a, o.run)
            && (forall x :: Counter(stats, x) == Counter(st, x) + (if x in Planned(d, a) then 1 else 0))
            && stats.events - st.events == |after.events| - |d.events| == (if Planned(d, a) == {} then 0 else 1)
            && stats.seen == st.seen + (if o.skipExisting && Planned(d, a) == {} then 0 else 1)
               && stats.batches == st.batches
  {
    PlanIsEffective(d, a);
    forall x
      ensures Counter(Count(st, Planned(d, a)), x) == Counter(st, x) + (if x in Planned(d, a) then 1 else 0)
    {
      CountCounts(st, Planned(d, a), x);
    }
  }

  lemma {:induction false} FillBalances(w: World, workspace: string, d: Db, st: Stats, a: string, run: nat,
                                        stats: Stats)
    requires a in InWorkspace(d, workspace)
    requires forall x :: Counter(stats, x) == Counter(st, x) + (if x in Planned(d, a) then 1 else 0)
    requires stats.events - st.events == |Fill(w, d, a, run).events| - |d.events|
             == (if Planned(d, a) == {} then 0 else 1)
    ensures Balance(workspace, d, st, Fill(w, d, a, run), stats)
  {
    FillRemoves(w, d, workspace, a, run);
    forall x
      ensures |Lacking(d, workspace, x) - {a}| == |Lacking(d, workspace, x)| - (if x in Planned(d, a) then 1 else 0)
    {
      RemovedOne(Lacking(d, workspace, x), a);
    }
    RemovedOne(Needy(d, workspace), a);
  }

  lemma {:induction false} BalanceJoins(workspace: string, d0: Db, st0: Stats, d1: Db, st1: Stats, d2: Db, st2: Stats)
    requires Balance(workspace, d0, st0, d1, st1) && Balance(workspace, d1, st1, d2, st2)
    ensures Balance(workspace, d0, st0, d2, st2)
  {
  }

  /** One account of a real run: filled in, and counted. */
  lemma {:induction false} RealStep(o: Options, w: World, d0: Db, st0: Stats, d: Db, st: Stats, done: set<string>,
                                    a: string)
    requires !o.dryRun && a in InWorkspace(d, o.workspace) && Filled(w, d0, d, done) && EventsTell(d0, d.events, done)
             && Balance(o.workspace, d0, st0, d, st)
    ensures var (after, stats) := StepperOf(o, w)(d, st, a);
            && Filled(w, d0, after, done + {a}) && EventsTell(d0, after.events, done + {a})
               && Balance(o.workspace, d0, st0, after, stats)
            && InWorkspace(after, o.workspace) == InWorkspace(d, o.workspace)
            && stats.events - st.events == (if Planned(d, a) == {} then 0 else 1)
            && stats.seen == st.seen + (if o.skipExisting && Planned(d, a) == {} then 0 else 1)
  {
    var (after, stats) := Process(o, w, d, st, a);
    RealProcess(o, w, d, st, a);
    FillBalances(w, o.workspace, d, st, a, o.run, stats);
    BalanceJoins(o.workspace, d0, st0, d, st, after, stats);
    FillFills(w, d0, d, done, a, o.run);
    FillTells(w, d0, d, done, a, o.run);
    FillRemoves(w, d, o.workspace, a, o.run);
  }

  // ----- what a run keeps, account by account

  /** Treating one more account keeps the property; with `distinct`, an account not done yet. */
  ghost predicate Keeps(step: Stepper, p: (Db, Stats, set<string>) -> bool, all: set<string>, distinct: bool) {
    forall d: Db, st: Stats, done: set<string>, a: string ::
      p(d, st, done) && a in all && (distinct ==> a !in done) ==> p(step(d, st, a).0, step(d, st, a).1, done + {a})
  }

  /** The property is about a database with these accounts in the workspace, whatever the batch count. */
  ghost predicate Suits(p: (Db, Stats, set<string>) -> bool, workspace: string, all: set<string>) {
    forall d: Db, st: Stats, done: set<string> ::
      p(d, st, done) ==> InWorkspace(d, workspace) == all && forall n: nat :: p(d, st.(batches := n), done)
  }

  ghost predicate AllIn(ids: seq<string>, s: set<string>) {
    forall i :: 0 <= i < |ids| ==> ids[i] in s
  }

  lemma {:induction false} ProcessAllKeeps(step: Stepper, p: (Db, Stats, set<string>) -> bool, all: set<string>,
        distinct: bool, d: Db, st: Stats, ids: seq<string>, done: set<string>)
    requires Keeps(step, p, all, distinct) && p(d, st, done) && AllIn(ids, all)
    requires distinct ==> NoRepeats(ids) && done !! Elements(ids)
    ensures p(ProcessAll(step, d, st, ids).0, ProcessAll(step, d, st, ids).1, done + Elements(ids))
  {
    if ids == [] {
      assert done + Elements(ids) == done;
    } else {
      var (front, a) := (ids[..|ids| - 1], ids[|ids| - 1]);
      assert ids == front + [a];
      assert Elements(ids) == Elements(front) + {a};
      if distinct {
        assert a !in front;
      }
      ProcessAllKeeps(step, p, all, distinct, d, st, front, done);
      assert done + Elements(front) + {a} == done + Elements(ids);
    }
  }

  lemma {:induction false} SelectedExactly(w: World, d: Db, workspace: string, ids: set<string>)
    requires Enumerates(w)
    ensures var selected := Selected(w, d, workspace, ids);
            NoRepeats(selected) && Elements(selected) == ids * InWorkspace(d, workspace)
              && AllIn(selected, InWorkspace(d, workspace))
  {
    var selected := Selected(w, d, workspace, ids);
    forall i | 0 <= i < |selected|
      ensures selected[i] in InWorkspace(d, workspace)
    {
      assert selected[i] in selected;
    }
  }

  lemma {:induction false} BatchKeeps(o: Options, step: Stepper, w: World, p: (Db, Stats, set<string>) -> bool,
        all: set<string>, distinct: bool, d: Db, st: Stats, ids: set<string>, done: set<string>)
    requires Enumerates(w) && Keeps(step, p, all, distinct) && Suits(p, o.workspace, all) && p(d, st, done)
    requires distinct ==> done !! ids
    ensures p(Batch(o, step, w, d, st, ids).0, Batch(o, step, w, d, st, ids).1, done + ids * all)
  {
    SelectedExactly(w, d, o.workspace, ids);
    ProcessAllKeeps(step, p, all, distinct, d, st, Selected(w, d, o.workspace, ids), done);
  }

  lemma {:induction false} SliceGoesOn(ids: seq<string>, offset: nat, size: nat)
    requires offset < |ids| && size > 0
    ensures var next := offset + size;
            Elements(if next <= |ids| then ids[..next] else ids) == Elements(ids[..offset])
              + Elements(Slice(ids, offset, size))
    ensures NoRepeats(ids) ==> Elements(ids[..offset]) !! Elements(Slice(ids, offset, size))
    ensures Elements(Slice(ids, offset, size)) <= Elements(ids)
  {
    var (next, slice) := (offset + size, Slice(ids, offset, size));
    assert (if next <= |ids| then ids[..next] else ids) == ids[..offset] + slice;
    forall a | a in slice
      ensures a in ids && (NoRepeats(ids) ==> a !in ids[..offset])
    {
      var i :| 0 <= i < |slice| && slice[i] == a;
      assert ids[offset + i] == a;
    }
  }

  /** A whole run keeps what treating each account keeps. */
  lemma {:induction false} RunKeeps(o: Options, step: Stepper, w: World, p: (Db, Stats, set<string>) -> bool,
        distinct: bool, d: Db, st: Stats, ids: seq<string>, offset: nat)
    requires Enumerates(w) && o.batchSize > 0 && NoRepeats(ids)
    requires Keeps(step, p, Elements(ids), distinct) && Suits(p, o.workspace, Elements(ids))
    requires p(d, st, Elements(if offset <= |ids| then ids[..offset] else ids))
    ensures p(RunFrom(o, step, w, d, st, ids, offset).0, RunFrom(o, step, w, d, st, ids, offset).1, Elements(ids))
    decreases |ids| - offset
  {
    if offset >= |ids| {
      assert ids[..|ids|] == ids;
    } else {
      var slice := Elements(Slice(ids, offset, o.batchSize));
      SliceGoesOn(ids, offset, o.batchSize);
      BatchKeeps(o, step, w, p, Elements(ids), distinct, d, st, slice, Elements(ids[..offset]));
      assert slice * Elements(ids) == slice;
      var (after, stats) := Batch(o, step, w, d, st, slice);
      RunKeeps(o, step, w, p, distinct, after, stats, ids, offset + o.batchSize);
    }
  }

  lemma {:induction false} WholeWorkspace(w: World, d: Db, workspace: string)
    requires Enumerates(w)
    ensures var ids := w.enumerate(InWorkspace(d, workspace));
            NoRepeats(ids) && Elements(ids) == InWorkspace(d, workspace) && |ids| == |InWorkspace(d, workspace)|
  {
    DistinctCount(w.enumerate(InWorkspace(d, workspace)));
  }

  lemma {:induction false} DistinctCount(ids: seq<string>)
    requires NoRepeats(ids)
    ensures |Elements(ids)| == |ids|
  {
    if ids != [] {
      var (front, a) := (ids[..|ids| - 1], ids[|ids| - 1]);
      DistinctCount(front);
      assert ids == front + [a];
      assert Elements(ids) == Elements(front) + {a};
      assert a !in front;
    }
  }

  // ----- the batches of a run

  /** How many batches `n` accounts take. */
  function BatchCount(n: nat, size: nat): nat
    requires size > 0
  {
    if n == 0 then 0 else if n <= size then 1 else 1 + BatchCount(n - size, size)
  }

  /** It is `n / size`, rounded up. */
  lemma {:induction false} BatchCountIsCeiling(n: nat, size: nat)
    requires size > 0
    ensures n <= BatchCount(n, size) * size < n + size
  {
    if n > size {
      BatchCountIsCeiling(n - size, size);
      assert BatchCount(n, size) * size == BatchCount(n - size, size) * size + size;
    }
  }

  /** A real run commits once per batch, a dry run never; treating accounts commits nothing. */
  lemma {:induction false} BatchesCommitted(o: Options, step: Stepper, w: World, d: Db, st: Stats, ids: seq<string>,
        offset: nat)
    requires o.batchSize > 0 && forall d: Db, st: Stats, a: string :: step(d, st, a).1.batches == st.batches
    ensures RunFrom(o, step, w, d, st, ids, offset).1.batches
            == st.batches + (if o.dryRun || offset >= |ids| then 0 else BatchCount(|ids| - offset, o.batchSize))
    decreases |ids| - offset
  {
    if offset < |ids| {
      var slice := Elements(Slice(ids, offset, o.batchSize));
      var (after, stats) := Batch(o, step, w, d, st, slice);
      NoCommits(step, d, st, Selected(w, d, o.workspace, slice));
      BatchesCommitted(o, step, w, after, stats, ids, offset + o.batchSize);
    }
  }

  lemma {:induction false} NoCommits(step: Stepper, d: Db, st: Stats, ids: seq<string>)
    requires forall d: Db, st: Stats, a: string :: step(d, st, a).1.batches == st.batches
    ensures ProcessAll(step, d, st, ids).1.batches == st.batches
  {
    if ids != [] {
      NoCommits(step, d, st, ids[..|ids| - 1]);
    }
  }

  lemma {:induction false} StepsCommitNothing(o: Options, w: World)
    ensures forall d: Db, st: Stats, a: string :: StepperOf(o, w)(d, st, a).1.batches == st.batches
  {
  }

  // ----- a single real run

  /** Every account of the workspace has a score row, a behaviour row, an origin and a grace date. */
  ghost predicate Complete(d: Db, workspace: string) {
    forall a :: a in InWorkspace(d, workspace) ==>
      (workspace, a) in d.ggr && (workspace, a) in d.behavior && d.accounts[a].origin.Some? && d.accounts[a].grace.Some?
  }

  lemma {:induction false} FilledIsComplete(w: World, d0: Db, d: Db, workspace: string, filled: set<string>)
    requires Filled(w, d0, d, filled) && InWorkspace(d0, workspace) <= filled
    ensures Complete(d, workspace) && Needy(d, workspace) == {} && forall x :: Lacking(d, workspace, x) == {}
  {
    forall a | a in d.accounts && d.accounts[a].workspace == workspace
      ensures Planned(d, a) == {} && a in filled
    {
      assert AccountFilled(w, d0.accounts[a], d.accounts[a], a in filled);
      assert a in InWorkspace(d0, workspace);
      assert RowOf(d0, filled, (workspace, a));
    }
  }

  /**
   A single real run fills in exactly the accounts of its workspace, so it overwrites nothing and
   touches no other workspace; it counts every gap once, adds one event per account it changed, and
   commits as many batches as it takes.
   */
  lemma {:induction false} SingleRun(o: Options, w: World, d: Db)
    requires !o.dryRun && o.batchSize > 0 && Enumerates(w)
    ensures var (after, result) := RunBackfill(o, true, w, d);
            && result.Finished? && Filled(w, d, after, InWorkspace(d, o.workspace)) && Complete(after, o.workspace)
            && (forall x :: Counter(result.stats, x) == |Lacking(d, o.workspace, x)|)
            && result.stats.events == |Needy(d, o.workspace)| == |after.events| - |d.events|
            && EventsTell(d, after.events, InWorkspace(d, o.workspace))
            && result.stats.batches == BatchCount(|InWorkspace(d, o.workspace)|, o.batchSize)
            && result.stats.seen == (if o.skipExisting then |Needy(d, o.workspace)| else |InWorkspace(d, o.workspace)|)
  {
    var (after, st) := RunFrom(o, StepperOf(o, w), w, d, NO_STATS, w.enumerate(InWorkspace(d, o.workspace)), 0);
    RealRunFrom(o, w, d);
    RealRunEnds(o, w, d, after, st);
    RealRunCommits(o, w, d);
  }

  lemma {:induction false} RealRunCommits(o: Options, w: World, d: Db)
    requires !o.dryRun && o.batchSize > 0 && Enumerates(w)
    ensures RunFrom(o, StepperOf(o, w), w, d, NO_STATS, w.enumerate(InWorkspace(d, o.workspace)), 0).1.batches
            == BatchCount(|InWorkspace(d, o.workspace)|, o.batchSize)
  {
    WholeWorkspace(w, d, o.workspace);
    StepsCommitNothing(o, w);
    BatchesCommitted(o, StepperOf(o, w), w, d, NO_STATS, w.enumerate(InWorkspace(d, o.workspace)), 0);
  }

  lemma {:induction false} RealRunFrom(o: Options, w: World, d: Db)
    requires !o.dryRun && o.batchSize > 0 && Enumerates(w)
    ensures var all := InWorkspace(d, o.workspace);
            var (after, st) := RunFrom(o, StepperOf(o, w), w, d, NO_STATS, w.enumerate(all), 0);
            RealRun(o, w, d, NO_STATS, all)(after, st, all)
  {
    var all := InWorkspace(d, o.workspace);
    var ids := w.enumerate(all);
    WholeWorkspace(w, d, o.workspace);
    RealRunKept(o, w, d, NO_STATS);
    RealRunSuits(o, w, d, NO_STATS, all);
    assert Elements(ids[..0]) == {};
    RunKeeps(o, StepperOf(o, w), w, RealRun(o, w, d, NO_STATS, all), true, d, NO_STATS, ids, 0);
  }

  /** What a real run keeps: the accounts done are filled in, the gaps balance, each account is seen once. */
  ghost function RealRun(o: Options, w: World, d0: Db, st0: Stats, all: set<string>): (Db, Stats, set<string>) -> bool {
    (d: Db, st: Stats, done: set<string>) =>
      Filled(w, d0, d, done) && EventsTell(d0, d.events, done) && Balance(o.workspace, d0, st0, d, st)
        && InWorkspace(d, o.workspace) == all
      && st.seen - st0.seen == (if o.skipExisting then st.events - st0.events else |done|)
  }

  lemma {:induction false} BalanceIgnoresBatches(workspace: string, d0: Db, st0: Stats, d: Db, st: Stats, n: nat)
    requires Balance(workspace, d0, st0, d, st)
    ensures Balance(workspace, d0, st0, d, st.(batches := n))
  {
    assert forall x :: Counter(st.(batches := n), x) == Counter(st, x);
  }

  lemma {:induction false} RealRunSuits(o: Options, w: World, d0: Db, st0: Stats, all: set<string>)
    ensures Suits(RealRun(o, w, d0, st0, all), o.workspace, all)
  {
    var p := RealRun(o, w, d0, st0, all);
    forall d: Db, st: Stats, done: set<string>, n: nat | p(d, st, done)
      ensures p(d, st.(batches := n), done)
    {
      BalanceIgnoresBatches(o.workspace, d0, st0, d, st, n);
    }
  }

  lemma {:induction false} RealRunKept(o: Options, w: World, d0: Db, st0: Stats)
    requires !o.dryRun
    ensures var all := InWorkspace(d0, o.workspace);
            var p := RealRun(o, w, d0, st0, all);
            Keeps(StepperOf(o, w), p, all, true) && p(d0, st0, {})
  {
    var all := InWorkspace(d0, o.workspace);
    var (p, step) := (RealRun(o, w, d0, st0, all), StepperOf(o, w));
    forall d: Db, st: Stats, done: set<string>, a: string | p(d, st, done) && a in all && a !in done
      ensures p(step(d, st, a).0, step(d, st, a).1, done + {a})
    {
      RealStep(o, w, d0, st0, d, st, done, a);
      assert |done + {a}| == |done| + 1;
    }
    NothingFilled(w, d0);
  }

  lemma {:induction false} RealRunEnds(o: Options, w: World, d: Db, after: Db, st: Stats)
    requires RealRun(o, w, d, NO_STATS, InWorkspace(d, o.workspace))(after, st, InWorkspace(d, o.workspace))
    ensures Filled(w, d, after, InWorkspace(d, o.workspace)) && EventsTell(d, after.events, InWorkspace(d, o.workspace))
            && Complete(after, o.workspace)
    ensures forall x :: Counter(st, x) == |Lacking(d, o.workspace, x)|
    ensures st.events == |Needy(d, o.workspace)| == |after.events| - |d.events|
    ensures st.seen == (if o.skipExisting then |Needy(d, o.workspace)| else |InWorkspace(d, o.workspace)|)
  {
    FilledIsComplete(w, d, after, o.workspace, InWorkspace(d, o.workspace));
    assert forall x :: Counter(NO_STATS, x) == 0;
  }

  lemma {:induction false} NothingFilled(w: World, d: Db)
    ensures Filled(w, d, d, {}) && EventsTell(d, d.events, {})
  {
  }

  // ----- runs that change nothing

  /** A second run, of any batch size, creates nothing and leaves the database as the first left it. */
  lemma {:induction false} RepeatRunIdle(o: Options, again: Options, w: World, d: Db)
    requires !o.dryRun && !again.dryRun && o.batchSize > 0 && again.batchSize > 0 && again.workspace == o.workspace
             && Enumerates(w)
    ensures var first := RunBackfill(o, true, w, d).0;
            var (second, result) := RunBackfill(again, true, w, first);
            second == first && result.Finished? && result.stats.events == 0 && forall x :: Counter(result.stats, x) == 0
  {
    var first := RunBackfill(o, true, w, d).0;
    SingleRun(o, w, d);
    CompleteRunIdle(again, w, first);
  }

  lemma {:induction false} CompleteRunIdle(o: Options, w: World, d: Db)
    requires !o.dryRun && o.batchSize > 0 && Enumerates(w) && Complete(d, o.workspace)
    ensures var (after, result) := RunBackfill(o, true, w, d);
            after == d && result.Finished? && result.stats.events == 0 && forall x :: Counter(result.stats, x) == 0
  {
    var (all, ids, step) := (InWorkspace(d, o.workspace), w.enumerate(InWorkspace(d, o.workspace)), StepperOf(o, w));
    var p := (after: Db, st: Stats, done: set<string>) => after == d;
    WholeWorkspace(w, d, o.workspace);
    forall after: Db, st: Stats, done: set<string>, a: string | p(after, st, done) && a in all
      ensures p(step(after, st, a).0, step(after, st, a).1, done + {a})
    {
      assert Planned(d, a) == {};
    }
    assert Keeps(step, p, all, false) && Suits(p, o.workspace, all);
    RunKeeps(o, step, w, p, false, d, NO_STATS, ids, 0);
    SingleRun(o, w, d);
    forall a | a in all
      ensures Planned(d, a) == {}
    {
    }
    assert Needy(d, o.workspace) == {} && forall x :: Lacking(d, o.workspace, x) == {};
  }

  // ----- the dry run

  /** What a dry run has counted once the accounts `done` are done. */
  ghost predicate DryTally(o: Options, d: Db, st: Stats, done: set<string>) {
    && (forall x :: Counter(st, x) == |done * Lacking(d, o.workspace, x)|)
    && st.seen == (if o.skipExisting then |done * Needy(d, o.workspace)| else |done|)
    && st.events == 0
  }

  lemma {:induction false} OneMore(done: set<string>, a: string, s: set<string>)
    requires a !in done
    ensures |(done + {a}) * s| == |done * s| + (if a in s then 1 else 0)
  {
    assert (done + {a}) * s == done * s + (if a in s then {a} else {});
  }

  lemma {:induction false} DryProcess(o: Options, w: World, d: Db, st: Stats, a: string)
    requires o.dryRun && a in d.accounts
    ensures var (after, stats) := Process(o, w, d, st, a);
            && after == d && stats.events == st.events
            && (forall x :: Counter(stats, x) == Counter(st, x) + (if x in Planned(d, a) then 1 else 0))
            && stats.seen == st.seen + (if o.skipExisting && Planned(d, a) == {} then 0 else 1)
  {
    forall x
      ensures Counter(Count(st, Planned(d, a)), x) == Counter(st, x) + (if x in Planned(d, a) then 1 else 0)
    {
      CountCounts(st, Planned(d, a), x);
    }
  }

  lemma {:induction false} DryTallyMore(o: Options, d: Db, st: Stats, stats: Stats, done: set<string>, a: string)
    requires a in InWorkspace(d, o.workspace) && a !in done && DryTally(o, d, st, done) && stats.events == st.events
    requires forall x :: Counter(stats, x) == Counter(st, x) + (if x in Planned(d, a) then 1 else 0)
    requires stats.seen == st.seen + (if o.skipExisting && Planned(d, a) == {} then 0 else 1)
    ensures DryTally(o, d, stats, done + {a})
  {
    forall x
      ensures Counter(stats, x) == |(done + {a}) * Lacking(d, o.workspace, x)|
    {
      OneMore(done, a, Lacking(d, o.workspace, x));
    }
    OneMore(done, a, Needy(d, o.workspace));
  }

  lemma {:induction false} DryRun(o: Options, w: World, d: Db)
    requires o.dryRun && o.batchSize > 0 && Enumerates(w)
    ensures var (after, result) := RunBackfill(o, true, w, d);
            && after == d && result.Finished? && DryTally(o, d, result.stats, InWorkspace(d, o.workspace))
               && result.stats.batches == 0
  {
    var (all, ids, step) := (InWorkspace(d, o.workspace), w.enumerate(InWorkspace(d, o.workspace)), StepperOf(o, w));
    var p := (after: Db, st: Stats, done: set<string>) => after == d && DryTally(o, d, st, done);
    WholeWorkspace(w, d, o.workspace);
    forall after: Db, st: Stats, done: set<string>, a: string | p(after, st, done) && a in all && a !in done
      ensures p(step(after, st, a).0, step(after, st, a).1, done + {a})
    {
      DryProcess(o, w, d, st, a);
      DryTallyMore(o, d, st, Process(o, w, d, st, a).1, done, a);
    }
    assert Keeps(step, p, all, true);
    DryTallySuits(o, d, all);
    assert Elements(ids[..0]) == {};
    RunKeeps(o, step, w, p, true, d, NO_STATS, ids, 0);
    StepsCommitNothing(o, w);
    BatchesCommitted(o, step, w, d, NO_STATS, ids, 0);
  }

  lemma {:induction false} DryTallySuits(o: Options, d: Db, all: set<string>)
    requires all == InWorkspace(d, o.workspace)
    ensures Suits((after: Db, st: Stats, done: set<string>) => after == d && DryTally(o, d, st, done), o.workspace, all)
    ensures DryTally(o, d, NO_STATS, {})
  {
    forall st: Stats, done: set<string>, n: nat | DryTally(o, d, st, done)
      ensures DryTally(o, d, st.(batches := n), done)
    {
      assert forall x :: Counter(st.(batches := n), x) == Counter(st, x);
    }
    assert forall x :: Counter(NO_STATS, x) == 0;
    assert forall s: set<string> :: {} * s == {};
  }

  /**
   A dry run changes nothing and reports what a real run from the same state would: the same four
   action counters and the same number of accounts seen, whatever the batch sizes.
   */
  lemma {:induction false} DryRunForetells(dry: Options, committed: Options, w: World, d: Db)
    requires dry.dryRun && !committed.dryRun && dry.batchSize > 0 && committed.batchSize > 0 && Enumerates(w)
    requires dry.workspace == committed.workspace && dry.skipExisting == committed.skipExisting
    ensures var (same, foretold) := RunBackfill(dry, true, w, d);
            var done := RunBackfill(committed, true, w, d).1;
            && same == d && foretold.Finished? && done.Finished?
            && (forall x :: Counter(foretold.stats, x) == Counter(done.stats, x))
            && foretold.stats.seen == done.stats.seen
            && foretold.stats.events == 0 && foretold.stats.batches == 0
  {
    DryRun(dry, w, d);
    SingleRun(committed, w, d);
    var all := InWorkspace(d, dry.workspace);
    assert forall x :: all * Lacking(d, dry.workspace, x) == Lacking(d, dry.workspace, x);
    assert all * Needy(d, dry.workspace) == Needy(d, dry.workspace);
  }

  // ----- several runs at once

  /** A committed batch of some run; the advisory lock makes it one atomic step. */
  datatype Step = Step(options: Options, ids: set<string>)

  ghost predicate RealSteps(steps: seq<Step>, workspace: string) {
    forall i :: 0 <= i < |steps| ==> !steps[i].options.dryRun && steps[i].options.workspace == workspace
  }

  /** The database after the steps, and the statistics of all runs summed up. */
  function Interleave(w: World, d: Db, steps: seq<Step>): (Db, Stats) {
    if steps == [] then (d, NO_STATS)
    else
      var (before, total) := Interleave(w, d, steps[..|steps| - 1]);
      var last := steps[|steps| - 1];
      Batch(last.options, StepperOf(last.options, w), w, before, total, last.ids)
  }

  function Covered(steps: seq<Step>): set<string> {
    if steps == [] then {} else Covered(steps[..|steps| - 1]) + steps[|steps| - 1].ids
  }

  /** A run of that batch size over the whole workspace is among the steps, all its batches committed. */
  ghost predicate RunFinished(steps: seq<Step>, ids: seq<string>, size: nat) {
    size > 0 && forall n: nat :: n * size < |ids|
                  ==> exists i :: 0 <= i < |steps| && steps[i].ids == Elements(Slice(ids, n * size, size))
  }

  lemma {:induction false} CoveredHas(steps: seq<Step>, i: nat)
    requires i < |steps|
    ensures steps[i].ids <= Covered(steps)
  {
    if i < |steps| - 1 {
      CoveredHas(steps[..|steps| - 1], i);
    }
  }

  /** Which batch an account falls into. */
  lemma {:induction false} BatchOf(j: nat, size: nat) returns (n: nat)
    requires size > 0
    ensures n * size <= j < n * size + size
  {
    n := j / size;
    assert j == size * n + j % size;
  }

  lemma {:induction false} FinishedRunCovers(steps: seq<Step>, ids: seq<string>, size: nat)
    requires RunFinished(steps, ids, size)
    ensures Elements(ids) <= Covered(steps)
  {
    forall a | a in ids
      ensures a in Covered(steps)
    {
      var j :| 0 <= j < |ids| && ids[j] == a;
      var n := BatchOf(j, size);
      var slice := Slice(ids, n * size, size);
      assert slice[j - n * size] == a;
      var i :| 0 <= i < |steps| && steps[i].ids == Elements(slice);
      CoveredHas(steps, i);
    }
  }

  /** What real steps of any options keep on one workspace, repeated accounts included. */
  ghost function Shared(w: World, workspace: string, d0: Db, all: set<string>): (Db, Stats, set<string>) -> bool {
    (d: Db, st: Stats, done: set<string>) =>
      Filled(w, d0, d, done) && EventsTell(d0, d.events, done) && Balance(workspace, d0, NO_STATS, d, st)
        && InWorkspace(d, workspace) == all
  }

  lemma {:induction false} SharedSuits(w: World, workspace: string, d0: Db, all: set<string>)
    ensures Suits(Shared(w, workspace, d0, all), workspace, all)
  {
    var p := Shared(w, workspace, d0, all);
    forall d: Db, st: Stats, done: set<string>, n: nat | p(d, st, done)
      ensures p(d, st.(batches := n), done)
    {
      BalanceIgnoresBatches(workspace, d0, NO_STATS, d, st, n);
    }
  }

  lemma {:induction false} SharedKept(o: Options, w: World, d0: Db)
    requires !o.dryRun
    ensures var all := InWorkspace(d0, o.workspace);
            var p := Shared(w, o.workspace, d0, all);
            Keeps(StepperOf(o, w), p, all, false) && p(d0, NO_STATS, {})
  {
    var all := InWorkspace(d0, o.workspace);
    var (p, step) := (Shared(w, o.workspace, d0, all), StepperOf(o, w));
    forall d: Db, st: Stats, done: set<string>, a: string | p(d, st, done) && a in all
      ensures p(step(d, st, a).0, step(d, st, a).1, done + {a})
    {
      RealStep(o, w, d0, NO_STATS, d, st, done, a);
    }
    NothingFilled(w, d0);
  }

  lemma {:induction false} InterleaveKeeps(w: World, d: Db, workspace: string, steps: seq<Step>)
    requires Enumerates(w) && RealSteps(steps, workspace)
    ensures var all := InWorkspace(d, workspace);
            Shared(w, workspace, d, all)(Interleave(w, d, steps).0, Interleave(w, d, steps).1, Covered(steps) * all)
  {
    var all := InWorkspace(d, workspace);
    if steps == [] {
      NothingFilled(w, d);
      assert Covered(steps) * all == {};
    } else {
      var (front, last) := (steps[..|steps| - 1], steps[|steps| - 1]);
      var (before, total) := Interleave(w, d, front);
      InterleaveKeeps(w, d, workspace, front);
      SharedKept(last.options, w, d);
      SharedSuits(w, workspace, d, all);
      BatchKeeps(last.options, StepperOf(last.options, w), w, Shared(w, workspace, d, all), all, false, before, total,
                 last.ids, Covered(front) * all);
      assert Covered(steps) * all == Covered(front) * all + last.ids * all;
    }
  }

  /** Two databases that agree up to the ids and times of what was filled in since `d0`. */
  ghost predicate Alike(w: World, d0: Db, a: Db, b: Db) {
    && a.accounts.Keys == b.accounts.Keys == d0.accounts.Keys
    && (forall x :: x in d0.accounts ==>
          && a.accounts[x].workspace == b.accounts[x].workspace && a.accounts[x].origin == b.accounts[x].origin
          && (a.accounts[x].grace == b.accounts[x].grace
              || (d0.accounts[x].grace.None? && IsGraceDate(w, a.accounts[x].grace)
                  && IsGraceDate(w, b.accounts[x].grace))))
    && a.ggr.Keys == b.ggr.Keys
    && (forall k :: k in a.ggr
          ==> a.ggr[k] == b.ggr[k] || (k !in d0.ggr && IsDefaultGgr(w, a.ggr[k]) && IsDefaultGgr(w, b.ggr[k])))
    && a.behavior.Keys == b.behavior.Keys
    && (forall k :: k in a.behavior ==>
          || a.behavior[k] == b.behavior[k]
          || (k !in d0.behavior && IsDefaultBehavior(w, a.behavior[k], k.1)
              && IsDefaultBehavior(w, b.behavior[k], k.1)))
  }

  lemma {:induction false} FilledAlike(w: World, d0: Db, a: Db, b: Db, filled: set<string>)
    requires Filled(w, d0, a, filled) && Filled(w, d0, b, filled)
    ensures Alike(w, d0, a, b)
  {
    forall x | x in d0.accounts
      ensures a.accounts[x].origin == b.accounts[x].origin
    {
      assert AccountFilled(w, d0.accounts[x], a.accounts[x], x in filled)
        && AccountFilled(w, d0.accounts[x], b.accounts[x], x in filled);
    }
    assert a.ggr.Keys == b.ggr.Keys && a.behavior.Keys == b.behavior.Keys;
  }

  /**
   Any interleaving of committed batches of any number of runs, once one of the runs has finished:
   the database is the one a single full run leaves, up to ids and times, and the counters of all
   runs together count every gap of the start exactly once, with one event per changed account.
   */
  lemma {:induction false} InterleavedRuns(w: World, d: Db, o: Options, steps: seq<Step>, size: nat)
    requires Enumerates(w) && RealSteps(steps, o.workspace) && !o.dryRun && o.batchSize > 0
    requires RunFinished(steps, w.enumerate(InWorkspace(d, o.workspace)), size)
    ensures var (after, total) := Interleave(w, d, steps);
            && Alike(w, d, after, RunBackfill(o, true, w, d).0)
            && (forall x :: Counter(total, x) == |Lacking(d, o.workspace, x)|)
            && total.events == |Needy(d, o.workspace)| == |after.events| - |d.events|
            && EventsTell(d, after.events, InWorkspace(d, o.workspace))
  {
    var (after, total) := Interleave(w, d, steps);
    var all := InWorkspace(d, o.workspace);
    WholeWorkspace(w, d, o.workspace);
    FinishedRunCovers(steps, w.enumerate(all), size);
    InterleaveKeeps(w, d, o.workspace, steps);
    assert Covered(steps) * all == all;
    SharedEnds(w, o.workspace, d, after, total);
    SingleRun(o, w, d);
    FilledAlike(w, d, after, RunBackfill(o, true, w, d).0, all);
  }

  lemma {:induction false} SharedEnds(w: World, workspace: string, d: Db, after: Db, total: Stats)
    requires Shared(w, workspace, d, InWorkspace(d, workspace))(after, total, InWorkspace(d, workspace))
    ensures Filled(w, d, after, InWorkspace(d, workspace)) && EventsTell(d, after.events, InWorkspace(d, workspace))
    ensures forall x :: Counter(total, x) == |Lacking(d, workspace, x)|
    ensures total.events == |Needy(d, workspace)| == |after.events| - |d.events|
  {
    FilledIsComplete(w, d, after, workspace, InWorkspace(d, workspace));
    assert forall x :: Counter(NO_STATS, x) == 0;
  }
}
