/**
 backend/scripts/backfill_safety_pipeline.py: the plan for one account, what applying it does to the
 database, and a whole run in committed batches.
 */
module Backfill {
  import opened Wrappers
  import opened Strings

  datatype Action = GgrCreated | BehaviorCreated | OriginSet | GracePeriodSet

  datatype Account = Account(workspace: string, origin: Option<string>, grace: Option<int>)
  datatype GgrRow = GgrRow(id: nat, score: real, bucket: string, nextCalculation: int)
  datatype BehaviorRow = BehaviorRow(id: nat, typingCpm: int, typoRate: real, profileView: real, scroll: real,
                                     deletion: real, seed: int)
  datatype EventRow = EventRow(id: nat, workspace: string, account: string, actions: set<Action>, run: nat,
                               createdAt: int)

  /** Rows of one account are found, and are unique, by workspace and account id. */
  type Key = (string, string)

  /** The tables the script touches; `tick` counts the applications, each with its own time and ids. */
  datatype Db = Db(
    accounts: map<string, Account>,
    ggr: map<Key, GgrRow>,
    behavior: map<Key, BehaviorRow>,
    events: seq<EventRow>,
    tick: nat)

  /** Times, seeds (a hash of the account id), and the order in which a select returns ids. */
  datatype World = World(now: nat -> int, seed: string -> int, enumerate: set<string> -> seq<string>)

  const GRACE_PERIOD_DAYS := 30
  const SECONDS_A_DAY := 86400

  function DefaultGgr(id: nat, now: int): GgrRow {
    GgrRow(id, 5.0, "medium", now)
  }

  function DefaultBehavior(w: World, id: nat, account: string): BehaviorRow {
    BehaviorRow(id, 200, 0.02, 0.15, 0.30, 0.005, w.seed(account))
  }

  /** The end of a grace period that begins at tick `t`. */
  function GraceDate(w: World, t: nat): int {
    w.now(t) + GRACE_PERIOD_DAYS * SECONDS_A_DAY
  }

  /** `_planned_actions`. */
  function Planned(d: Db, a: string): set<Action>
    requires a in d.accounts
  {
    var account := d.accounts[a];
    var key := (account.workspace, a);
    (if key in d.ggr then {} else {GgrCreated})
    + (if key in d.behavior then {} else {BehaviorCreated})
    + (if account.origin.Some? then {} else {OriginSet})
    + (if account.grace.Some? then {} else {GracePeriodSet})
  }

  /** What of a plan takes effect: an insert does nothing where the row exists, an update always does. */
  function Effective(d: Db, a: string, plan: set<Action>): set<Action>
    requires a in d.accounts
  {
    var key := (d.accounts[a].workspace, a);
    (if GgrCreated in plan && key !in d.ggr then {GgrCreated} else {})
    + (if BehaviorCreated in plan && key !in d.behavior then {BehaviorCreated} else {})
    + (if OriginSet in plan then {OriginSet} else {})
    + (if GracePeriodSet in plan then {GracePeriodSet} else {})
  }

  /** `_apply_actions`: the database after a plan, with one event if anything took effect. */
  function Apply(w: World, d: Db, a: string, plan: set<Action>, run: nat): Db
    requires a in d.accounts
  {
    var (account, now, applied) := (d.accounts[a], w.now(d.tick), Effective(d, a, plan));
    var key := (account.workspace, a);
    var updated := Account(
      account.workspace,
      if OriginSet in plan then Some("imported") else account.origin,
      if GracePeriodSet in plan then Some(GraceDate(w, d.tick)) else account.grace);
    Db(d.accounts[a := updated],
       if GgrCreated in applied then d.ggr[key := DefaultGgr(d.tick, now)] else d.ggr,
       if BehaviorCreated in applied then d.behavior[key := DefaultBehavior(w, d.tick, a)] else d.behavior,
       if applied == {} then d.events else d.events + [EventRow(d.tick, account.workspace, a, applied, run, now)],
       d.tick + 1)
  }

  // ----- counting

  datatype Stats = Stats(seen: nat, batches: nat, ggr: nat, behavior: nat, origins: nat, grace: nat, events: nat)

  const NO_STATS := Stats(0, 0, 0, 0, 0, 0, 0)

  function Counter(st: Stats, x: Action): nat {
    match x
    case GgrCreated => st.ggr
    case BehaviorCreated => st.behavior
    case OriginSet => st.origins
    case GracePeriodSet => st.grace
  }

  /** `_count_actions`. */
  function Count(st: Stats, actions: set<Action>): Stats {
    st.(ggr := st.ggr + (if GgrCreated in actions then 1 else 0),
        behavior := st.behavior + (if BehaviorCreated in actions then 1 else 0),
        origins := st.origins + (if OriginSet in actions then 1 else 0),
        grace := st.grace + (if GracePeriodSet in actions then 1 else 0))
  }

  // ----- a run

  datatype Options = Options(workspace: string, batchSize: int, dryRun: bool, skipExisting: bool, run: nat)

  /** One account of a batch: skipped, only counted, or filled in and counted. */
  function Process(o: Options, w: World, d: Db, st: Stats, a: string): (Db, Stats)
    requires a in d.accounts
  {
    var plan := Planned(d, a);
    if o.skipExisting && plan == {} then (d, st)
    else if o.dryRun || plan == {} then (d, Count(st.(seen := st.seen + 1), plan))
    else
      var applied := Effective(d, a, plan);
      (Apply(w, d, a, plan, o.run),
       Count(st.(seen := st.seen + 1, events := st.events + (if applied == {} then 0 else 1)), applied))
  }

  /** How a run treats one account of the database. */
  type Stepper = (Db, Stats, string) -> (Db, Stats)

  function StepperOf(o: Options, w: World): Stepper {
    (d: Db, st: Stats, a: string) => if a in d.accounts then Process(o, w, d, st, a) else (d, st)
  }

  function ProcessAll(step: Stepper, d: Db, st: Stats, ids: seq<string>): (Db, Stats) {
    if ids == [] then (d, st)
    else
      var (before, stats) := ProcessAll(step, d, st, ids[..|ids| - 1]);
      step(before, stats, ids[|ids| - 1])
  }

  function InWorkspace(d: Db, workspace: string): set<string> {
    set a | a in d.accounts && d.accounts[a].workspace == workspace
  }

  /** A select returns each matching id once. */
  ghost predicate Enumerates(w: World) {
    forall s: set<string> :: NoRepeats(w.enumerate(s)) && forall a :: a in w.enumerate(s) <==> a in s
  }

  /** The accounts of the workspace among `ids`, as the select of a batch returns them. */
  function Selected(w: World, d: Db, workspace: string, ids: set<string>): seq<string> {
    w.enumerate(ids * InWorkspace(d, workspace))
  }

  function Batch(o: Options, step: Stepper, w: World, d: Db, st: Stats, ids: set<string>): (Db, Stats) {
    var (after, stats) := ProcessAll(step, d, st, Selected(w, d, o.workspace, ids));
    (after, if o.dryRun then stats else stats.(batches := stats.batches + 1))
  }

  function Slice(ids: seq<string>, offset: nat, size: nat): seq<string>
    requires offset <= |ids|
  {
    if offset + size <= |ids| then ids[offset..offset + size] else ids[offset..]
  }

  /** The batches from `offset` on. */
  function RunFrom(o: Options, step: Stepper, w: World, d: Db, st: Stats, ids: seq<string>, offset: nat): (Db, Stats)
    requires o.batchSize > 0
    decreases |ids| - offset
  {
    if offset >= |ids| then (d, st)
    else
      var (after, stats) := Batch(o, step, w, d, st, Elements(Slice(ids, offset, o.batchSize)));
      RunFrom(o, step, w, after, stats, ids, offset + o.batchSize)
  }

  datatype RunResult = Finished(stats: Stats) | ValueError

  /** `run_backfill`; `validId` tells whether the workspace id is a UUID. */
  function RunBackfill(o: Options, validId: bool, w: World, d: Db): (Db, RunResult) {
    if o.batchSize <= 0 || !validId then (d, ValueError)
    else
      var (after, stats) := RunFrom(o, StepperOf(o, w), w, d, NO_STATS, w.enumerate(InWorkspace(d, o.workspace)), 0);
      (after, Finished(stats))
  }

  // ----- the objects

  class BackfillStats {
    var seen: nat
    var batches: nat
    var ggr: nat
    var behavior: nat
    var origins: nat
    var grace: nat
    var events: nat

    function Now(): Stats
      reads this
    {
      Stats(seen, batches, ggr, behavior, origins, grace, events)
    }

    constructor ()
      ensures Now() == NO_STATS
    {
      seen, batches, ggr, behavior, origins, grace, events := 0, 0, 0, 0, 0, 0, 0;
    }

    method CountActions(actions: set<Action>)
      modifies this
      ensures Now() == Count(old(Now()), actions)
    {
      if GgrCreated in actions { ggr := ggr + 1; }
      if BehaviorCreated in actions { behavior := behavior + 1; }
      if OriginSet in actions { origins := origins + 1; }
      if GracePeriodSet in actions { grace := grace + 1; }
    }
  }

  class Session {
    const w: World
    var accounts: map<string, Account>
    var ggr: map<Key, GgrRow>
    var behavior: map<Key, BehaviorRow>
    var events: seq<EventRow>
    var tick: nat

    function Now(): Db
      reads this
    {
      Db(accounts, ggr, behavior, events, tick)
    }

    constructor (w: World, d: Db)
      ensures this.w == w && Now() == d
    {
      this.w := w;
      accounts, ggr, behavior, events, tick := d.accounts, d.ggr, d.behavior, d.events, d.tick;
    }

    method InsertGgrScore(key: Key, row: GgrRow) returns (inserted: bool)
      modifies `ggr
      ensures inserted == (key !in old(ggr)) && ggr == if inserted then old(ggr)[key := row] else old(ggr)
    {
      inserted := key !in ggr;
      if inserted { ggr := ggr[key := row]; }
    }

    method InsertBehaviorProfile(key: Key, row: BehaviorRow) returns (inserted: bool)
      modifies `behavior
      ensures inserted == (key !in old(behavior)) && behavior == if inserted then old(behavior)[key := row]
              else old(behavior)
    {
      inserted := key !in behavior;
      if inserted { behavior := behavior[key := row]; }
    }

    method ApplyActions(a: string, plan: set<Action>, stats: BackfillStats, run: nat) returns (applied: set<Action>)
      requires a in accounts
      modifies this, stats`events
      ensures applied == Effective(old(Now()), a, plan) && Now() == Apply(w, old(Now()), a, plan, run)
      ensures stats.events == old(stats.events) + (if applied == {} then 0 else 1)
    {
      var now, account := w.now(tick), accounts[a];
      applied := InsertRows((account.workspace, a), plan, now);
      if OriginSet in plan {
        account := account.(origin := Some("imported"));
        applied := applied + {OriginSet};
      }
      if GracePeriodSet in plan {
        account := account.(grace := Some(now + GRACE_PERIOD_DAYS * SECONDS_A_DAY));
        applied := applied + {GracePeriodSet};
      }
      accounts := accounts[a := account];
      if applied != {} {
        events := events + [EventRow(tick, account.workspace, a, applied, run, now)];
        stats.events := stats.events + 1;
      }
      tick := tick + 1;
    }

    method InsertRows(key: Key, plan: set<Action>, now: int) returns (applied: set<Action>)
      modifies `ggr, `behavior
      ensures applied == (if GgrCreated in plan && key !in old(ggr) then {GgrCreated} else {})
                         + (if BehaviorCreated in plan && key !in old(behavior) then {BehaviorCreated} else {})
      ensures ggr == if GgrCreated in applied then old(ggr)[key := DefaultGgr(tick, now)] else old(ggr)
      ensures behavior == if BehaviorCreated in applied then old(behavior)[key := DefaultBehavior(w, tick, key.1)]
              else old(behavior)
    {
      applied := {};
      if GgrCreated in plan {
        var inserted := InsertGgrScore(key, DefaultGgr(tick, now));
        if inserted { applied := {GgrCreated}; }
      }
      if BehaviorCreated in plan {
        var inserted := InsertBehaviorProfile(key, DefaultBehavior(w, tick, key.1));
        if inserted { applied := applied + {BehaviorCreated}; }
      }
    }

    method ProcessAccount(o: Options, stats: BackfillStats, a: string)
      modifies this, stats
      ensures (Now(), stats.Now()) == StepperOf(o, w)(old(Now()), old(stats.Now()), a)
    {
      if a !in accounts {
        return;
      }
      var plan := Planned(Now(), a);
      if o.skipExisting && plan == {} {
        return;
      }
      stats.seen := stats.seen + 1;
      if o.dryRun || plan == {} {
        stats.CountActions(plan);
        return;
      }
      var applied := ApplyActions(a, plan, stats, o.run);
      stats.CountActions(applied);
    }

    method RunBatch(o: Options, stats: BackfillStats, ids: set<string>)
      modifies this, stats
      ensures (Now(), stats.Now()) == Batch(o, StepperOf(o, w), w, old(Now()), old(stats.Now()), ids)
    {
      var selected := Selected(w, Now(), o.workspace, ids);
      for i := 0 to |selected|
        invariant (Now(), stats.Now()) == ProcessAll(StepperOf(o, w), old(Now()), old(stats.Now()), selected[..i])
      {
        assert selected[..i + 1][..i] == selected[..i];
        ProcessAccount(o, stats, selected[i]);
      }
      assert selected[..|selected|] == selected;
      if !o.dryRun {
        stats.batches := stats.batches + 1;
      }
    }

    /** The whole script: `result` is the statistics, or the error of a bad argument. */
    method Backfill(o: Options, validId: bool) returns (result: RunResult)
      modifies this
      ensures (Now(), result) == RunBackfill(o, validId, w, old(Now()))
    {
      if o.batchSize <= 0 || !validId {
        return ValueError;
      }
      ghost var goal := RunBackfill(o, validId, w, Now());
      var stats := new BackfillStats();
      var ids := w.enumerate(InWorkspace(Now(), o.workspace));
      var offset := 0;
      while offset < |ids|
        invariant fresh(stats) && 0 <= offset
        invariant var (d, st) := RunFrom(o, StepperOf(o, w), w, Now(), stats.Now(), ids, offset);
                  (d, Finished(st)) == goal
        decreases |ids| - offset
      {
        RunBatch(o, stats, Elements(Slice(ids, offset, o.batchSize)));
        offset := offset + o.batchSize;
      }
      return Finished(stats.Now());
    }
  }
}
