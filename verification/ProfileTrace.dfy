/**
 The event trace of a profile job: its grammar, the exit code of backend/app/tdlib_job.py, and the
 job state of `classify_job_outcome` in backend/app/adapters/tdlib_profile_steps.py.
 */
module ProfileTrace {
  import opened Wrappers
  import opened Json
  import opened ProfileQueries

  /** A plan step as it comes from JSON: any of its three fields can be missing. */
  datatype PlanStep = PlanStep(key: Option<string>, stepType: Option<string>, payload: Option<Dict>)

  /** Of the payloads of successful steps, what concerns profile audio. */
  datatype Payload = Plain | Uploaded(upload: Upload) | AudioAdded(reported: Option<int>)

  datatype TraceEvent =
    | RuntimeStarted
    | StepStarted(key: string, stepType: string)
    | StepSucceeded(key: string, stepType: string, payload: Payload)
    | StepFailed(key: string, stepType: string, code: string)
    | StepUncertain(key: string, stepType: string, reason: string)
    | RuntimeClosed
    | RuntimeFailed(code: string)

  predicate Named(step: PlanStep) {
    step.key.Some? && step.stepType.Some?
  }

  // ----- the grammar

  ghost predicate Starts(e: TraceEvent, step: PlanStep) {
    Named(step) && e == StepStarted(step.key.value, step.stepType.value)
  }

  ghost predicate Ended(e: TraceEvent, step: PlanStep) {
    && Named(step) && (e.StepSucceeded? || e.StepFailed? || e.StepUncertain?)
    && e.key == step.key.value && e.stepType == step.stepType.value
  }

  /** The first `k` steps started and succeeded, one after the other, in plan order. */
  ghost predicate Completed(steps: seq<PlanStep>, k: nat, body: seq<TraceEvent>) {
    && k <= |steps| && 2 * k <= |body|
    && (forall i :: 0 <= i < k ==> Starts(body[2 * i], steps[i]))
    && (forall i :: 0 <= i < k ==> Ended(body[2 * i + 1], steps[i]) && body[2 * i + 1].StepSucceeded?)
  }

  /** How a trace ends after `k` completed steps. */
  datatype Ending = AllDone | BrokenPlan | FailedStep | UncertainStep

  ghost predicate EndsAs(steps: seq<PlanStep>, k: nat, rest: seq<TraceEvent>, ending: Ending)
    requires k <= |steps|
  {
    match ending
    case AllDone => k == |steps| && rest == [RuntimeClosed]
    case BrokenPlan => k < |steps| && !Named(steps[k]) && |rest| == 1 && rest[0].RuntimeFailed?
    case FailedStep =>
      k < |steps| && |rest| == 3 && Starts(rest[0], steps[k]) && Ended(rest[1], steps[k]) && rest[1].StepFailed?
        && rest[2].RuntimeFailed?
    case UncertainStep =>
      k < |steps| && |rest| == 3 && Starts(rest[0], steps[k]) && Ended(rest[1], steps[k]) && rest[1].StepUncertain?
        && rest[2].RuntimeClosed?
  }

  ghost predicate Body(steps: seq<PlanStep>, body: seq<TraceEvent>, k: nat, ending: Ending) {
    Completed(steps, k, body) && EndsAs(steps, k, body[2 * k..], ending)
  }

  /** The whole trace of a started runtime. */
  ghost predicate Trace(steps: seq<PlanStep>, trace: seq<TraceEvent>, k: nat, ending: Ending) {
    trace != [] && trace[0] == RuntimeStarted && Body(steps, trace[1..], k, ending)
  }

  /** A runtime that never started, or whose plan has no list of steps. */
  ghost predicate FailedAtOnce(trace: seq<TraceEvent>) {
    trace != [] && trace[|trace| - 1].RuntimeFailed? && trace[..|trace| - 1] in {[], [RuntimeStarted]}
  }

  lemma {:induction false} CompletedExtends(steps: seq<PlanStep>, head: seq<TraceEvent>, body: seq<TraceEvent>, k: nat)
    requires steps != [] && |head| == 2 && Starts(head[0], steps[0]) && Ended(head[1], steps[0])
             && head[1].StepSucceeded?
    requires Completed(steps[1..], k, body)
    ensures Completed(steps, k + 1, head + body)
    ensures (head + body)[2 * (k + 1)..] == body[2 * k..]
  {
    var whole := head + body;
    forall i | 0 <= i < k + 1
      ensures Starts(whole[2 * i], steps[i]) && Ended(whole[2 * i + 1], steps[i]) && whole[2 * i + 1].StepSucceeded?
    {
      if i > 0 {
        assert whole[2 * i] == body[2 * (i - 1)] && whole[2 * i + 1] == body[2 * (i - 1) + 1];
        assert steps[i] == steps[1..][i - 1];
      }
    }
  }

  lemma {:induction false} BodyExtends(steps: seq<PlanStep>, head: seq<TraceEvent>, body: seq<TraceEvent>, k: nat,
        ending: Ending)
    requires steps != [] && |head| == 2 && Starts(head[0], steps[0]) && Ended(head[1], steps[0])
             && head[1].StepSucceeded?
    requires Body(steps[1..], body, k, ending)
    ensures Body(steps, head + body, k + 1, ending)
  {
    CompletedExtends(steps, head, body, k);
    if k < |steps[1..]| {
      assert steps[1..][k] == steps[k + 1];
    }
  }

  // ----- the exit code

  predicate AnyFailed(trace: seq<TraceEvent>) {
    exists i :: 0 <= i < |trace| && trace[i].RuntimeFailed?
  }

  predicate AnyUncertain(trace: seq<TraceEvent>) {
    exists i :: 0 <= i < |trace| && trace[i].StepUncertain?
  }

  function ExitCode(trace: seq<TraceEvent>): int {
    if AnyFailed(trace) then 1 else if AnyUncertain(trace) then 3 else 0
  }

  /** 1 after any failure of the runtime, else 3 after any uncertain step, and 0 only without both. */
  ghost predicate IsExitCode(trace: seq<TraceEvent>, code: int) {
    && code in {0, 1, 3}
    && (code == 1 <==> exists e :: e in trace && e.RuntimeFailed?)
    && (code == 0 <==> forall e :: e in trace ==> !e.RuntimeFailed? && !e.StepUncertain?)
  }

  lemma {:induction false} ExitCodeExactly(trace: seq<TraceEvent>)
    ensures IsExitCode(trace, ExitCode(trace))
  {
    assert forall i :: 0 <= i < |trace| ==> trace[i] in trace;
  }

  /** The loop of `main`; `exit` is the code of a `SystemExit` that cuts the trace off. */
  method RunJob(trace: seq<TraceEvent>, exit: Option<int>) returns (code: int)
    ensures code == if exit.Some? then exit.value else ExitCode(trace)
    ensures exit.None? ==> IsExitCode(trace, code)
  {
    ExitCodeExactly(trace);
    var failed, uncertain := false, false;
    for i := 0 to |trace|
      invariant failed == AnyFailed(trace[..i]) && uncertain == AnyUncertain(trace[..i])
    {
      assert trace[..i + 1] == trace[..i] + [trace[i]];
      assert trace[..i + 1][i] == trace[i];
      assert forall j :: 0 <= j < i ==> trace[..i + 1][j] == trace[..i][j];
      if trace[i].RuntimeFailed? {
        failed := true;
      }
      if trace[i].StepUncertain? {
        uncertain := true;
      }
    }
    assert trace[..|trace|] == trace;
    if exit.Some? {
      return exit.value;
    }
    if failed {
      return 1;
    }
    if uncertain {
      return 3;
    }
    return 0;
  }

  // ----- the job state

  datatype Status = Succeeded | Failed | Uncertain
  datatype StepOutcome = StepOutcome(stepType: string, status: Status)
  datatype JobState = JobCompleted | JobPartiallyCompleted | JobManualInterventionNeeded | JobFailed

  function ClassifyJobOutcome(results: seq<StepOutcome>): JobState {
    if exists i :: 0 <= i < |results| && results[i].status == Failed then JobFailed
    else if exists i :: 0 <= i < |results| && results[i].status == Uncertain
              && results[i].stepType == "set_username" then JobManualInterventionNeeded
    else if exists i :: 0 <= i < |results| && results[i].status == Uncertain then JobPartiallyCompleted
    else JobCompleted
  }

  ghost function Rank(state: JobState): nat {
    match state
    case JobCompleted => 0
    case JobPartiallyCompleted => 1
    case JobManualInterventionNeeded => 2
    case JobFailed => 3
  }

  ghost function Worse(a: JobState, b: JobState): JobState {
    if Rank(a) >= Rank(b) then a else b
  }

  ghost function Single(result: StepOutcome): JobState {
    match result.status
    case Succeeded => JobCompleted
    case Failed => JobFailed
    case Uncertain => if result.stepType == "set_username" then JobManualInterventionNeeded else JobPartiallyCompleted
  }

  ghost function Worst(results: seq<StepOutcome>): JobState {
    if results == [] then JobCompleted else Worse(Worst(results[..|results| - 1]), Single(results[|results| - 1]))
  }

  /** The three scans of `classify_job_outcome` amount to the worst single outcome. */
  lemma {:induction false} ClassifyIsWorst(results: seq<StepOutcome>)
    ensures ClassifyJobOutcome(results) == Worst(results)
  {
    if results != [] {
      var (before, last) := (results[..|results| - 1], results[|results| - 1]);
      ClassifyIsWorst(before);
      assert results == before + [last];
      ClassifySplits(before, [last]);
      assert [last][0] == last;
    }
  }

  /** The state of a job is the worse of the states of its parts, however it is cut. */
  lemma {:induction false} ClassifySplits(a: seq<StepOutcome>, b: seq<StepOutcome>)
    ensures ClassifyJobOutcome(a + b) == Worse(ClassifyJobOutcome(a), ClassifyJobOutcome(b))
  {
    var whole := a + b;
    forall i | 0 <= i < |a|
      ensures whole[i] == a[i]
    {
    }
    forall i | 0 <= i < |b|
      ensures whole[|a| + i] == b[i]
    {
    }
    assert forall i :: 0 <= i < |whole| ==> whole[i] == if i < |a| then a[i] else b[i - |a|];
  }

  /** The outcomes a trace reports, step by step. */
  function Outcomes(trace: seq<TraceEvent>): seq<StepOutcome> {
    if trace == [] then []
    else
      Outcomes(trace[..|trace| - 1])
      + (match trace[|trace| - 1]
         case StepSucceeded(_, stepType, _) => [StepOutcome(stepType, Succeeded)]
         case StepFailed(_, stepType, _) => [StepOutcome(stepType, Failed)]
         case StepUncertain(_, stepType, _) => [StepOutcome(stepType, Uncertain)]
         case _ => [])
  }

  lemma {:induction false} OutcomesAppend(a: seq<TraceEvent>, b: seq<TraceEvent>)
    ensures Outcomes(a + b) == Outcomes(a) + Outcomes(b)
  {
    if b == [] {
      assert a + b == a;
    } else {
      assert (a + b)[..|a + b| - 1] == a + b[..|b| - 1];
      OutcomesAppend(a, b[..|b| - 1]);
    }
  }

  ghost predicate AllSucceeded(results: seq<StepOutcome>) {
    forall i :: 0 <= i < |results| ==> results[i].status == Succeeded
  }

  /** Completed steps report success, one outcome each. */
  lemma {:induction false} CompletedOutcomes(steps: seq<PlanStep>, k: nat, body: seq<TraceEvent>)
    requires Completed(steps, k, body)
    ensures |Outcomes(body[..2 * k])| == k && AllSucceeded(Outcomes(body[..2 * k]))
  {
    if k > 0 {
      var (before, start, end) := (body[..2 * (k - 1)], body[2 * (k - 1)], body[2 * (k - 1) + 1]);
      CompletedOutcomes(steps, k - 1, body);
      TwoMore(body, k);
      OutcomesAppend(before, [start, end]);
      PairOutcome(start, end);
    }
  }

  lemma {:induction false} TwoMore(body: seq<TraceEvent>, k: nat)
    requires 0 < k && 2 * k <= |body|
    ensures body[..2 * k] == body[..2 * (k - 1)] + [body[2 * (k - 1)], body[2 * (k - 1) + 1]]
  {
  }

  lemma {:induction false} PairOutcome(start: TraceEvent, end: TraceEvent)
    requires start.StepStarted? && end.StepSucceeded?
    ensures Outcomes([start, end]) == [StepOutcome(end.stepType, Succeeded)]
  {
    assert [start, end][..1] == [start] && [start][..0] == [];
    assert Outcomes([start]) == [];
  }

  lemma {:induction false} TripleOutcome(rest: seq<TraceEvent>)
    requires |rest| == 3 && rest[0].StepStarted? && (rest[2].RuntimeFailed? || rest[2].RuntimeClosed?)
    requires rest[1].StepFailed? || rest[1].StepUncertain?
    ensures Outcomes(rest) == [StepOutcome(rest[1].stepType, if rest[1].StepFailed? then Failed else Uncertain)]
  {
    assert rest[..2][..1] == [rest[0]] && [rest[0]][..0] == [];
    assert Outcomes([rest[0]]) == [];
    assert Outcomes(rest[..2]) == [StepOutcome(rest[1].stepType, if rest[1].StepFailed? then Failed else Uncertain)];
  }

  /**
   The exit code and the job state of a trace, by how it ends: 0 exactly when every plan step
   succeeded, 3 exactly when it ends uncertain, 1 otherwise; and the state agrees except where the
   plan itself broke, which exits with 1 although every reported outcome is a success.
   */
  lemma {:induction false} ExitCodeAndState(steps: seq<PlanStep>, trace: seq<TraceEvent>, k: nat, ending: Ending)
    requires Trace(steps, trace, k, ending)
    ensures ExitCode(trace) == (match ending case AllDone => 0 case UncertainStep => 3 case _ => 1)
    ensures ClassifyJobOutcome(Outcomes(trace)) ==
            (match ending
             case AllDone => JobCompleted
             case BrokenPlan => JobCompleted
             case FailedStep => JobFailed
             case UncertainStep => if steps[k].stepType == Some("set_username") then JobManualInterventionNeeded
               else JobPartiallyCompleted)
  {
    ExitCodeOf(steps, trace, k, ending);
    StateOfEnd(steps, trace[1..], k);
    assert trace == [RuntimeStarted] + trace[1..];
    RestState(steps, k, trace[1..][2 * k..], ending);
  }

  /** The completed steps and the start do not show in the state. */
  lemma {:induction false} StateOfEnd(steps: seq<PlanStep>, body: seq<TraceEvent>, k: nat)
    requires Completed(steps, k, body)
    ensures ClassifyJobOutcome(Outcomes([RuntimeStarted] + body)) == ClassifyJobOutcome(Outcomes(body[2 * k..]))
  {
    CompletedOutcomes(steps, k, body);
    assert ClassifyJobOutcome(Outcomes(body[..2 * k])) == JobCompleted;
    StartDoesNotShow(body);
    SplitState(body[..2 * k], body[2 * k..]);
    assert body == body[..2 * k] + body[2 * k..];
  }

  lemma {:induction false} StartDoesNotShow(body: seq<TraceEvent>)
    ensures Outcomes([RuntimeStarted] + body) == Outcomes(body)
  {
    assert [RuntimeStarted][..0] == [] && Outcomes([RuntimeStarted]) == [];
    OutcomesAppend([RuntimeStarted], body);
  }

  lemma {:induction false} SplitState(a: seq<TraceEvent>, b: seq<TraceEvent>)
    ensures ClassifyJobOutcome(Outcomes(a + b))
            == Worse(ClassifyJobOutcome(Outcomes(a)), ClassifyJobOutcome(Outcomes(b)))
  {
    OutcomesAppend(a, b);
    ClassifySplits(Outcomes(a), Outcomes(b));
  }

  lemma {:induction false} RestState(steps: seq<PlanStep>, k: nat, rest: seq<TraceEvent>, ending: Ending)
    requires k <= |steps| && EndsAs(steps, k, rest, ending)
    ensures ClassifyJobOutcome(Outcomes(rest)) ==
            (match ending
             case AllDone => JobCompleted
             case BrokenPlan => JobCompleted
             case FailedStep => JobFailed
             case UncertainStep => if steps[k].stepType == Some("set_username") then JobManualInterventionNeeded
               else JobPartiallyCompleted)
  {
    if ending.FailedStep? || ending.UncertainStep? {
      TripleOutcome(rest);
      assert Outcomes(rest)[0].stepType == steps[k].stepType.value;
    } else {
      assert rest[..0] == [] && Outcomes(rest) == [];
    }
  }

  lemma {:induction false} ExitCodeOf(steps: seq<PlanStep>, trace: seq<TraceEvent>, k: nat, ending: Ending)
    requires Trace(steps, trace, k, ending)
    ensures ExitCode(trace) == (match ending case AllDone => 0 case UncertainStep => 3 case _ => 1)
  {
    var body := trace[1..];
    var rest := body[2 * k..];
    forall i | 0 <= i < 1 + 2 * k
      ensures !trace[i].RuntimeFailed? && !trace[i].StepUncertain?
    {
      if i > 0 {
        var j := (i - 1) / 2;
        assert trace[i] == body[i - 1] && (i - 1 == 2 * j || i - 1 == 2 * j + 1);
      }
    }
    assert forall i :: 0 <= i < |rest| ==> rest[i] == trace[1 + 2 * k + i];
    assert forall i :: 1 + 2 * k <= i < |trace| ==> trace[i] == rest[i - 1 - 2 * k];
  }

  /** A runtime that failed at once exits with 1, and its empty list of outcomes counts as completed. */
  lemma {:induction false} FailedAtOnceExits(trace: seq<TraceEvent>)
    requires FailedAtOnce(trace)
    ensures ExitCode(trace) == 1 && Outcomes(trace) == [] && ClassifyJobOutcome(Outcomes(trace)) == JobCompleted
  {
    var before := trace[..|trace| - 1];
    assert before != [] ==> before[..0] == [];
    assert Outcomes(before) == [];
  }
}
