/** `MockProfileExecutionAdapter.execute` of backend/app/adapters/profile_execution.py. */
module ProfileMock {
  import opened Wrappers
  import opened Sequences
  import opened Json
  import opened ProfileTrace
  import opened ProfileTranscripts
  import opened ProfileExecution

  datatype MockOptions = MockOptions(
    failStep: Option<string>,
    crashStep: Option<string>,
    usernameMismatch: bool,
    failPinnedChannel: Option<string>)

  /** How the generator ends: exhausted, cut off by `SystemExit(2)`, or by an error in the plan. */
  datatype MockEnd = Exhausted | SystemExit | PlanError

  datatype MockRun = MockRun(trace: seq<TraceEvent>, end: MockEnd)

  const SYSTEM_EXIT_CODE := 2

  /** The channel a pinned step refers to; a reference that is no text has no `strip`. */
  function ChannelRef(payload: Dict): Option<string> {
    var value := Get(payload, "pinned_channel_ref");
    if !Truthy(value) then Some("")
    else if value.JString? then Some(TrimRight(TrimLeft(value.s, IsSpace), IsSpace))
    else None
  }

  /** What follows a step's start: its events, whether the generator goes on, or how it ends. */
  function MockStep(options: MockOptions, key: string, stepType: string, payload: Dict): (seq<TraceEvent>,
      Option<MockEnd>) {
    if options.crashStep == Some(stepType) then ([], Some(SystemExit))
    else if options.failStep == Some(stepType) then
      ([StepFailed(key, stepType, "mock_step_failed"), RuntimeFailed("")], Some(Exhausted))
    else if stepType == "set_username" && options.usernameMismatch then
      ([StepUncertain(key, stepType, "username_verify_mismatch"), RuntimeClosed], Some(Exhausted))
    else if stepType == "set_pinned_channel" && ChannelRef(payload).None? then ([], Some(PlanError))
    else if stepType == "set_pinned_channel" && options.failPinnedChannel.Some? && options.failPinnedChannel.value != ""
         && ChannelRef(payload) == options.failPinnedChannel then
      ([StepFailed(key, stepType, "pinned_channel_not_found"), RuntimeFailed("")], Some(Exhausted))
    else ([StepSucceeded(key, stepType, Plain)], None)
  }

  function MockSteps(options: MockOptions, steps: seq<PlanStep>): MockRun {
    if steps == [] then MockRun([RuntimeClosed], Exhausted)
    else if steps[0].payload.None? || !Named(steps[0]) then MockRun([], PlanError)
    else
      var (key, stepType) := (steps[0].key.value, steps[0].stepType.value);
      var (events, end) := MockStep(options, key, stepType, steps[0].payload.value);
      var rest := if end.Some? then MockRun([], end.value) else MockSteps(options, steps[1..]);
      MockRun([StepStarted(key, stepType)] + events + rest.trace, rest.end)
  }

  function MockExecute(options: MockOptions, steps: seq<PlanStep>): MockRun {
    var run := MockSteps(options, steps);
    MockRun([RuntimeStarted] + run.trace, run.end)
  }

  method RunMock(options: MockOptions, steps: seq<PlanStep>) returns (trace: seq<TraceEvent>, end: MockEnd)
    ensures MockRun(trace, end) == MockExecute(options, steps)
  {
    trace := [RuntimeStarted];
    for i := 0 to |steps|
      invariant var rest := MockSteps(options, steps[i..]);
                MockRun(trace + rest.trace, rest.end) == MockExecute(options, steps)
    {
      assert steps[i..][0] == steps[i] && steps[i..][1..] == steps[i + 1..];
      if steps[i].payload.None? || !Named(steps[i]) {
        return trace, PlanError;
      }
      var (key, stepType) := (steps[i].key.value, steps[i].stepType.value);
      var (events, stopped) := MockStep(options, key, stepType, steps[i].payload.value);
      ghost var rest := if stopped.Some? then [] else MockSteps(options, steps[i + 1..]).trace;
      Joined(trace, [StepStarted(key, stepType)], events, rest);
      trace := trace + [StepStarted(key, stepType)] + events;
      if stopped.Some? {
        return trace, stopped.value;
      }
    }
    return trace + [RuntimeClosed], Exhausted;
  }

  // ----- what the options and the plan decide

  /** The text under "pinned_channel_ref", if it has any, is the reference with white space around it. */
  ghost predicate Refers(payload: Dict, ref: string) {
    exists text, before, after ::
      OrAt(payload, "pinned_channel_ref", JString("")) == JString(text) && IsStripped(text, before, ref, after)
  }

  lemma {:induction false} ChannelRefExactly(payload: Dict, ref: string)
    ensures ChannelRef(payload) == Some(ref) <==> Refers(payload, ref)
    ensures ChannelRef(payload).None? <==> !OrAt(payload, "pinned_channel_ref", JString("")).JString?
  {
    var value := OrAt(payload, "pinned_channel_ref", JString(""));
    OrIsOr(payload, "pinned_channel_ref", JString(""));
    if value.JString? {
      var before, after := StripSplits(value.s);
      assert ref == TrimRight(TrimLeft(value.s, IsSpace), IsSpace) ==> IsStripped(value.s, before, ref, after);
      if Refers(payload, ref) {
        var text, b, a :| value == JString(text) && IsStripped(text, b, ref, a);
        StripExactly(text, b, ref, a);
      }
    }
  }

  /** The mock dies at the step. */
  ghost predicate Crashes(options: MockOptions, step: PlanStep) {
    Named(step) && step.payload.Some? && options.crashStep == step.stepType
  }

  /** The channel the mock is told to miss; an empty name tells nothing. */
  ghost predicate MissesChannel(options: MockOptions, payload: Dict) {
    options.failPinnedChannel.Some? && options.failPinnedChannel.value != ""
    && Refers(payload, options.failPinnedChannel.value)
  }

  lemma {:induction false} MissesExactly(options: MockOptions, payload: Dict)
    ensures MissesChannel(options, payload) <==>
            options.failPinnedChannel.Some? && options.failPinnedChannel.value != ""
            && ChannelRef(payload) == options.failPinnedChannel
  {
    if options.failPinnedChannel.Some? {
      ChannelRefExactly(payload, options.failPinnedChannel.value);
    }
  }

  /** The step ends the run as failed or uncertain. */
  ghost predicate Stops(options: MockOptions, step: PlanStep) {
    && Named(step) && step.payload.Some? && !Crashes(options, step)
    && (|| options.failStep == step.stepType
        || (step.stepType.value == "set_username" && options.usernameMismatch)
        || (step.stepType.value == "set_pinned_channel" && MissesChannel(options, step.payload.value)))
  }

  /** The plan is broken at the step: a part is missing, or a channel reference is no text. */
  ghost predicate Breaks(options: MockOptions, step: PlanStep) {
    || !Named(step) || step.payload.None?
    || (!Crashes(options, step) && !Stops(options, step) && step.stepType.value == "set_pinned_channel"
        && !OrAt(step.payload.value, "pinned_channel_ref", JString("")).JString?)
  }

  ghost predicate Passes(options: MockOptions, step: PlanStep) {
    !Crashes(options, step) && !Stops(options, step) && !Breaks(options, step)
  }

  /** What the mock says of the step it does not pass. */
  ghost function LastEvents(options: MockOptions, step: PlanStep): seq<TraceEvent> {
    if !Named(step) || step.payload.None? then []
    else
      var (key, stepType) := (step.key.value, step.stepType.value);
      [StepStarted(key, stepType)] +
      (if Crashes(options, step) || Breaks(options, step) then []
       else if options.failStep == Some(stepType) then
         [StepFailed(key, stepType, "mock_step_failed"), RuntimeFailed("")]
       else if stepType == "set_username" then
         [StepUncertain(key, stepType, "username_verify_mismatch"), RuntimeClosed]
       else [StepFailed(key, stepType, "pinned_channel_not_found"), RuntimeFailed("")])
  }

  lemma {:induction false} MockStepEnds(options: MockOptions, step: PlanStep)
    requires Named(step) && step.payload.Some?
    ensures var (key, stepType) := (step.key.value, step.stepType.value);
            var (events, end) := MockStep(options, key, stepType, step.payload.value);
            && (end == Some(SystemExit) <==> Crashes(options, step))
            && (end == Some(Exhausted) <==> Stops(options, step))
            && (end == Some(PlanError) <==> Breaks(options, step))
            && (Passes(options, step) ==> events == [StepSucceeded(key, stepType, Plain)])
            && (!Passes(options, step) ==> [StepStarted(key, stepType)] + events == LastEvents(options, step))
  {
    MissesExactly(options, step.payload.value);
    ChannelRefExactly(step.payload.value, "");
  }

  /** A step that started and succeeded, for each of the steps. */
  ghost function Passed(steps: seq<PlanStep>): seq<TraceEvent> {
    if steps == [] then []
    else if !Named(steps[0]) then Passed(steps[1..])
    else
      var (key, stepType) := (steps[0].key.value, steps[0].stepType.value);
      [StepStarted(key, stepType), StepSucceeded(key, stepType, Plain)] + Passed(steps[1..])
  }

  /** The events of a mock: those of the steps it passes, and what it says of the first that it does not. */
  lemma {:induction false} MockRunExactly(options: MockOptions, steps: seq<PlanStep>, k: nat)
    requires k <= |steps| && forall i :: 0 <= i < k ==> Passes(options, steps[i])
    requires k < |steps| ==> !Passes(options, steps[k])
    ensures MockSteps(options, steps).trace
            == Passed(steps[..k]) + if k == |steps| then [RuntimeClosed] else LastEvents(options, steps[k])
    decreases k
  {
    if k > 0 {
      var rest := steps[1..];
      MockStepEnds(options, steps[0]);
      MockRunExactly(options, rest, k - 1);
      assert steps[..k][1..] == rest[..k - 1];
    } else if steps != [] && Named(steps[0]) && steps[0].payload.Some? {
      MockStepEnds(options, steps[0]);
    }
  }

  /** The first step that does not simply succeed, if there is one, is of the kind. */
  ghost predicate FirstIs(options: MockOptions, steps: seq<PlanStep>, kind: (MockOptions, PlanStep) -> bool) {
    exists k ::
      && 0 <= k < |steps| && kind(options, steps[k])
      && forall i :: 0 <= i < k
           ==> Passes(options, steps[i])
  }

  lemma {:induction false} FirstIsHead(options: MockOptions, steps: seq<PlanStep>,
                                       kind: (MockOptions, PlanStep) -> bool)
    requires steps != []
    ensures kind(options, steps[0]) ==> FirstIs(options, steps, kind)
    ensures !Passes(options, steps[0]) ==>
              (FirstIs(options, steps, kind) ==> kind(options, steps[0]))
    ensures Passes(options, steps[0])
            && !kind(options, steps[0]) ==>
              (FirstIs(options, steps, kind) <==> FirstIs(options, steps[1..], kind))
  {
    if Passes(options, steps[0])
      && !kind(options, steps[0]) {
      if k :| && 0 <= k < |steps[1..]| && kind(options, steps[1..][k])
              && forall i :: 0 <= i < k ==>
                   Passes(options, steps[1..][i]) {
        assert steps[1..][k] == steps[k + 1];
        forall i | 0 <= i < k + 1
          ensures Passes(options, steps[i])
        {
          if i > 0 {
            assert steps[1..][i - 1] == steps[i];
          }
        }
      }
      if k :| && 0 <= k < |steps| && kind(options, steps[k])
              && forall i :: 0 <= i < k
                   ==> Passes(options, steps[i]) {
        assert steps[1..][k - 1] == steps[k];
        assert forall i :: 0 <= i < k - 1 ==> steps[1..][i] == steps[i + 1];
      }
    }
  }

  /** The options and the plan decide how the generator ends. */
  lemma {:induction false} MockEndExactly(options: MockOptions, steps: seq<PlanStep>)
    ensures MockExecute(options, steps).end == SystemExit <==> FirstIs(options, steps, Crashes)
    ensures MockExecute(options, steps).end == PlanError <==> FirstIs(options, steps, Breaks)
    decreases |steps|
  {
    if steps != [] {
      FirstIsHead(options, steps, Crashes);
      FirstIsHead(options, steps, Breaks);
      if Named(steps[0]) && steps[0].payload.Some? {
        MockStepEnds(options, steps[0]);
      }
      if Passes(options, steps[0]) {
        MockEndExactly(options, steps[1..]);
      }
    }
  }

  lemma {:induction false} MockStepsFollowGrammar(options: MockOptions, steps: seq<PlanStep>)
    returns (k: nat, ending: Ending)
    requires MockSteps(options, steps).end == Exhausted
    ensures Body(steps, MockSteps(options, steps).trace, k, ending) && ending != BrokenPlan
    decreases |steps|
  {
    var body := MockSteps(options, steps).trace;
    k := 0;
    assert body[0..] == body;
    if steps == [] {
      ending := AllDone;
    } else {
      var (key, stepType) := (steps[0].key.value, steps[0].stepType.value);
      var (events, end) := MockStep(options, key, stepType, steps[0].payload.value);
      if end.Some? {
        ending := if events[0].StepFailed? then FailedStep else UncertainStep;
      } else {
        k, ending := MockStepsFollowGrammar(options, steps[1..]);
        BodyExtends(steps, [StepStarted(key, stepType)] + events, MockSteps(options, steps[1..]).trace, k, ending);
        k := k + 1;
      }
    }
  }

  /**
   The mock keeps to the grammar of the real adapter exactly when the first step that does not simply
   succeed, if there is one, is neither one it is made to crash at nor a broken one.
   */
  lemma {:induction false} MockFollowsGrammar(options: MockOptions, steps: seq<PlanStep>)
    ensures !FirstIs(options, steps, Crashes) && !FirstIs(options, steps, Breaks)
            <==> exists k, ending :: Trace(steps, MockExecute(options, steps).trace, k, ending)
  {
    var (trace, body) := (MockExecute(options, steps).trace, MockSteps(options, steps).trace);
    assert trace[1..] == body;
    MockEndExactly(options, steps);
    if MockSteps(options, steps).end == Exhausted {
      var k, ending := MockStepsFollowGrammar(options, steps);
      assert Trace(steps, trace, k, ending);
    } else {
      MockBreaksOff(options, steps);
      forall k: nat, ending
        ensures !Trace(steps, trace, k, ending)
      {
        UnendedIsNoTrace(steps, trace, k, ending);
      }
    }
  }

  lemma {:induction false} UnendedIsNoTrace(steps: seq<PlanStep>, trace: seq<TraceEvent>, k: nat, ending: Ending)
    requires trace != [] && forall i :: 0 <= i < |trace[1..]|
                              ==> !trace[1..][i].RuntimeClosed? && !trace[1..][i].RuntimeFailed?
    ensures !Trace(steps, trace, k, ending)
  {
    var body := trace[1..];
    if 2 * k <= |body| {
      var rest := body[2 * k..];
      assert rest != [] ==> rest[|rest| - 1] == body[|body| - 1];
    }
  }

  /** A mock that does not run to its end emits nothing that closes or fails the runtime. */
  lemma {:induction false} MockBreaksOff(options: MockOptions, steps: seq<PlanStep>)
    requires MockSteps(options, steps).end != Exhausted
    ensures var body := MockSteps(options, steps).trace;
            forall i :: 0 <= i < |body| ==> !body[i].RuntimeClosed? && !body[i].RuntimeFailed?
    decreases |steps|
  {
    if steps[0].payload.Some? && Named(steps[0]) {
      var (events, end) := MockStep(options, steps[0].key.value, steps[0].stepType.value, steps[0].payload.value);
      if end.None? {
        MockBreaksOff(options, steps[1..]);
      }
    }
  }

  /** Without a step to crash at, and with every part of the plan readable, the mock keeps to the grammar. */
  lemma {:induction false} PlainMockFollowsGrammar(options: MockOptions, steps: seq<PlanStep>)
    requires forall i :: 0 <= i < |steps| ==> !Crashes(options, steps[i]) && !Breaks(options, steps[i])
    ensures exists k, ending :: Trace(steps, MockExecute(options, steps).trace, k, ending)
  {
    MockFollowsGrammar(options, steps);
  }

  /**
   The job of a mock: the exit code is 2 exactly when it crashes; else, unless the plan is broken, in which
   case the job ends with the error, it is that of the trace.
   */
  method RunMockJob(options: MockOptions, steps: seq<PlanStep>) returns (code: Option<int>)
    ensures code.None? <==> FirstIs(options, steps, Breaks)
    ensures code == Some(2) <==> FirstIs(options, steps, Crashes)
    ensures code.Some? && code.value != 2 ==> code.value == ExitCode(MockExecute(options, steps).trace)
  {
    MockEndExactly(options, steps);
    var trace, end := RunMock(options, steps);
    if end == PlanError {
      return None;
    }
    var exit := RunJob(trace, if end == SystemExit then Some(SYSTEM_EXIT_CODE) else None);
    return Some(exit);
  }

  /** A mock that is made to crash dies with a step started and neither closes nor fails the runtime. */
  lemma {:induction false} MockCrash(options: MockOptions, steps: seq<PlanStep>) returns (k: nat)
    requires MockSteps(options, steps).end == SystemExit
    ensures k < |steps| && steps[k].stepType == options.crashStep
    ensures var body := MockSteps(options, steps).trace;
            |body| == 2 * k + 1 && Completed(steps, k, body) && Starts(body[2 * k], steps[k])
    decreases |steps|
  {
    var (key, stepType) := (steps[0].key.value, steps[0].stepType.value);
    var (events, end) := MockStep(options, key, stepType, steps[0].payload.value);
    if end.Some? {
      assert events == [] && MockSteps(options, steps).trace == [StepStarted(key, stepType)];
      k := 0;
    } else {
      var before := MockCrash(options, steps[1..]);
      var (head, rest) := ([StepStarted(key, stepType)] + events, MockSteps(options, steps[1..]).trace);
      CompletedExtends(steps, head, rest, before);
      k := before + 1;
      assert (head + rest)[2 * k] == (head + rest)[2 * k..][0] == rest[2 * before..][0];
    }
  }
}
