/**
 The profile audio of a run: which file `addProfileAudio` names and which message the clean-up
 deletes; and what the exit code of a run says about its plan.
 */
module ProfileAudio {
  import opened Wrappers
  import opened Json
  import opened TdlibClient
  import opened ProfileQueries
  import opened ProfileTrace
  import opened ProfileExecution
  import opened ProfileInvariants

  /** The latest upload that the events announce: its file, and the message it travelled in. */
  function LatestUpload(events: seq<TraceEvent>): Option<Upload> {
    if events == [] then None
    else
      var last := events[|events| - 1];
      if last.StepSucceeded? && last.payload.Uploaded? then Some(last.payload.upload)
        else LatestUpload(events[..|events| - 1])
  }

  const UPLOAD := "upload_profile_audio"

  /** The plan has an upload before step `i`. */
  predicate UploadsBefore(steps: seq<PlanStep>, i: nat) {
    exists j :: 0 <= j < i && j < |steps| && steps[j].stepType == Some(UPLOAD)
  }

  lemma {:induction false} UploadsBeforeRest(steps: seq<PlanStep>, i: nat)
    requires i > 0 && steps != []
    ensures UploadsBefore(steps, i) <==> steps[0].stepType == Some(UPLOAD) || UploadsBefore(steps[1..], i - 1)
  {
    if j :| 0 <= j < i && j < |steps| && steps[j].stepType == Some(UPLOAD) && j > 0 {
      assert steps[1..][j - 1] == steps[j];
    }
  }

  /** The audio record of an upload. */
  function RecordOf(upload: Option<Upload>): Audio {
    if upload.None? then NO_AUDIO else Audio(Some(upload.value.fileId), upload)
  }

  /** The audio record is that of the latest upload the events announce. */
  ghost predicate Tracks(audio: Audio, events: seq<TraceEvent>) {
    audio == RecordOf(LatestUpload(events))
  }

  /** A step that goes on announces an upload and records it, if it is one, and else leaves the record alone. */
  ghost predicate KeepsTrack(run: StepRun, audio: Audio, stepType: string) {
    !run.result.stop ==>
      && |run.result.events| == 1 && run.result.events[0].StepSucceeded?
      && (run.result.events[0].payload.Uploaded? <==> stepType == UPLOAD)
      && run.audio == (if run.result.events[0].payload.Uploaded?
                       then RecordOf(Some(run.result.events[0].payload.upload)) else audio)
  }

  ghost predicate EndKeepsTrack(end: Step<StepRun>, audio: Audio, stepType: string) {
    end.Done? ==> KeepsTrack(end.value, audio, stepType)
  }

  lemma {:induction false} StoryKeepsTrack(posted: Step<Dict>, audio: Audio, key: string, stepType: string)
    requires stepType != UPLOAD
    ensures EndKeepsTrack(StoryRun(posted, audio, key, stepType), audio, stepType)
  {
  }

  lemma {:induction false} UploadKeepsTrack(uploaded: Step<Upload>, audio: Audio, key: string)
    ensures EndKeepsTrack(UploadRun(uploaded, key, UPLOAD), audio, UPLOAD)
  {
  }

  lemma {:induction false} PinnedKeepsTrack(pinned: Step<Option<string>>, audio: Audio, key: string, stepType: string)
    requires stepType != UPLOAD
    ensures EndKeepsTrack(PinnedRun(pinned, audio, key, stepType), audio, stepType)
  {
  }

  lemma {:induction false} UsernameKeepsTrack(env: Env, payload: Dict, verified: Step<Dict>, audio: Audio, key: string,
        stepType: string)
    requires stepType != UPLOAD
    ensures EndKeepsTrack(UsernameRun(env, payload, verified, audio, key, stepType), audio, stepType)
  {
  }

  lemma {:induction false} QueryKeepsTrack(env: Env, answered: Step<Dict>, key: string, stepType: string,
        payload: Dict, audio: Audio)
    requires stepType != UPLOAD
    ensures EndKeepsTrack(QueryRun(env, answered, key, stepType, payload, audio), audio, stepType)
  {
    if answered.Done? && stepType == "set_username" {
      UsernameKeepsTrack(env, payload, CheckedQuery(env, answered.session, map["@type" := JString("getMe")]), audio,
                         key, stepType);
    }
  }

  lemma {:induction false} InnerKeepsTrack(env: Env, s: Session, key: string, stepType: string, payload: Dict,
                                           audio: Audio)
    ensures EndKeepsTrack(ExecuteStepInner(env, s, key, stepType, payload, audio), audio, stepType)
  {
    if stepType in STORY_TYPES {
      StoryKeepsTrack(PostStory(env, s, stepType, payload), audio, key, stepType);
    } else if stepType == UPLOAD {
      UploadKeepsTrack(UploadAudio(env, s, payload), audio, key);
    } else if stepType == "set_pinned_channel" {
      PinnedKeepsTrack(SetPinnedChannel(env, s, payload), audio, key, stepType);
    } else {
      QueryKeepsTrack(env, PlainQuery(env, s, stepType, payload, audio), key, stepType, payload, audio);
    }
  }

  lemma {:induction false} StepKeepsTrack(env: Env, s: Session, key: string, stepType: string, payload: Option<Dict>,
        audio: Audio)
    ensures KeepsTrack(ExecuteStep(env, s, key, stepType, payload, audio), audio, stepType)
  {
    if payload.Some? {
      InnerKeepsTrack(env, s, key, stepType, payload.value, audio);
      CaughtKeepsTrack(ExecuteStepInner(env, s, key, stepType, payload.value, audio), audio, key, stepType);
    }
  }

  lemma {:induction false} CaughtKeepsTrack(end: Step<StepRun>, audio: Audio, key: string, stepType: string)
    requires EndKeepsTrack(end, audio, stepType)
    ensures KeepsTrack(Caught(end, audio, key, stepType), audio, stepType)
  {
  }

  ghost predicate KeepsTracks(exec: Executor) {
    forall s: Session, step: PlanStep, audio: Audio ::
      Named(step) ==> KeepsTrack(exec(s, step, audio), audio, step.stepType.value)
  }

  lemma {:induction false} ExecutorKeepsTracks(env: Env)
    ensures KeepsTracks(ExecutorOf(env))
  {
    forall s: Session, step: PlanStep, audio: Audio | Named(step)
      ensures KeepsTrack(ExecutorOf(env)(s, step, audio), audio, step.stepType.value)
    {
      StepKeepsTrack(env, s, step.key.value, step.stepType.value, step.payload, audio);
    }
  }

  lemma {:induction false} TrackedFurther(audio: Audio, events: seq<TraceEvent>, run: StepRun, step: PlanStep)
    requires Named(step) && !run.result.stop && KeepsTrack(run, audio, step.stepType.value) && Tracks(audio, events)
    ensures Tracks(run.audio, events + ([Started(step)] + run.result.events))
    ensures LatestUpload(events + ([Started(step)] + run.result.events)).Some?
            <==> LatestUpload(events).Some? || step.stepType.value == UPLOAD
  {
    var (started, end) := (events + [Started(step)], run.result.events[0]);
    assert started[..|events|] == events;
    assert LatestUpload(started) == LatestUpload(events);
    var all := started + [end];
    assert all[..|started|] == started;
    assert events + ([Started(step)] + run.result.events) == all;
  }

  /**
   When step `i` begins, the record holds the latest upload announced by the events before it, and there
   is one exactly when the plan has an upload before the step.
   */
  lemma {:induction false} RecordIsLatestUpload(exec: Executor, s: Session, audio: Audio, steps: seq<PlanStep>, i: nat,
        earlier: seq<TraceEvent>)
    requires KeepsTracks(exec) && StateAt(exec, s, audio, steps, i).Some? && Tracks(audio, earlier)
    ensures i <= |steps| && 2 * i <= |ExecuteSteps(exec, s, audio, steps)|
    ensures Tracks(StateAt(exec, s, audio, steps, i).value.1, earlier + ExecuteSteps(exec, s, audio, steps)[..2 * i])
    ensures LatestUpload(earlier + ExecuteSteps(exec, s, audio, steps)[..2 * i]).Some?
            <==> LatestUpload(earlier).Some? || UploadsBefore(steps, i)
    decreases i
  {
    if i == 0 {
      assert earlier + ExecuteSteps(exec, s, audio, steps)[..0] == earlier;
    } else {
      var run := exec(s, steps[0], audio);
      assert KeepsTrack(run, audio, steps[0].stepType.value);
      var head := [Started(steps[0])] + run.result.events;
      TrackedFurther(audio, earlier, run, steps[0]);
      RecordIsLatestUpload(exec, run.session, run.audio, steps[1..], i - 1, earlier + head);
      UploadsBeforeRest(steps, i);
      PrefixSplits(earlier, head, ExecuteSteps(exec, run.session, run.audio, steps[1..]), i);
    }
  }

  lemma {:induction false} PrefixSplits(earlier: seq<TraceEvent>, head: seq<TraceEvent>, rest: seq<TraceEvent>, i: nat)
    requires i > 0 && |head| == 2 && 2 * (i - 1) <= |rest|
    ensures earlier + (head + rest)[..2 * i] == earlier + head + rest[..2 * (i - 1)]
  {
  }

  // ----- what an `add_profile_audio` step sends

  lemma {:induction false} QuerySends(env: Env, s: Session, query: Dict)
    ensures CheckedQuery(env, s, query).session.sent == s.sent + [WithToken(env, s, query)]
  {
    SendsOne(env, s, query);
  }

  ghost function AddsFile(fileId: int): Dict {
    map["@type" := JString("addProfileAudio"), "file_id" := JInt(fileId)]
  }

  ghost function Deletes(chat: int, message: int): Dict {
    map["@type" := JString("deleteMessages"), "chat_id" := JInt(chat), "message_ids" := JList([JInt(message)]),
        "revoke" := JBool(true)]
  }

  /** The file an `add_profile_audio` step is to add: the run's own upload, else the plan's file id. */
  ghost function WantedFile(env: Env, payload: Dict, latest: Option<Upload>): Option<int> {
    if latest.Some? then Some(latest.value.fileId)
    else if Get(payload, "telegram_file_id") == JNull || ToInt(env, payload["telegram_file_id"]).Raised? then None
    else Some(ToInt(env, payload["telegram_file_id"]).value)
  }

  /** The clean-up of the latest upload: none, or the deletion of exactly the message it travelled in. */
  ghost function CleanupQuery(env: Env, latest: Option<Upload>): Option<Dict> {
    if latest.None? || latest.value.messageId == JNull || ToInt(env, latest.value.messageId).Raised? then None
    else Some(Deletes(latest.value.chatId, ToInt(env, latest.value.messageId).value))
  }

  /**
   What an add step does, given the latest upload of the run.  It asks to add the wanted file; if that
   is answered without an error, it deletes the message the latest upload travelled in, and succeeds,
   reporting the file of that upload.  Without a wanted file it sends nothing and fails.
   */
  ghost predicate AddsWanted(env: Env, s: Session, key: string, payload: Dict, latest: Option<Upload>, run: StepRun) {
    var wanted := WantedFile(env, payload, latest);
    if wanted.None? then
      run.result == Failing(key, "add_profile_audio", "tdlib_profile_step_failed") && run.session.sent == s.sent
    else
      var added := CheckedQuery(env, s, AddsFile(wanted.value));
      && added.session.sent == s.sent + [WithToken(env, s, AddsFile(wanted.value))]
      && if added.Raise? then run.result.stop && run.session == added.session
         else
           && run.result == Succeeding(key, "add_profile_audio", AudioAdded(RecordOf(latest).fileId))
           && run.session.sent == added.session.sent
              + (var cleanup := CleanupQuery(env, latest);
                 if cleanup.None? then [] else [WithToken(env, added.session, cleanup.value)])
  }

  lemma {:induction false} CleanupSends(env: Env, s: Session, latest: Option<Upload>)
    ensures Cleanup(env, s, latest).sent
            == s.sent + (var cleanup := CleanupQuery(env, latest);
                         if cleanup.None? then [] else [WithToken(env, s, cleanup.value)])
  {
    var cleanup := CleanupQuery(env, latest);
    if cleanup.Some? {
      QuerySends(env, s, cleanup.value);
    }
  }

  lemma {:induction false} AddAsksForWanted(env: Env, payload: Dict, latest: Option<Upload>)
    ensures var wanted := WantedFile(env, payload, latest);
            var query := MapStepToQuery(env, "add_profile_audio",
                                        WithUploadedAudio("add_profile_audio", payload, RecordOf(latest)));
            && (query.Returned? <==> wanted.Some?)
            && (if wanted.Some? then query == Returned(AddsFile(wanted.value)) else !query.exn.QueryFailed?)
            && (query.Raised? ==> !query.exn.StoryUncertain?)
  {
  }

  lemma {:induction false} AddStepAddsWanted(env: Env, s: Session, key: string, payload: Dict, latest: Option<Upload>)
    ensures AddsWanted(env, s, key, payload, latest,
                       ExecuteStep(env, s, key, "add_profile_audio", Some(payload), RecordOf(latest)))
  {
    var wanted := WantedFile(env, payload, latest);
    AddAsksForWanted(env, payload, latest);
    if wanted.Some? {
      QuerySends(env, s, AddsFile(wanted.value));
      var added := CheckedQuery(env, s, AddsFile(wanted.value));
      if added.Done? {
        CleanupSends(env, added.session, latest);
      }
    }
  }

  // ----- the events and the queries of one step within a run

  lemma {:induction false} SuffixSplits(head: seq<TraceEvent>, rest: seq<TraceEvent>, i: nat)
    requires i > 0 && |head| == 2 && 2 * (i - 1) < |rest|
    ensures (head + rest)[2 * i] == rest[2 * (i - 1)] && (head + rest)[2 * i + 1..] == rest[2 * (i - 1) + 1..]
  {
  }

  lemma {:induction false} HeadSplits(first: TraceEvent, events: seq<TraceEvent>, rest: seq<TraceEvent>)
    ensures ([first] + events + rest)[0] == first && ([first] + events + rest)[1..][..|events|] == events
  {
    assert ([first] + events + rest)[1..] == events + rest;
  }

  lemma {:induction false} StepWithinRun(exec: Executor, s: Session, audio: Audio, steps: seq<PlanStep>, i: nat)
    requires KeepsTracks(exec) && SendsMore(exec) && StateAt(exec, s, audio, steps, i).Some? && i < |steps|
             && Named(steps[i])
    ensures var (si, ai) := StateAt(exec, s, audio, steps, i).value;
            var (run, all, end) := (exec(si, steps[i], ai), ExecuteSteps(exec, s, audio, steps),
                                    SessionAfter(exec, s, audio, steps));
            && 2 * i + 1 + |run.result.events| <= |all| && all[2 * i] == Started(steps[i])
            && all[2 * i + 1..][..|run.result.events|] == run.result.events
            && s.sent <= si.sent <= run.session.sent <= end.sent
    decreases i
  {
    var run := exec(s, steps[0], audio);
    assert KeepsTrack(run, audio, steps[0].stepType.value);
    var head := [Started(steps[0])] + run.result.events;
    if i == 0 {
      if !run.result.stop {
        SessionSendsMore(exec, run.session, run.audio, steps[1..]);
      }
      HeadSplits(Started(steps[0]), run.result.events,
                 if run.result.stop then [] else ExecuteSteps(exec, run.session, run.audio, steps[1..]));
    } else {
      StepWithinRun(exec, run.session, run.audio, steps[1..], i - 1);
      var rest := ExecuteSteps(exec, run.session, run.audio, steps[1..]);
      assert ExecuteSteps(exec, s, audio, steps) == head + rest;
      SuffixSplits(head, rest, i);
      assert steps[1..][i - 1] == steps[i];
    }
  }

  /**
   In every run, an add step at position `i` that is reached does what `AddsWanted` says for the latest
   upload announced before it in the trace; its events are in the trace, and its queries are among
   those the client has sent when the run is over.
   */
  lemma {:induction false} AddUsesLatestUpload(env: Env, start: Step<()>, steps: seq<PlanStep>, i: nat, key: string,
      payload: Dict)
    requires start.Done? && i < |steps| && steps[i] == PlanStep(Some(key), Some("add_profile_audio"), Some(payload))
    ensures var (exec, trace) := (ExecutorOf(env), Execute(ExecutorOf(env), start, Some(steps)));
            var reached := StateAt(exec, start.session, NO_AUDIO, steps, i);
            reached.Some? ==>
              var (s, run) := (reached.value.0, exec(reached.value.0, steps[i], reached.value.1));
              && 2 * i + 1 < |trace|
              && AddsWanted(env, s, key, payload, LatestUpload(trace[..1 + 2 * i]), run)
              && (LatestUpload(trace[..1 + 2 * i]).Some? <==> UploadsBefore(steps, i))
              && run.result.events <= trace[2 * i + 2..]
              && s.sent <= run.session.sent <= FinalSession(exec, start, Some(steps)).sent
  {
    var exec := ExecutorOf(env);
    var trace := Execute(exec, start, Some(steps));
    if StateAt(exec, start.session, NO_AUDIO, steps, i).Some? {
      var (s, audio) := StateAt(exec, start.session, NO_AUDIO, steps, i).value;
      var all := ExecuteSteps(exec, start.session, NO_AUDIO, steps);
      NothingUploadedYet();
      ExecutorKeepsTracks(env);
      ExecutorSendsMore(env);
      RecordIsLatestUpload(exec, start.session, NO_AUDIO, steps, i, [RuntimeStarted]);
      assert trace[..1 + 2 * i] == [RuntimeStarted] + all[..2 * i];
      AddStepAddsWanted(env, s, key, payload, LatestUpload(trace[..1 + 2 * i]));
      StepWithinRun(exec, start.session, NO_AUDIO, steps, i);
      assert trace[2 * i + 2..] == all[2 * i + 1..];
    }
  }

  lemma {:induction false} NothingUploadedYet()
    ensures LatestUpload([RuntimeStarted]) == None
  {
    assert [RuntimeStarted][..0] == [];
  }

  lemma {:induction false} AddedAndReported(env: Env, s: Session, key: string, payload: Dict, latest: Option<Upload>,
                                            run: StepRun)
    requires AddsWanted(env, s, key, payload, latest, run) && !run.result.stop
    ensures var wanted := WantedFile(env, payload, latest);
            && wanted.Some? && s.sent + [WithToken(env, s, AddsFile(wanted.value))] <= run.session.sent
            && run.result == Succeeding(key, "add_profile_audio", AudioAdded(RecordOf(latest).fileId))
            && (RecordOf(latest).fileId == wanted <==> latest.Some?)
  {
  }

  /** After `s` the client asked to add the file, and for step `i` the trace reports a file or none. */
  ghost predicate SentAndReported(env: Env, s: Session, sent: seq<Dict>, trace: seq<TraceEvent>, i: nat, key: string,
      fileId: int, reported: Option<int>)
  {
    && |s.sent| < |sent| && 2 * i + 2 < |trace|
    && sent[|s.sent|] == WithToken(env, s, AddsFile(fileId))
    && trace[2 * i + 2] == StepSucceeded(key, "add_profile_audio", AudioAdded(reported))
  }

  /**
   The file id that a successful add step reports in the trace is the one the client sent if and only if
   the plan has an upload before the step.
   */
  lemma {:induction false} ReportedFileIsSentFile(env: Env, start: Step<()>, steps: seq<PlanStep>, i: nat, key: string,
      payload: Dict)
    requires start.Done? && i < |steps| && steps[i] == PlanStep(Some(key), Some("add_profile_audio"), Some(payload))
    ensures var (exec, trace) := (ExecutorOf(env), Execute(ExecutorOf(env), start, Some(steps)));
            var (reached, sent) := (StateAt(exec, start.session, NO_AUDIO, steps, i),
                                    FinalSession(exec, start, Some(steps)).sent);
            reached.Some? && !exec(reached.value.0, steps[i], reached.value.1).result.stop ==>
              && 2 * i + 2 < |trace|
              && exists fileId, reported ::
                   && SentAndReported(env, reached.value.0, sent, trace, i, key, fileId, reported)
                   && (reported == Some(fileId) <==> UploadsBefore(steps, i))
  {
    AddUsesLatestUpload(env, start, steps, i, key, payload);
    var (exec, trace) := (ExecutorOf(env), Execute(ExecutorOf(env), start, Some(steps)));
    var reached := StateAt(exec, start.session, NO_AUDIO, steps, i);
    if reached.Some? {
      var (s, latest, run) := (reached.value.0, LatestUpload(trace[..1 + 2 * i]),
                               exec(reached.value.0, steps[i], reached.value.1));
      if !run.result.stop {
        AddedAndReported(env, s, key, payload, latest, run);
        var (fileId, reported) := (WantedFile(env, payload, latest).value, RecordOf(latest).fileId);
        assert trace[2 * i + 2..][0] == run.result.events[0];
        assert SentAndReported(env, s, FinalSession(exec, start, Some(steps)).sent, trace, i, key, fileId, reported);
      }
    }
  }

  /** An environment whose client answers every query at once. */
  const ANSWERING := Env(_ => Event(map["@extra" := JString("t")]), _ => "t", _ => 1, _ => None, _ => "", _ => "")
  /** A plan that adds a file of its own choice. */
  const ADD_SEVEN := [PlanStep(Some("add"), Some("add_profile_audio"), Some(map["telegram_file_id" := JInt(7)]))]

  /** The file 7 is added, and the trace reports no file. */
  lemma {:induction false} PlanFileNotReported()
    ensures var (exec, start) := (ExecutorOf(ANSWERING), Done(NEW_SESSION, ()));
            && FinalSession(exec, start, Some(ADD_SEVEN)).sent == [AddsFile(7)["@extra" := JString("t")]]
            && Execute(exec, start, Some(ADD_SEVEN)) == [
                 RuntimeStarted, StepStarted("add", "add_profile_audio"),
                 StepSucceeded("add", "add_profile_audio", AudioAdded(None)), RuntimeClosed]
  {
    var (env, step, s, payload) := (ANSWERING, ADD_SEVEN[0], NEW_SESSION, map["telegram_file_id" := JInt(7)]);
    var query := AddsFile(7);
    var asked := Asked(env, s, query);
    assert "@extra" in env.raw(asked.position).dict;
    assert Ends(env.raw(asked.position), "t") && env.turns(s.loops) == 1;
    assert QueryStep(env, s, query).Done? && CheckedQuery(env, s, query).Done?;
    AddStepAddsWanted(env, s, "add", payload, None);
    var run := ExecutorOf(env)(s, step, NO_AUDIO);
    assert run == ExecuteStep(env, s, "add", "add_profile_audio", Some(payload), NO_AUDIO);
    assert ADD_SEVEN[1..] == [];
    assert ExecuteSteps(ExecutorOf(env), run.session, run.audio, []) == [RuntimeClosed];
  }

  // ----- the exit code of a run

  /**
   The process exits with 0 exactly when the runtime started, the plan has steps, and every one of
   them succeeded before the runtime closed; with 3 exactly when a step ended uncertain.
   */
  lemma {:induction false} ExitCodeOfExecution(env: Env, start: Step<()>, plan: Option<seq<PlanStep>>)
    ensures var trace := Execute(ExecutorOf(env), start, plan);
            && ExitCode(trace) in {0, 1, 3}
            && (ExitCode(trace) == 0 <==> start.Done? && plan.Some? && Trace(plan.value, trace, |plan.value|, AllDone))
            && (ExitCode(trace) == 3 <==>
                start.Done? && plan.Some? && exists k :: Trace(plan.value, trace, k, UncertainStep))
  {
    var trace := Execute(ExecutorOf(env), start, plan);
    ExecutionFollowsGrammar(env, start, plan);
    if FailedAtOnce(trace) {
      FailedAtOnceExits(trace);
    }
    if start.Done? && plan.Some? {
      forall k, ending | Trace(plan.value, trace, k, ending)
        ensures ExitCode(trace) == (match ending case AllDone => 0 case UncertainStep => 3 case _ => 1)
        ensures ending == AllDone ==> k == |plan.value|
      {
        ExitCodeAndState(plan.value, trace, k, ending);
      }
    }
  }

  /** Success, an uncertain outcome and failure, told by the exit code and by the job state alike. */
  predicate Agree(code: int, state: JobState) {
    match state
    case JobCompleted => code == 0
    case JobFailed => code == 1
    case _ => code == 3
  }

  /**
   Exit code and job state agree exactly when the runtime starts, the plan has its steps, and no step
   without a key or a type is reached; so they do whenever the client gets ready and every step is named.
   */
  lemma {:induction false} CodeAndStateAgree(env: Env, start: Step<()>, plan: Option<seq<PlanStep>>)
    ensures var trace := Execute(ExecutorOf(env), start, plan);
            Agree(ExitCode(trace), ClassifyJobOutcome(Outcomes(trace)))
            <==> start.Done? && plan.Some? && !exists k :: Trace(plan.value, trace, k, BrokenPlan)
    ensures start.Done? && plan.Some? && (forall i :: 0 <= i < |plan.value| ==> Named(plan.value[i])) ==>
              var trace := Execute(ExecutorOf(env), start, plan);
                Agree(ExitCode(trace), ClassifyJobOutcome(Outcomes(trace)))
  {
    var trace := Execute(ExecutorOf(env), start, plan);
    if start.Done? && plan.Some? {
      ExecutorGivesResults(env);
      var k, ending := StartedFollowsGrammar(ExecutorOf(env), start, plan.value);
      ExitCodeAndState(plan.value, trace, k, ending);
      if j :| Trace(plan.value, trace, j, BrokenPlan) {
        ExitCodeAndState(plan.value, trace, j, BrokenPlan);
      }
    } else {
      AtOnce(env, start, plan);
      FailedAtOnceExits(trace);
    }
  }

  lemma {:induction false} AtOnce(env: Env, start: Step<()>, plan: Option<seq<PlanStep>>)
    requires start.Raise? || plan.None?
    ensures FailedAtOnce(Execute(ExecutorOf(env), start, plan))
  {
    var trace := Execute(ExecutorOf(env), start, plan);
    assert trace[..|trace| - 1] == if start.Raise? then [] else [RuntimeStarted];
  }

  // ----- the same on the plan alone

  /** However the steps of the plan turn out, exit code and job state agree. */
  ghost predicate AlwaysAgree(steps: seq<PlanStep>) {
    forall exec: Executor, s: Session :: GivesResults(exec) ==>
      var trace := Execute(exec, Done(s, ()), Some(steps));
      Agree(ExitCode(trace), ClassifyJobOutcome(Outcomes(trace)))
  }

  /** Every named step succeeds. */
  const SMOOTH: Executor := (s: Session, step: PlanStep, audio: Audio) =>
    StepRun(s, audio, if Named(step) then Succeeding(step.key.value, step.stepType.value, Plain)
                      else StepResult([], true))

  lemma {:induction false} SmoothBreaks(s: Session, audio: Audio, steps: seq<PlanStep>, i: nat) returns (k: nat)
    requires i < |steps| && !Named(steps[i])
    ensures Body(steps, ExecuteSteps(SMOOTH, s, audio, steps), k, BrokenPlan)
    decreases |steps|
  {
    var body := ExecuteSteps(SMOOTH, s, audio, steps);
    k := 0;
    if !Named(steps[0]) {
      assert body[0..] == body;
    } else {
      var run := SMOOTH(s, steps[0], audio);
      k := SmoothBreaks(run.session, run.audio, steps[1..], i - 1);
      BodyExtends(steps, [Started(steps[0])] + run.result.events,
                  ExecuteSteps(SMOOTH, run.session, run.audio, steps[1..]), k, BrokenPlan);
      k := k + 1;
    }
  }

  /**
   Exit code and job state agree however the steps turn out exactly when every step of the plan has a key
   and a type.
   */
  lemma {:induction false} AlwaysAgreeExactly(steps: seq<PlanStep>)
    ensures AlwaysAgree(steps) <==> forall i :: 0 <= i < |steps| ==> Named(steps[i])
  {
    if forall i :: 0 <= i < |steps| ==> Named(steps[i]) {
      forall exec: Executor, s: Session | GivesResults(exec)
        ensures var trace := Execute(exec, Done(s, ()), Some(steps));
                Agree(ExitCode(trace), ClassifyJobOutcome(Outcomes(trace)))
      {
        var k, ending := StartedFollowsGrammar(exec, Done(s, ()), steps);
        ExitCodeAndState(steps, Execute(exec, Done(s, ()), Some(steps)), k, ending);
      }
    } else {
      var i :| 0 <= i < |steps| && !Named(steps[i]);
      var k := SmoothBreaks(NEW_SESSION, NO_AUDIO, steps, i);
      var trace := Execute(SMOOTH, Done(NEW_SESSION, ()), Some(steps));
      assert trace[1..] == ExecuteSteps(SMOOTH, NEW_SESSION, NO_AUDIO, steps);
      ExitCodeAndState(steps, trace, k, BrokenPlan);
      assert GivesResults(SMOOTH) && !Agree(ExitCode(trace), ClassifyJobOutcome(Outcomes(trace)));
    }
  }
}
