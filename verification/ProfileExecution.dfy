/**
 `TdlibProfileExecutionAdapter.execute` of backend/app/adapters/tdlib_profile_execution.py: the steps
 of a plan against one client, the events they emit, and the audio upload they pass on.
 */
module ProfileExecution {
  import opened Wrappers
  import opened Json
  import opened TdlibClient
  import opened ProfileQueries
  import opened ProfileTrace

  /** `_ProfileAudioState`: what the latest successful upload of the run left behind. */
  datatype Audio = Audio(fileId: Option<int>, tempMessage: Option<Upload>)

  const NO_AUDIO := Audio(None, None)

  /** `_StepExecutionResult`. */
  datatype StepResult = StepResult(events: seq<TraceEvent>, stop: bool)

  /** What a step leaves: the client, the audio record and its result. */
  datatype StepRun = StepRun(session: Session, audio: Audio, result: StepResult)

  const STORY_TYPES: set<string> := {"post_story_image", "post_story_video"}

  // ----- text

  predicate IsSpace(c: char) {
    c in {' ', '\t', '\n', '\r'}
  }

  predicate IsAt(c: char) {
    c == '@'
  }

  predicate IsDash(c: char) {
    c == '-'
  }

  function TrimLeft(s: string, drop: char -> bool): string {
    if s != "" && drop(s[0]) then TrimLeft(s[1..], drop) else s
  }

  function TrimRight(s: string, drop: char -> bool): string {
    if s != "" && drop(s[|s| - 1]) then TrimRight(s[..|s| - 1], drop) else s
  }

  predicate IsDigits(s: string) {
    s != "" && forall i :: 0 <= i < |s| ==> '0' <= s[i] <= '9'
  }

  // ----- the pinned channel

  function SetPersonalChat(chatId: int): Dict {
    map["@type" := JString("setPersonalChat"), "chat_id" := JInt(chatId)]
  }

  /** `_execute_set_pinned_channel`: no error code, or the code it reports. */
  function SetPinnedChannel(env: Env, s: Session, payload: Dict): Step<Option<string>> {
    var value := Or(Get(payload, "pinned_channel_ref"), JString(""));
    if !value.JString? then Raise(s, BadValue)
    else
      var ref := TrimRight(TrimLeft(value.s, IsSpace), IsSpace);
      if ref == "" then
        var (s, _) :- CheckedQuery(env, s, SetPersonalChat(0));
        Done(s, None)
      else if ref[0] == '@' then SetPinnedPublicChannel(env, s, TrimLeft(ref, IsAt))
      else if IsDigits(TrimLeft(ref, IsDash)) then
        var (s, chatId) :- IntOf(env, s, JString(ref));
        var (s, _) :- CheckedQuery(env, s, SetPersonalChat(chatId));
        Done(s, None)
      else Done(s, Some("invalid_channel_ref"))
  }

  function SetPinnedPublicChannel(env: Env, s: Session, username: string): Step<Option<string>> {
    if username == "" then Done(s, Some("invalid_channel_ref"))
    else
      var (s, found) :- QueryStep(env, s, map["@type" := JString("searchPublicChat"), "username" := JString(username)]);
      if !HasType(found, "chat") || !Truthy(Get(found, "id")) then Done(s, Some("pinned_channel_not_found"))
      else
        var (s, chatId) :- IntOf(env, s, found["id"]);
        var (s, _) :- CheckedQuery(env, s, SetPersonalChat(chatId));
        Done(s, None)
  }

  // ----- the other steps

  function AddAudioQuery(fileId: int): Dict {
    map["@type" := JString("addProfileAudio"), "file_id" := JInt(fileId)]
  }

  /** `map_step_to_tdlib_query`; the text fields of a step travel as its payload. */
  function MapStepToQuery(env: Env, stepType: string, payload: Dict): Outcome<Dict> {
    match stepType
    case "set_name" => Returned(map["@type" := JString("setName"), "payload" := JObject(payload)])
    case "set_bio" => Returned(map["@type" := JString("setBio"), "payload" := JObject(payload)])
    case "set_username" => Returned(map["@type" := JString("setUsername"), "payload" := JObject(payload)])
    case "set_profile_photo" =>
      if "asset_path" !in payload then Raised(MissingKey("asset_path"))
      else Returned(map["@type" := JString("setProfilePhoto"), "path" := payload["asset_path"]])
    case "add_profile_audio" =>
      if Get(payload, "telegram_file_id") == JNull then Raised(BadValue)
      else
        var fileId :- ToInt(env, payload["telegram_file_id"]);
        Returned(AddAudioQuery(fileId))
    case "remove_profile_audio" =>
      if Get(payload, "telegram_file_id") == JNull then Returned(map["@type" := JString("getMe")])
      else
        var fileId :- ToInt(env, payload["telegram_file_id"]);
        Returned(map["@type" := JString("removeProfileAudio"), "file_id" := JInt(fileId)])
    case "validate_story_capabilities" => Returned(map["@type" := JString("getMe")])
    case "prepare_story_media" => Returned(map["@type" := JString("getMe")])
    case _ => Raised(BadValue)
  }

  /** `_with_uploaded_profile_audio_id`: an upload of this run overrides the plan's own file id. */
  function WithUploadedAudio(stepType: string, payload: Dict, audio: Audio): Dict {
    if stepType == "add_profile_audio"
      && audio.fileId.Some? then payload["telegram_file_id" := JInt(audio.fileId.value)] else payload
  }

  /** `verify_username_result`: the wanted name is the editable one or among the active ones. */
  predicate UsernameMatches(env: Env, payload: Dict, me: Dict) {
    var wanted := Or(Get(payload, "username"), JString(""));
    var name := JString(if wanted.JString? then wanted.s else env.text(wanted));
    var usernames := DictOrEmpty(Get(me, "usernames"));
    var active := Get(usernames, "active_usernames");
    name == Get(usernames, "editable_username") || (active.JList? && name in active.items)
  }

  function Succeeding(key: string, stepType: string, payload: Payload): StepResult {
    StepResult([StepSucceeded(key, stepType, payload)], false)
  }

  function Failing(key: string, stepType: string, code: string): StepResult {
    StepResult([StepFailed(key, stepType, code), RuntimeFailed(code)], true)
  }

  function Doubting(key: string, stepType: string, reason: string): StepResult {
    StepResult([StepUncertain(key, stepType, reason), RuntimeClosed], true)
  }

  // ----- what a step makes of the call it rests on

  function StoryRun(posted: Step<Dict>, audio: Audio, key: string, stepType: string): Step<StepRun> {
    var (s, _) :- posted;
    Done(s, StepRun(s, audio, Succeeding(key, stepType, Plain)))
  }

  function UploadRun(uploaded: Step<Upload>, key: string, stepType: string): Step<StepRun> {
    var (s, upload) :- uploaded;
    Done(s, StepRun(s, Audio(Some(upload.fileId), Some(upload)), Succeeding(key, stepType, Uploaded(upload))))
  }

  function PinnedRun(pinned: Step<Option<string>>, audio: Audio, key: string, stepType: string): Step<StepRun> {
    var (s, code) :- pinned;
    Done(s, if code.Some? then StepRun(s, audio, Failing(key, stepType, code.value))
         else StepRun(s, audio, Succeeding(key, stepType, Plain)))
  }

  function UsernameRun(env: Env, payload: Dict, verified: Step<Dict>, audio: Audio, key: string,
        stepType: string): Step<StepRun> {
    var (s, me) :- verified;
    Done(s, if UsernameMatches(env, payload, me) then StepRun(s, audio, Succeeding(key, stepType, Plain))
            else StepRun(s, audio, Doubting(key, stepType, "username_verify_mismatch")))
  }

  /** `_query_step_result`. */
  function QueryRun(env: Env, answered: Step<Dict>, key: string, stepType: string, payload: Dict,
        audio: Audio): Step<StepRun> {
    var (s, _) :- answered;
    if stepType == "add_profile_audio" then
      var cleaned := Cleanup(env, s, audio.tempMessage);
      Done(cleaned, StepRun(cleaned, audio, Succeeding(key, stepType, AudioAdded(audio.fileId))))
    else if stepType == "set_username" then
      UsernameRun(env, payload, CheckedQuery(env, s, map["@type" := JString("getMe")]), audio, key, stepType)
    else Done(s, StepRun(s, audio, Succeeding(key, stepType, Plain)))
  }

  function PlainQuery(env: Env, s: Session, stepType: string, payload: Dict, audio: Audio): Step<Dict> {
    var (s, query) :- Lift(s, MapStepToQuery(env, stepType, WithUploadedAudio(stepType, payload, audio)));
    CheckedQuery(env, s, query)
  }

  /** `_execute_step_inner`, with the events of its result. */
  function ExecuteStepInner(env: Env, s: Session, key: string, stepType: string, payload: Dict,
        audio: Audio): Step<StepRun> {
    if stepType in STORY_TYPES then StoryRun(PostStory(env, s, stepType, payload), audio, key, stepType)
    else if stepType == "upload_profile_audio" then UploadRun(UploadAudio(env, s, payload), key, stepType)
    else if stepType == "set_pinned_channel" then PinnedRun(SetPinnedChannel(env, s, payload), audio, key, stepType)
    else QueryRun(env, PlainQuery(env, s, stepType, payload, audio), key, stepType, payload, audio)
  }

  function FailureCode(exn: Exn): string {
    if exn.QueryFailed? then exn.code else "tdlib_profile_step_failed"
  }

  /** `_execute_step`: whatever the step raises becomes its result. */
  function ExecuteStep(env: Env, s: Session, key: string, stepType: string, payload: Option<Dict>,
                       audio: Audio): StepRun {
    if payload.None? then StepRun(s, audio, Failing(key, stepType, "tdlib_profile_step_failed"))
    else Caught(ExecuteStepInner(env, s, key, stepType, payload.value, audio), audio, key, stepType)
  }

  function Caught(end: Step<StepRun>, audio: Audio, key: string, stepType: string): StepRun {
    match end
    case Done(_, run) => run
    case Raise(s, exn) =>
      if exn.StoryUncertain? then StepRun(s, audio, Doubting(key, stepType, "story_post_confirmation_timeout"))
      else StepRun(s, audio, Failing(key, stepType, FailureCode(exn)))
  }

  const RUNTIME_FAILED := RuntimeFailed("tdlib_runtime_failed")

  /** How a named step of the plan runs. */
  type Executor = (Session, PlanStep, Audio) -> StepRun

  function ExecutorOf(env: Env): Executor {
    (s: Session, step: PlanStep, audio: Audio) =>
      if Named(step) then ExecuteStep(env, s, step.key.value, step.stepType.value, step.payload, audio)
      else StepRun(s, audio, StepResult([], true))
  }

  function Started(step: PlanStep): TraceEvent
    requires Named(step)
  {
    StepStarted(step.key.value, step.stepType.value)
  }

  /** The events of the steps, up to the event that closes or fails the runtime. */
  function ExecuteSteps(exec: Executor, s: Session, audio: Audio, steps: seq<PlanStep>): seq<TraceEvent>
    decreases |steps|
  {
    if steps == [] then [RuntimeClosed]
    else if !Named(steps[0]) then [RUNTIME_FAILED]
    else
      var run := exec(s, steps[0], audio);
      [Started(steps[0])] + run.result.events
        + (if run.result.stop then [] else ExecuteSteps(exec, run.session, run.audio, steps[1..]))
  }

  /** The client after the steps. */
  function SessionAfter(exec: Executor, s: Session, audio: Audio, steps: seq<PlanStep>): Session
    decreases |steps|
  {
    if steps == [] || !Named(steps[0]) then s
    else
      var run := exec(s, steps[0], audio);
      if run.result.stop then run.session else SessionAfter(exec, run.session, run.audio, steps[1..])
  }

  /** `start` is how creating the client and waiting until it is ready went; a plan can lack its steps. */
  function Execute(exec: Executor, start: Step<()>, plan: Option<seq<PlanStep>>): seq<TraceEvent> {
    if start.Raise? then [RUNTIME_FAILED]
    else if plan.None? then [RuntimeStarted, RUNTIME_FAILED]
    else [RuntimeStarted] + ExecuteSteps(exec, start.session, NO_AUDIO, plan.value)
  }

  /** The client and the audio record when step `i` begins, if the run gets there. */
  function StateAt(exec: Executor, s: Session, audio: Audio, steps: seq<PlanStep>, i: nat): Option<(Session, Audio)>
    decreases i
  {
    if i == 0 then Some((s, audio))
    else if steps == [] || !Named(steps[0]) then None
    else
      var run := exec(s, steps[0], audio);
      if run.result.stop then None else StateAt(exec, run.session, run.audio, steps[1..], i - 1)
  }

  /** The client after an execution. */
  function FinalSession(exec: Executor, start: Step<()>, plan: Option<seq<PlanStep>>): Session {
    if start.Raise? || plan.None? then start.session else SessionAfter(exec, start.session, NO_AUDIO, plan.value)
  }

  // ----- the grammar

  /** What a step's run can look like: it stops the runtime exactly when the step did not succeed. */
  ghost predicate IsResult(run: StepRun, key: string, stepType: string) {
    || (exists payload :: run == StepRun(run.session, run.audio, Succeeding(key, stepType, payload)))
    || (exists code :: run == StepRun(run.session, run.audio, Failing(key, stepType, code)))
    || (exists reason :: run == StepRun(run.session, run.audio, Doubting(key, stepType, reason)))
  }

  /** A call that returned a result or raised. */
  ghost predicate Resulted(end: Step<StepRun>, key: string, stepType: string) {
    end.Done? ==> IsResult(end.value, key, stepType)
  }

  lemma {:induction false} StoryResulted(posted: Step<Dict>, audio: Audio, key: string, stepType: string)
    ensures Resulted(StoryRun(posted, audio, key, stepType), key, stepType)
  {
  }

  lemma {:induction false} UploadResulted(uploaded: Step<Upload>, key: string, stepType: string)
    ensures Resulted(UploadRun(uploaded, key, stepType), key, stepType)
  {
  }

  lemma {:induction false} PinnedResulted(pinned: Step<Option<string>>, audio: Audio, key: string, stepType: string)
    ensures Resulted(PinnedRun(pinned, audio, key, stepType), key, stepType)
  {
  }

  lemma {:induction false} UsernameResulted(env: Env, payload: Dict, verified: Step<Dict>, audio: Audio, key: string,
        stepType: string)
    ensures Resulted(UsernameRun(env, payload, verified, audio, key, stepType), key, stepType)
  {
  }

  lemma {:induction false} QueryResulted(env: Env, answered: Step<Dict>, key: string, stepType: string, payload: Dict,
        audio: Audio)
    ensures Resulted(QueryRun(env, answered, key, stepType, payload, audio), key, stepType)
  {
    if answered.Done? && stepType == "set_username" {
      UsernameResulted(env, payload, CheckedQuery(env, answered.session, map["@type" := JString("getMe")]), audio, key,
                       stepType);
    }
  }

  lemma {:induction false} InnerResulted(env: Env, s: Session, key: string, stepType: string, payload: Dict,
                                         audio: Audio)
    ensures Resulted(ExecuteStepInner(env, s, key, stepType, payload, audio), key, stepType)
  {
    if stepType in STORY_TYPES {
      StoryResulted(PostStory(env, s, stepType, payload), audio, key, stepType);
    } else if stepType == "upload_profile_audio" {
      UploadResulted(UploadAudio(env, s, payload), key, stepType);
    } else if stepType == "set_pinned_channel" {
      PinnedResulted(SetPinnedChannel(env, s, payload), audio, key, stepType);
    } else {
      QueryResulted(env, PlainQuery(env, s, stepType, payload, audio), key, stepType, payload, audio);
    }
  }

  lemma {:induction false} CaughtIsResult(end: Step<StepRun>, audio: Audio, key: string, stepType: string)
    requires Resulted(end, key, stepType)
    ensures IsResult(Caught(end, audio, key, stepType), key, stepType)
  {
  }

  lemma {:induction false} StepIsResult(env: Env, s: Session, key: string, stepType: string, payload: Option<Dict>,
        audio: Audio)
    ensures IsResult(ExecuteStep(env, s, key, stepType, payload, audio), key, stepType)
  {
    if payload.Some? {
      InnerResulted(env, s, key, stepType, payload.value, audio);
      CaughtIsResult(ExecuteStepInner(env, s, key, stepType, payload.value, audio), audio, key, stepType);
    }
  }

  ghost predicate GivesResults(exec: Executor) {
    forall s: Session, step: PlanStep, audio: Audio :: Named(step)
      ==> IsResult(exec(s, step, audio), step.key.value, step.stepType.value)
  }

  lemma {:induction false} ExecutorGivesResults(env: Env)
    ensures GivesResults(ExecutorOf(env))
  {
    forall s: Session, step: PlanStep, audio: Audio | Named(step)
      ensures IsResult(ExecutorOf(env)(s, step, audio), step.key.value, step.stepType.value)
    {
      StepIsResult(env, s, step.key.value, step.stepType.value, step.payload, audio);
    }
  }

  lemma {:induction false} StepsFollowGrammar(exec: Executor, s: Session, audio: Audio,
        steps: seq<PlanStep>) returns (k: nat, ending: Ending)
    requires GivesResults(exec)
    ensures Body(steps, ExecuteSteps(exec, s, audio, steps), k, ending)
    decreases |steps|
  {
    var body := ExecuteSteps(exec, s, audio, steps);
    k := 0;
    assert body[0..] == body;
    if steps == [] {
      ending := AllDone;
    } else if !Named(steps[0]) {
      ending := BrokenPlan;
    } else {
      var run := exec(s, steps[0], audio);
      assert IsResult(run, steps[0].key.value, steps[0].stepType.value);
      if run.result.stop {
        ending := if run.result.events[0].StepFailed? then FailedStep else UncertainStep;
      } else {
        k, ending := StepsFollowGrammar(exec, run.session, run.audio, steps[1..]);
        BodyExtends(steps, [Started(steps[0])] + run.result.events,
                    ExecuteSteps(exec, run.session, run.audio, steps[1..]), k, ending);
        k := k + 1;
      }
    }
  }

  lemma {:induction false} StartedFollowsGrammar(exec: Executor, start: Step<()>, steps: seq<PlanStep>)
    returns (k: nat, ending: Ending)
    requires start.Done? && GivesResults(exec)
    ensures Trace(steps, Execute(exec, start, Some(steps)), k, ending)
  {
    var trace := Execute(exec, start, Some(steps));
    k, ending := StepsFollowGrammar(exec, start.session, NO_AUDIO, steps);
    assert trace[1..] == ExecuteSteps(exec, start.session, NO_AUDIO, steps);
  }

  /**
   Every execution emits a trace of the grammar: it fails at once, or it starts, runs a prefix of the
   plan in plan order, and ends in the one event that closes or fails the runtime.
   */
  lemma {:induction false} ExecutionFollowsGrammar(env: Env, start: Step<()>, plan: Option<seq<PlanStep>>)
    ensures var trace := Execute(ExecutorOf(env), start, plan);
            if start.Raise? || plan.None? then FailedAtOnce(trace)
              else exists k, ending :: Trace(plan.value, trace, k, ending)
  {
    var trace := Execute(ExecutorOf(env), start, plan);
    if start.Done? && plan.Some? {
      ExecutorGivesResults(env);
      var k, ending := StartedFollowsGrammar(ExecutorOf(env), start, plan.value);
    } else {
      assert trace[..|trace| - 1] == if start.Raise? then [] else [RuntimeStarted];
    }
  }
}
