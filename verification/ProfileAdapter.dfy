/**
 `TdlibProfileExecutionAdapter` of backend/app/adapters/tdlib_profile_execution.py on its client and
 its audio record: every call of a step in turn, each of which the functions of ProfileQueries and
 ProfileExecution specify.
 */
module ProfileAdapter {
  import opened Wrappers
  import opened Sequences
  import opened Json
  import opened TdlibClient
  import opened AuthStates
  import opened ProfileQueries
  import opened ProfileTrace
  import opened ProfileExecution

  /** The client went on as `step` says, with its result, and its handle was left alone. */
  twostate predicate Ran<T>(client: RealTdJsonClient, new step: Step<T>, new result: Outcome<T>)
    reads client
  {
    && client.Now() == step.session && result == step.Outcome()
    && client.closed == old(client.closed) && client.destroyed == old(client.destroyed)
  }

  method CheckedSendQuery(client: RealTdJsonClient, query: Dict) returns (result: Outcome<Dict>)
    modifies client
    ensures Ran(client, CheckedQuery(client.env, old(client.Now()), query), result)
  {
    var response :- client.SendQuery(query);
    return if HasType(response, "error") then Raised(QueryFailed(client.env.errorCode(response)))
      else Returned(response);
  }

  // ----- stories

  method SavedMessagesChatId(client: RealTdJsonClient) returns (result: Outcome<int>)
    modifies client
    ensures Ran(client, GetSavedMessagesChatId(client.env, old(client.Now())), result)
  {
    var me :- CheckedSendQuery(client, map["@type" := JString("getMe")]);
    if Get(me, "id") == JNull {
      return Raised(QueryFailed("TDLIB_GET_ME_MISSING_ID"));
    }
    var user :- ToInt(client.env, me["id"]);
    var chat :- CheckedSendQuery(client,
                                 map["@type" := JString("createPrivateChat"), "user_id" := JInt(user),
                                     "force" := JBool(true)]);
    if Get(chat, "id") == JNull {
      return Raised(QueryFailed("TDLIB_SAVED_MESSAGES_CHAT_MISSING_ID"));
    }
    return ToInt(client.env, chat["id"]);
  }

  method CheckCanPostStory(client: RealTdJsonClient, chat: int) returns (result: Outcome<()>)
    modifies client
    ensures Ran(client, EnsureCanPostStory(client.env, old(client.Now()), chat), result)
  {
    var permission :- CheckedSendQuery(client, map["@type" := JString("canPostStory"), "chat_id" := JInt(chat)]);
    return if HasType(permission, "canPostStoryResultOk") then Returned(())
      else Raised(QueryFailed(client.env.errorCode(permission)));
  }

  method SendStory(client: RealTdJsonClient, query: Dict) returns (result: Outcome<int>)
    modifies client
    ensures Ran(client, SubmitStory(client.env, old(client.Now()), query), result)
  {
    var accepted :- CheckedSendQuery(client, query);
    if Get(accepted, "id") == JNull {
      return Raised(QueryFailed("STORY_POST_TEMPORARY_ID_MISSING"));
    }
    return ToInt(client.env, accepted["id"]);
  }

  method AskToPostStory(client: RealTdJsonClient, stepType: string, payload: Dict) returns (result: Outcome<int>)
    modifies client
    ensures Ran(client, RequestStory(client.env, old(client.Now()), stepType, payload), result)
  {
    var chat :- SavedMessagesChatId(client);
    var _ :- CheckCanPostStory(client, chat);
    var query :- StoryQuery(client.env, chat, stepType, payload);
    result := SendStory(client, query);
  }

  /** `_post_story`. */
  method PublishStory(client: RealTdJsonClient, stepType: string, payload: Dict) returns (result: Outcome<Dict>)
    modifies client
    ensures Ran(client, PostStory(client.env, old(client.Now()), stepType, payload), result)
  {
    var temporaryId :- AskToPostStory(client, stepType, payload);
    result := WaitForStoryPostConfirmation(client, temporaryId);
  }

  // ----- profile audio

  method SendAudioMessage(client: RealTdJsonClient, payload: Dict) returns (result: Outcome<(int, int)>)
    modifies client
    ensures Ran(client, RequestAudio(client.env, old(client.Now()), payload), result)
  {
    var chat :- SavedMessagesChatId(client);
    if "asset_path" !in payload {
      return Raised(MissingKey("asset_path"));
    }
    var message :- CheckedSendQuery(client, map[
      "@type" := JString("sendMessage"), "chat_id" := JInt(chat),
      "audio" := payload["asset_path"], "title" := Or(Get(payload, "title"), JString(""))]);
    var oldMessageId :- ToInt(client.env, Or(Get(message, "id"), JInt(0)));
    return Returned((chat, oldMessageId));
  }

  /** `_upload_profile_audio_via_saved_messages`. */
  method UploadViaSavedMessages(client: RealTdJsonClient, payload: Dict) returns (result: Outcome<Upload>)
    modifies client
    ensures Ran(client, UploadAudio(client.env, old(client.Now()), payload), result)
  {
    var requested :- SendAudioMessage(client, payload);
    var sent :- WaitForAudioMessageSendSucceeded(client, requested.1);
    var file := AudioFile(sent);
    if Get(file, "id") == JNull {
      return Raised(QueryFailed("PROFILE_AUDIO_FILE_ID_MISSING"));
    }
    var fileId :- ToInt(client.env, file["id"]);
    return Returned(Upload(fileId, requested.0, Get(sent, "id")));
  }

  /** `_cleanup_temporary_profile_audio_message`. */
  method DeleteTemporaryMessage(client: RealTdJsonClient, upload: Option<Upload>)
    modifies client
    ensures Ran(client, Done(Cleanup(client.env, old(client.Now()), upload), ()), Returned(()))
  {
    if upload.None? || upload.value.messageId == JNull {
      return;
    }
    var messageId := ToInt(client.env, upload.value.messageId);
    if messageId.Returned? {
      var _ := CheckedSendQuery(client, DeleteQuery(upload.value.chatId, messageId.value));
    }
  }

  // ----- the pinned channel

  method PinPublicChannel(client: RealTdJsonClient, username: string) returns (result: Outcome<Option<string>>)
    modifies client
    ensures Ran(client, SetPinnedPublicChannel(client.env, old(client.Now()), username), result)
  {
    if username == "" {
      return Returned(Some("invalid_channel_ref"));
    }
    var found :- client.SendQuery(map["@type" := JString("searchPublicChat"), "username" := JString(username)]);
    if !HasType(found, "chat") || !Truthy(Get(found, "id")) {
      return Returned(Some("pinned_channel_not_found"));
    }
    var chatId :- ToInt(client.env, found["id"]);
    var _ :- CheckedSendQuery(client, SetPersonalChat(chatId));
    return Returned(None);
  }

  /** `_execute_set_pinned_channel`. */
  method PinChannel(client: RealTdJsonClient, payload: Dict) returns (result: Outcome<Option<string>>)
    modifies client
    ensures Ran(client, SetPinnedChannel(client.env, old(client.Now()), payload), result)
  {
    var value := Or(Get(payload, "pinned_channel_ref"), JString(""));
    if !value.JString? {
      return Raised(BadValue);
    }
    var ref := TrimRight(TrimLeft(value.s, IsSpace), IsSpace);
    if ref == "" {
      var _ :- CheckedSendQuery(client, SetPersonalChat(0));
      return Returned(None);
    }
    if ref[0] == '@' {
      result := PinPublicChannel(client, TrimLeft(ref, IsAt));
      return;
    }
    if !IsDigits(TrimLeft(ref, IsDash)) {
      return Returned(Some("invalid_channel_ref"));
    }
    var chatId :- ToInt(client.env, JString(ref));
    var _ :- CheckedSendQuery(client, SetPersonalChat(chatId));
    return Returned(None);
  }

  // ----- a step

  /** `_ProfileAudioState`. */
  class ProfileAudioState {
    var fileId: Option<int>
    var tempMessage: Option<Upload>

    constructor ()
      ensures Now() == NO_AUDIO
    {
      fileId, tempMessage := None, None;
    }

    function Now(): Audio
      reads this
    {
      Audio(fileId, tempMessage)
    }
  }

  ghost function RunOf(client: RealTdJsonClient, audio: ProfileAudioState, result: StepResult): StepRun
    reads client, audio
  {
    StepRun(client.Now(), audio.Now(), result)
  }

  /** As `Ran`, for a call that can also change the audio record, unless it raises. */
  twostate predicate Stepped(client: RealTdJsonClient, audio: ProfileAudioState, new step: Step<StepRun>,
                             new result: Outcome<StepResult>)
    reads client, audio
  {
    && client.Now() == step.session
    && client.closed == old(client.closed) && client.destroyed == old(client.destroyed)
    && match step
       case Done(_, run) => result.Returned? && run == RunOf(client, audio, result.value)
       case Raise(_, exn) => result == Raised(exn) && audio.Now() == old(audio.Now())
  }

  method ExecuteStory(client: RealTdJsonClient, audio: ProfileAudioState, key: string, stepType: string, payload: Dict)
    returns (result: Outcome<StepResult>)
    modifies client
    ensures Stepped(client, audio,
                    StoryRun(PostStory(client.env, old(client.Now()), stepType, payload), audio.Now(), key,
                             stepType), result)
  {
    var _ :- PublishStory(client, stepType, payload);
    return Returned(Succeeding(key, stepType, Plain));
  }

  /** `_execute_profile_audio_upload`. */
  method ExecuteProfileAudioUpload(client: RealTdJsonClient, audio: ProfileAudioState, key: string, stepType: string,
                                   payload: Dict)
    returns (result: Outcome<StepResult>)
    modifies client, audio
    ensures Stepped(client, audio,
                    UploadRun(UploadAudio(client.env, old(client.Now()), payload), key, stepType), result)
  {
    var uploaded :- UploadViaSavedMessages(client, payload);
    audio.fileId := Some(uploaded.fileId);
    audio.tempMessage := Some(uploaded);
    return Returned(Succeeding(key, stepType, Uploaded(uploaded)));
  }

  /** `_execute_pinned_channel_step`. */
  method ExecutePinnedChannel(client: RealTdJsonClient, audio: ProfileAudioState, key: string, stepType: string,
                              payload: Dict)
    returns (result: Outcome<StepResult>)
    modifies client
    ensures Stepped(client, audio,
                    PinnedRun(SetPinnedChannel(client.env, old(client.Now()), payload), audio.Now(), key,
                              stepType), result)
  {
    var code :- PinChannel(client, payload);
    return Returned(if code.Some? then Failing(key, stepType, code.value) else Succeeding(key, stepType, Plain));
  }

  /** `_username_step_result`. */
  method VerifyUsername(client: RealTdJsonClient, audio: ProfileAudioState, key: string, stepType: string,
                        payload: Dict)
    returns (result: Outcome<StepResult>)
    modifies client
    ensures Stepped(client, audio,
                    UsernameRun(client.env, payload,
                                CheckedQuery(client.env, old(client.Now()), map["@type" := JString("getMe")]),
                                  audio.Now(), key, stepType),
                    result)
  {
    var me :- CheckedSendQuery(client, map["@type" := JString("getMe")]);
    return Returned(if UsernameMatches(client.env, payload, me) then Succeeding(key, stepType, Plain)
                    else Doubting(key, stepType, "username_verify_mismatch"));
  }

  /** `map_step_to_tdlib_query` and the query. */
  method SendStepQuery(client: RealTdJsonClient, audio: ProfileAudioState, stepType: string, payload: Dict)
    returns (result: Outcome<Dict>)
    modifies client
    ensures Ran(client, PlainQuery(client.env, old(client.Now()), stepType, payload, audio.Now()), result)
  {
    var query :- MapStepToQuery(client.env, stepType, WithUploadedAudio(stepType, payload, audio.Now()));
    result := CheckedSendQuery(client, query);
  }

  /** The query of a plain step, and `_query_step_result`. */
  method ExecuteQuery(client: RealTdJsonClient, audio: ProfileAudioState, key: string, stepType: string, payload: Dict)
    returns (result: Outcome<StepResult>)
    modifies client
    ensures Stepped(client, audio,
                    QueryRun(client.env, PlainQuery(client.env, old(client.Now()), stepType, payload, audio.Now()), key,
                             stepType, payload, audio.Now()),
                    result)
  {
    var _ :- SendStepQuery(client, audio, stepType, payload);
    if stepType == "add_profile_audio" {
      DeleteTemporaryMessage(client, audio.tempMessage);
      return Returned(Succeeding(key, stepType, AudioAdded(audio.fileId)));
    }
    if stepType == "set_username" {
      result := VerifyUsername(client, audio, key, stepType, payload);
      return;
    }
    return Returned(Succeeding(key, stepType, Plain));
  }

  /** `_execute_step_inner`. */
  method RunStepInner(client: RealTdJsonClient, audio: ProfileAudioState, key: string, stepType: string, payload: Dict)
    returns (result: Outcome<StepResult>)
    modifies client, audio
    ensures Stepped(client, audio,
                    ExecuteStepInner(client.env, old(client.Now()), key, stepType, payload, old(audio.Now())), result)
  {
    if stepType in STORY_TYPES {
      result := ExecuteStory(client, audio, key, stepType, payload);
    } else if stepType == "upload_profile_audio" {
      result := ExecuteProfileAudioUpload(client, audio, key, stepType, payload);
    } else if stepType == "set_pinned_channel" {
      result := ExecutePinnedChannel(client, audio, key, stepType, payload);
    } else {
      result := ExecuteQuery(client, audio, key, stepType, payload);
    }
  }

  /** `_execute_step`: whatever the step raises becomes its result. */
  method RunStep(client: RealTdJsonClient, audio: ProfileAudioState, key: string, stepType: string,
                 payload: Option<Dict>)
    returns (result: StepResult)
    modifies client, audio
    ensures RunOf(client, audio, result)
            == ExecuteStep(client.env, old(client.Now()), key, stepType, payload, old(audio.Now()))
    ensures client.closed == old(client.closed) && client.destroyed == old(client.destroyed)
  {
    if payload.None? {
      return Failing(key, stepType, "tdlib_profile_step_failed");
    }
    var end := RunStepInner(client, audio, key, stepType, payload.value);
    match end
    case Returned(run) => return run;
    case Raised(exn) =>
      return if exn.StoryUncertain? then Doubting(key, stepType, "story_post_confirmation_timeout")
             else Failing(key, stepType, FailureCode(exn));
  }

  // ----- the whole execution

  /** What a turn of the wait does about the event it received. */
  method AnswerEvent(client: RealTdJsonClient, proxy: Option<ProxyOutcome>, proxyApplied: bool, event: Option<Dict>)
    returns (result: Outcome<Progress>)
    modifies client`sent
    ensures var step := Answer(old(client.Now()), proxy, proxyApplied, event);
            client.Now() == step.session && result == step.Outcome()
  {
    var state :- ExtractAuthorizationState(event);
    if state.None? {
      return Returned(Waiting(proxyApplied));
    }
    var mapped := MapAuthorizationState(state.value);
    if mapped.status != WaitTdlibParameters {
      return Returned(Settled(mapped));
    }
    client.Send(PARAMETERS);
    if proxy.None? || proxyApplied {
      return Returned(Waiting(proxyApplied));
    }
    return if proxy.value.ProxyRaises? then Raised(BadValue) else Returned(Waiting(true));
  }

  method TakeTurn(client: RealTdJsonClient, proxy: Option<ProxyOutcome>, proxyApplied: bool)
    returns (result: Outcome<Progress>)
    modifies client`pendingEvents, client`position, client`delivered, client`sent
    ensures var step := TurnerOf(client.env, proxy)(old(client.Now()), proxyApplied);
            client.Now() == step.session && result == step.Outcome()
  {
    var event :- client.Receive();
    result := AnswerEvent(client, proxy, proxyApplied, event);
  }

  /** The loop of `wait_for_tdlib_authorization_result`. */
  method TakeTurns(client: RealTdJsonClient, proxy: Option<ProxyOutcome>, turns: nat)
    returns (result: Outcome<Option<AuthResult>>)
    modifies client`pendingEvents, client`position, client`delivered, client`sent
    ensures var step := AwaitSettled(TurnerOf(client.env, proxy), old(client.Now()), false, turns);
            client.Now() == step.session && result == step.Outcome()
  {
    ghost var turn := TurnerOf(client.env, proxy);
    ghost var goal := AwaitSettled(turn, client.Now(), false, turns);
    var (left, proxyApplied) := (turns, false);
    while left > 0
      invariant AwaitSettled(turn, client.Now(), proxyApplied, left) == goal
    {
      ghost var before := turn(client.Now(), proxyApplied);
      OneTurn(turn, client.Now(), proxyApplied, left);
      left := left - 1;
      var progress := TakeTurn(client, proxy, proxyApplied);
      assert client.Now() == before.session && progress == before.Outcome();
      if progress.Raised? {
        return Raised(progress.exn);
      }
      if progress.value.Settled? {
        return Returned(Some(progress.value.result));
      }
      proxyApplied := progress.value.proxyApplied;
    }
    return Returned(None);
  }

  /** `wait_for_tdlib_authorization_result`. */
  method WaitForAuthorizationResult(client: RealTdJsonClient, proxy: Option<ProxyOutcome>)
    returns (result: Outcome<Option<AuthResult>>)
    modifies client
    ensures Ran(client, AwaitAuthorization(client.env, old(client.Now()), proxy), result)
  {
    var turns := client.env.turns(client.loops);
    client.loops := client.loops + 1;
    result := TakeTurns(client, proxy, turns);
  }

  /** `ensure_tdlib_ready`. */
  method WaitUntilReady(client: RealTdJsonClient, proxy: Option<ProxyOutcome>) returns (result: Outcome<()>)
    modifies client
    ensures Ran(client, EnsureReady(client.env, old(client.Now()), proxy), result)
  {
    var mapped :- WaitForAuthorizationResult(client, proxy);
    return if mapped.None? then Raised(Timeout) else if mapped.value.status == Ready then Returned(())
      else Raised(BadValue);
  }

  /** The loop over the steps of the plan. */
  method RunSteps(client: RealTdJsonClient, steps: seq<PlanStep>) returns (trace: seq<TraceEvent>)
    modifies client
    ensures trace == ExecuteSteps(ExecutorOf(client.env), old(client.Now()), NO_AUDIO, steps)
    ensures client.Now() == SessionAfter(ExecutorOf(client.env), old(client.Now()), NO_AUDIO, steps)
    ensures client.closed == old(client.closed) && client.destroyed == old(client.destroyed)
  {
    var exec := ExecutorOf(client.env);
    ghost var goal := ExecuteSteps(exec, client.Now(), NO_AUDIO, steps);
    ghost var end := SessionAfter(exec, client.Now(), NO_AUDIO, steps);
    var audio := new ProfileAudioState();
    trace := [];
    for i := 0 to |steps|
      invariant fresh(audio) && client.closed == old(client.closed) && client.destroyed == old(client.destroyed)
      invariant trace + ExecuteSteps(exec, client.Now(), audio.Now(), steps[i..]) == goal
      invariant SessionAfter(exec, client.Now(), audio.Now(), steps[i..]) == end
    {
      assert steps[i..][0] == steps[i] && steps[i..][1..] == steps[i + 1..];
      if !Named(steps[i]) {
        return trace + [RUNTIME_FAILED];
      }
      ghost var run := exec(client.Now(), steps[i], audio.Now());
      var result := RunStep(client, audio, steps[i].key.value, steps[i].stepType.value, steps[i].payload);
      assert RunOf(client, audio, result) == run;
      ghost var rest := if run.result.stop then [] else ExecuteSteps(exec, run.session, run.audio, steps[i + 1..]);
      Joined(trace, [Started(steps[i])], result.events, rest);
      trace := trace + [Started(steps[i])] + result.events;
      if result.stop {
        return;
      }
    }
    trace := trace + [RuntimeClosed];
  }

  /** How creating a client and waiting until it is ready goes. */
  function StartOf(environment: Option<Env>, proxy: Option<ProxyOutcome>): Step<()> {
    if environment.None? then Raise(NEW_SESSION, BadValue) else EnsureReady(environment.value, NEW_SESSION, proxy)
  }

  /** The client is created, and the ready state is the first to arrive in time that is no wait for parameters. */
  ghost predicate GetsStarted(environment: Option<Env>, proxy: Option<ProxyOutcome>) {
    environment.Some? && GetsReady(environment.value, 0, environment.value.turns(0), proxy != Some(ProxyRaises))
  }

  /** The runtime starts exactly then; otherwise the trace is the one event that it failed. */
  lemma {:induction false} StartsExactly(environment: Option<Env>, proxy: Option<ProxyOutcome>, exec: Executor,
      plan: Option<seq<PlanStep>>)
    ensures var trace := Execute(exec, StartOf(environment, proxy), plan);
            if GetsStarted(environment, proxy) then trace != [] && trace[0] == RuntimeStarted
            else trace == [RuntimeFailed("tdlib_runtime_failed")]
  {
    if environment.Some? {
      ReadyExactly(environment.value, proxy);
    }
  }

  /**
   `execute`: the trace of the plan, by the client the factory creates, if it does; and the handle of
   that client is destroyed exactly once, whatever happens.
   */
  method RunExecution(environment: Option<Env>, proxy: Option<ProxyOutcome>, plan: Option<seq<PlanStep>>)
    returns (trace: seq<TraceEvent>, client: RealTdJsonClient?)
    ensures client != null <==> environment.Some?
    ensures client != null ==> fresh(client) && client.env == environment.value && client.destroyed == 1
    ensures if GetsStarted(environment, proxy) then trace != [] && trace[0] == RuntimeStarted
            else trace == [RuntimeFailed("tdlib_runtime_failed")]
    ensures client != null ==>
              var (exec, start) := (ExecutorOf(environment.value), StartOf(environment, proxy));
              trace == Execute(exec, start, plan) && client.Now() == FinalSession(exec, start, plan)
  {
    if environment.None? {
      return [RUNTIME_FAILED], null;
    }
    StartsExactly(environment, proxy, ExecutorOf(environment.value), plan);
    var created := new RealTdJsonClient(environment.value);
    client := created;
    var ready := WaitUntilReady(created, proxy);
    if ready.Raised? {
      trace := [RUNTIME_FAILED];
    } else if plan.None? {
      trace := [RuntimeStarted, RUNTIME_FAILED];
    } else {
      var rest := RunSteps(created, plan.value);
      trace := [RuntimeStarted] + rest;
    }
    created.Close();
  }
}
