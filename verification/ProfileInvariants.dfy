/**
 Whatever each single call of the client keeps, a whole execution keeps: the wait for a ready session,
 every step of a plan, and so every step's beginning and the end.  Two instances: nothing sent is taken
 back, and nothing of the event stream is lost, repeated or reordered.
 */
module ProfileInvariants {
  import opened Wrappers
  import opened Json
  import opened TdlibClient
  import opened TdlibDemux
  import opened AuthStates
  import opened ProfileQueries
  import opened ProfileConfirmations
  import opened ProfileTrace
  import opened ProfileExecution

  type Property = Session -> bool

  /** Every receive, query and send keeps the property, and so does beginning a loop. */
  ghost predicate Lasts(env: Env, p: Property) {
    && (forall s: Session, query: Dict {:trigger QueryStep(env, s, query)} ::
          p(s) ==> p(QueryStep(env, s, query).session))
    && (forall s: Session {:trigger ReceiveStep(env, s)} :: p(s) ==> p(ReceiveStep(env, s).session))
    && (forall s: Session {:trigger Told(s)} :: p(s) ==> p(Told(s)))
    && (forall s: Session {:trigger Looping(s)} :: p(s) ==> p(Looping(s)))
  }

  /** The session once the parameters have been sent. */
  function Told(s: Session): Session {
    s.(sent := s.sent + [PARAMETERS])
  }

  /** The session once another loop has begun. */
  function Looping(s: Session): Session {
    s.(loops := s.loops + 1)
  }

  ghost predicate Holds<T>(p: Property, end: Step<T>) {
    p(end.session)
  }

  lemma {:induction false} QueryLasts(env: Env, p: Property, s: Session, query: Dict)
    requires Lasts(env, p) && p(s)
    ensures Holds(p, CheckedQuery(env, s, query)) && Holds(p, QueryStep(env, s, query))
  {
  }

  // ----- the wait for a ready session

  lemma {:induction false} TurnLasts(env: Env, p: Property, s: Session, proxy: Option<ProxyOutcome>, applied: bool)
    requires Lasts(env, p) && p(s)
    ensures Holds(p, TurnerOf(env, proxy)(s, applied))
  {
    var received := ReceiveStep(env, s);
    assert received.Done? ==> p(Told(received.session));
  }

  lemma {:induction false} SettlingLasts(env: Env, p: Property, s: Session, proxy: Option<ProxyOutcome>, applied: bool,
      turns: nat)
    requires Lasts(env, p) && p(s)
    ensures Holds(p, AwaitSettled(TurnerOf(env, proxy), s, applied, turns))
    decreases turns
  {
    if turns > 0 {
      TurnLasts(env, p, s, proxy, applied);
      var turn := TurnerOf(env, proxy)(s, applied);
      if turn.Done? && turn.value.Waiting? {
        SettlingLasts(env, p, turn.session, proxy, turn.value.proxyApplied, turns - 1);
      }
    }
  }

  lemma {:induction false} StartLasts(env: Env, p: Property, s: Session, proxy: Option<ProxyOutcome>)
    requires Lasts(env, p) && p(s)
    ensures Holds(p, EnsureReady(env, s, proxy))
  {
    SettlingLasts(env, p, Looping(s), proxy, false, env.turns(s.loops));
  }

  // ----- stories and uploads

  lemma {:induction false} ChatIdLasts(env: Env, p: Property, s: Session)
    requires Lasts(env, p) && p(s)
    ensures Holds(p, GetSavedMessagesChatId(env, s))
  {
    var getMe: Dict := map["@type" := JString("getMe")];
    var me := CheckedQuery(env, s, getMe);
    QueryLasts(env, p, s, getMe);
    if me.Done? && Get(me.value, "id") != JNull && ToInt(env, me.value["id"]).Returned? {
      var user := ToInt(env, me.value["id"]).value;
      QueryLasts(env, p, me.session,
                 map["@type" := JString("createPrivateChat"), "user_id" := JInt(user), "force" := JBool(true)]);
    }
  }

  lemma {:induction false} RequestStoryLasts(env: Env, p: Property, s: Session, stepType: string, payload: Dict)
    requires Lasts(env, p) && p(s)
    ensures Holds(p, RequestStory(env, s, stepType, payload))
  {
    var chat := GetSavedMessagesChatId(env, s);
    ChatIdLasts(env, p, s);
    if chat.Done? {
      QueryLasts(env, p, chat.session, map["@type" := JString("canPostStory"), "chat_id" := JInt(chat.value)]);
      var allowed := EnsureCanPostStory(env, chat.session, chat.value);
      var query := StoryQuery(env, chat.value, stepType, payload);
      if allowed.Done? && query.Returned? {
        QueryLasts(env, p, allowed.session, query.value);
      }
    }
  }

  lemma {:induction false} WaitLasts(env: Env, p: Property, s: Session, decide: Dict -> Decision, expired: Exn,
      turns: nat)
    requires Lasts(env, p) && p(s)
    ensures Holds(p, WaitFor(env, s, decide, expired, turns))
    decreases turns
  {
    if turns > 0 {
      var first := ReceiveStep(env, s);
      if first.Done? && (first.value.None? || decide(first.value.value).None?) {
        WaitLasts(env, p, first.session, decide, expired, turns - 1);
      }
    }
  }

  lemma {:induction false} StoryWaitLasts(env: Env, p: Property, s: Session, temporaryId: int)
    requires Lasts(env, p) && p(s)
    ensures Holds(p, AwaitStory(env, s, temporaryId))
  {
    WaitLasts(env, p, Looping(s), StoryDecision(env, temporaryId), StoryUncertain(temporaryId), env.turns(s.loops));
  }

  lemma {:induction false} PostStoryLasts(env: Env, p: Property, s: Session, stepType: string, payload: Dict)
    requires Lasts(env, p) && p(s)
    ensures Holds(p, PostStory(env, s, stepType, payload))
  {
    var requested := RequestStory(env, s, stepType, payload);
    RequestStoryLasts(env, p, s, stepType, payload);
    if requested.Done? {
      StoryWaitLasts(env, p, requested.session, requested.value);
    }
  }

  lemma {:induction false} RequestAudioLasts(env: Env, p: Property, s: Session, payload: Dict)
    requires Lasts(env, p) && p(s)
    ensures Holds(p, RequestAudio(env, s, payload))
  {
    var chat := GetSavedMessagesChatId(env, s);
    ChatIdLasts(env, p, s);
    if chat.Done? && "asset_path" in payload {
      QueryLasts(env, p, chat.session, map[
        "@type" := JString("sendMessage"), "chat_id" := JInt(chat.value),
        "audio" := payload["asset_path"], "title" := Or(Get(payload, "title"), JString(""))]);
    }
  }

  lemma {:induction false} AudioWaitLasts(env: Env, p: Property, s: Session, oldMessageId: int)
    requires Lasts(env, p) && p(s)
    ensures Holds(p, AwaitAudio(env, s, oldMessageId))
  {
    WaitLasts(env, p, Looping(s), AudioDecision(oldMessageId),
              QueryFailed("PROFILE_AUDIO_MESSAGE_SEND_TIMEOUT"), env.turns(s.loops));
  }

  lemma {:induction false} UploadLasts(env: Env, p: Property, s: Session, payload: Dict)
    requires Lasts(env, p) && p(s)
    ensures Holds(p, UploadAudio(env, s, payload))
  {
    RequestAudioLasts(env, p, s, payload);
    var requested := RequestAudio(env, s, payload);
    if requested.Done? {
      AudioWaitLasts(env, p, requested.session, requested.value.1);
    }
  }

  lemma {:induction false} CleanupLasts(env: Env, p: Property, s: Session, upload: Option<Upload>)
    requires Lasts(env, p) && p(s)
    ensures p(Cleanup(env, s, upload))
  {
    if upload.Some? && upload.value.messageId != JNull && ToInt(env, upload.value.messageId).Returned? {
      QueryLasts(env, p, s, DeleteQuery(upload.value.chatId, ToInt(env, upload.value.messageId).value));
    }
  }

  // ----- the other steps

  lemma {:induction false} PublicChannelLasts(env: Env, p: Property, s: Session, username: string)
    requires Lasts(env, p) && p(s)
    ensures Holds(p, SetPinnedPublicChannel(env, s, username))
  {
    if username != "" {
      var search: Dict := map["@type" := JString("searchPublicChat"), "username" := JString(username)];
      var found := QueryStep(env, s, search);
      QueryLasts(env, p, s, search);
      if found.Done? && HasType(found.value, "chat") && Truthy(Get(found.value, "id"))
        && ToInt(env, found.value["id"]).Returned? {
        QueryLasts(env, p, found.session, SetPersonalChat(ToInt(env, found.value["id"]).value));
      }
    }
  }

  lemma {:induction false} PinnedLasts(env: Env, p: Property, s: Session, payload: Dict)
    requires Lasts(env, p) && p(s)
    ensures Holds(p, SetPinnedChannel(env, s, payload))
  {
    var value := Or(Get(payload, "pinned_channel_ref"), JString(""));
    if value.JString? {
      var ref := TrimRight(TrimLeft(value.s, IsSpace), IsSpace);
      QueryLasts(env, p, s, SetPersonalChat(0));
      PublicChannelLasts(env, p, s, TrimLeft(ref, IsAt));
      if ToInt(env, JString(ref)).Returned? {
        QueryLasts(env, p, s, SetPersonalChat(ToInt(env, JString(ref)).value));
      }
    }
  }

  lemma {:induction false} PlainQueryLasts(env: Env, p: Property, s: Session, stepType: string, payload: Dict,
      audio: Audio)
    requires Lasts(env, p) && p(s)
    ensures Holds(p, PlainQuery(env, s, stepType, payload, audio))
  {
    var query := MapStepToQuery(env, stepType, WithUploadedAudio(stepType, payload, audio));
    if query.Returned? {
      QueryLasts(env, p, s, query.value);
    }
  }

  /** The run of a step belongs to the session it ends in. */
  ghost predicate RunHolds(p: Property, end: Step<StepRun>) {
    p(end.session) && (end.Done? ==> end.value.session == end.session)
  }

  lemma {:induction false} QueryRunLasts(env: Env, p: Property, answered: Step<Dict>, key: string, stepType: string,
      payload: Dict, audio: Audio)
    requires Lasts(env, p) && Holds(p, answered)
    ensures RunHolds(p, QueryRun(env, answered, key, stepType, payload, audio))
  {
    if answered.Done? {
      CleanupLasts(env, p, answered.session, audio.tempMessage);
      QueryLasts(env, p, answered.session, map["@type" := JString("getMe")]);
    }
  }

  lemma {:induction false} InnerLasts(env: Env, p: Property, s: Session, key: string, stepType: string, payload: Dict,
      audio: Audio)
    requires Lasts(env, p) && p(s)
    ensures RunHolds(p, ExecuteStepInner(env, s, key, stepType, payload, audio))
  {
    if stepType in STORY_TYPES {
      PostStoryLasts(env, p, s, stepType, payload);
    } else if stepType == "upload_profile_audio" {
      UploadLasts(env, p, s, payload);
    } else if stepType == "set_pinned_channel" {
      PinnedLasts(env, p, s, payload);
    } else {
      PlainQueryLasts(env, p, s, stepType, payload, audio);
      QueryRunLasts(env, p, PlainQuery(env, s, stepType, payload, audio), key, stepType, payload, audio);
    }
  }

  lemma {:induction false} StepLasts(env: Env, p: Property, s: Session, key: string, stepType: string,
      payload: Option<Dict>, audio: Audio)
    requires Lasts(env, p) && p(s)
    ensures p(ExecuteStep(env, s, key, stepType, payload, audio).session)
  {
    if payload.Some? {
      InnerLasts(env, p, s, key, stepType, payload.value, audio);
      CaughtLasts(p, ExecuteStepInner(env, s, key, stepType, payload.value, audio), audio, key, stepType);
    }
  }

  lemma {:induction false} CaughtLasts(p: Property, end: Step<StepRun>, audio: Audio, key: string, stepType: string)
    requires RunHolds(p, end)
    ensures p(Caught(end, audio, key, stepType).session)
  {
  }

  // ----- whole executions

  /** Every named step keeps the property. */
  ghost predicate StepsKeep(exec: Executor, p: Property) {
    forall s: Session, step: PlanStep, audio: Audio :: Named(step) && p(s) ==> p(exec(s, step, audio).session)
  }

  lemma {:induction false} ExecutorKeeps(env: Env, p: Property)
    requires Lasts(env, p)
    ensures StepsKeep(ExecutorOf(env), p)
  {
    forall s: Session, step: PlanStep, audio: Audio | Named(step) && p(s)
      ensures p(ExecutorOf(env)(s, step, audio).session)
    {
      StepLasts(env, p, s, step.key.value, step.stepType.value, step.payload, audio);
    }
  }

  lemma {:induction false} EndKeeps(exec: Executor, p: Property, s: Session, audio: Audio, steps: seq<PlanStep>)
    requires StepsKeep(exec, p) && p(s)
    ensures p(SessionAfter(exec, s, audio, steps))
    decreases |steps|
  {
    if steps != [] && Named(steps[0]) {
      var run := exec(s, steps[0], audio);
      if !run.result.stop {
        EndKeeps(exec, p, run.session, run.audio, steps[1..]);
      }
    }
  }

  lemma {:induction false} BeginningKeeps(exec: Executor, p: Property, s: Session, audio: Audio, steps: seq<PlanStep>,
      i: nat)
    requires StepsKeep(exec, p) && p(s)
    ensures var reached := StateAt(exec, s, audio, steps, i); reached.Some? ==> p(reached.value.0)
    decreases i
  {
    if i > 0 && steps != [] && Named(steps[0]) {
      var run := exec(s, steps[0], audio);
      if !run.result.stop {
        BeginningKeeps(exec, p, run.session, run.audio, steps[1..], i - 1);
      }
    }
  }

  /**
   What every call of the client keeps holds, if it does of a new client, whenever a step of an execution
   begins and when the execution is over.
   */
  lemma {:induction false} ExecutionKeeps(env: Env, p: Property, proxy: Option<ProxyOutcome>,
      plan: Option<seq<PlanStep>>, i: nat)
    requires Lasts(env, p) && p(NEW_SESSION)
    ensures var (exec, start) := (ExecutorOf(env), EnsureReady(env, NEW_SESSION, proxy));
            && p(FinalSession(exec, start, plan))
            && (start.Done? && plan.Some? && StateAt(exec, start.session, NO_AUDIO, plan.value, i).Some? ==>
                  p(StateAt(exec, start.session, NO_AUDIO, plan.value, i).value.0))
  {
    var (exec, start) := (ExecutorOf(env), EnsureReady(env, NEW_SESSION, proxy));
    StartLasts(env, p, NEW_SESSION, proxy);
    ExecutorKeeps(env, p);
    if plan.Some? {
      EndKeeps(exec, p, start.session, NO_AUDIO, plan.value);
      BeginningKeeps(exec, p, start.session, NO_AUDIO, plan.value, i);
    }
  }

  // ----- nothing sent is taken back

  /** Whatever a step does, what was sent before stays sent. */
  ghost predicate SendsMore(exec: Executor) {
    forall s: Session, step: PlanStep, audio: Audio :: Named(step) ==> s.sent <= exec(s, step, audio).session.sent
  }

  lemma {:induction false} SendingLasts(env: Env, before: seq<Dict>)
    ensures Lasts(env, (t: Session) => before <= t.sent)
  {
    forall s: Session, query: Dict | before <= s.sent
      ensures before <= QueryStep(env, s, query).session.sent
    {
      SendsOne(env, s, query);
    }
  }

  lemma {:induction false} ExecutorSendsMore(env: Env)
    ensures SendsMore(ExecutorOf(env))
  {
    forall s: Session, step: PlanStep, audio: Audio | Named(step)
      ensures s.sent <= ExecutorOf(env)(s, step, audio).session.sent
    {
      var p := (t: Session) => s.sent <= t.sent;
      SendingLasts(env, s.sent);
      StepLasts(env, p, s, step.key.value, step.stepType.value, step.payload, audio);
    }
  }

  lemma {:induction false} SessionSendsMore(exec: Executor, s: Session, audio: Audio, steps: seq<PlanStep>)
    requires SendsMore(exec)
    ensures s.sent <= SessionAfter(exec, s, audio, steps).sent
  {
    EndKeeps(exec, (t: Session) => s.sent <= t.sent, s, audio, steps);
  }

  // ----- nothing that arrives is lost

  ghost function StreamKept(env: Env): Property {
    (s: Session) => Kept(env, s)
  }

  lemma {:induction false} StreamLasts(env: Env)
    ensures Lasts(env, StreamKept(env)) && Kept(env, NEW_SESSION)
  {
    FollowsItself(env, NEW_SESSION);
    forall s: Session, query: Dict | Kept(env, s)
      ensures Kept(env, QueryStep(env, s, query).session)
    {
      QueryKeeps(env, s, query);
    }
    forall s: Session | Kept(env, s)
      ensures Kept(env, ReceiveStep(env, s).session)
    {
      ReceiveKeeps(env, s);
    }
  }

  /**
   Conservation over a whole execution: when it is over, what the client was delivered followed by what
   it still buffers is every non-empty event that arrived, in order, less the replies to its queries.
   */
  lemma {:induction false} ExecutionConserves(env: Env, proxy: Option<ProxyOutcome>, plan: Option<seq<PlanStep>>)
    ensures var s := FinalSession(ExecutorOf(env), EnsureReady(env, NEW_SESSION, proxy), plan);
            && NonEmpty(s.delivered) + s.pending == Updates(env, 0, s.position, s.matched)
            && MatchesAreReplies(env, s)
  {
    var s := FinalSession(ExecutorOf(env), EnsureReady(env, NEW_SESSION, proxy), plan);
    StreamLasts(env);
    ExecutionKeeps(env, StreamKept(env), proxy, plan, 0);
    assert Kept(env, s) && s.delivered[0..] == s.delivered && s.matched - {} == s.matched && NonEmpty([]) == [];
    AllNonEmptyUnchanged(s.pending);
  }

  /** Every step of an execution begins in a session in which no confirmation is lost. */
  lemma {:induction false} StepsBeginGood(env: Env, proxy: Option<ProxyOutcome>, steps: seq<PlanStep>, i: nat)
    ensures var start := EnsureReady(env, NEW_SESSION, proxy);
            start.Done? && StateAt(ExecutorOf(env), start.session, NO_AUDIO, steps, i).Some? ==>
              Good(StateAt(ExecutorOf(env), start.session, NO_AUDIO, steps, i).value.0)
  {
    StreamLasts(env);
    ExecutionKeeps(env, StreamKept(env), proxy, Some(steps), i);
  }
}
