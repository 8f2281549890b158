/**
 How the steps of a profile plan end: with which exchange a step succeeds, what a failure reports, and
 that only an unconfirmed story and a username that was not taken over end uncertain.  And when the
 runtime starts at all.
 */
module ProfileOutcomes {
  import opened Wrappers
  import opened Json
  import opened TdlibClient
  import opened ProfileQueries
  import opened ProfileConfirmations
  import opened ProfileTrace
  import opened ProfileExecution
  import opened ProfileTranscripts

  // ----- results, event by event

  ghost predicate Succeeds(run: StepRun, key: string, stepType: string, payload: Payload) {
    run.result == StepResult([StepSucceeded(key, stepType, payload)], false)
  }

  ghost predicate FailsWith(run: StepRun, key: string, stepType: string, code: string) {
    run.result == StepResult([StepFailed(key, stepType, code), RuntimeFailed(code)], true)
  }

  ghost predicate IsUncertain(run: StepRun, key: string, stepType: string, reason: string) {
    run.result == StepResult([StepUncertain(key, stepType, reason), RuntimeClosed], true)
  }

  /** The code under which an exception is reported: its own, or the general one. */
  ghost predicate ReportsCode(exn: Exn, code: string) {
    if exn.QueryFailed? then code == exn.code else code == "tdlib_profile_step_failed"
  }

  /** A step without a payload fails before anything is asked. */
  lemma {:induction false} NoPayloadFails(env: Env, s: Session, key: string, stepType: string, audio: Audio)
    ensures var run := ExecuteStep(env, s, key, stepType, None, audio);
            FailsWith(run, key, stepType, "tdlib_profile_step_failed") && run.session == s && run.audio == audio
  {
  }

  /** An error reply is raised, under the code of the error. */
  lemma {:induction false} ErrorIsRaised(env: Env, s: Session, query: Dict, error: Dict, t: Session)
    requires QueryStep(env, s, query) == Done(t, error) && Has(error, "@type", JString("error"))
    ensures CheckedQuery(env, s, query) == Raise(t, QueryFailed(env.errorCode(error)))
  {
  }

  // ----- stories

  /** A story that is returned succeeds; an unconfirmed one is uncertain, and any other exception a failure. */
  lemma {:induction false} StoryStepEnds(env: Env, s: Session, key: string, stepType: string, payload: Dict,
                                         audio: Audio)
    requires stepType == "post_story_image" || stepType == "post_story_video"
    ensures var run := ExecuteStep(env, s, key, stepType, Some(payload), audio);
            var posted := PostStory(env, s, stepType, payload);
            && run.session == posted.session && run.audio == audio
            && (posted.Done? ==> Succeeds(run, key, stepType, Plain))
            && (posted.Raise? && posted.exn.StoryUncertain? ==>
                  IsUncertain(run, key, stepType, "story_post_confirmation_timeout"))
            && (posted.Raise? && !posted.exn.StoryUncertain? ==>
                  exists code :: ReportsCode(posted.exn, code) && FailsWith(run, key, stepType, code))
  {
    var posted := PostStory(env, s, stepType, payload);
    if posted.Raise? && !posted.exn.StoryUncertain? {
      assert ReportsCode(posted.exn, FailureCode(posted.exn));
    }
  }

  /**
   The story step from request to result: once TDLib has accepted the story under the temporary id, the
   first event that says anything of that id, among all that arrived since the step began, makes the step
   succeed if the story was posted, and fail with its error if it was turned down.
   */
  lemma {:induction false} StoryStepFollows(env: Env, s: Session, key: string, stepType: string, payload: Dict,
      audio: Audio, r: StoryRequest, t: Session, horizon: nat, k: nat)
    requires stepType == "post_story_image" || stepType == "post_story_video"
    requires Good(s) && RequestsStory(env, s, stepType, payload, r, t) && Reaches(env, t, env.turns(t.loops), horizon)
    requires FirstOfStory(Arrivals(env, s, t, horizon), r.id, k)
    ensures var run := ExecuteStep(env, s, key, stepType, Some(payload), audio);
            var event := Arrivals(env, s, t, horizon)[k];
            && (forall story :: StoryPosted(event, r.id, story) ==> Succeeds(run, key, stepType, Plain))
            && (StoryRejected(event, r.id) ==> FailsWith(run, key, stepType, env.errorCode(ErrorOf(event))))
  {
    RequestIsStory(env, s, stepType, payload, r, t);
    StoryConfirmationNotLost(env, s, stepType, payload, horizon, k);
    StoryStepEnds(env, s, key, stepType, payload, audio);
  }

  /** If no event that can be read in the turns of the wait says anything of the story, it ends uncertain. */
  lemma {:induction false} SilentStoryIsUncertain(env: Env, s: Session, key: string, stepType: string, payload: Dict,
      audio: Audio, r: StoryRequest, t: Session)
    requires stepType == "post_story_image" || stepType == "post_story_video"
    requires RequestsStory(env, s, stepType, payload, r, t)
    requires ReadableFor(env, t, env.turns(t.loops))
    requires var events := Upcoming(env, t, t.position + env.turns(t.loops));
             forall i :: 0 <= i < |events| ==> SaysNothingOfStory(events[i], r.id)
    ensures IsUncertain(ExecuteStep(env, s, key, stepType, Some(payload), audio), key, stepType,
                        "story_post_confirmation_timeout")
  {
    RequestIsStory(env, s, stepType, payload, r, t);
    SilentWaitIsUncertain(env, t, r.id);
    StoryStepEnds(env, s, key, stepType, payload, audio);
  }

  // ----- steps of one query

  const PLAIN_STEPS := {
    "set_name", "set_bio", "set_profile_photo", "remove_profile_audio", "validate_story_capabilities",
    "prepare_story_media"
  }

  /** The query of a step that is one query. */
  ghost predicate IsStepQuery(env: Env, stepType: string, payload: Dict, query: Dict) {
    match stepType
    case "set_name" => query == Query("setName")["payload" := JObject(payload)]
    case "set_bio" => query == Query("setBio")["payload" := JObject(payload)]
    case "set_username" => query == Query("setUsername")["payload" := JObject(payload)]
    case "set_profile_photo" =>
      "asset_path" in payload && query == Query("setProfilePhoto")["path" := payload["asset_path"]]
    case "remove_profile_audio" =>
      if "telegram_file_id" !in payload || payload["telegram_file_id"] == JNull then query == Query("getMe")
      else exists id :: IsInt(env, payload["telegram_file_id"], id)
                        && query == Query("removeProfileAudio")["file_id" := JInt(id)]
    case "validate_story_capabilities" => query == Query("getMe")
    case "prepare_story_media" => query == Query("getMe")
    case _ => false
  }

  lemma {:induction false} StepQueryExactly(env: Env, stepType: string, payload: Dict, audio: Audio, query: Dict)
    requires stepType in PLAIN_STEPS || stepType == "set_username"
    ensures MapStepToQuery(env, stepType, WithUploadedAudio(stepType, payload, audio)) == Returned(query)
            <==> IsStepQuery(env, stepType, payload, query)
  {
    if stepType == "remove_profile_audio" && Get(payload, "telegram_file_id") != JNull {
      var id := ToInt(env, payload["telegram_file_id"]);
      if id.Returned? {
        IntIsInt(env, payload["telegram_file_id"], id.value);
        assert map["@type" := JString("removeProfileAudio"), "file_id" := JInt(id.value)]
          == Query("removeProfileAudio")["file_id" := JInt(id.value)];
      }
      forall n | IsInt(env, payload["telegram_file_id"], n)
        ensures id == Returned(n)
      {
        IntIsInt(env, payload["telegram_file_id"], n);
      }
    }
    assert map["@type" := JString("setName"), "payload" := JObject(payload)]
      == Query("setName")["payload" := JObject(payload)];
    assert map["@type" := JString("setBio"), "payload" := JObject(payload)]
      == Query("setBio")["payload" := JObject(payload)];
    assert map["@type" := JString("setUsername"), "payload" := JObject(payload)]
      == Query("setUsername")["payload" := JObject(payload)];
    if "asset_path" in payload {
      assert map["@type" := JString("setProfilePhoto"), "path" := payload["asset_path"]]
        == Query("setProfilePhoto")["path" := payload["asset_path"]];
    }
  }

  lemma {:induction false} QueryRunIsPlain(env: Env, answered: Step<Dict>, key: string, stepType: string, payload: Dict,
      audio: Audio)
    requires stepType != "add_profile_audio" && stepType != "set_username"
    ensures QueryRun(env, answered, key, stepType, payload, audio)
            == match answered
               case Done(t, _) =>
                 Done(t, StepRun(t, audio, StepResult([StepSucceeded(key, stepType, Plain)], false)))
               case Raise(t, exn) => Raise(t, exn)
  {
  }

  /** A type that is handled by a query of its own. */
  ghost predicate IsQueryStep(stepType: string) {
    && stepType !in STORY_TYPES && stepType != "upload_profile_audio" && stepType != "set_pinned_channel"
    && stepType != "add_profile_audio" && stepType != "set_username"
  }

  lemma {:induction false} PlainIsQueryStep(stepType: string)
    requires stepType in PLAIN_STEPS
    ensures IsQueryStep(stepType)
  {
  }

  lemma {:induction false} QueryStepIsQuery(env: Env, s: Session, key: string, stepType: string, payload: Dict,
      audio: Audio)
    requires IsQueryStep(stepType)
    ensures ExecuteStepInner(env, s, key, stepType, payload, audio)
            == QueryRun(env, PlainQuery(env, s, stepType, payload, audio), key, stepType, payload, audio)
  {
  }

  /** A step of one query succeeds when the query is answered without an error. */
  lemma {:induction false} PlainStepSucceeds(env: Env, s: Session, key: string, stepType: string, payload: Dict,
      audio: Audio, query: Dict, reply: Dict, t: Session)
    requires stepType in PLAIN_STEPS && IsStepQuery(env, stepType, payload, query) && Exchanges(env, s, query, reply, t)
    ensures var run := ExecuteStep(env, s, key, stepType, Some(payload), audio);
            Succeeds(run, key, stepType, Plain) && run.session == t && run.audio == audio
  {
    StepQueryExactly(env, stepType, payload, audio, query);
    ExchangeIsChecked(env, s, query, reply, t);
    assert PlainQuery(env, s, stepType, payload, audio) == Done(t, reply);
    PlainIsQueryStep(stepType);
    QueryStepIsQuery(env, s, key, stepType, payload, audio);
    QueryRunIsPlain(env, PlainQuery(env, s, stepType, payload, audio), key, stepType, payload, audio);
  }

  /** And only then; else it fails. */
  lemma {:induction false} PlainStepFails(env: Env, s: Session, key: string, stepType: string, payload: Dict,
      audio: Audio) returns (code: string)
    requires stepType in PLAIN_STEPS
    requires forall query, reply, t ::
               IsStepQuery(env, stepType, payload, query) ==> !Exchanges(env, s, query, reply, t)
    ensures FailsWith(ExecuteStep(env, s, key, stepType, Some(payload), audio), key, stepType, code)
  {
    PlainIsQueryStep(stepType);
    QueryStepIsQuery(env, s, key, stepType, payload, audio);
    QueryRunIsPlain(env, PlainQuery(env, s, stepType, payload, audio), key, stepType, payload, audio);
    var query := MapStepToQuery(env, stepType, WithUploadedAudio(stepType, payload, audio));
    if query.Returned? {
      StepQueryExactly(env, stepType, payload, audio, query.value);
      var asked := CheckedQuery(env, s, query.value);
      if asked.Done? {
        assert Exchanges(env, s, query.value, asked.value, asked.session);
      }
      AwaitNotUncertain(env, Asked(env, s, query.value), env.uuid(s.queries), env.turns(s.loops));
      code := if asked.Raise? then FailureCode(asked.exn) else "";
    } else {
      code := FailureCode(query.exn);
    }
  }

  // ----- the username

  /** The name the payload wants, as text. */
  ghost function WantedName(env: Env, payload: Dict): string {
    var wanted := OrAt(payload, "username", JString(""));
    if wanted.JString? then wanted.s else env.text(wanted)
  }

  /** The account answers to the name: it is the editable one, or among the active ones. */
  ghost predicate AnswersTo(me: Dict, name: string) {
    exists usernames: Dict ::
      && Has(me, "usernames", JObject(usernames))
      && (|| Has(usernames, "editable_username", JString(name))
          || exists active: seq<Json> :: Has(usernames, "active_usernames", JList(active)) && JString(name) in active)
  }

  lemma {:induction false} MatchIsAnswer(env: Env, payload: Dict, me: Dict)
    ensures UsernameMatches(env, payload, me) <==> AnswersTo(me, WantedName(env, payload))
  {
    OrIsOr(payload, "username", JString(""));
    var name := WantedName(env, payload);
    var usernames := DictOrEmpty(Get(me, "usernames"));
    if "usernames" in me && me["usernames"].JObject? {
      assert Has(me, "usernames", JObject(usernames));
      if "active_usernames" in usernames && usernames["active_usernames"].JList? {
        assert Has(usernames, "active_usernames", JList(usernames["active_usernames"].items));
      }
    }
  }

  /** Once the name is set, the account is asked for it: the step succeeds if it answers to it, else it is uncertain. */
  lemma {:induction false} UsernameStepEnds(env: Env, s: Session, key: string, payload: Dict, audio: Audio, reply: Dict,
      t: Session, me: Dict, u: Session)
    requires Exchanges(env, s, Query("setUsername")["payload" := JObject(payload)], reply, t)
    requires Exchanges(env, t, Query("getMe"), me, u)
    ensures var run := ExecuteStep(env, s, key, "set_username", Some(payload), audio);
            && run.session == u && run.audio == audio
            && (if AnswersTo(me, WantedName(env, payload)) then Succeeds(run, key, "set_username", Plain)
                else IsUncertain(run, key, "set_username", "username_verify_mismatch"))
  {
    var query := Query("setUsername")["payload" := JObject(payload)];
    StepQueryExactly(env, "set_username", payload, audio, query);
    ExchangeIsChecked(env, s, query, reply, t);
    ExchangeIsChecked(env, t, Query("getMe"), me, u);
    assert Query("getMe") == map["@type" := JString("getMe")];
    MatchIsAnswer(env, payload, me);
  }

  // ----- uploads and additions

  /** An upload that is made succeeds and announces itself; any exception is a failure, and the record stays. */
  lemma {:induction false} UploadStepEnds(env: Env, s: Session, key: string, payload: Dict, audio: Audio)
    ensures var run := ExecuteStep(env, s, key, "upload_profile_audio", Some(payload), audio);
            var uploaded := UploadAudio(env, s, payload);
            && run.session == uploaded.session
            && (uploaded.Done? ==>
                  && Succeeds(run, key, "upload_profile_audio", Uploaded(uploaded.value))
                  && run.audio == Audio(Some(uploaded.value.fileId), Some(uploaded.value)))
            && (uploaded.Raise? && !uploaded.exn.StoryUncertain? ==>
                  && run.audio == audio
                  && exists code ::
                       ReportsCode(uploaded.exn, code) && FailsWith(run, key, "upload_profile_audio", code))
  {
    var uploaded := UploadAudio(env, s, payload);
    if uploaded.Raise? && !uploaded.exn.StoryUncertain? {
      assert ReportsCode(uploaded.exn, FailureCode(uploaded.exn));
    }
  }

  /** A pinned channel that is set succeeds; what is no channel fails under its own code. */
  lemma {:induction false} PinnedStepEnds(env: Env, s: Session, key: string, payload: Dict, audio: Audio)
    ensures var run := ExecuteStep(env, s, key, "set_pinned_channel", Some(payload), audio);
            var pinned := SetPinnedChannel(env, s, payload);
            && run.session == pinned.session && run.audio == audio
            && (pinned.Done? && pinned.value.None? ==> Succeeds(run, key, "set_pinned_channel", Plain))
            && (pinned.Done? && pinned.value.Some? ==> FailsWith(run, key, "set_pinned_channel", pinned.value.value))
            && (pinned.Raise? && !pinned.exn.StoryUncertain? ==>
                  exists code :: ReportsCode(pinned.exn, code) && FailsWith(run, key, "set_pinned_channel", code))
  {
    var pinned := SetPinnedChannel(env, s, payload);
    if pinned.Raise? && !pinned.exn.StoryUncertain? {
      assert ReportsCode(pinned.exn, FailureCode(pinned.exn));
    }
  }

  /** A step of a type that is none of the known ones asks nothing and fails. */
  lemma {:induction false} UnknownStepFails(env: Env, s: Session, key: string, stepType: string, payload: Dict,
      audio: Audio)
    requires stepType !in PLAIN_STEPS && stepType !in {
      "post_story_image", "post_story_video", "set_username", "add_profile_audio", "upload_profile_audio",
      "set_pinned_channel"}
    ensures var run := ExecuteStep(env, s, key, stepType, Some(payload), audio);
            FailsWith(run, key, stepType, "tdlib_profile_step_failed") && run.session == s && run.audio == audio
  {
  }

  // ----- when the runtime starts
}
