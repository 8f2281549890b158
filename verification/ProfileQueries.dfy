/**
 What the profile steps ask of TDLib: checked queries, the wait for the event that decides a pending
 story or audio message (backend/app/adapters/tdlib_profile_story.py, tdlib_profile_audio.py,
 tdlib_profile_common.py, tdlib_profile_pinned.py), and the clean-up of the temporary message.
 */
module ProfileQueries {
  import opened Wrappers
  import opened Json
  import opened TdlibClient

  /** A query whose error reply is raised. */
  function CheckedQuery(env: Env, s: Session, query: Dict): Step<Dict> {
    var (s, response) :- QueryStep(env, s, query);
    if HasType(response, "error") then Raise(s, QueryFailed(env.errorCode(response))) else Done(s, response)
  }

  /** `int(value)`. */
  function ToInt(env: Env, value: Json): Outcome<int> {
    match value
    case JInt(i) => Returned(i)
    case JBool(b) => Returned(if b then 1 else 0)
    case JString(text) => if env.parseInt(text).Some? then Returned(env.parseInt(text).value) else Raised(BadValue)
    case _ => Raised(BadValue)
  }

  function IntOf(env: Env, s: Session, value: Json): Step<int> {
    Lift(s, ToInt(env, value))
  }

  /** `value or default`. */
  function Or(value: Json, default: Json): Json {
    if Truthy(value) then value else default
  }

  function GetSavedMessagesChatId(env: Env, s: Session): Step<int> {
    var (s, me) :- CheckedQuery(env, s, map["@type" := JString("getMe")]);
    if Get(me, "id") == JNull then Raise(s, QueryFailed("TDLIB_GET_ME_MISSING_ID"))
    else
      var (s, user) :- IntOf(env, s, me["id"]);
      var (s, chat) :- CheckedQuery(env, s,
                                    map["@type" := JString("createPrivateChat"), "user_id" := JInt(user),
                                        "force" := JBool(true)]);
      if Get(chat, "id") == JNull then Raise(s, QueryFailed("TDLIB_SAVED_MESSAGES_CHAT_MISSING_ID"))
      else IntOf(env, s, chat["id"])
  }

  // ----- waiting for the event that decides

  /** What an event says about the wait: nothing, a value to return, or an error to raise. */
  type Decision = Option<Outcome<Dict>>

  /** The deadline loop of both confirmations: read events until one decides or the turns are used up. */
  function WaitFor(env: Env, s: Session, decide: Dict -> Decision, expired: Exn, turns: nat): Step<Dict>
    decreases turns
  {
    if turns == 0 then Raise(s, expired)
    else
      var (s, event) :- ReceiveStep(env, s);
      if event.None? || decide(event.value).None? then WaitFor(env, s, decide, expired, turns - 1)
      else
        match decide(event.value).value
        case Returned(value) => Done(s, value)
        case Raised(exn) => Raise(s, exn)
  }

  // ----- stories

  function StoryDecision(env: Env, temporaryId: int): Dict -> Decision {
    event =>
      var story := DictOrEmpty(Get(event, "story"));
      if HasType(event, "updateStoryPostSucceeded") && EqualsInt(Get(event, "old_story_id"), temporaryId)
        && story != map[] then
        Some(Returned(story))
      else if HasType(event, "updateStoryPostFailed") && EqualsInt(Get(story, "id"), temporaryId) then
        Some(Raised(QueryFailed(env.errorCode(DictOrEmpty(Get(event, "error"))))))
      else None
  }

  function AwaitStory(env: Env, s: Session, temporaryId: int): Step<Dict> {
    WaitFor(env, s.(loops := s.loops + 1), StoryDecision(env, temporaryId), StoryUncertain(temporaryId),
            env.turns(s.loops))
  }

  function PrivacySettings(preset: Json): Outcome<Dict> {
    match preset
    case JNull => Returned(map["@type" := JString("storyPrivacySettingsContacts")])
    case JString(text) =>
      if text == "" || text == "contacts" then Returned(map["@type" := JString("storyPrivacySettingsContacts")])
      else if text == "public" then Returned(map["@type" := JString("storyPrivacySettingsEveryone")])
      else if text == "close_friends" then Returned(map["@type" := JString("storyPrivacySettingsCloseFriends")])
      else Raised(QueryFailed("STORY_PRIVACY_PRESET_UNSUPPORTED"))
    case JList(_) => Raised(BadValue)
    case JObject(_) => Raised(BadValue)
    case _ => Raised(QueryFailed("STORY_PRIVACY_PRESET_UNSUPPORTED"))
  }

  function StoryContent(stepType: string, path: Json): Dict {
    if stepType == "post_story_image" then
      map["@type" := JString("inputStoryContentPhoto"),
          "photo" := JObject(map["@type" := JString("inputFileLocal"), "path" := path])]
    else
      map["@type" := JString("inputStoryContentVideo"),
          "video" := JObject(map["@type" := JString("inputFileLocal"), "path" := path])]
  }

  function EnsureCanPostStory(env: Env, s: Session, chat: int): Step<()> {
    var (s, permission) :- CheckedQuery(env, s, map["@type" := JString("canPostStory"), "chat_id" := JInt(chat)]);
    if HasType(permission, "canPostStoryResultOk") then Done(s, ())
      else Raise(s, QueryFailed(env.errorCode(permission)))
  }

  /** Building the `postStory` query, which can itself raise. */
  function StoryQuery(env: Env, chat: int, stepType: string, payload: Dict): Outcome<Dict> {
    if "asset_path" !in payload then Raised(MissingKey("asset_path"))
    else
      var privacy :- PrivacySettings(Get(payload, "privacy_preset"));
      var period :- ToInt(env, Or(Get(payload, "active_period_seconds"), JInt(86400)));
      Returned(map[
        "@type" := JString("postStory"), "chat_id" := JInt(chat),
        "content" := JObject(StoryContent(stepType, payload["asset_path"])),
        "caption" := Or(Get(payload, "caption"), JString("")),
        "privacy_settings" := JObject(privacy), "active_period" := JInt(period),
        "protect_content" := JBool(Truthy(Get(payload, "protect_content")))])
  }

  /** The temporary id under which TDLib accepts the story. */
  function SubmitStory(env: Env, s: Session, query: Dict): Step<int> {
    var (s, accepted) :- CheckedQuery(env, s, query);
    if Get(accepted, "id") == JNull then Raise(s, QueryFailed("STORY_POST_TEMPORARY_ID_MISSING"))
    else IntOf(env, s, accepted["id"])
  }

  /** The queries of `_post_story`, before the wait. */
  function RequestStory(env: Env, s: Session, stepType: string, payload: Dict): Step<int> {
    var (s, chat) :- GetSavedMessagesChatId(env, s);
    var (s, _) :- EnsureCanPostStory(env, s, chat);
    var (s, query) :- Lift(s, StoryQuery(env, chat, stepType, payload));
    SubmitStory(env, s, query)
  }

  function PostStory(env: Env, s: Session, stepType: string, payload: Dict): Step<Dict> {
    var (s, temporaryId) :- RequestStory(env, s, stepType, payload);
    AwaitStory(env, s, temporaryId)
  }

  // ----- profile audio

  datatype Upload = Upload(fileId: int, chatId: int, messageId: Json)

  function AudioDecision(oldMessageId: int): Dict -> Decision {
    event =>
      var message := DictOrEmpty(Get(event, "message"));
      if !EqualsInt(Get(event, "old_message_id"), oldMessageId) then None
      else if HasType(event, "updateMessageSendSucceeded") && message != map[] then Some(Returned(message))
      else if HasType(event, "updateMessageSendFailed")
        then Some(Raised(QueryFailed("PROFILE_AUDIO_MESSAGE_SEND_FAILED")))
      else None
  }

  function AwaitAudio(env: Env, s: Session, oldMessageId: int): Step<Dict> {
    WaitFor(env, s.(loops := s.loops + 1), AudioDecision(oldMessageId),
            QueryFailed("PROFILE_AUDIO_MESSAGE_SEND_TIMEOUT"), env.turns(s.loops))
  }

  /** The audio file of a sent message, empty when the message carries none. */
  function AudioFile(message: Dict): Dict {
    var content := DictOrEmpty(Get(message, "content"));
    if !HasType(content, "messageAudio") then map[]
    else DictOrEmpty(Get(DictOrEmpty(Get(content, "audio")), "audio"))
  }

  /** The queries of the upload up to the temporary id of the message to self; with the chat. */
  function RequestAudio(env: Env, s: Session, payload: Dict): Step<(int, int)> {
    var (s, chat) :- GetSavedMessagesChatId(env, s);
    if "asset_path" !in payload then Raise(s, MissingKey("asset_path"))
    else
      var (s, message) :- CheckedQuery(env, s, map[
        "@type" := JString("sendMessage"), "chat_id" := JInt(chat),
        "audio" := payload["asset_path"], "title" := Or(Get(payload, "title"), JString(""))]);
      var (s, oldMessageId) :- IntOf(env, s, Or(Get(message, "id"), JInt(0)));
      Done(s, (chat, oldMessageId))
  }

  function UploadAudio(env: Env, s: Session, payload: Dict): Step<Upload> {
    var (s, requested) :- RequestAudio(env, s, payload);
    var (s, sent) :- AwaitAudio(env, s, requested.1);
    var file := AudioFile(sent);
    if Get(file, "id") == JNull then Raise(s, QueryFailed("PROFILE_AUDIO_FILE_ID_MISSING"))
    else
      var (s, fileId) :- IntOf(env, s, file["id"]);
      Done(s, Upload(fileId, requested.0, Get(sent, "id")))
  }

  function DeleteQuery(chatId: int, messageId: int): Dict {
    map["@type" := JString("deleteMessages"), "chat_id" := JInt(chatId), "message_ids" := JList([JInt(messageId)]),
        "revoke" := JBool(true)]
  }

  /** The clean-up of the temporary message: whatever goes wrong in it is only logged. */
  function Cleanup(env: Env, s: Session, upload: Option<Upload>): Session {
    if upload.None? || upload.value.messageId == JNull then s
    else
      match IntOf(env, s, upload.value.messageId)
      case Raise(_, _) => s
      case Done(_, messageId) => CheckedQuery(env, s, DeleteQuery(upload.value.chatId, messageId)).session
  }

  // ----- the loops

  method WaitForStoryPostConfirmation(client: RealTdJsonClient, temporaryId: int) returns (result: Outcome<Dict>)
    modifies client`pendingEvents, client`position, client`delivered, client`loops
    ensures var step := AwaitStory(client.env, old(client.Now()), temporaryId);
            client.Now() == step.session && result == step.Outcome()
  {
    ghost var goal := AwaitStory(client.env, client.Now(), temporaryId);
    var turns := client.env.turns(client.loops);
    client.loops := client.loops + 1;
    var decide := StoryDecision(client.env, temporaryId);
    while turns > 0
      invariant WaitFor(client.env, client.Now(), decide, StoryUncertain(temporaryId), turns) == goal
    {
      turns := turns - 1;
      var received := client.Receive();
      if received.Raised? {
        return Raised(received.exn);
      }
      if received.value.Some? {
        var decision := decide(received.value.value);
        if decision.Some? {
          return decision.value;
        }
      }
    }
    return Raised(StoryUncertain(temporaryId));
  }

  method WaitForAudioMessageSendSucceeded(client: RealTdJsonClient, oldMessageId: int) returns (result: Outcome<Dict>)
    modifies client`pendingEvents, client`position, client`delivered, client`loops
    ensures var step := AwaitAudio(client.env, old(client.Now()), oldMessageId);
            client.Now() == step.session && result == step.Outcome()
  {
    ghost var goal := AwaitAudio(client.env, client.Now(), oldMessageId);
    var turns := client.env.turns(client.loops);
    client.loops := client.loops + 1;
    var decide := AudioDecision(oldMessageId);
    while turns > 0
      invariant WaitFor(client.env, client.Now(), decide, QueryFailed("PROFILE_AUDIO_MESSAGE_SEND_TIMEOUT"),
                        turns) == goal
    {
      turns := turns - 1;
      var received := client.Receive();
      if received.Raised? {
        return Raised(received.exn);
      }
      if received.value.Some? {
        var decision := decide(received.value.value);
        if decision.Some? {
          return decision.value;
        }
      }
    }
    return Raised(QueryFailed("PROFILE_AUDIO_MESSAGE_SEND_TIMEOUT"));
  }
}
