/**
 What a step of a profile plan asks TDLib and what it makes of the answers, said of the queries and
 replies themselves: which queries in which order, and with which replies it succeeds, fails or ends
 uncertain.
 */
module ProfileTranscripts {
  import opened Wrappers
  import opened Json
  import opened TdlibClient
  import opened ProfileQueries
  import opened ProfileConfirmations
  import opened ProfileTrace
  import opened ProfileExecution

  // ----- values as Python reads them

  /** `int(value)` is `n`. */
  ghost predicate IsInt(env: Env, value: Json, n: int) {
    || value == JInt(n) || (value == JBool(true) && n == 1) || (value == JBool(false) && n == 0)
    || (value.JString? && env.parseInt(value.s) == Some(n))
  }

  ghost predicate IntAt(env: Env, d: Dict, key: string, n: int) {
    key in d && IsInt(env, d[key], n)
  }

  /** `d.get(key) or default` */
  ghost function OrAt(d: Dict, key: string, default: Json): Json {
    if key in d && d[key] !in {JNull, JBool(false), JInt(0), JString(""), JList([]), JObject(map[])} then d[key]
    else default
  }

  lemma {:induction false} IntIsInt(env: Env, value: Json, n: int)
    ensures ToInt(env, value) == Returned(n) <==> IsInt(env, value, n)
  {
  }

  lemma {:induction false} OrIsOr(d: Dict, key: string, default: Json)
    ensures Or(Get(d, key), default) == OrAt(d, key, default)
  {
  }

  // ----- queries and replies

  /** One query is sent and answered by the reply, which is no error. */
  ghost predicate Exchanges(env: Env, s: Session, query: Dict, reply: Dict, t: Session) {
    QueryStep(env, s, query) == Done(t, reply) && !Has(reply, "@type", JString("error"))
  }

  lemma {:induction false} ExchangeIsChecked(env: Env, s: Session, query: Dict, reply: Dict, t: Session)
    ensures CheckedQuery(env, s, query) == Done(t, reply) <==> Exchanges(env, s, query, reply, t)
  {
  }

  ghost function Query(kind: string): Dict {
    map["@type" := JString(kind)]
  }

  /** The replies and ids with which the chat with oneself is found, and the session between the two queries. */
  datatype ChatSearch = ChatSearch(me: Dict, user: int, between: Session, reply: Dict, chat: int)

  /** Who am I, and the private chat with that user. */
  ghost predicate FindsChat(env: Env, s: Session, found: ChatSearch, t: Session) {
    var getMe := Query("getMe");
    var create := Query("createPrivateChat")["user_id" := JInt(found.user)]["force" := JBool(true)];
    && Exchanges(env, s, getMe, found.me, found.between) && IntAt(env, found.me, "id", found.user)
    && Exchanges(env, found.between, create, found.reply, t) && IntAt(env, found.reply, "id", found.chat)
  }

  lemma {:induction false} ChatIsFound(env: Env, s: Session) returns (found: ChatSearch)
    requires GetSavedMessagesChatId(env, s).Done?
    ensures var end := GetSavedMessagesChatId(env, s); FindsChat(env, s, found, end.session) && end.value == found.chat
  {
    var me := CheckedQuery(env, s, Query("getMe"));
    var user := ToInt(env, me.value["id"]).value;
    var create: Dict := map["@type" := JString("createPrivateChat"), "user_id" := JInt(user), "force" := JBool(true)];
    assert Query("createPrivateChat")["user_id" := JInt(user)]["force" := JBool(true)] == create;
    var reply := CheckedQuery(env, me.session, create);
    found := ChatSearch(me.value, user, me.session, reply.value, GetSavedMessagesChatId(env, s).value);
    IntIsInt(env, me.value["id"], user);
    IntIsInt(env, reply.value["id"], found.chat);
  }

  lemma {:induction false} FoundIsChat(env: Env, s: Session, found: ChatSearch, t: Session)
    requires FindsChat(env, s, found, t)
    ensures GetSavedMessagesChatId(env, s) == Done(t, found.chat)
  {
    var create: Dict :=
      map["@type" := JString("createPrivateChat"), "user_id" := JInt(found.user), "force" := JBool(true)];
    assert Query("createPrivateChat")["user_id" := JInt(found.user)]["force" := JBool(true)] == create;
    ExchangeIsChecked(env, s, Query("getMe"), found.me, found.between);
    ExchangeIsChecked(env, found.between, create, found.reply, t);
    IntIsInt(env, found.me["id"], found.user);
    IntIsInt(env, found.reply["id"], found.chat);
  }

  // ----- stories

  const STORY_STEPS := {"post_story_image", "post_story_video"}

  ghost predicate IsPrivacy(payload: Dict, settings: Dict) {
    var preset := if "privacy_preset" in payload then payload["privacy_preset"] else JNull;
    || (preset in {JNull, JString(""), JString("contacts")} && settings == Query("storyPrivacySettingsContacts"))
    || (preset == JString("public") && settings == Query("storyPrivacySettingsEveryone"))
    || (preset == JString("close_friends") && settings == Query("storyPrivacySettingsCloseFriends"))
  }

  ghost function MediaOf(stepType: string, path: Json): Dict {
    var file := JObject(Query("inputFileLocal")["path" := path]);
    if stepType == "post_story_image" then Query("inputStoryContentPhoto")["photo" := file]
    else Query("inputStoryContentVideo")["video" := file]
  }

  /** The query that posts the media of the payload to the chat. */
  ghost predicate IsStoryQuery(env: Env, chat: int, stepType: string, payload: Dict, query: Dict) {
    && "asset_path" in payload
    && exists privacy, period ::
         && IsPrivacy(payload, privacy) && IsInt(env, OrAt(payload, "active_period_seconds", JInt(86400)), period)
         && query == map[
              "@type" := JString("postStory"), "chat_id" := JInt(chat),
              "content" := JObject(MediaOf(stepType, payload["asset_path"])),
              "caption" := OrAt(payload, "caption", JString("")), "privacy_settings" := JObject(privacy),
              "active_period" := JInt(period),
              "protect_content" := JBool(OrAt(payload, "protect_content", JNull) != JNull)]
  }

  lemma {:induction false} PrivacyExactly(payload: Dict)
    ensures match PrivacySettings(Get(payload, "privacy_preset"))
            case Returned(settings) => IsPrivacy(payload, settings)
            case Raised(_) => forall settings :: !IsPrivacy(payload, settings)
    ensures forall a, b :: IsPrivacy(payload, a) && IsPrivacy(payload, b) ==> a == b
  {
  }

  lemma {:induction false} ContentExactly(stepType: string, path: Json)
    ensures StoryContent(stepType, path) == MediaOf(stepType, path)
  {
    assert map["@type" := JString("inputFileLocal"), "path" := path] == Query("inputFileLocal")["path" := path];
  }

  lemma {:induction false} StoryQueryExactly(env: Env, chat: int, stepType: string, payload: Dict, query: Dict)
    ensures StoryQuery(env, chat, stepType, payload) == Returned(query)
            <==> IsStoryQuery(env, chat, stepType, payload, query)
  {
    PrivacyExactly(payload);
    OrIsOr(payload, "active_period_seconds", JInt(86400));
    OrIsOr(payload, "caption", JString(""));
    var period := ToInt(env, OrAt(payload, "active_period_seconds", JInt(86400)));
    forall n
      ensures period == Returned(n) <==> IsInt(env, OrAt(payload, "active_period_seconds", JInt(86400)), n)
    {
      IntIsInt(env, OrAt(payload, "active_period_seconds", JInt(86400)), n);
    }
    if "asset_path" in payload {
      ContentExactly(stepType, payload["asset_path"]);
      assert Truthy(Get(payload, "protect_content")) <==> OrAt(payload, "protect_content", JNull) != JNull;
    }
  }

  /** The exchange with which a story is requested. */
  datatype StoryRequest = StoryRequest(
    search: ChatSearch, found: Session, permission: Dict, allowed: Session, query: Dict, accepted: Dict, id: int)

  /** The chat is found, posting to it is allowed, and the story is accepted under a temporary id. */
  ghost predicate RequestsStory(env: Env, s: Session, stepType: string, payload: Dict, r: StoryRequest, t: Session) {
    && FindsChat(env, s, r.search, r.found)
    && Exchanges(env, r.found, Query("canPostStory")["chat_id" := JInt(r.search.chat)], r.permission, r.allowed)
    && Has(r.permission, "@type", JString("canPostStoryResultOk"))
    && IsStoryQuery(env, r.search.chat, stepType, payload, r.query)
    && Exchanges(env, r.allowed, r.query, r.accepted, t) && IntAt(env, r.accepted, "id", r.id)
  }

  lemma {:induction false} StoryIsRequested(env: Env, s: Session, stepType: string, payload: Dict)
    returns (r: StoryRequest)
    requires RequestStory(env, s, stepType, payload).Done?
    ensures var end := RequestStory(env, s, stepType, payload);
            RequestsStory(env, s, stepType, payload, r, end.session) && end.value == r.id
  {
    var search := ChatIsFound(env, s);
    var found := GetSavedMessagesChatId(env, s).session;
    var canPost: Dict := map["@type" := JString("canPostStory"), "chat_id" := JInt(search.chat)];
    assert Query("canPostStory")["chat_id" := JInt(search.chat)] == canPost;
    var permission := CheckedQuery(env, found, canPost);
    var query := StoryQuery(env, search.chat, stepType, payload).value;
    StoryQueryExactly(env, search.chat, stepType, payload, query);
    var accepted := CheckedQuery(env, permission.session, query);
    r := StoryRequest(search, found, permission.value, permission.session, query, accepted.value,
                      RequestStory(env, s, stepType, payload).value);
    IntIsInt(env, accepted.value["id"], r.id);
  }

  lemma {:induction false} RequestIsStory(env: Env, s: Session, stepType: string, payload: Dict, r: StoryRequest,
      t: Session)
    requires RequestsStory(env, s, stepType, payload, r, t)
    ensures RequestStory(env, s, stepType, payload) == Done(t, r.id)
  {
    FoundIsChat(env, s, r.search, r.found);
    var canPost: Dict := map["@type" := JString("canPostStory"), "chat_id" := JInt(r.search.chat)];
    assert Query("canPostStory")["chat_id" := JInt(r.search.chat)] == canPost;
    ExchangeIsChecked(env, r.found, canPost, r.permission, r.allowed);
    StoryQueryExactly(env, r.search.chat, stepType, payload, r.query);
    ExchangeIsChecked(env, r.allowed, r.query, r.accepted, t);
    IntIsInt(env, r.accepted["id"], r.id);
  }

  // ----- what a request lacks

  ghost predicate Lacks(d: Dict, key: string) {
    key !in d || d[key] == JNull
  }

  /** Without the own id, neither a story nor an audio file is requested. */
  lemma {:induction false} OwnIdIsMissing(env: Env, s: Session, stepType: string, payload: Dict, me: Dict, t: Session)
    requires Exchanges(env, s, Query("getMe"), me, t) && Lacks(me, "id")
    ensures RequestStory(env, s, stepType, payload) == Raise(t, QueryFailed("TDLIB_GET_ME_MISSING_ID"))
    ensures RequestAudio(env, s, payload) == Raise(t, QueryFailed("TDLIB_GET_ME_MISSING_ID"))
  {
    ExchangeIsChecked(env, s, Query("getMe"), me, t);
  }

  /** Nor without the id of the chat with oneself. */
  lemma {:induction false} ChatIdIsMissing(env: Env, s: Session, stepType: string, payload: Dict, me: Dict, user: int,
      t: Session, chat: Dict, u: Session)
    requires Exchanges(env, s, Query("getMe"), me, t) && IntAt(env, me, "id", user) && Lacks(chat, "id")
    requires Exchanges(env, t, Query("createPrivateChat")["user_id" := JInt(user)]["force" := JBool(true)], chat, u)
    ensures RequestStory(env, s, stepType, payload) == Raise(u, QueryFailed("TDLIB_SAVED_MESSAGES_CHAT_MISSING_ID"))
    ensures RequestAudio(env, s, payload) == Raise(u, QueryFailed("TDLIB_SAVED_MESSAGES_CHAT_MISSING_ID"))
  {
    var create: Dict := map["@type" := JString("createPrivateChat"), "user_id" := JInt(user), "force" := JBool(true)];
    assert Query("createPrivateChat")["user_id" := JInt(user)]["force" := JBool(true)] == create;
    ExchangeIsChecked(env, s, Query("getMe"), me, t);
    ExchangeIsChecked(env, t, create, chat, u);
    IntIsInt(env, me["id"], user);
  }

  /** A chat that takes no story raises the code of the refusal. */
  lemma {:induction false} StoryIsNotAllowed(env: Env, s: Session, stepType: string, payload: Dict, search: ChatSearch,
      found: Session, refusal: Dict, t: Session)
    requires FindsChat(env, s, search, found) && !Has(refusal, "@type", JString("canPostStoryResultOk"))
    requires Exchanges(env, found, Query("canPostStory")["chat_id" := JInt(search.chat)], refusal, t)
    ensures RequestStory(env, s, stepType, payload) == Raise(t, QueryFailed(env.errorCode(refusal)))
  {
    FoundIsChat(env, s, search, found);
    var canPost: Dict := map["@type" := JString("canPostStory"), "chat_id" := JInt(search.chat)];
    assert Query("canPostStory")["chat_id" := JInt(search.chat)] == canPost;
    ExchangeIsChecked(env, found, canPost, refusal, t);
  }

  /** A story whose chat takes it, but not with the privacy it asks for. */
  lemma {:induction false} PrivacyIsUnknown(env: Env, s: Session, stepType: string, payload: Dict, search: ChatSearch,
      found: Session, permission: Dict, t: Session)
    requires FindsChat(env, s, search, found) && Has(permission, "@type", JString("canPostStoryResultOk"))
    requires Exchanges(env, found, Query("canPostStory")["chat_id" := JInt(search.chat)], permission, t)
    requires "asset_path" in payload && "privacy_preset" in payload
    requires match payload["privacy_preset"]
             case JString(preset) => preset !in {"", "contacts", "public", "close_friends"}
             case JInt(_) => true
             case JBool(_) => true
             case _ => false
    ensures RequestStory(env, s, stepType, payload) == Raise(t, QueryFailed("STORY_PRIVACY_PRESET_UNSUPPORTED"))
  {
    FoundIsChat(env, s, search, found);
    var canPost: Dict := map["@type" := JString("canPostStory"), "chat_id" := JInt(search.chat)];
    assert Query("canPostStory")["chat_id" := JInt(search.chat)] == canPost;
    ExchangeIsChecked(env, found, canPost, permission, t);
  }

  /** A story accepted without an id cannot be waited for. */
  lemma {:induction false} StoryIdIsMissing(env: Env, s: Session, query: Dict, accepted: Dict, t: Session)
    requires Exchanges(env, s, query, accepted, t) && Lacks(accepted, "id")
    ensures SubmitStory(env, s, query) == Raise(t, QueryFailed("STORY_POST_TEMPORARY_ID_MISSING"))
  {
    ExchangeIsChecked(env, s, query, accepted, t);
  }

  // ----- audio

  datatype AudioRequest = AudioRequest(search: ChatSearch, found: Session, message: Dict, id: int)

  /** The chat is found, and the message that carries the asset is accepted under a temporary id, or none. */
  ghost predicate RequestsAudio(env: Env, s: Session, payload: Dict, r: AudioRequest, t: Session) {
    && "asset_path" in payload && FindsChat(env, s, r.search, r.found)
    && Exchanges(env, r.found,
            Query("sendMessage")["chat_id" := JInt(r.search.chat)]["audio" := payload["asset_path"]]["title" :=
              OrAt(payload, "title", JString(""))], r.message, t)
    && IsInt(env, OrAt(r.message, "id", JInt(0)), r.id)
  }

  ghost function SendQuery(payload: Dict, chat: int): Dict
    requires "asset_path" in payload
  {
    map["@type" := JString("sendMessage"), "chat_id" := JInt(chat), "audio" := payload["asset_path"],
        "title" := Or(Get(payload, "title"), JString(""))]
  }

  lemma {:induction false} SendQueryIs(payload: Dict, chat: int)
    requires "asset_path" in payload
    ensures SendQuery(payload, chat)
            == Query("sendMessage")["chat_id" := JInt(chat)]["audio" := payload["asset_path"]]["title" :=
                 OrAt(payload, "title", JString(""))]
  {
    OrIsOr(payload, "title", JString(""));
  }

  lemma {:induction false} AudioIsRequested(env: Env, s: Session, payload: Dict) returns (r: AudioRequest)
    requires RequestAudio(env, s, payload).Done?
    ensures var end := RequestAudio(env, s, payload);
            RequestsAudio(env, s, payload, r, end.session) && end.value == (r.search.chat, r.id)
  {
    var search := ChatIsFound(env, s);
    var found := GetSavedMessagesChatId(env, s).session;
    SendQueryIs(payload, search.chat);
    var message := CheckedQuery(env, found, SendQuery(payload, search.chat));
    r := AudioRequest(search, found, message.value, RequestAudio(env, s, payload).value.1);
    OrIsOr(message.value, "id", JInt(0));
    IntIsInt(env, OrAt(message.value, "id", JInt(0)), r.id);
  }

  lemma {:induction false} RequestIsAudio(env: Env, s: Session, payload: Dict, r: AudioRequest, t: Session)
    requires RequestsAudio(env, s, payload, r, t)
    ensures RequestAudio(env, s, payload) == Done(t, (r.search.chat, r.id))
  {
    FoundIsChat(env, s, r.search, r.found);
    SendQueryIs(payload, r.search.chat);
    ExchangeIsChecked(env, r.found, SendQuery(payload, r.search.chat), r.message, t);
    OrIsOr(r.message, "id", JInt(0));
    IntIsInt(env, OrAt(r.message, "id", JInt(0)), r.id);
  }

  // ----- the pinned channel

  ghost predicate AllAre(s: string, drop: char -> bool) {
    forall i :: 0 <= i < |s| ==> drop(s[i])
  }

  lemma {:induction false} TrimLeftExactly(before: string, rest: string, drop: char -> bool)
    requires AllAre(before, drop) && (rest == "" || !drop(rest[0]))
    ensures TrimLeft(before + rest, drop) == rest
  {
    if before == "" {
      assert before + rest == rest;
    } else {
      assert (before + rest)[1..] == before[1..] + rest;
      TrimLeftExactly(before[1..], rest, drop);
    }
  }

  lemma {:induction false} TrimRightExactly(rest: string, after: string, drop: char -> bool)
    requires AllAre(after, drop) && (rest == "" || !drop(rest[|rest| - 1]))
    ensures TrimRight(rest + after, drop) == rest
  {
    if after == "" {
      assert rest + after == rest;
    } else {
      assert (rest + after)[..|rest + after| - 1] == rest + after[..|after| - 1];
      TrimRightExactly(rest, after[..|after| - 1], drop);
    }
  }

  const SPACE: char -> bool := c => c == ' ' || c == '\t' || c == '\n' || c == '\r'
  const AT_SIGN: char -> bool := c => c == '@'
  const DASH: char -> bool := c => c == '-'
  const DIGIT: char -> bool := c => '0' <= c <= '9'

  /** The text is the reference, with white space around it and none at its ends. */
  ghost predicate IsStripped(text: string, before: string, ref: string, after: string) {
    && text == before + ref + after && AllAre(before, SPACE) && AllAre(after, SPACE)
    && (ref == "" ==> after == "") && (ref != "" ==> !SPACE(ref[0]) && !SPACE(ref[|ref| - 1]))
  }

  lemma {:induction false} StripExactly(text: string, before: string, ref: string, after: string)
    requires IsStripped(text, before, ref, after)
    ensures TrimRight(TrimLeft(text, IsSpace), IsSpace) == ref
  {
    assert AllAre(before, IsSpace) && AllAre(after, IsSpace);
    assert text == before + (ref + after);
    TrimLeftExactly(before, ref + after, IsSpace);
    TrimRightExactly(ref, after, IsSpace);
  }

  lemma {:induction false} TrimLeftSplits(s: string, drop: char -> bool) returns (before: string)
    ensures s == before + TrimLeft(s, drop) && AllAre(before, drop)
    ensures TrimLeft(s, drop) != "" ==> !drop(TrimLeft(s, drop)[0])
  {
    before := "";
    if s != "" && drop(s[0]) {
      var more := TrimLeftSplits(s[1..], drop);
      before := [s[0]] + more;
    }
  }

  lemma {:induction false} TrimRightSplits(s: string, drop: char -> bool) returns (after: string)
    ensures s == TrimRight(s, drop) + after && AllAre(after, drop)
    ensures TrimRight(s, drop) != "" ==> !drop(TrimRight(s, drop)[|TrimRight(s, drop)| - 1])
  {
    after := "";
    if s != "" && drop(s[|s| - 1]) {
      var more := TrimRightSplits(s[..|s| - 1], drop);
      after := more + [s[|s| - 1]];
    }
  }

  /** Every text strips to something. */
  lemma {:induction false} StripSplits(text: string) returns (before: string, after: string)
    ensures IsStripped(text, before, TrimRight(TrimLeft(text, IsSpace), IsSpace), after)
  {
    before := TrimLeftSplits(text, IsSpace);
    after := TrimRightSplits(TrimLeft(text, IsSpace), IsSpace);
    assert AllAre(before, SPACE) && AllAre(after, SPACE);
  }

  /** The chat is set as the personal channel, or the error of TDLib is raised. */
  ghost function SetsChat(env: Env, s: Session, chat: int): Step<Option<string>> {
    var (s, _) :- CheckedQuery(env, s, Query("setPersonalChat")["chat_id" := JInt(chat)]);
    Done(s, None)
  }

  lemma {:induction false} PersonalChatIs(chat: int)
    ensures SetPersonalChat(chat) == Query("setPersonalChat")["chat_id" := JInt(chat)]
  {
  }

  /** An empty reference clears the channel. */
  lemma {:induction false} EmptyChannelClears(env: Env, s: Session, payload: Dict, text: string)
    requires OrAt(payload, "pinned_channel_ref", JString("")) == JString(text) && AllAre(text, SPACE)
    ensures SetPinnedChannel(env, s, payload) == SetsChat(env, s, 0)
  {
    OrIsOr(payload, "pinned_channel_ref", JString(""));
    StripExactly(text, text, "", "");
    PersonalChatIs(0);
  }

  /** Digits, with dashes before them or not, are the id of the channel. */
  lemma {:induction false} ChannelById(env: Env, s: Session, payload: Dict, text: string, before: string,
                                       dashes: string,
      digits: string, after: string, chat: int)
    requires OrAt(payload, "pinned_channel_ref", JString("")) == JString(text)
    requires IsStripped(text, before, dashes + digits, after)
    requires AllAre(dashes, DASH) && digits != "" && AllAre(digits, DIGIT) && IsInt(env, JString(dashes + digits), chat)
    ensures SetPinnedChannel(env, s, payload) == SetsChat(env, s, chat)
  {
    OrIsOr(payload, "pinned_channel_ref", JString(""));
    StripExactly(text, before, dashes + digits, after);
    DigitsAreId(dashes, digits);
    IntIsInt(env, JString(dashes + digits), chat);
    PersonalChatIs(chat);
  }

  lemma {:induction false} DigitsAreId(dashes: string, digits: string)
    requires AllAre(dashes, DASH) && digits != "" && AllAre(digits, DIGIT)
    ensures var ref := dashes + digits; ref != "" && ref[0] != '@' && IsDigits(TrimLeft(ref, IsDash))
  {
    assert AllAre(dashes, IsDash) && digits[0] != '-';
    TrimLeftExactly(dashes, digits, IsDash);
    assert (dashes + digits)[0] == if dashes == "" then digits[0] else dashes[0];
  }

  /** `@name` is looked up, and its id is set if it is a chat. */
  lemma {:induction false} ChannelByName(env: Env, s: Session, payload: Dict, text: string, before: string, ats: string,
      name: string, after: string)
    requires OrAt(payload, "pinned_channel_ref", JString("")) == JString(text)
    requires IsStripped(text, before, ats + name, after)
    requires ats != "" && AllAre(ats, AT_SIGN) && (name == "" || name[0] != '@')
    ensures SetPinnedChannel(env, s, payload)
            == if name == "" then Done(s, Some("invalid_channel_ref"))
               else FindsChannel(env, QueryStep(env, s, Query("searchPublicChat")["username" := JString(name)]))
  {
    OrIsOr(payload, "pinned_channel_ref", JString(""));
    StripExactly(text, before, ats + name, after);
    assert AllAre(ats, IsAt);
    TrimLeftExactly(ats, name, IsAt);
    NamedChannelIsFound(env, s, name);
  }

  lemma {:induction false} NamedChannelIsFound(env: Env, s: Session, name: string)
    ensures SetPinnedPublicChannel(env, s, name)
            == if name == "" then Done(s, Some("invalid_channel_ref"))
               else FindsChannel(env, QueryStep(env, s, Query("searchPublicChat")["username" := JString(name)]))
  {
    var search: Dict := map["@type" := JString("searchPublicChat"), "username" := JString(name)];
    assert Query("searchPublicChat")["username" := JString(name)] == search;
    var found := QueryStep(env, s, search);
    if found.Done? && "id" in found.value && ToInt(env, found.value["id"]).Returned? {
      PersonalChatIs(ToInt(env, found.value["id"]).value);
    }
  }

  /** What becomes of a search: the chat found is set, and anything else is no channel. */
  ghost function FindsChannel(env: Env, found: Step<Dict>): Step<Option<string>> {
    var (s, reply) :- found;
    if Has(reply, "@type", JString("chat")) && OrAt(reply, "id", JNull) != JNull then
      var (s, chat) :- IntOf(env, s, reply["id"]);
      SetsChat(env, s, chat)
    else Done(s, Some("pinned_channel_not_found"))
  }

  /** Anything else is no reference, and nothing is asked. */
  lemma {:induction false} NoChannel(env: Env, s: Session, payload: Dict, text: string, before: string, dashes: string,
      ref: string, after: string)
    requires OrAt(payload, "pinned_channel_ref", JString("")) == JString(text)
    requires IsStripped(text, before, dashes + ref, after) && dashes + ref != "" && AllAre(dashes, DASH)
    requires (ref == "" || ref[0] != '-') && (dashes == "" ==> ref[0] != '@') && (ref == "" || !AllAre(ref, DIGIT))
    ensures SetPinnedChannel(env, s, payload) == Done(s, Some("invalid_channel_ref"))
  {
    OrIsOr(payload, "pinned_channel_ref", JString(""));
    StripExactly(text, before, dashes + ref, after);
    assert AllAre(dashes, IsDash);
    TrimLeftExactly(dashes, ref, IsDash);
    assert IsDigits(ref) ==> AllAre(ref, DIGIT);
  }
}
