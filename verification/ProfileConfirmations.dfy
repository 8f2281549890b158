/**
 No confirmation is lost: the wait that follows a request sees every event that arrived since the
 request began, those included that came in before the reply to the request, and in that order.
 */
module ProfileConfirmations {
  import opened Wrappers
  import opened Json
  import opened TdlibClient
  import opened TdlibDemux
  import opened ProfileQueries

  /** Queries only: nothing was delivered, and everything else that arrived is buffered. */
  ghost predicate OnlyQueried(env: Env, s: Session, t: Session) {
    && s.position <= t.position && t.delivered == s.delivered
    && s.matched <= t.matched && (forall i :: i in t.matched - s.matched ==> s.position <= i < t.position)
    && t.pending == s.pending + Updates(env, s.position, t.position, t.matched - s.matched)
  }

  lemma {:induction false} QueryOnlyQueries(env: Env, s: Session, query: Dict)
    requires WellFormed(s) && AllNonEmpty(s.pending)
    ensures var t := QueryStep(env, s, query).session; OnlyQueried(env, s, t) && WellFormed(t) && AllNonEmpty(t.pending)
  {
    var t := QueryStep(env, s, query).session;
    QueryFollows(env, s, query);
    FollowsKeepsForm(env, s, t);
    AwaitBuffersNonEmpty(env, Asked(env, s, query), env.uuid(s.queries), env.turns(s.loops));
    AwaitDeliversNothing(env, Asked(env, s, query), env.uuid(s.queries), env.turns(s.loops));
    AllNonEmptyUnchanged(s.pending);
    AllNonEmptyUnchanged(t.pending);
    assert t.delivered[|s.delivered|..] == [];
  }

  lemma {:induction false} AwaitDeliversNothing(env: Env, s: Session, extra: string, turns: nat)
    ensures AwaitReply(env, s, extra, turns).session.delivered == s.delivered
    decreases turns
  {
    if turns > 0 && !Ends(env.raw(s.position), extra) {
      AwaitDeliversNothing(env, PassedOver(env, s), extra, turns - 1);
    }
  }

  lemma {:induction false} OnlyQueriedJoin(env: Env, s: Session, t: Session, u: Session)
    requires OnlyQueried(env, s, t) && OnlyQueried(env, t, u)
    ensures OnlyQueried(env, s, u)
  {
    forall i | i in u.matched - s.matched
      ensures i in u.matched - t.matched || i in t.matched - s.matched
    {
    }
    var matched := u.matched - s.matched;
    UpdatesJoin(env, s.position, t.position, u.position, matched);
    UpdatesAgree(env, s.position, t.position, t.matched - s.matched, matched);
    UpdatesAgree(env, t.position, u.position, u.matched - t.matched, matched);
    Regroup(s.pending, Updates(env, s.position, t.position, matched), Updates(env, t.position, u.position, matched));
  }

  /** A state from which the claims below hold: matches in the past, no empty event buffered. */
  ghost predicate Good(s: Session) {
    WellFormed(s) && AllNonEmpty(s.pending)
  }

  /** A call that only queries, and whose failures are never the uncertain outcome of a story. */
  ghost predicate Asks<T>(env: Env, s: Session, end: Step<T>) {
    && OnlyQueried(env, s, end.session) && Good(end.session)
    && (end.Raise? ==> !end.exn.StoryUncertain?)
  }

  lemma {:induction false} AwaitNotUncertain(env: Env, s: Session, extra: string, turns: nat)
    ensures var end := AwaitReply(env, s, extra, turns); end.Raise? ==> !end.exn.StoryUncertain?
    decreases turns
  {
    if turns > 0 && !Ends(env.raw(s.position), extra) {
      AwaitNotUncertain(env, PassedOver(env, s), extra, turns - 1);
    }
  }

  /** One more query after others. */
  lemma {:induction false} ThenQuery(env: Env, s: Session, t: Session, query: Dict)
    requires Good(t) && OnlyQueried(env, s, t)
    ensures Asks(env, s, CheckedQuery(env, t, query))
  {
    QueryOnlyQueries(env, t, query);
    OnlyQueriedJoin(env, s, t, QueryStep(env, t, query).session);
    AwaitNotUncertain(env, Asked(env, t, query), env.uuid(t.queries), env.turns(t.loops));
  }

  lemma {:induction false} ChatIdAsks(env: Env, s: Session)
    requires Good(s)
    ensures Asks(env, s, GetSavedMessagesChatId(env, s))
  {
    var getMe: Dict := map["@type" := JString("getMe")];
    var me := CheckedQuery(env, s, getMe);
    assert OnlyQueried(env, s, s);
    ThenQuery(env, s, s, getMe);
    if me.Done? && Get(me.value, "id") != JNull {
      var user := IntOf(env, me.session, me.value["id"]);
      if user.Done? {
        ThenQuery(env, s, me.session,
                  map["@type" := JString("createPrivateChat"), "user_id" := JInt(user.value), "force" := JBool(true)]);
      }
    }
  }

  lemma {:induction false} RequestStoryAsks(env: Env, s: Session, stepType: string, payload: Dict)
    requires Good(s)
    ensures Asks(env, s, RequestStory(env, s, stepType, payload))
  {
    ChatIdAsks(env, s);
    var chat := GetSavedMessagesChatId(env, s);
    if chat.Done? {
      ThenQuery(env, s, chat.session, map["@type" := JString("canPostStory"), "chat_id" := JInt(chat.value)]);
      var allowed := EnsureCanPostStory(env, chat.session, chat.value);
      assert Asks(env, s, allowed);
      if allowed.Done? {
        StoryQueryNotUncertain(env, chat.value, stepType, payload);
        var query := StoryQuery(env, chat.value, stepType, payload);
        if query.Returned? {
          ThenQuery(env, s, allowed.session, query.value);
        }
      }
    }
  }

  lemma {:induction false} StoryQueryNotUncertain(env: Env, chat: int, stepType: string, payload: Dict)
    ensures var query := StoryQuery(env, chat, stepType, payload); query.Raised? ==> !query.exn.StoryUncertain?
  {
  }

  lemma {:induction false} RequestAudioAsks(env: Env, s: Session, payload: Dict)
    requires Good(s)
    ensures Asks(env, s, RequestAudio(env, s, payload))
  {
    ChatIdAsks(env, s);
    var chat := GetSavedMessagesChatId(env, s);
    if chat.Done? && "asset_path" in payload {
      ThenQuery(env, s, chat.session, map[
        "@type" := JString("sendMessage"), "chat_id" := JInt(chat.value),
        "audio" := payload["asset_path"], "title" := Or(Get(payload, "title"), JString(""))]);
    }
  }

  // ----- the wait

  /** The events a wait starting in `s` reads, in order, up to the native receive `horizon`. */
  function Upcoming(env: Env, s: Session, horizon: nat): seq<Dict> {
    s.pending + Updates(env, s.position, horizon, {})
  }

  ghost predicate FirstDecisive(events: seq<Dict>, decide: Dict -> Decision, k: nat) {
    k < |events| && decide(events[k]).Some? && forall i :: 0 <= i < k ==> decide(events[i]).None?
  }

  /** Readable up to the horizon, and turns enough to get there. */
  ghost predicate Reaches(env: Env, s: Session, turns: nat, horizon: nat) {
    && s.position <= horizon && (forall i :: s.position <= i < horizon ==> !env.raw(i).Malformed?)
    && |s.pending| + (horizon - s.position) <= turns
  }

  lemma {:induction false} FirstDecisiveTail(events: seq<Dict>, tail: seq<Dict>, head: Dict, decide: Dict -> Decision,
        k: nat)
    requires events == [head] + tail && FirstDecisive(events, decide, k) && decide(head).None?
    ensures k > 0 && FirstDecisive(tail, decide, k - 1) && events[k] == tail[k - 1]
  {
    forall i | 0 <= i < k - 1
      ensures decide(tail[i]).None?
    {
      assert events[i + 1] == tail[i];
    }
  }

  /** With nothing buffered, the next native receive brings the next upcoming event, if any. */
  lemma {:induction false} UpcomingUnfolds(env: Env, s: Session, horizon: nat)
    requires s.pending == [] && s.position < horizon && !env.raw(s.position).Malformed?
    ensures var (raw, after) := (env.raw(s.position), ReceiveStep(env, s).session);
            Upcoming(env, s, horizon) == if IsUpdate(raw) then [raw.dict] + Upcoming(env, after, horizon)
              else Upcoming(env, after, horizon)
  {
    UpdatesJoin(env, s.position, s.position + 1, horizon, {});
    assert Updates(env, s.position, s.position, {}) == [];
  }

  /** The first decisive event among those buffered and those to come decides the wait. */
  lemma {:induction false} WaitFindsFirst(env: Env, s: Session, decide: Dict -> Decision, expired: Exn, turns: nat,
        horizon: nat, k: nat)
    requires decide(map[]).None? && Reaches(env, s, turns, horizon)
    requires FirstDecisive(Upcoming(env, s, horizon), decide, k)
    ensures WaitFor(env, s, decide, expired, turns).Outcome() == decide(Upcoming(env, s, horizon)[k]).value
    decreases turns
  {
    var events := Upcoming(env, s, horizon);
    var after := ReceiveStep(env, s).session;
    if s.pending != [] {
      NextIsFirst(env, s, decide, expired, turns, horizon, k, s.pending[0]);
    } else {
      assert s.position < horizon;
      UpcomingUnfolds(env, s, horizon);
      var raw := env.raw(s.position);
      if IsUpdate(raw) {
        NextIsFirst(env, s, decide, expired, turns, horizon, k, raw.dict);
      } else {
        WaitFindsFirst(env, after, decide, expired, turns - 1, horizon, k);
      }
    }
  }

  lemma {:induction false} NextIsFirst(env: Env, s: Session, decide: Dict -> Decision, expired: Exn, turns: nat,
        horizon: nat, k: nat, next: Dict)
    requires decide(map[]).None? && turns > 0
    requires var received := ReceiveStep(env, s);
             && received.Done? && received.value == Some(next) && Reaches(env, received.session, turns - 1, horizon)
             && Upcoming(env, s, horizon) == [next] + Upcoming(env, received.session, horizon)
    requires FirstDecisive(Upcoming(env, s, horizon), decide, k)
    ensures WaitFor(env, s, decide, expired, turns).Outcome() == decide(Upcoming(env, s, horizon)[k]).value
    decreases turns, 0
  {
    var after := ReceiveStep(env, s).session;
    assert Upcoming(env, s, horizon)[0] == next;
    if decide(next).None? {
      FirstDecisiveTail(Upcoming(env, s, horizon), Upcoming(env, after, horizon), next, decide, k);
      WaitFindsFirst(env, after, decide, expired, turns - 1, horizon, k - 1);
    }
  }

  /** A wait that was delivered `read` ended as it should. */
  ghost predicate EndsRightly(read: seq<Dict>, decide: Dict -> Decision, expired: Exn, outcome: Outcome<Dict>) {
    || (read != [] && FirstDecisive(read, decide, |read| - 1) && outcome == decide(read[|read| - 1]).value)
    || ((forall i :: 0 <= i < |read| ==> decide(read[i]).None?) && outcome in {Raised(expired), Raised(BadJson)})
  }

  /**
   What a wait can end with: the decision of the last event it was delivered, the only decisive one;
   or no decision, and then none of the events it was delivered was decisive.
   */
  lemma {:induction false} WaitOutcome(env: Env, s: Session, decide: Dict -> Decision, expired: Exn,
        turns: nat) returns (read: seq<Dict>)
    ensures var end := WaitFor(env, s, decide, expired, turns);
            end.session.delivered == s.delivered + read && EndsRightly(read, decide, expired, end.Outcome())
    decreases turns
  {
    read := [];
    if turns > 0 {
      var first := ReceiveStep(env, s);
      if first.Done? && first.value.Some? {
        read := [first.value.value];
      }
      if first.Done? && (first.value.None? || decide(first.value.value).None?) {
        var rest := WaitOutcome(env, first.session, decide, expired, turns - 1);
        UndecidedThen(read, rest, decide, expired, WaitFor(env, s, decide, expired, turns).Outcome());
        read := read + rest;
      }
    }
  }

  lemma {:induction false} UndecidedThen(read: seq<Dict>, rest: seq<Dict>, decide: Dict -> Decision, expired: Exn,
        outcome: Outcome<Dict>)
    requires (forall i :: 0 <= i < |read| ==> decide(read[i]).None?) && EndsRightly(rest, decide, expired, outcome)
    ensures EndsRightly(read + rest, decide, expired, outcome)
  {
  }

  // ----- what an event says of a pending story or message, in TDLib's own fields

  ghost predicate Has(d: Dict, key: string, value: Json) {
    key in d && d[key] == value
  }

  /** The value under the key is the number, as Python compares them. */
  ghost predicate Numbers(d: Dict, key: string, n: int) {
    key in d && (d[key] == JInt(n) || (d[key] == JBool(true) && n == 1) || (d[key] == JBool(false) && n == 0))
  }

  /** The story of this temporary id was posted, as `story`. */
  ghost predicate StoryPosted(event: Dict, id: int, story: Dict) {
    && Has(event, "@type", JString("updateStoryPostSucceeded")) && Numbers(event, "old_story_id", id)
    && Has(event, "story", JObject(story)) && story != map[]
  }

  /** The story of this temporary id was turned down. */
  ghost predicate StoryRejected(event: Dict, id: int) {
    && Has(event, "@type", JString("updateStoryPostFailed"))
    && exists story :: Has(event, "story", JObject(story)) && Numbers(story, "id", id)
  }

  ghost predicate SaysNothingOfStory(event: Dict, id: int) {
    !StoryRejected(event, id) && forall story :: !StoryPosted(event, id, story)
  }

  ghost function ErrorOf(event: Dict): Dict {
    if "error" in event && event["error"].JObject? then event["error"].fields else map[]
  }

  /** The message of this temporary id was sent, as `message`. */
  ghost predicate AudioSent(event: Dict, id: int, message: Dict) {
    && Has(event, "@type", JString("updateMessageSendSucceeded")) && Numbers(event, "old_message_id", id)
    && Has(event, "message", JObject(message)) && message != map[]
  }

  /** The message of this temporary id could not be sent. */
  ghost predicate AudioFailed(event: Dict, id: int) {
    Has(event, "@type", JString("updateMessageSendFailed")) && Numbers(event, "old_message_id", id)
  }

  ghost predicate SaysNothingOfAudio(event: Dict, id: int) {
    !AudioFailed(event, id) && forall message :: !AudioSent(event, id, message)
  }

  lemma {:induction false} StoryDecides(env: Env, id: int, event: Dict)
    ensures forall story :: StoryDecision(env, id)(event) == Some(Returned(story)) <==> StoryPosted(event, id, story)
    ensures forall exn :: StoryDecision(env, id)(event) == Some(Raised(exn))
              <==> StoryRejected(event, id) && exn == QueryFailed(env.errorCode(ErrorOf(event)))
    ensures StoryDecision(env, id)(event) == None <==> SaysNothingOfStory(event, id)
  {
    var story := DictOrEmpty(Get(event, "story"));
    assert |"updateStoryPostSucceeded"| != |"updateStoryPostFailed"|
      && ErrorOf(event) == DictOrEmpty(Get(event, "error"));
    assert HasType(event, "updateStoryPostSucceeded") ==> !StoryRejected(event, id);
    assert StoryDecision(env, id)(event) == None || StoryDecision(env, id)(event) == Some(Returned(story))
      || StoryDecision(env, id)(event) == Some(Raised(QueryFailed(env.errorCode(ErrorOf(event)))));
    if "story" in event && event["story"].JObject? {
      assert Has(event, "story", JObject(story));
      assert StoryPosted(event, id, story)
        <==> HasType(event, "updateStoryPostSucceeded") && EqualsInt(Get(event, "old_story_id"), id) && story != map[];
      assert Numbers(story, "id", id) <==> EqualsInt(Get(story, "id"), id);
      assert StoryRejected(event, id) <==> HasType(event, "updateStoryPostFailed") && EqualsInt(Get(story, "id"), id);
    } else {
      assert story == map[] && !EqualsInt(Get(story, "id"), id) && !StoryRejected(event, id);
    }
  }

  lemma {:induction false} AudioDecides(id: int, event: Dict)
    ensures forall message :: AudioDecision(id)(event) == Some(Returned(message)) <==> AudioSent(event, id, message)
    ensures forall exn :: AudioDecision(id)(event) == Some(Raised(exn))
              <==> AudioFailed(event, id) && exn == QueryFailed("PROFILE_AUDIO_MESSAGE_SEND_FAILED")
    ensures AudioDecision(id)(event) == None <==> SaysNothingOfAudio(event, id)
  {
    var message := DictOrEmpty(Get(event, "message"));
    if "message" in event && event["message"].JObject? {
      assert Has(event, "message", JObject(message));
      assert AudioSent(event, id, message)
        <==> HasType(event, "updateMessageSendSucceeded") && EqualsInt(Get(event, "old_message_id"), id)
             && message != map[];
    }
  }

  // ----- a wait that runs out

  /** All that can be read in these turns is readable. */
  ghost predicate ReadableFor(env: Env, s: Session, turns: nat) {
    forall i :: s.position <= i < s.position + turns ==> !env.raw(i).Malformed?
  }

  ghost predicate NoneDecides(events: seq<Dict>, decide: Dict -> Decision) {
    forall i :: 0 <= i < |events| ==> decide(events[i]).None?
  }

  /** A turn reads nothing decisive, and what is left to read is `rest`. */
  ghost predicate GoesOn(env: Env, s: Session, decide: Dict -> Decision, turns: nat, rest: seq<Dict>)
    requires turns > 0
  {
    var first := ReceiveStep(env, s);
    && first.Done? && (first.value.None? || decide(first.value.value).None?)
    && ReadableFor(env, first.session, turns - 1) && NoneDecides(rest, decide)
    && rest == Upcoming(env, first.session, first.session.position + (turns - 1))
  }

  lemma {:induction false} BufferedGoesOn(env: Env, s: Session, decide: Dict -> Decision, turns: nat)
    returns (rest: seq<Dict>)
    requires turns > 0 && s.pending != [] && ReadableFor(env, s, turns)
    requires NoneDecides(Upcoming(env, s, s.position + turns), decide)
    ensures GoesOn(env, s, decide, turns, rest)
  {
    var (events, after, horizon) := (Upcoming(env, s, s.position + turns), ReceiveStep(env, s).session,
                                     s.position + turns);
    rest := Upcoming(env, after, horizon - 1);
    UpdatesJoin(env, s.position, horizon - 1, horizon, {});
    assert events[0] == s.pending[0];
    forall i | 0 <= i < |rest|
      ensures decide(rest[i]).None?
    {
      assert rest[i] == events[i + 1];
    }
  }

  lemma {:induction false} NativeGoesOn(env: Env, s: Session, decide: Dict -> Decision, turns: nat)
    returns (rest: seq<Dict>)
    requires turns > 0 && s.pending == [] && ReadableFor(env, s, turns) && decide(map[]).None?
    requires NoneDecides(Upcoming(env, s, s.position + turns), decide)
    ensures GoesOn(env, s, decide, turns, rest)
  {
    var (events, after, raw) := (Upcoming(env, s, s.position + turns), ReceiveStep(env, s).session,
                                 env.raw(s.position));
    rest := Upcoming(env, after, s.position + turns);
    UpcomingUnfolds(env, s, s.position + turns);
    if IsUpdate(raw) {
      assert events[0] == raw.dict;
      forall i | 0 <= i < |rest|
        ensures decide(rest[i]).None?
      {
        assert rest[i] == events[i + 1];
      }
    }
  }

  /** A wait in whose turns nothing decisive can be read ends with its expiry. */
  lemma {:induction false} WaitRunsOut(env: Env, s: Session, decide: Dict -> Decision, expired: Exn, turns: nat)
    requires decide(map[]).None? && ReadableFor(env, s, turns)
    requires NoneDecides(Upcoming(env, s, s.position + turns), decide)
    ensures WaitFor(env, s, decide, expired, turns).Outcome() == Raised(expired)
    decreases turns
  {
    if turns > 0 {
      var rest;
      if s.pending != [] {
        rest := BufferedGoesOn(env, s, decide, turns);
      } else {
        rest := NativeGoesOn(env, s, decide, turns);
      }
      WaitRunsOut(env, ReceiveStep(env, s).session, decide, expired, turns - 1);
    }
  }

  /** If nothing that can be read in the turns of the wait says anything of the story, it is uncertain. */
  lemma {:induction false} SilentWaitIsUncertain(env: Env, t: Session, id: int)
    requires ReadableFor(env, t, env.turns(t.loops))
    requires var events := Upcoming(env, t, t.position + env.turns(t.loops));
             forall i :: 0 <= i < |events| ==> SaysNothingOfStory(events[i], id)
    ensures AwaitStory(env, t, id).Outcome() == Raised(StoryUncertain(id))
  {
    var (loop, decide) := (t.(loops := t.loops + 1), StoryDecision(env, id));
    var events := Upcoming(env, loop, loop.position + env.turns(t.loops));
    assert events == Upcoming(env, t, t.position + env.turns(t.loops));
    forall i | 0 <= i < |events|
      ensures decide(events[i]).None?
    {
      StoryDecides(env, id, events[i]);
    }
    NothingDecidesNothing(env, id);
    WaitRunsOut(env, loop, decide, StoryUncertain(id), env.turns(t.loops));
  }

  ghost predicate SilentOnAudio(env: Env, t: Session, id: int) {
    var events := Upcoming(env, t, t.position + env.turns(t.loops));
    forall i :: 0 <= i < |events| ==> SaysNothingOfAudio(events[i], id)
  }

  /** If nothing that can be read in the turns of the wait says anything of the message, it times out. */
  lemma {:induction false} SilentAudioTimesOut(env: Env, t: Session, id: int)
    requires ReadableFor(env, t, env.turns(t.loops)) && SilentOnAudio(env, t, id)
    ensures AwaitAudio(env, t, id).Outcome() == Raised(QueryFailed("PROFILE_AUDIO_MESSAGE_SEND_TIMEOUT"))
  {
    var (loop, decide) := (t.(loops := t.loops + 1), AudioDecision(id));
    var events := Upcoming(env, loop, loop.position + env.turns(t.loops));
    assert events == Upcoming(env, t, t.position + env.turns(t.loops));
    forall i | 0 <= i < |events|
      ensures decide(events[i]).None?
    {
      AudioDecides(id, events[i]);
    }
    NoAudioInNothing(id);
    WaitRunsOut(env, loop, decide, QueryFailed("PROFILE_AUDIO_MESSAGE_SEND_TIMEOUT"), env.turns(t.loops));
  }

  lemma {:induction false} NoAudioInNothing(id: int)
    ensures AudioDecision(id)(map[]).None?
  {
    AudioDecides(id, map[]);
  }

  /** And the upload with it. */
  lemma {:induction false} SilentUploadTimesOut(env: Env, s: Session, payload: Dict)
    requires RequestAudio(env, s, payload).Done?
    requires var (t, id) := (RequestAudio(env, s, payload).session, RequestAudio(env, s, payload).value.1);
             ReadableFor(env, t, env.turns(t.loops)) && SilentOnAudio(env, t, id)
    ensures UploadAudio(env, s, payload).Outcome() == Raised(QueryFailed("PROFILE_AUDIO_MESSAGE_SEND_TIMEOUT"))
  {
    SilentAudioTimesOut(env, RequestAudio(env, s, payload).session, RequestAudio(env, s, payload).value.1);
  }

  // ----- stories and audio messages

  /** Everything that arrived since `s`, buffered events first, except the replies to its queries. */
  function Arrivals(env: Env, s: Session, t: Session, horizon: nat): seq<Dict> {
    s.pending + Updates(env, s.position, horizon, t.matched - s.matched)
  }

  lemma {:induction false} ArrivalsAreUpcoming(env: Env, s: Session, t: Session, horizon: nat)
    requires OnlyQueried(env, s, t) && t.position <= horizon
    ensures Upcoming(env, t, horizon) == Arrivals(env, s, t, horizon)
  {
    var matched := t.matched - s.matched;
    var (before, after) := (Updates(env, s.position, t.position, matched), Updates(env, t.position, horizon, matched));
    UpdatesJoin(env, s.position, t.position, horizon, matched);
    UpdatesAgree(env, t.position, horizon, {}, matched);
    Regroup(s.pending, before, after);
  }

  /** Of the events, `k` is the first that says anything of the story. */
  ghost predicate FirstOfStory(events: seq<Dict>, id: int, k: nat) {
    && k < |events| && !SaysNothingOfStory(events[k], id)
    && forall i :: 0 <= i < k ==> SaysNothingOfStory(events[i], id)
  }

  ghost predicate FirstOfAudio(events: seq<Dict>, id: int, k: nat) {
    && k < |events| && !SaysNothingOfAudio(events[k], id)
    && forall i :: 0 <= i < k ==> SaysNothingOfAudio(events[i], id)
  }

  /**
   No story confirmation is lost.  Among everything that arrived since posting began, before or after
   TDLib's reply, the first event that says anything of the story decides the result: if the story was
   posted, it is returned as the event has it, and if it was turned down, the error is raised.
   */
  lemma {:induction false} StoryConfirmationNotLost(env: Env, s: Session, stepType: string, payload: Dict,
        horizon: nat, k: nat)
    requires Good(s)
    requires var requested := RequestStory(env, s, stepType, payload);
             && requested.Done?
             && Reaches(env, requested.session, env.turns(requested.session.loops), horizon)
             && FirstOfStory(Arrivals(env, s, requested.session, horizon), requested.value, k)
    ensures var requested := RequestStory(env, s, stepType, payload);
            var (event, outcome) := (Arrivals(env, s, requested.session, horizon)[k],
                                     PostStory(env, s, stepType, payload).Outcome());
            && (forall story :: StoryPosted(event, requested.value, story) ==> outcome == Returned(story))
            && (StoryRejected(event, requested.value) ==>
                  outcome == Raised(QueryFailed(env.errorCode(ErrorOf(event)))))
  {
    RequestStoryAsks(env, s, stepType, payload);
    var requested := RequestStory(env, s, stepType, payload);
    var events := Arrivals(env, s, requested.session, horizon);
    forall i | 0 <= i <= k
      ensures StoryDecision(env, requested.value)(events[i]) == None <==> SaysNothingOfStory(events[i], requested.value)
    {
      StoryDecides(env, requested.value, events[i]);
    }
    StoryWaitFindsFirst(env, s, requested.session, requested.value, horizon, k);
    StoryDecides(env, requested.value, events[k]);
  }

  lemma {:induction false} StoryWaitFindsFirst(env: Env, s: Session, t: Session, temporaryId: int, horizon: nat, k: nat)
    requires OnlyQueried(env, s, t) && Reaches(env, t, env.turns(t.loops), horizon)
    requires FirstDecisive(Arrivals(env, s, t, horizon), StoryDecision(env, temporaryId), k)
    ensures AwaitStory(env, t, temporaryId).Outcome()
            == StoryDecision(env, temporaryId)(Arrivals(env, s, t, horizon)[k]).value
  {
    ArrivalsAreUpcoming(env, s, t, horizon);
    NothingDecidesNothing(env, temporaryId);
    WaitFindsFirst(env, t.(loops := t.loops + 1), StoryDecision(env, temporaryId), StoryUncertain(temporaryId),
                   env.turns(t.loops), horizon, k);
  }

  lemma {:induction false} NothingDecidesNothing(env: Env, id: int)
    ensures StoryDecision(env, id)(map[]).None? && AudioDecision(id)(map[]).None?
  {
    var nothing: Dict := map[];
    assert !HasType(nothing, "updateStoryPostSucceeded") && !HasType(nothing, "updateStoryPostFailed");
    assert !EqualsInt(Get(nothing, "old_message_id"), id);
  }

  /** A post is uncertain only if no event it was delivered said anything of the story it had requested. */
  lemma {:induction false} StoryUncertainMeansUndecided(env: Env, s: Session, stepType: string,
        payload: Dict) returns (read: seq<Dict>)
    requires Good(s) && PostStory(env, s, stepType, payload).Raise?
             && PostStory(env, s, stepType, payload).exn.StoryUncertain?
    ensures var requested := RequestStory(env, s, stepType, payload);
            && requested.Done? && PostStory(env, s, stepType, payload).exn == StoryUncertain(requested.value)
            && PostStory(env, s, stepType, payload).session.delivered == s.delivered + read
            && forall i :: 0 <= i < |read| ==> SaysNothingOfStory(read[i], requested.value)
  {
    RequestStoryAsks(env, s, stepType, payload);
    var requested := RequestStory(env, s, stepType, payload);
    read := UncertainWaitUndecided(env, requested.session, requested.value);
    forall i | 0 <= i < |read|
      ensures SaysNothingOfStory(read[i], requested.value)
    {
      StoryDecides(env, requested.value, read[i]);
    }
  }

  lemma {:induction false} UncertainWaitUndecided(env: Env, t: Session, temporaryId: int) returns (read: seq<Dict>)
    requires AwaitStory(env, t, temporaryId).Raise? && AwaitStory(env, t, temporaryId).exn.StoryUncertain?
    ensures AwaitStory(env, t, temporaryId).exn == StoryUncertain(temporaryId)
    ensures AwaitStory(env, t, temporaryId).session.delivered == t.delivered + read
    ensures forall i :: 0 <= i < |read| ==> StoryDecision(env, temporaryId)(read[i]).None?
  {
    read := WaitOutcome(env, t.(loops := t.loops + 1), StoryDecision(env, temporaryId), StoryUncertain(temporaryId),
                        env.turns(t.loops));
  }

  /**
   No audio confirmation is lost: as for stories, for the id of the message sent to oneself.  The upload
   is then made of that message, or raises that it was not sent.
   */
  lemma {:induction false} AudioConfirmationNotLost(env: Env, s: Session, payload: Dict, horizon: nat, k: nat)
    requires Good(s)
    requires var requested := RequestAudio(env, s, payload);
             && requested.Done?
             && Reaches(env, requested.session, env.turns(requested.session.loops), horizon)
             && FirstOfAudio(Arrivals(env, s, requested.session, horizon), requested.value.1, k)
    ensures var requested := RequestAudio(env, s, payload);
            var (event, uploaded) := (Arrivals(env, s, requested.session, horizon)[k], UploadAudio(env, s, payload));
            && (forall message :: AudioSent(event, requested.value.1, message) ==>
                  UploadsMessage(env, requested.value.0, message, uploaded.Outcome()))
            && (AudioFailed(event, requested.value.1) ==>
                  uploaded.Outcome() == Raised(QueryFailed("PROFILE_AUDIO_MESSAGE_SEND_FAILED")))
  {
    RequestAudioAsks(env, s, payload);
    var requested := RequestAudio(env, s, payload);
    var events := Arrivals(env, s, requested.session, horizon);
    forall i | 0 <= i <= k
      ensures AudioDecision(requested.value.1)(events[i]) == None <==> SaysNothingOfAudio(events[i], requested.value.1)
    {
      AudioDecides(requested.value.1, events[i]);
    }
    AudioWaitFindsFirst(env, s, requested.session, requested.value.1, horizon, k);
    AudioDecides(requested.value.1, events[k]);
    forall message | AudioSent(events[k], requested.value.1, message)
      ensures UploadsMessage(env, requested.value.0, message, UploadAudio(env, s, payload).Outcome())
    {
      MessageIsUploaded(env, s, payload, message);
    }
  }

  /** The message carries an audio file with this id. */
  ghost predicate CarriesFile(message: Dict, id: Json) {
    exists content, audio, file: Dict ::
      && Has(message, "content", JObject(content)) && Has(content, "@type", JString("messageAudio"))
      && Has(content, "audio", JObject(audio)) && Has(audio, "audio", JObject(file))
      && Has(file, "id", id) && id != JNull
  }

  /** The outcome of an upload that was confirmed by the message: its file, with the chat and its own id. */
  ghost predicate UploadsMessage(env: Env, chat: int, message: Dict, outcome: Outcome<Upload>) {
    && (forall id :: CarriesFile(message, id) ==>
          if ToInt(env, id).Returned? then outcome == Returned(Upload(ToInt(env, id).value, chat, Get(message, "id")))
          else outcome == Raised(BadValue))
    && ((forall id :: !CarriesFile(message, id)) ==> outcome == Raised(QueryFailed("PROFILE_AUDIO_FILE_ID_MISSING")))
  }

  lemma {:induction false} FileIsCarried(message: Dict, id: Json)
    ensures CarriesFile(message, id) <==> id != JNull && Get(AudioFile(message), "id") == id
  {
    var content := DictOrEmpty(Get(message, "content"));
    var audio := DictOrEmpty(Get(content, "audio"));
    var file := DictOrEmpty(Get(audio, "audio"));
    if id != JNull && Get(AudioFile(message), "id") == id {
      assert Has(message, "content", JObject(content)) && Has(content, "audio", JObject(audio));
      assert Has(audio, "audio", JObject(file)) && Has(file, "id", id);
    }
  }

  lemma {:induction false} MessageIsUploaded(env: Env, s: Session, payload: Dict, message: Dict)
    requires var requested := RequestAudio(env, s, payload);
             && requested.Done?
             && AwaitAudio(env, requested.session, requested.value.1).Outcome() == Returned(message)
    ensures UploadsMessage(env, RequestAudio(env, s, payload).value.0, message, UploadAudio(env, s, payload).Outcome())
  {
    var id := Get(AudioFile(message), "id");
    UploadOfMessage(env, s, payload, message);
    FileIsCarried(message, id);
    forall other | CarriesFile(message, other)
      ensures other == id && id != JNull
    {
      FileIsCarried(message, other);
    }
  }

  lemma {:induction false} UploadOfMessage(env: Env, s: Session, payload: Dict, message: Dict)
    requires var requested := RequestAudio(env, s, payload);
             && requested.Done?
             && AwaitAudio(env, requested.session, requested.value.1).Outcome() == Returned(message)
    ensures var (id, chat) := (Get(AudioFile(message), "id"), RequestAudio(env, s, payload).value.0);
            UploadAudio(env, s, payload).Outcome()
            == if id == JNull then Raised(QueryFailed("PROFILE_AUDIO_FILE_ID_MISSING"))
               else if ToInt(env, id).Raised? then Raised(BadValue)
               else Returned(Upload(ToInt(env, id).value, chat, Get(message, "id")))
  {
  }

  lemma {:induction false} AudioWaitFindsFirst(env: Env, s: Session, t: Session, oldMessageId: int,
                                               horizon: nat, k: nat)
    requires OnlyQueried(env, s, t) && Reaches(env, t, env.turns(t.loops), horizon)
    requires FirstDecisive(Arrivals(env, s, t, horizon), AudioDecision(oldMessageId), k)
    ensures AwaitAudio(env, t, oldMessageId).Outcome()
            == AudioDecision(oldMessageId)(Arrivals(env, s, t, horizon)[k]).value
  {
    ArrivalsAreUpcoming(env, s, t, horizon);
    NothingDecidesNothing(env, oldMessageId);
    WaitFindsFirst(env, t.(loops := t.loops + 1), AudioDecision(oldMessageId),
                   QueryFailed("PROFILE_AUDIO_MESSAGE_SEND_TIMEOUT"),
                   env.turns(t.loops), horizon, k);
  }

  /** The upload is the one that the event confirms, for the message to oneself that was requested. */
  ghost predicate Confirms(env: Env, requested: (int, int), event: Dict, upload: Upload) {
    exists message, id ::
      && AudioSent(event, requested.1, message) && CarriesFile(message, id) && ToInt(env, id) == Returned(upload.fileId)
      && upload.chatId == requested.0 && upload.messageId == Get(message, "id")
  }

  /**
   An upload that succeeds is confirmed by the last event it was delivered: that event names the message
   sent, and the file and the message reported are those it carries.
   */
  lemma {:induction false} UploadIsConfirmed(env: Env, s: Session, payload: Dict) returns (read: seq<Dict>)
    requires Good(s) && UploadAudio(env, s, payload).Done?
    ensures var (requested, uploaded) := (RequestAudio(env, s, payload), UploadAudio(env, s, payload));
            && requested.Done? && read != [] && uploaded.session.delivered == s.delivered + read
            && Confirms(env, requested.value, read[|read| - 1], uploaded.value)
            && forall i :: 0 <= i < |read| - 1 ==> SaysNothingOfAudio(read[i], requested.value.1)
  {
    RequestAudioAsks(env, s, payload);
    var requested := RequestAudio(env, s, payload);
    read := AudioWaitReads(env, requested.session, requested.value.1);
    UploadOfConfirmation(env, s, payload);
    DecisionConfirms(env, requested.value, read[|read| - 1],
                     AwaitAudio(env, requested.session, requested.value.1).value,
                     UploadAudio(env, s, payload).value);
    forall i | 0 <= i < |read| - 1
      ensures SaysNothingOfAudio(read[i], requested.value.1)
    {
      AudioDecides(requested.value.1, read[i]);
    }
  }

  /** The upload is made of the request and of the confirming message. */
  lemma {:induction false} UploadOfConfirmation(env: Env, s: Session, payload: Dict)
    requires UploadAudio(env, s, payload).Done?
    ensures var (requested, uploaded) := (RequestAudio(env, s, payload), UploadAudio(env, s, payload));
            && requested.Done?
            && var confirmed := AwaitAudio(env, requested.session, requested.value.1);
               && confirmed.Done? && uploaded.session == confirmed.session
               && ToInt(env, Get(AudioFile(confirmed.value), "id")) == Returned(uploaded.value.fileId)
               && uploaded.value == Upload(uploaded.value.fileId, requested.value.0, Get(confirmed.value, "id"))
  {
  }

  lemma {:induction false} DecisionConfirms(env: Env, requested: (int, int), event: Dict, message: Dict, upload: Upload)
    requires AudioDecision(requested.1)(event) == Some(Returned(message))
    requires upload == Upload(upload.fileId, requested.0, Get(message, "id"))
    requires ToInt(env, Get(AudioFile(message), "id")) == Returned(upload.fileId)
    ensures Confirms(env, requested, event, upload)
  {
    AudioDecides(requested.1, event);
    FileIsCarried(message, Get(AudioFile(message), "id"));
  }

  lemma {:induction false} AudioWaitReads(env: Env, t: Session, oldMessageId: int) returns (read: seq<Dict>)
    requires AwaitAudio(env, t, oldMessageId).Done?
    ensures AwaitAudio(env, t, oldMessageId).session.delivered == t.delivered + read
    ensures read != [] && FirstDecisive(read, AudioDecision(oldMessageId), |read| - 1)
    ensures AudioDecision(oldMessageId)(read[|read| - 1]) == Some(Returned(AwaitAudio(env, t, oldMessageId).value))
  {
    read := WaitOutcome(env, t.(loops := t.loops + 1), AudioDecision(oldMessageId),
                        QueryFailed("PROFILE_AUDIO_MESSAGE_SEND_TIMEOUT"),
                        env.turns(t.loops));
  }
}
