/** The authorization states of backend/app/adapters/tdlib_auth_states.py and how events carry them. */
module AuthStates {
  import opened Wrappers
  import opened Json
  import opened TdlibClient

  datatype AuthStatus =
    WaitTdlibParameters | WaitPhoneNumber | WaitCode | WaitPassword | Ready | Closed | Unsupported | Broken

  datatype AccountState =
    AuthPending | AwaitingCode | AwaitingPasscode | AuthorizedReady
    | ReauthRequired | ManualInterventionNeeded | RuntimeBroken

  datatype AuthResult = AuthResult(status: AuthStatus, accountState: AccountState, sessionPresent: bool,
                                   userId: Option<string>)

  const BROKEN := AuthResult(Broken, RuntimeBroken, false, None)

  const PREFIX := "authorizationState"

  /** The wait states and the final one that have a fixed result, and the branches that end an operation. */
  function StatusOf(stateType: string): AuthStatus {
    match stateType
    case "authorizationStateWaitTdlibParameters" => WaitTdlibParameters
    case "authorizationStateWaitPhoneNumber" => WaitPhoneNumber
    case "authorizationStateWaitCode" => WaitCode
    case "authorizationStateWaitPassword" => WaitPassword
    case "authorizationStateReady" => Ready
    case "authorizationStateClosed" => Closed
    case "authorizationStateClosing" => Closed
    case "authorizationStateLoggingOut" => Closed
    case "authorizationStateWaitEmailAddress" => Unsupported
    case "authorizationStateWaitEmailCode" => Unsupported
    case "authorizationStateWaitRegistration" => Unsupported
    case _ => Broken
  }

  /** `map_authorization_state`: a type that is no text is none of the known ones. */
  function MapAuthorizationState(state: Dict): AuthResult {
    var kind := Get(state, "@type");
    var status := StatusOf(if kind.JString? then kind.s else "");
    match status
    case WaitTdlibParameters => AuthResult(status, AuthPending, false, None)
    case WaitPhoneNumber => AuthResult(status, AuthPending, false, None)
    case WaitCode => AuthResult(status, AwaitingCode, true, None)
    case WaitPassword => AuthResult(status, AwaitingPasscode, true, None)
    case Ready => AuthResult(status, AuthorizedReady, true, None)
    case Closed => AuthResult(status, ReauthRequired, false, None)
    case Unsupported => AuthResult(status, ManualInterventionNeeded, true, None)
    case Broken => BROKEN
  }

  /** `_extract_authorization_state`: a type that is present but no text has no `startswith`. */
  function ExtractAuthorizationState(event: Option<Dict>): Outcome<Option<Dict>> {
    if event.None? || event.value == map[] then Returned(None)
    else
      var e := event.value;
      if HasType(e, "updateAuthorizationState") then
        var state := Get(e, "authorization_state");
        Returned(if state.JObject? then Some(state.fields) else None)
      else if "@type" !in e then Returned(None)
      else if !e["@type"].JString? then Raised(BadValue)
      else Returned(if PREFIX <= e["@type"].s then Some(e) else None)
  }

  /** The status an event puts the operation in, if it carries a state. */
  function EventStatus(event: Dict): Option<AuthStatus> {
    match ExtractAuthorizationState(Some(event))
    case Returned(Some(state)) => Some(MapAuthorizationState(state).status)
    case _ => None
  }

  // ----- what an event says, in TDLib's own names

  /** The event carries the state: as an update of it, or by being the state itself. */
  ghost predicate Reports(event: Dict, state: Dict) {
    && "@type" in event
    && (|| (&& event["@type"] == JString("updateAuthorizationState")
            && "authorization_state" in event && event["authorization_state"] == JObject(state))
        || (event["@type"].JString? && "authorizationState" <= event["@type"].s && state == event))
  }

  /** The event carries a state of this name. */
  ghost predicate Says(event: Dict, name: string) {
    exists state :: Reports(event, state) && "@type" in state && state["@type"] == JString(name)
  }

  /** The event carries no state, and what looks like its type is a text. */
  ghost predicate SaysNothing(event: Dict) {
    (forall state :: !Reports(event, state)) && ("@type" in event ==> event["@type"].JString?)
  }

  const CLOSED_STATES := {"authorizationStateClosed", "authorizationStateClosing", "authorizationStateLoggingOut"}
  const UNSUPPORTED_STATES := {
    "authorizationStateWaitEmailAddress", "authorizationStateWaitEmailCode", "authorizationStateWaitRegistration"
  }

  /** What each state that TDLib can name means for the account. */
  ghost predicate Means(name: string, result: AuthResult) {
    if name == "authorizationStateWaitTdlibParameters" then
      result == AuthResult(WaitTdlibParameters, AuthPending, false, None)
    else if name == "authorizationStateWaitPhoneNumber" then
      result == AuthResult(WaitPhoneNumber, AuthPending, false, None)
    else if name == "authorizationStateWaitCode" then result == AuthResult(WaitCode, AwaitingCode, true, None)
    else if name == "authorizationStateWaitPassword" then
      result == AuthResult(WaitPassword, AwaitingPasscode, true, None)
    else if name == "authorizationStateReady" then result == AuthResult(Ready, AuthorizedReady, true, None)
    else if name in CLOSED_STATES then result == AuthResult(Closed, ReauthRequired, false, None)
    else if name in UNSUPPORTED_STATES then result == AuthResult(Unsupported, ManualInterventionNeeded, true, None)
    else result == AuthResult(Broken, RuntimeBroken, false, None)
  }

  lemma {:induction false} ExtractReports(event: Dict)
    ensures forall state :: ExtractAuthorizationState(Some(event)) == Returned(Some(state)) <==> Reports(event, state)
    ensures ExtractAuthorizationState(Some(event)) == Returned(None) <==> SaysNothing(event)
  {
    if ExtractAuthorizationState(Some(event)) == Returned(None) && "@type" in event {
      assert !HasType(event, "updateAuthorizationState") || !Get(event, "authorization_state").JObject?;
    }
    if HasType(event, "updateAuthorizationState") {
      assert "updateAuthorizationState"[0] != "authorizationState"[0];
      if Get(event, "authorization_state").JObject? {
        assert Reports(event, event["authorization_state"].fields);
      }
    } else if "@type" in event && event["@type"].JString? && PREFIX <= event["@type"].s {
      assert Reports(event, event);
    }
  }

  /** An event that carries a state of some name has that state extracted, and it means what the name means. */
  lemma {:induction false} SaidIsMapped(event: Dict, name: string)
    requires Says(event, name)
    ensures var state := ExtractAuthorizationState(Some(event));
            state.Returned? && state.value.Some? && Means(name, MapAuthorizationState(state.value.value))
  {
    ExtractReports(event);
  }

  lemma {:induction false} SaidStatus(event: Dict, name: string, result: AuthResult)
    requires Says(event, name) && Means(name, result)
    ensures EventStatus(event) == Some(result.status)
  {
    SaidIsMapped(event, name);
  }

  /** Every status but the broken one goes back to a name. */
  lemma {:induction false} StatusHasName(event: Dict) returns (name: string)
    requires EventStatus(event).Some? && EventStatus(event) != Some(Broken)
    ensures Says(event, name) && exists result :: Means(name, result) && EventStatus(event) == Some(result.status)
  {
    ExtractReports(event);
    var state := ExtractAuthorizationState(Some(event)).value.value;
    assert Reports(event, state) && "@type" in state && state["@type"].JString?;
    name := state["@type"].s;
    SaidIsMapped(event, name);
  }

  /** The event carries a state that is mapped to this result. */
  ghost predicate LeadsTo(event: Dict, result: AuthResult) {
    exists state :: Reports(event, state) && MapAuthorizationState(state) == result
  }

  lemma {:induction false} LedByName(event: Dict, result: AuthResult) returns (name: string)
    requires LeadsTo(event, result) && result.status != Broken
    ensures Says(event, name) && Means(name, result)
  {
    var state: Dict :| Reports(event, state) && MapAuthorizationState(state) == result;
    name := if "@type" in state && state["@type"].JString? then state["@type"].s else "";
    assert Says(event, name);
    SaidIsMapped(event, name);
    ExtractReports(event);
  }

  lemma {:induction false} OneName(event: Dict, a: string, b: string)
    requires Says(event, a) && Says(event, b)
    ensures a == b
  {
    ExtractReports(event);
  }

  /** A status that just one name means goes back to that name. */
  lemma {:induction false} StatusIsSaid(event: Dict, name: string, result: AuthResult)
    requires Means(name, result)
    requires result.status in {WaitTdlibParameters, WaitPhoneNumber, WaitCode, WaitPassword, Ready}
    ensures EventStatus(event) == Some(result.status) <==> Says(event, name)
  {
    if Says(event, name) {
      SaidStatus(event, name, result);
    }
    if EventStatus(event) == Some(result.status) {
      var other := StatusHasName(event);
      assert other == name;
    }
  }

  /** The event carries one of the states of a client that is gone or going. */
  ghost predicate SaysClosed(event: Dict) {
    exists name :: name in CLOSED_STATES && Says(event, name)
  }

  lemma {:induction false} ClosedIsSaid(event: Dict)
    ensures EventStatus(event) == Some(Closed) <==> SaysClosed(event)
  {
    forall name | name in CLOSED_STATES && Says(event, name)
      ensures EventStatus(event) == Some(Closed)
    {
      SaidStatus(event, name, AuthResult(Closed, ReauthRequired, false, None));
    }
    if EventStatus(event) == Some(Closed) {
      var name := StatusHasName(event);
      assert name in CLOSED_STATES;
    }
  }

  // ----- readiness of an existing session

  const PARAMETERS: Dict := map["@type" := JString("setTdlibParameters")]

  datatype ProxyOutcome = Applied(ok: bool) | ProxyRaises

  /** What one turn of the wait brings: a result, or another turn, with the proxy asked or not yet. */
  datatype Progress = Settled(result: AuthResult) | Waiting(proxyApplied: bool)

  /** What a turn makes of the event it received; `proxy` is what the applier does the one time it is called. */
  function Answer(s: Session, proxy: Option<ProxyOutcome>, applied: bool, event: Option<Dict>): Step<Progress> {
    match ExtractAuthorizationState(event)
    case Raised(exn) => Raise(s, exn)
    case Returned(None) => Done(s, Waiting(applied))
    case Returned(Some(state)) =>
      var mapped := MapAuthorizationState(state);
      if mapped.status != WaitTdlibParameters then Done(s, Settled(mapped))
      else
        var s := s.(sent := s.sent + [PARAMETERS]);
        if proxy.None? || applied then Done(s, Waiting(applied))
        else if proxy.value.ProxyRaises? then Raise(s, BadValue)
        else Done(s, Waiting(true))
  }

  function Turn(env: Env, s: Session, proxy: Option<ProxyOutcome>, applied: bool): Step<Progress> {
    var (s, event) :- ReceiveStep(env, s);
    Answer(s, proxy, applied, event)
  }

  /** A turn of the wait, by the client and by whether the proxy has been asked. */
  type Turner = (Session, bool) -> Step<Progress>

  function TurnerOf(env: Env, proxy: Option<ProxyOutcome>): Turner {
    (s: Session, applied: bool) => Turn(env, s, proxy, applied)
  }

  function AwaitSettled(turn: Turner, s: Session, applied: bool, turns: nat): Step<Option<AuthResult>>
    decreases turns
  {
    if turns == 0 then Done(s, None)
    else
      var (s, progress) :- turn(s, applied);
      match progress
      case Settled(result) => Done(s, Some(result))
      case Waiting(proxyApplied) => AwaitSettled(turn, s, proxyApplied, turns - 1)
  }

  /** `wait_for_tdlib_authorization_result`: the first state that is not the wait for parameters. */
  function AwaitAuthorization(env: Env, s: Session, proxy: Option<ProxyOutcome>): Step<Option<AuthResult>> {
    AwaitSettled(TurnerOf(env, proxy), s.(loops := s.loops + 1), false, env.turns(s.loops))
  }

  /** `ensure_tdlib_ready`: anything but the ready state raises. */
  function EnsureReady(env: Env, s: Session, proxy: Option<ProxyOutcome>): Step<()> {
    var (s, mapped) :- AwaitAuthorization(env, s, proxy);
    if mapped.None? then Raise(s, Timeout)
    else if mapped.value.status == Ready then Done(s, ())
    else Raise(s, BadValue)
  }

  /** A turn that settles has just been delivered the event that carries the state. */
  lemma {:induction false} SettledByDelivery(env: Env, s: Session, proxy: Option<ProxyOutcome>, applied: bool)
    ensures var turn := Turn(env, s, proxy, applied);
            turn.Done? ==>
              && s.delivered <= turn.session.delivered
              && (turn.value.Settled? ==>
                    |turn.session.delivered| > |s.delivered|
                    && EventStatus(turn.session.delivered[|s.delivered|]) == Some(turn.value.result.status))
  {
  }

  /** A session counts as ready only after an event with the ready state was delivered. */
  lemma {:induction false} ReadyWasDelivered(env: Env, s: Session, proxy: Option<ProxyOutcome>)
    returns (event: Dict)
    requires EnsureReady(env, s, proxy).Done?
    ensures var delivered := EnsureReady(env, s, proxy).session.delivered;
            s.delivered <= delivered && event in delivered[|s.delivered|..]
    ensures Says(event, "authorizationStateReady")
  {
    var loop := s.(loops := s.loops + 1);
    var i := SettledWasDelivered(env, loop, proxy, false, env.turns(s.loops));
    event := EnsureReady(env, s, proxy).session.delivered[i];
    StatusIsSaid(event, "authorizationStateReady", AuthResult(Ready, AuthorizedReady, true, None));
  }

  lemma {:induction false} SettledWasDelivered(env: Env, s: Session, proxy: Option<ProxyOutcome>, applied: bool,
                                               turns: nat) returns (i: nat)
    requires var end := AwaitSettled(TurnerOf(env, proxy), s, applied, turns);
             end.Done? && end.value.Some? && end.value.value.status == Ready
    ensures var delivered := AwaitSettled(TurnerOf(env, proxy), s, applied, turns).session.delivered;
            s.delivered <= delivered && |s.delivered| <= i < |delivered| && EventStatus(delivered[i]) == Some(Ready)
    decreases turns
  {
    SettledByDelivery(env, s, proxy, applied);
    var turn := TurnerOf(env, proxy)(s, applied);
    assert turn.Done?;
    match turn.value
    case Settled(_) => i := |s.delivered|;
    case Waiting(proxyApplied) => i := SettledWasDelivered(env, turn.session, proxy, proxyApplied, turns - 1);
  }

  // ----- when a session is ready, said of what arrives

  /** Nothing to act on arrives. */
  ghost predicate IsQuiet(raw: Raw) {
    raw.Nothing? || (raw.Event? && SaysNothing(raw.dict))
  }

  /** A state of this name arrives. */
  ghost predicate Brings(raw: Raw, name: string) {
    raw.Event? && Says(raw.dict, name)
  }

  /** What arrives leaves the wait waiting: no state, or a wait for parameters that can be answered. */
  ghost predicate IsPassed(raw: Raw, answerable: bool) {
    IsQuiet(raw) || (answerable && Brings(raw, "authorizationStateWaitTdlibParameters"))
  }

  /** The receive `k`, of those from `lo` to `hi`, brings the ready state, and all before it are passed. */
  ghost predicate FirstReady(env: Env, lo: nat, hi: nat, answerable: bool, k: nat) {
    && lo <= k < hi && Brings(env.raw(k), "authorizationStateReady")
    && forall i: nat :: lo <= i < k ==> IsPassed(env.raw(i), answerable)
  }

  ghost predicate GetsReady(env: Env, lo: nat, hi: nat, answerable: bool) {
    exists k: nat :: FirstReady(env, lo, hi, answerable, k)
  }

  /** What a turn makes of what arrives. */
  ghost predicate TurnsTo(env: Env, s: Session, proxy: Option<ProxyOutcome>, applied: bool, turn: Step<Progress>) {
    var (raw, answerable) := (env.raw(s.position), applied || proxy != Some(ProxyRaises));
    && turn.session.pending == [] && turn.session.position == s.position + 1
    && (turn.Done? && turn.value.Settled? && turn.value.result.status == Ready
        <==> Brings(raw, "authorizationStateReady"))
    && (turn.Done? && turn.value.Waiting? <==>
          IsPassed(raw, answerable))
    && (turn.Done? && turn.value.Waiting? ==> (turn.value.proxyApplied || proxy != Some(ProxyRaises)) == answerable)
  }

  lemma {:induction false} TurnExactly(env: Env, s: Session, proxy: Option<ProxyOutcome>, applied: bool)
    requires s.pending == []
    ensures TurnsTo(env, s, proxy, applied, TurnerOf(env, proxy)(s, applied))
  {
    var raw := env.raw(s.position);
    if raw.Event? {
      ExtractReports(raw.dict);
      StatusIsSaid(raw.dict, "authorizationStateReady", AuthResult(Ready, AuthorizedReady, true, None));
      StatusIsSaid(raw.dict, "authorizationStateWaitTdlibParameters",
                   AuthResult(WaitTdlibParameters, AuthPending, false, None));
    }
  }

  lemma {:induction false} OneTurn(turn: Turner, s: Session, applied: bool, turns: nat)
    requires turns > 0
    ensures var (first, all) := (turn(s, applied), AwaitSettled(turn, s, applied, turns));
            && (first.Raise? ==> all == Raise(first.session, first.exn))
            && (first.Done? && first.value.Settled? ==> all == Done(first.session, Some(first.value.result)))
            && (first.Done? && first.value.Waiting? ==>
                  all == AwaitSettled(turn, first.session, first.value.proxyApplied, turns - 1))
  {
  }

  ghost predicate TurnsRightly(env: Env, proxy: Option<ProxyOutcome>, turn: Turner) {
    forall s: Session, applied: bool :: s.pending == [] ==> TurnsTo(env, s, proxy, applied, turn(s, applied))
  }

  ghost predicate SettlesReady(end: Step<Option<AuthResult>>) {
    end.Done? && end.value.Some? && end.value.value.status == Ready
  }

  /** The wait settles on the ready state exactly when that is the first state to arrive that is not passed. */
  lemma {:induction false} SettlesReadyExactly(env: Env, s: Session, proxy: Option<ProxyOutcome>, turn: Turner,
      applied: bool, turns: nat)
    requires s.pending == [] && TurnsRightly(env, proxy, turn)
    ensures SettlesReady(AwaitSettled(turn, s, applied, turns))
            <==> GetsReady(env, s.position, s.position + turns, applied || proxy != Some(ProxyRaises))
    decreases turns
  {
    if turns > 0 {
      var (first, answerable) := (turn(s, applied), applied || proxy != Some(ProxyRaises));
      assert TurnsTo(env, s, proxy, applied, first);
      OneTurn(turn, s, applied, turns);
      if Brings(env.raw(s.position), "authorizationStateReady") {
        assert FirstReady(env, s.position, s.position + turns, answerable, s.position);
      } else if first.Done? && first.value.Waiting? {
        SettlesReadyExactly(env, first.session, proxy, turn, first.value.proxyApplied, turns - 1);
        FirstReadyLater(env, s.position, s.position + turns, answerable);
      }
    }
  }

  lemma {:induction false} FirstReadyLater(env: Env, lo: nat, hi: nat, answerable: bool)
    requires !Brings(env.raw(lo), "authorizationStateReady") && IsPassed(env.raw(lo), answerable)
    ensures GetsReady(env, lo, hi, answerable) <==> GetsReady(env, lo + 1, hi, answerable)
  {
    if k: nat :| FirstReady(env, lo, hi, answerable, k) {
      assert FirstReady(env, lo + 1, hi, answerable, k);
    }
    if GetsReady(env, lo + 1, hi, answerable) {
      var k: nat :| FirstReady(env, lo + 1, hi, answerable, k);
      assert FirstReady(env, lo, hi, answerable, k);
    }
  }

  /** A session that has read nothing yet gets ready exactly when the ready state arrives like that in time. */
  lemma {:induction false} ReadyExactly(env: Env, proxy: Option<ProxyOutcome>)
    ensures EnsureReady(env, NEW_SESSION, proxy).Done?
            <==> GetsReady(env, 0, env.turns(0), proxy != Some(ProxyRaises))
  {
    var turn := TurnerOf(env, proxy);
    forall s: Session, applied: bool | s.pending == []
      ensures TurnsTo(env, s, proxy, applied, turn(s, applied))
    {
      TurnExactly(env, s, proxy, applied);
    }
    SettlesReadyExactly(env, NEW_SESSION.(loops := 1), proxy, turn, false, env.turns(0));
  }
}
