/**
 What a sign-in of backend/app/adapters/tdlib_auth.py does with each event, as a function of the
 clients it is given.
 */
module AuthSteps {
  import opened Wrappers
  import opened Json
  import opened TdlibClient
  import opened AuthStates

  /**
   The surroundings of one operation: whether API credentials are configured, the environments of the
   clients the factory would create (a creation can fail), what the proxy applier does each time, the
   turns of the outer loop and of each `_receive_client_event`, and which errors are hard stops.
   */
  datatype AuthConfig = AuthConfig(
    hasCredentials: bool,
    environments: nat -> Option<Env>,
    proxy: Option<nat -> ProxyOutcome>,
    turns: nat,
    receiveTurns: nat -> nat,
    isHardStop: Dict -> bool)

  datatype AuthInput = AuthInput(phoneNumber: Option<string>, code: Option<string>, password: Option<string>)

  predicate Given(text: Option<string>) {
    text.Some? && text.value != ""
  }

  function PhoneQuery(phoneNumber: string): Dict {
    map["@type" := JString("setAuthenticationPhoneNumber"), "phone_number" := JString(phoneNumber), "settings" := JNull]
  }

  function CodeQuery(code: string): Dict {
    map["@type" := JString("checkAuthenticationCode"), "code" := JString(code)]
  }

  function PasswordQuery(password: string): Dict {
    map["@type" := JString("checkAuthenticationPassword"), "password" := JString(password)]
  }

  const GET_ME: Dict := map["@type" := JString("getMe")]

  /** The credential a wait state asks for, if the operation brought it. */
  function CredentialFor(input: AuthInput, status: AuthStatus): Option<Dict> {
    match status
    case WaitPhoneNumber => if Given(input.phoneNumber) then Some(PhoneQuery(input.phoneNumber.value)) else None
    case WaitCode => if Given(input.code) then Some(CodeQuery(input.code.value)) else None
    case WaitPassword => if Given(input.password) then Some(PasswordQuery(input.password.value)) else None
    case _ => None
  }

  /** Where an operation stands: its first or second client, and whether the proxy has been applied. */
  datatype Attempt = Attempt(client: nat, env: Env, session: Session, proxyApplied: bool, proxyCalls: nat)

  function Sending(a: Attempt, query: Dict): Attempt {
    a.(session := a.session.(sent := a.session.sent + [query]))
  }

  /** An event of this client, whose id is 0, or of none in particular. */
  predicate IsOwn(event: Dict) {
    Get(event, "@client_id") == JNull || EqualsInt(Get(event, "@client_id"), 0)
  }

  /** `_receive_client_event`: events of other clients are dropped, silence ends the wait. */
  function NextEvent(env: Env, s: Session, turns: nat): Step<Option<Dict>>
    decreases turns
  {
    if turns == 0 then Done(s, None)
    else
      var (s, event) :- ReceiveStep(env, s);
      if event.None? || IsOwn(event.value) then Done(s, event)
      else NextEvent(env, s, turns - 1)
  }

  function AskingProxy(a: Attempt, outcome: ProxyOutcome): Attempt {
    a.(proxyCalls := a.proxyCalls + 1, proxyApplied := outcome == Applied(true))
  }

  /** `_send_tdlib_parameters`, and whether the proxy applier raised. */
  function SendParameters(config: AuthConfig, a: Attempt): (Attempt, bool) {
    if config.proxy.None? || a.proxyApplied then (Sending(a, PARAMETERS), false)
    else
      var outcome := config.proxy.value(a.proxyCalls);
      (AskingProxy(Sending(a, PARAMETERS), outcome), outcome.ProxyRaises?)
  }

  /** `_get_current_user_id`: whatever goes wrong, there is just no id. */
  function UserId(a: Attempt): (Attempt, Option<string>) {
    var answered := QueryStep(a.env, a.session, GET_ME);
    (a.(session := answered.session),
     if answered.Raise? || Get(answered.value, "id") == JNull then None else Some(a.env.text(answered.value["id"])))
  }

  /** `_ready_tdlib_auth_result`. */
  function ReadyWith(a: Attempt): (Attempt, AuthResult) {
    (UserId(a).0, AuthResult(Ready, AuthorizedReady, true, UserId(a).1))
  }

  type Handled = (Attempt, Outcome<Option<AuthResult>>)

  /** The second client, if the factory can create it; what the first one left behind is gone. */
  function Recreated(config: AuthConfig, a: Attempt): Handled {
    if config.environments(1).None? then (a, Raised(BadValue))
    else (Attempt(1, config.environments(1).value, NEW_SESSION, a.proxyApplied, a.proxyCalls), Returned(None))
  }

  function HandleMapped(config: AuthConfig, input: AuthInput, a: Attempt, mapped: AuthResult): Handled {
    if mapped.status == WaitTdlibParameters then
      var (b, raised) := SendParameters(config, a);
      (b, if raised then Raised(BadValue) else Returned(None))
    else if CredentialFor(input, mapped.status).Some?
      then (Sending(a, CredentialFor(input, mapped.status).value), Returned(None))
    else if mapped.status == Ready then
      var (b, result) := ReadyWith(a);
      (b, Returned(Some(result)))
    else if mapped.status == Closed && a.client == 0 then Recreated(config, a)
    else (a, Returned(Some(mapped)))
  }

  /** `_handle_auth_event`: go on, end with a result, or raise. */
  function HandleEvent(config: AuthConfig, input: AuthInput, a: Attempt, event: Option<Dict>): Handled {
    if event.Some? && event.value != map[]
      && HasType(event.value, "error") then (a, Returned(Some(ErrorResult(config, event.value))))
    else
      match ExtractAuthorizationState(event)
      case Raised(exn) => (a, Raised(exn))
      case Returned(None) => (a, Returned(None))
      case Returned(Some(state)) => HandleMapped(config, input, a, MapAuthorizationState(state))
  }

  /** `map_tdlib_error`: a frozen or flooded account is a hard stop. */
  function ErrorResult(config: AuthConfig, error: Dict): AuthResult {
    if config.isHardStop(error) then AuthResult(Unsupported, ManualInterventionNeeded, true, None) else BROKEN
  }

  /** One turn of the receive loop. */
  function TakeTurn(config: AuthConfig, input: AuthInput, a: Attempt, turn: nat): Handled {
    match NextEvent(a.env, a.session, config.receiveTurns(turn))
    case Raise(s, exn) => (a.(session := s), Raised(exn))
    case Done(s, event) => HandleEvent(config, input, a.(session := s), event)
  }

  type AuthTurner = (Attempt, nat) -> Handled

  function TurnsOf(config: AuthConfig, input: AuthInput): AuthTurner {
    (a: Attempt, turn: nat) => TakeTurn(config, input, a, turn)
  }

  /** The receive loop from turn `turn` on; a timeout and an exception both count as a broken runtime. */
  function ResultFrom(take: AuthTurner, turns: nat, a: Attempt, turn: nat): AuthResult
    decreases turns - turn
  {
    if turn >= turns then BROKEN
    else
      var (b, outcome) := take(a, turn);
      match outcome
      case Raised(_) => BROKEN
      case Returned(Some(result)) => result
      case Returned(None) => ResultFrom(take, turns, b, turn + 1)
  }

  function FirstAttempt(config: AuthConfig): Attempt
    requires config.environments(0).Some?
  {
    Attempt(0, config.environments(0).value, NEW_SESSION, false, 0)
  }

  function OperationResult(config: AuthConfig, input: AuthInput): AuthResult {
    if !config.hasCredentials || config.environments(0).None? then BROKEN
    else ResultFrom(TurnsOf(config, input), config.turns, FirstAttempt(config), 0)
  }

  // ----- the same, said of what arrives and what is sent

  /** The event names no client, or this one. */
  ghost predicate IsForUs(event: Dict) {
    "@client_id" in event ==> event["@client_id"] in {JNull, JInt(0), JBool(false)}
  }

  /** The wait for an event passes over those of other clients, and over those alone. */
  lemma {:induction false} NextEventIsForUs(env: Env, s: Session, turns: nat) returns (skipped: seq<Dict>)
    ensures var next := NextEvent(env, s, turns);
            && (forall i :: 0 <= i < |skipped| ==> !IsForUs(skipped[i]))
            && (next.Done? && next.value.Some? ==> IsForUs(next.value.value))
            && next.session.delivered
               == s.delivered + skipped + (if next.Done? && next.value.Some? then [next.value.value] else [])
    decreases turns
  {
    skipped := [];
    if turns > 0 {
      var first := ReceiveStep(env, s);
      if first.Done? && first.value.Some? && !IsOwn(first.value.value) {
        var rest := NextEventIsForUs(env, first.session, turns - 1);
        skipped := [first.value.value] + rest;
      }
    }
  }

  ghost predicate HasText(text: Option<string>) {
    text.Some? && |text.value| > 0
  }

  /** The credential of the input that a state of this name asks for. */
  ghost predicate AsksFor(input: AuthInput, name: string, query: Dict) {
    || (name == "authorizationStateWaitPhoneNumber" && HasText(input.phoneNumber)
        && query == map["@type" := JString("setAuthenticationPhoneNumber"),
                        "phone_number" := JString(input.phoneNumber.value), "settings" := JNull])
    || (name == "authorizationStateWaitCode" && HasText(input.code)
        && query == map["@type" := JString("checkAuthenticationCode"), "code" := JString(input.code.value)])
    || (name == "authorizationStateWaitPassword" && HasText(input.password)
        && query == map["@type" := JString("checkAuthenticationPassword"), "password" := JString(input.password.value)])
  }

  ghost predicate AsksForNothing(input: AuthInput, name: string) {
    forall query :: !AsksFor(input, name, query)
  }

  lemma {:induction false} CredentialIsAskedFor(input: AuthInput, name: string, result: AuthResult)
    requires Means(name, result)
    ensures match CredentialFor(input, result.status)
            case Some(query) => AsksFor(input, name, query)
            case None => AsksForNothing(input, name)
  {
  }

  /** The event carries a state that means the result and asks for nothing; only the second client may be gone. */
  ghost predicate Names(input: AuthInput, event: Dict, client: nat, result: AuthResult) {
    exists name ::
      Says(event, name) && Means(name, result) && AsksForNothing(input, name) && (name in CLOSED_STATES ==> client == 1)
  }

  /** What a state other than the ready one and the wait for parameters can end an operation with. */
  ghost predicate EndsWith(input: AuthInput, event: Dict, client: nat, result: AuthResult) {
    match result.status
    case Broken => result == AuthResult(Broken, RuntimeBroken, false, None)
    case Unsupported => result == AuthResult(Unsupported, ManualInterventionNeeded, true, None)
    case _ => Names(input, event, client, result)
  }

  lemma {:induction false} MappedEnds(input: AuthInput, event: Dict, client: nat, result: AuthResult)
    requires LeadsTo(event, result) && CredentialFor(input, result.status).None?
    requires result.status == Closed ==> client == 1
    ensures EndsWith(input, event, client, result)
  {
    if result.status == Broken {
      assert result == AuthResult(Broken, RuntimeBroken, false, None);
    } else {
      var name := LedByName(event, result);
      CredentialIsAskedFor(input, name, result);
    }
  }

  /** A credential that the state asks for is sent, and the operation goes on. */
  lemma {:induction false} CredentialIsSent(config: AuthConfig, input: AuthInput, a: Attempt, event: Dict, name: string,
      query: Dict)
    requires Says(event, name) && AsksFor(input, name, query)
    ensures HandleEvent(config, input, a, Some(event))
            == (a.(session := a.session.(sent := a.session.sent + [query])), Returned(None))
  {
    SaidIsMapped(event, name);
    var mapped := MapAuthorizationState(ExtractAuthorizationState(Some(event)).value.value);
    CredentialIsAskedFor(input, name, mapped);
    NoErrorSays(event, name);
    assert AsksFor(input, name, CredentialFor(input, mapped.status).value);
  }

  lemma {:induction false} NoErrorSays(event: Dict, name: string)
    requires Says(event, name)
    ensures !HasType(event, "error")
  {
    assert "error"[0] != "authorizationState"[0] && "error"[0] != "updateAuthorizationState"[0];
  }

  /**
   A state that asks for nothing the operation brought ends it with what the state means; but parameters
   are sent, a ready session is asked who it is, and the first client that is gone is replaced.
   */
  lemma {:induction false} StateIsAnswered(config: AuthConfig, input: AuthInput, a: Attempt, event: Dict, name: string,
      result: AuthResult)
    requires Says(event, name) && Means(name, result) && AsksForNothing(input, name)
    ensures var (b, outcome) := HandleEvent(config, input, a, Some(event));
            if name == "authorizationStateWaitTdlibParameters" then (b, outcome.Raised?) == SendParameters(config, a)
                                                                    && (outcome.Returned? ==> outcome.value == None)
            else if name == "authorizationStateReady" then
              && b == a.(session := QueryStep(a.env, a.session, map["@type" := JString("getMe")]).session)
              && outcome.Returned? && outcome.value.Some?
              && outcome.value.value == result.(userId := outcome.value.value.userId)
            else if name in CLOSED_STATES && a.client == 0 then (b, outcome) == Recreated(config, a)
            else (b, outcome) == (a, Returned(Some(result)))
  {
    SaidIsMapped(event, name);
    var mapped := MapAuthorizationState(ExtractAuthorizationState(Some(event)).value.value);
    CredentialIsAskedFor(input, name, mapped);
    NoErrorSays(event, name);
    assert mapped == result;
  }

  /** What carries no state and is no error leaves the operation as it was. */
  lemma {:induction false} QuietGoesOn(config: AuthConfig, input: AuthInput, a: Attempt, event: Dict)
    requires SaysNothing(event) && ("@type" in event ==> event["@type"] != JString("error"))
    ensures HandleEvent(config, input, a, Some(event)) == (a, Returned(None))
  {
    ExtractReports(event);
  }

  /** An error ends the operation: a hard stop needs a person, any other error means a broken runtime. */
  lemma {:induction false} ErrorEnds(config: AuthConfig, input: AuthInput, a: Attempt, event: Dict)
    requires "@type" in event && event["@type"] == JString("error")
    ensures HandleEvent(config, input, a, Some(event))
            == (a, Returned(Some(if config.isHardStop(event)
                                 then AuthResult(Unsupported, ManualInterventionNeeded, true, None)
                                 else AuthResult(Broken, RuntimeBroken, false, None))))
  {
  }

  /** Parameters are sent each time, and the proxy applier is then asked unless it has returned true before. */
  lemma {:induction false} ParametersAreSent(config: AuthConfig, a: Attempt)
    ensures var (b, raised) := SendParameters(config, a);
            var asked := config.proxy.Some? && !a.proxyApplied;
            && b.session == a.session.(sent := a.session.sent + [map["@type" := JString("setTdlibParameters")]])
            && (b.client, b.env) == (a.client, a.env) && b.proxyCalls == a.proxyCalls + (if asked then 1 else 0)
            && (b.proxyApplied <==> a.proxyApplied || (asked && config.proxy.value(a.proxyCalls) == Applied(true)))
            && (raised <==> asked && config.proxy.value(a.proxyCalls) == ProxyRaises)
  {
  }

  /** A ready session is asked for its id, which is reported as text unless it is missing. */
  lemma {:induction false} IdIsAsked(a: Attempt)
    ensures var answered := QueryStep(a.env, a.session, map["@type" := JString("getMe")]);
            var hasId := answered.Done? && "id" in answered.value && answered.value["id"] != JNull;
            UserId(a) == (a.(session := answered.session),
                          if hasId then Some(a.env.text(answered.value["id"])) else None)
  {
  }

  // ----- in time

  /** For `n` turns nothing arrives, and then the ready state. */
  ghost predicate ReadyAfter(config: AuthConfig, env: Env, n: nat) {
    && (forall i: nat :: i <= n ==> config.receiveTurns(i) > 0) && (forall i: nat :: i < n ==> env.raw(i).Nothing?)
    && Brings(env.raw(n), "authorizationStateReady") && IsForUs(env.raw(n).dict)
  }

  /** Nothing has been read but by the turns before this one. */
  ghost predicate ReadUpTo(a: Attempt, env: Env, turn: nat) {
    a.env == env && a.session.pending == [] && a.session.position == turn
  }

  /** A turn before `n` goes on, and the turn `n` ends with the ready state. */
  ghost predicate GoesOnUntil(env: Env, n: nat, turn: nat, handled: Handled) {
    var (b, outcome) := handled;
    if turn < n then outcome == Returned(None) && ReadUpTo(b, env, turn + 1)
    else outcome.Returned? && outcome.value.Some? && outcome.value.value.status == Ready
  }

  ghost predicate EndsReadyAt(take: AuthTurner, env: Env, n: nat) {
    forall a: Attempt, turn: nat {:trigger take(a, turn)} ::
      ReadUpTo(a, env, turn) && turn <= n ==> GoesOnUntil(env, n, turn, take(a, turn))
  }

  /** An operation to which only the ready state arrives ends ready exactly when that is within its turns. */
  lemma {:induction false} ReadyInTime(config: AuthConfig, input: AuthInput, env: Env, n: nat)
    requires config.hasCredentials && config.environments(0) == Some(env) && ReadyAfter(config, env, n)
    ensures OperationResult(config, input).status == Ready <==> n < config.turns
  {
    var take := TurnsOf(config, input);
    forall a: Attempt, turn: nat {:trigger take(a, turn)} | ReadUpTo(a, env, turn) && turn <= n
      ensures GoesOnUntil(env, n, turn, take(a, turn))
    {
      if turn < n {
        SilentTurn(config, input, a, turn);
      } else {
        ReadyTurn(config, input, a, turn);
      }
    }
    EndsReadyInTime(take, config.turns, env, FirstAttempt(config), n, 0);
  }

  lemma {:induction false} EndsReadyInTime(take: AuthTurner, turns: nat, env: Env, a: Attempt, n: nat, turn: nat)
    requires EndsReadyAt(take, env, n) && ReadUpTo(a, env, turn) && turn <= n
    ensures ResultFrom(take, turns, a, turn).status == Ready <==> n < turns
    decreases n - turn
  {
    if turn < n && turn < turns {
      EndsReadyInTime(take, turns, env, take(a, turn).0, n, turn + 1);
    }
  }

  lemma {:induction false} SilentTurn(config: AuthConfig, input: AuthInput, a: Attempt, turn: nat)
    requires a.session.pending == [] && a.env.raw(a.session.position).Nothing? && config.receiveTurns(turn) > 0
    ensures var (b, outcome) := TakeTurn(config, input, a, turn);
            outcome == Returned(None) && ReadUpTo(b, a.env, a.session.position + 1)
  {
    var next := ReceiveStep(a.env, a.session);
    assert NextEvent(a.env, a.session, config.receiveTurns(turn)) == Done(next.session, None);
  }

  lemma {:induction false} ReadyTurn(config: AuthConfig, input: AuthInput, a: Attempt, turn: nat)
    requires a.session.pending == [] && config.receiveTurns(turn) > 0
    requires var raw := a.env.raw(a.session.position);
             Brings(raw, "authorizationStateReady") && IsForUs(raw.dict)
    ensures var outcome := TakeTurn(config, input, a, turn).1;
            outcome.Returned? && outcome.value.Some? && outcome.value.value.status == Ready
  {
    var (next, event) := (ReceiveStep(a.env, a.session), a.env.raw(a.session.position).dict);
    assert NextEvent(a.env, a.session, config.receiveTurns(turn)) == Done(next.session, Some(event));
    StateIsAnswered(config, input, a.(session := next.session), event, "authorizationStateReady",
                    AuthResult(Ready, AuthorizedReady, true, None));
  }
}
