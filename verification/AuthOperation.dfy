/**
 `TdlibAuthAdapter._run_auth_operation` of backend/app/adapters/tdlib_auth.py: the receive loop of a
 sign-in, the clients it creates and destroys, and what it sends and when.
 */
module AuthOperation {
  import opened Wrappers
  import opened Json
  import opened TdlibClient
  import opened AuthStates
  import opened AuthSteps

  datatype AuthAction =
    | Created(client: nat)
    | Received(client: nat, event: Dict)
    | Sent(client: nat, query: Dict)
    | ProxyAsked(client: nat, outcome: ProxyOutcome)

  // ----- what an operation may do next

  /** The query that answers a status, given the input of the operation. */
  ghost predicate Answers(input: AuthInput, status: AuthStatus, query: Dict) {
    match status
    case WaitTdlibParameters => query == PARAMETERS
    case Ready => HasType(query, "getMe")
    case _ => CredentialFor(input, status) == Some(query)
  }

  function CreatedCount(log: seq<AuthAction>): nat {
    if log == [] then 0
    else CreatedCount(log[..|log| - 1]) + (if log[|log| - 1].Created? then 1 else 0)
  }

  predicate IsApplied(action: AuthAction) {
    action.ProxyAsked? && action.outcome == Applied(true)
  }

  predicate ProxyApplied(log: seq<AuthAction>) {
    exists i :: 0 <= i < |log| && IsApplied(log[i])
  }

  /** After `log`, may the operation do `action`? */
  ghost predicate Allowed(input: AuthInput, log: seq<AuthAction>, action: AuthAction) {
    match action
    case Created(client) =>
      && client == CreatedCount(log) && client < 2
      && (client == 1 ==>
            log != [] && log[|log| - 1].Received? && log[|log| - 1].client == 0
            && EventStatus(log[|log| - 1].event) == Some(Closed))
    case Received(client, _) => client + 1 == CreatedCount(log)
    case Sent(client, query) =>
      && log != [] && log[|log| - 1].Received? && log[|log| - 1].client == client
      && EventStatus(log[|log| - 1].event).Some? && Answers(input, EventStatus(log[|log| - 1].event).value, query)
    case ProxyAsked(client, _) =>
      log != [] && log[|log| - 1] == Sent(client, PARAMETERS) && !ProxyApplied(log)
  }

  ghost predicate Orderly(input: AuthInput, log: seq<AuthAction>) {
    log == [] || (Orderly(input, log[..|log| - 1]) && Allowed(input, log[..|log| - 1], log[|log| - 1]))
  }

  function SentBy(log: seq<AuthAction>, client: nat): seq<Dict> {
    if log == [] then []
    else
      var last := log[|log| - 1];
      SentBy(log[..|log| - 1], client) + (if last.Sent? && last.client == client then [last.query] else [])
  }

  /** The events a client is logged as having reported. */
  function HeardFrom(log: seq<AuthAction>, client: nat): set<Dict> {
    if log == [] then {}
    else
      var last := log[|log| - 1];
      HeardFrom(log[..|log| - 1], client) + (if last.Received? && last.client == client then {last.event} else {})
  }

  // ----- what an orderly operation cannot do

  lemma {:induction false} OrderlyAt(input: AuthInput, log: seq<AuthAction>, i: nat)
    requires Orderly(input, log) && i < |log|
    ensures Allowed(input, log[..i], log[i])
  {
    if i < |log| - 1 {
      OrderlyAt(input, log[..|log| - 1], i);
      assert log[..|log| - 1][..i] == log[..i];
    }
  }

  const CREDENTIALS := {"setAuthenticationPhoneNumber", "checkAuthenticationCode", "checkAuthenticationPassword"}

  ghost predicate IsCredential(query: Dict) {
    "@type" in query && query["@type"].JString? && query["@type"].s in CREDENTIALS
  }

  /** A credential is the one that a state carried by the event asks for. */
  ghost predicate AnswersAsked(input: AuthInput, event: Dict, query: Dict) {
    IsCredential(query) ==> exists name :: Says(event, name) && AsksFor(input, name, query)
  }

  lemma {:induction false} AnswersTyped(input: AuthInput, event: Dict, query: Dict)
    requires EventStatus(event).Some? && Answers(input, EventStatus(event).value, query)
    ensures AnswersAsked(input, event, query)
  {
    var status := EventStatus(event).value;
    if IsCredential(query) && status != Broken {
      var name := StatusHasName(event);
      var result :| Means(name, result) && EventStatus(event) == Some(result.status);
      CredentialIsAskedFor(input, name, result);
    }
  }

  lemma {:induction false} SentAnswers(input: AuthInput, before: seq<AuthAction>, client: nat, query: Dict)
    requires Allowed(input, before, Sent(client, query))
    ensures before != [] && before[|before| - 1].Received? && before[|before| - 1].client == client
    ensures AnswersAsked(input, before[|before| - 1].event, query)
  {
    AnswersTyped(input, before[|before| - 1].event, query);
  }

  /** A credential is sent only in answer to the state that asks for it, to the client that reported it. */
  lemma {:induction false} CredentialsOnlyInAnswer(input: AuthInput, log: seq<AuthAction>, i: nat)
    requires Orderly(input, log) && i < |log| && log[i].Sent?
    ensures i > 0 && log[i - 1].Received? && log[i - 1].client == log[i].client
    ensures AnswersAsked(input, log[i - 1].event, log[i].query)
  {
    OrderlyAt(input, log, i);
    SentAnswers(input, log[..i], log[i].client, log[i].query);
  }

  /** A second client is created only right after the first one reported that it is gone or going. */
  lemma {:induction false} SecondClientReplaces(input: AuthInput, log: seq<AuthAction>, i: nat)
    requires Orderly(input, log) && i < |log| && log[i] == Created(1)
    ensures i > 0 && log[i - 1].Received? && log[i - 1].client == 0 && SaysClosed(log[i - 1].event)
  {
    OrderlyAt(input, log, i);
    ClosedIsSaid(log[i - 1].event);
  }

  /** Once the proxy applier has returned true it is not called again, recreated client or not. */
  lemma {:induction false} ProxyNotAskedAgain(input: AuthInput, log: seq<AuthAction>, i: nat, j: nat)
    requires Orderly(input, log) && i < j < |log| && IsApplied(log[i])
    ensures !log[j].ProxyAsked?
  {
    assert IsApplied(log[..j][i]);
    OrderlyAt(input, log, j);
  }

  lemma {:induction false} CountedCreations(input: AuthInput, log: seq<AuthAction>)
    requires Orderly(input, log)
    ensures CreatedCount(log) <= 2
  {
    if log != [] {
      CountedCreations(input, log[..|log| - 1]);
    }
  }

  /** What the operation keeps about its log, for `n` clients created. */
  ghost predicate History(input: AuthInput, log: seq<AuthAction>, n: nat, applied: bool) {
    Orderly(input, log) && CreatedCount(log) == n && n <= 2 && (applied <==> ProxyApplied(log))
  }

  lemma {:induction false} HistoryGoesOn(input: AuthInput, log: seq<AuthAction>, action: AuthAction, n: nat,
                                         applied: bool)
    requires History(input, log, n, applied) && Allowed(input, log, action)
    ensures History(input, log + [action], if action.Created? then n + 1 else n, applied || IsApplied(action))
    ensures forall k: nat :: SentBy(log + [action], k) == SentBy(log, k)
              + (if action.Sent? && action.client == k then [action.query] else [])
    ensures forall k: nat :: HeardFrom(log + [action], k) == HeardFrom(log, k)
              + (if action.Received? && action.client == k then {action.event} else {})
  {
    var longer := log + [action];
    assert longer[..|longer| - 1] == log;
    if ProxyApplied(log) {
      var i :| 0 <= i < |log| && IsApplied(log[i]);
      assert IsApplied(longer[i]);
    }
    if IsApplied(action) {
      assert IsApplied(longer[|log|]);
    }
  }

  /** Nobody has sent anything for a client that does not exist yet. */
  lemma {:induction false} NobodySent(input: AuthInput, log: seq<AuthAction>, client: nat)
    requires Orderly(input, log) && CreatedCount(log) <= client
    ensures SentBy(log, client) == []
  {
    if log != [] {
      var before := log[..|log| - 1];
      NobodySent(input, before, client);
      if log[|log| - 1].Sent? {
        OrderlyAt(input, log, |log| - 2);
        assert log[..|log| - 2] == before[..|before| - 1];
      }
    }
  }

  /** A client that does not exist yet has reported nothing. */
  lemma {:induction false} NobodyHeard(input: AuthInput, log: seq<AuthAction>, client: nat)
    requires Orderly(input, log) && CreatedCount(log) <= client
    ensures HeardFrom(log, client) == {}
  {
    if log != [] {
      var (before, last) := (log[..|log| - 1], log[|log| - 1]);
      NobodyHeard(input, before, client);
      assert last.Received? ==> last.client + 1 == CreatedCount(before);
    }
  }

  lemma {:induction false} CreationGoesOn(input: AuthInput, log: seq<AuthAction>, n: nat, applied: bool)
    requires History(input, log, n, applied) && n < 2
    requires n == 1 ==>
               log != [] && log[|log| - 1].Received? && log[|log| - 1].client == 0
               && EventStatus(log[|log| - 1].event) == Some(Closed)
    ensures var longer := log + [Created(n)];
            && History(input, longer, n + 1, applied) && SentBy(longer, n) == [] && HeardFrom(longer, n) == {}
            && SentBy(longer, 0) == SentBy(log, 0) && HeardFrom(longer, 0) == HeardFrom(log, 0)
  {
    NobodySent(input, log, n);
    NobodyHeard(input, log, n);
    HistoryGoesOn(input, log, Created(n), n, applied);
  }

  // ----- the operation

  /** `_receive_client_event`. */
  method ReceiveClientEvent(client: RealTdJsonClient, turns: nat) returns (result: Outcome<Option<Dict>>)
    modifies client`pendingEvents, client`position, client`delivered
    ensures var step := NextEvent(client.env, old(client.Now()), turns);
            client.Now() == step.session && result == step.Outcome()
    ensures old(client.delivered) <= client.delivered
            && (result.Returned? && result.value.Some? ==> result.value.value in client.delivered)
  {
    ghost var goal := NextEvent(client.env, client.Now(), turns);
    var left := turns;
    while left > 0
      invariant NextEvent(client.env, client.Now(), left) == goal && old(client.delivered) <= client.delivered
    {
      left := left - 1;
      result := client.Receive();
      if result.Raised? || result.value.None? || IsOwn(result.value.value) {
        return;
      }
    }
    return Returned(None);
  }

  /** The current client, and before it the one that was closed and replaced. */
  class Operation {
    const config: AuthConfig
    const input: AuthInput
    var client: RealTdJsonClient?
    var former: RealTdJsonClient?
    var proxyApplied: bool
    var proxyCalls: nat
    ghost var log: seq<AuthAction>

    ghost function Count(): nat
      reads this
    {
      (if client == null then 0 else 1) + (if former == null then 0 else 1)
    }

    /** The index of the current client. */
    ghost function Index(): nat
      reads this
    {
      if former == null then 0 else 1
    }

    /** The log tells all that was sent to the client, and only events that the client delivered. */
    ghost predicate Told(c: RealTdJsonClient, k: nat)
      reads this, c
    {
      c.sent == SentBy(log, k) && forall e :: e in HeardFrom(log, k) ==> e in c.delivered
    }

    ghost predicate Valid()
      reads this, client, former
    {
      && History(input, log, Count(), proxyApplied)
      && (client != null ==> client.Valid() && Told(client, Index()))
      && (former != null ==> client != null && client != former && former.Valid() && former.closed && Told(former, 0))
    }

    ghost predicate Running()
      reads this, client, former
    {
      Valid() && client != null
    }

    ghost function Now(): Attempt
      requires client != null
      reads this, client
    {
      Attempt(Index(), client.env, client.Now(), proxyApplied, proxyCalls)
    }

    /** The last thing that happened is that the current client reported `status`. */
    ghost predicate Reported(status: AuthStatus)
      reads this
    {
      log != [] && log[|log| - 1].Received? && log[|log| - 1].client == Index()
        && EventStatus(log[|log| - 1].event) == Some(status)
    }

    /** The last thing that happened is that the current client reported a state that leads to this result. */
    ghost predicate Led(result: AuthResult)
      reads this
    {
      log != [] && log[|log| - 1].Received? && log[|log| - 1].client == Index()
        && LeadsTo(log[|log| - 1].event, result)
    }

    /**
     A result is earned.  A ready one comes right after the ready state and the question who it is; any
     other that names a state right after that state, which asked for nothing that the operation brought,
     and which the second client reported if the client is gone; and the parameters are never a result.
     */
    ghost predicate Earned(outcome: Outcome<Option<AuthResult>>)
      reads this
    {
      outcome.Returned? && outcome.value.Some? ==> IsEarned(outcome.value.value)
    }

    ghost predicate IsEarned(result: AuthResult)
      reads this
    {
      match result.status
      case Ready =>
        && |log| >= 2 && log[|log| - 1].Sent? && HasType(log[|log| - 1].query, "getMe")
        && log[|log| - 2].Received? && log[|log| - 2].client == log[|log| - 1].client == Index()
        && Says(log[|log| - 2].event, "authorizationStateReady")
        && result == AuthResult(Ready, AuthorizedReady, true, result.userId)
      case Broken => result == AuthResult(Broken, RuntimeBroken, false, None)
      case Unsupported => result == AuthResult(Unsupported, ManualInterventionNeeded, true, None)
      case WaitTdlibParameters => false
      case _ =>
        && log != [] && log[|log| - 1].Received? && log[|log| - 1].client == Index()
        && Names(input, log[|log| - 1].event, Index(), result)
    }

    constructor (config: AuthConfig, input: AuthInput)
      ensures this.config == config && this.input == input && Valid() && client == null && log == []
      ensures !proxyApplied && proxyCalls == 0
    {
      this.config, this.input := config, input;
      client, former, proxyApplied, proxyCalls, log := null, null, false, 0, [];
    }

    /** A new client takes the place of the one that was closed, if there was one. */
    method Adopt(created: RealTdJsonClient)
      requires Valid() && former == null && (client == null <==> log == []) && created != client
      requires client != null ==> client.closed && Reported(Closed)
      requires created.Valid() && created.Now() == NEW_SESSION
      modifies this`client, this`former, this`log
      ensures Valid() && client == created && former == old(client)
    {
      ghost var n := Count();
      CreationGoesOn(input, log, n, proxyApplied);
      assert client != null ==> Told(client, 0);
      former, client := client, created;
      log := log + [Created(n)];
      assert Told(created, n);
      assert former != null ==> Told(former, 0);
    }

    /** The factory's next client, or a failed creation. */
    method Create() returns (ok: bool)
      requires Valid() && former == null && (client == null <==> log == [])
      requires client != null ==> client.closed && Reported(Closed)
      modifies this`client, this`former, this`log
      ensures Valid() && ok == config.environments(if old(client) == null then 0 else 1).Some?
      ensures ok ==> client != null && fresh(client) && !client.closed && former == old(client)
      ensures ok ==> Now() == Attempt(Index(), config.environments(Index()).value, NEW_SESSION, proxyApplied,
                                      proxyCalls)
      ensures !ok ==> client == old(client) && former == null && log == old(log)
    {
      var env := config.environments(if client == null then 0 else 1);
      if env.None? {
        return false;
      }
      var created := new RealTdJsonClient(env.value);
      Adopt(created);
      return true;
    }

    /** The next event of the current client. */
    method Receive(turns: nat) returns (result: Outcome<Option<Dict>>)
      requires Running()
      modifies client`pendingEvents, client`position, client`delivered
      ensures Running() && (result.Returned? && result.value.Some? ==> result.value.value in client.delivered)
      ensures var step := NextEvent(client.env, old(client.Now()), turns);
              client.Now() == step.session && result == step.Outcome()
    {
      result := ReceiveClientEvent(client, turns);
      assert Told(client, Index());
    }

    method Send(query: Dict)
      requires Running() && Allowed(input, log, Sent(Index(), query))
      modifies this`log, client`sent
      ensures Running() && log == old(log) + [Sent(Index(), query)] && Now() == Sending(old(Now()), query)
    {
      HistoryGoesOn(input, log, Sent(Index(), query), Count(), proxyApplied);
      client.Send(query);
      log := log + [Sent(Index(), query)];
    }

    /** `_send_tdlib_parameters`: the parameters, then the proxy unless it has been applied. */
    method SendTdlibParameters() returns (raised: bool)
      requires Running() && Reported(WaitTdlibParameters)
      modifies this`log, this`proxyApplied, this`proxyCalls, client`sent
      ensures Running() && (Now(), raised) == SendParameters(config, old(Now()))
    {
      Send(PARAMETERS);
      if config.proxy.None? || proxyApplied {
        return false;
      }
      raised := AskProxy(config.proxy.value(proxyCalls));
    }

    method AskProxy(outcome: ProxyOutcome) returns (raised: bool)
      requires Running() && !proxyApplied && Allowed(input, log, ProxyAsked(Index(), outcome))
      modifies this`log, this`proxyApplied, this`proxyCalls
      ensures Running() && Now() == AskingProxy(old(Now()), outcome) && raised == outcome.ProxyRaises?
    {
      proxyCalls := proxyCalls + 1;
      HistoryGoesOn(input, log, ProxyAsked(Index(), outcome), Count(), proxyApplied);
      log := log + [ProxyAsked(Index(), outcome)];
      if outcome.ProxyRaises? {
        return true;
      }
      proxyApplied := outcome.ok;
      return false;
    }

    /** `_send_auth_input`: the credential the state asks for, if this operation brought it. */
    method SendAuthInput(status: AuthStatus) returns (sent: bool)
      requires Running() && Reported(status)
      modifies this`log, client`sent
      ensures Running() && (!sent ==> log == old(log))
      ensures sent == CredentialFor(input, status).Some?
      ensures Now() == if sent then Sending(old(Now()), CredentialFor(input, status).value) else old(Now())
    {
      if status == WaitPhoneNumber && Given(input.phoneNumber) {
        Send(PhoneQuery(input.phoneNumber.value));
        return true;
      }
      if status == WaitCode && Given(input.code) {
        Send(CodeQuery(input.code.value));
        return true;
      }
      if status == WaitPassword && Given(input.password) {
        Send(PasswordQuery(input.password.value));
        return true;
      }
      return false;
    }

    /** A query of the current client, under the token it draws for it. */
    method Ask(query: Dict) returns (answered: Outcome<Dict>)
      requires Running() && Allowed(input, log, Sent(Index(), WithToken(client.env, client.Now(), query)))
      modifies this`log, client`pendingEvents, client`position, client`loops, client`queries, client`sent,
               client`matched
      ensures Running() && log == old(log) + [old(Sent(Index(), WithToken(client.env, client.Now(), query)))]
      ensures var step := QueryStep(client.env, old(client.Now()), query);
              Now() == old(Now()).(session := step.session) && answered == step.Outcome()
    {
      ghost var action := Sent(Index(), WithToken(client.env, client.Now(), query));
      HistoryGoesOn(input, log, action, Count(), proxyApplied);
      SendsOne(client.env, client.Now(), query);
      answered := client.SendQuery(query);
      assert client.sent == old(client.sent) + [action.query];
      log := log + [action];
      assert Told(client, Index());
    }

    /** `_get_current_user_id`: whatever goes wrong, there is just no id. */
    method CurrentUserId() returns (id: Option<string>)
      requires Running() && Reported(Ready)
      modifies this`log, client`pendingEvents, client`position, client`loops, client`queries, client`sent,
               client`matched
      ensures Running() && |log| == |old(log)| + 1 && log[..|old(log)|] == old(log)
      ensures var last := log[|log| - 1]; last.Sent? && last.client == Index() && HasType(last.query, "getMe")
      ensures (Now(), id) == UserId(old(Now()))
    {
      assert HasType(WithToken(client.env, client.Now(), GET_ME), "getMe");
      var answered := Ask(GET_ME);
      if answered.Raised? || Get(answered.value, "id") == JNull {
        return None;
      }
      return Some(client.env.text(answered.value["id"]));
    }

    /** `_ready_tdlib_auth_result`. */
    method ReadyResult() returns (result: AuthResult)
      requires Running() && Reported(Ready)
      modifies this`log, client`pendingEvents, client`position, client`loops, client`queries, client`sent,
               client`matched
      ensures Running() && Earned(Returned(Some(result)))
      ensures (Now(), result) == ReadyWith(old(Now()))
    {
      StatusIsSaid(log[|log| - 1].event, "authorizationStateReady", AuthResult(Ready, AuthorizedReady, true, None));
      var id := CurrentUserId();
      result := AuthResult(Ready, AuthorizedReady, true, id);
    }

    /** `_handle_auth_event`: go on, end with a result, or raise. */
    method HandleAuthEvent(event: Option<Dict>) returns (outcome: Outcome<Option<AuthResult>>)
      requires Running() && (event.Some? ==> event.value in client.delivered)
      modifies this, client, former
      ensures Running() && (client == old(client) || fresh(client)) && (former == old(former) || former == old(client))
      ensures Earned(outcome) && (Now(), outcome) == HandleEvent(config, input, old(Now()), event)
    {
      if event.Some? && event.value != map[] && HasType(event.value, "error") {
        return Returned(Some(ErrorResult(config, event.value)));
      }
      var state := ExtractAuthorizationState(event);
      if state.Raised? {
        return Raised(state.exn);
      }
      if state.value.None? {
        return Returned(None);
      }
      HistoryGoesOn(input, log, Received(Index(), event.value), Count(), proxyApplied);
      log := log + [Received(Index(), event.value)];
      ExtractReports(event.value);
      outcome := HandleState(MapAuthorizationState(state.value.value));
    }

    /** Closing the client that reported itself closed, and starting over with a second one. */
    method Recreate() returns (outcome: Outcome<Option<AuthResult>>)
      requires Running() && Reported(Closed) && former == null
      modifies this`client, this`former, this`log, client
      ensures Running() && (client == old(client) || fresh(client)) && (former == null || former == old(client))
      ensures (Now(), outcome) == Recreated(config, old(Now()))
    {
      client.Close();
      var ok := Create();
      return if ok then Returned(None) else Raised(BadValue);
    }

    lemma {:induction false} MappedIsEarned(mapped: AuthResult)
      requires Led(mapped) && CredentialFor(input, mapped.status).None?
      requires mapped.status !in {WaitTdlibParameters, Ready} && (mapped.status == Closed ==> former != null)
      ensures IsEarned(mapped)
    {
      MappedEnds(input, log[|log| - 1].event, Index(), mapped);
    }

    method HandleState(mapped: AuthResult) returns (outcome: Outcome<Option<AuthResult>>)
      requires Running() && Reported(mapped.status) && Led(mapped)
      modifies this, client, former
      ensures Running() && (client == old(client) || fresh(client)) && (former == old(former) || former == old(client))
      ensures Earned(outcome) && (Now(), outcome) == HandleMapped(config, input, old(Now()), mapped)
    {
      if mapped.status == WaitTdlibParameters {
        var raised := SendTdlibParameters();
        return if raised then Raised(BadValue) else Returned(None);
      }
      var sent := SendAuthInput(mapped.status);
      if sent {
        return Returned(None);
      }
      outcome := Conclude(mapped);
    }

    /** A state that the operation has nothing to send for. */
    method Conclude(mapped: AuthResult) returns (outcome: Outcome<Option<AuthResult>>)
      requires Running() && Reported(mapped.status) && Led(mapped)
      requires mapped.status != WaitTdlibParameters && CredentialFor(input, mapped.status).None?
      modifies this, client, former
      ensures Running() && (client == old(client) || fresh(client)) && (former == old(former) || former == old(client))
      ensures Earned(outcome) && (Now(), outcome) == HandleMapped(config, input, old(Now()), mapped)
    {
      if mapped.status == Ready {
        var result := ReadyResult();
        return Returned(Some(result));
      }
      if mapped.status == Closed && former == null {
        outcome := Recreate();
        return;
      }
      MappedIsEarned(mapped);
      return Returned(Some(mapped));
    }

    /**
     The whole operation: at most two clients are created and every one of them is destroyed exactly
     once, however it ends; what it did in between was orderly; and a ready result was earned.
     */
    method Run() returns (result: AuthResult)
      requires Valid() && client == null && log == [] && !proxyApplied && proxyCalls == 0
      modifies this
      ensures Orderly(input, log) && CreatedCount(log) == Count() && Valid()
      ensures client != null ==> fresh(client) && client.destroyed == 1
      ensures former != null ==> fresh(former) && former.destroyed == 1 && former != client
      ensures Earned(Returned(Some(result))) && result == OperationResult(config, input)
    {
      result := BROKEN;
      if !config.hasCredentials {
        return;
      }
      var ok := Create();
      if !ok {
        return;
      }
      result := Loop();
      client.Close();
    }

    method NextTurn(turn: nat) returns (outcome: Outcome<Option<AuthResult>>)
      requires Running()
      modifies this, client, former
      ensures Running() && (client == old(client) || fresh(client)) && (former == old(former) || former == old(client))
      ensures Earned(outcome) && (Now(), outcome) == TurnsOf(config, input)(old(Now()), turn)
    {
      var event := Receive(config.receiveTurns(turn));
      if event.Raised? {
        return Raised(event.exn);
      }
      outcome := HandleAuthEvent(event.value);
    }

    /** The receive loop; a timeout and an exception both count as a broken runtime. */
    method Loop() returns (result: AuthResult)
      requires Running() && former == null
      modifies this, client
      ensures Running() && (client == old(client) || fresh(client))
              && (former == null || former == old(client) || fresh(former))
      ensures Earned(Returned(Some(result)))
      ensures result == ResultFrom(TurnsOf(config, input), config.turns, old(Now()), 0)
    {
      ghost var take := TurnsOf(config, input);
      ghost var goal := ResultFrom(take, config.turns, Now(), 0);
      var turn := 0;
      while turn < config.turns
        invariant Running() && (client == old(client) || fresh(client))
                  && (former == null || former == old(client) || fresh(former))
        invariant ResultFrom(take, config.turns, Now(), turn) == goal
      {
        var outcome := NextTurn(turn);
        turn := turn + 1;
        if outcome.Raised? {
          return BROKEN;
        }
        if outcome.value.Some? {
          return outcome.value.value;
        }
      }
      return BROKEN;
    }
  }
}
