/**
 `RealTdJsonClient` of backend/app/adapters/tdlib_json_client.py: one native event stream, split
 between the replies to queries and the updates that everything else reads.
 */
module TdlibClient {
  import opened Wrappers
  import opened Json

  /** What one `td_json_client_receive` call brings: nothing in time, an event, or text that does not parse. */
  datatype Raw = Nothing | Event(dict: Dict) | Malformed

  /**
   Everything a run does not decide: the results of the successive native receives, the query
   tokens, how many turns each deadline loop gets before its deadline, `int()` of a text, `str()` of a
   value, and the error code the adapters derive from a response they reject.
   */
  datatype Env = Env(
    raw: nat -> Raw,
    uuid: nat -> string,
    turns: nat -> nat,
    parseInt: string -> Option<int>,
    text: Json -> string,
    errorCode: Dict -> string)

  datatype Exn =
    | Timeout
    | BadJson
    | BadValue
    | MissingKey(key: string)
    | QueryFailed(code: string)
    | StoryUncertain(temporaryId: int)

  /** The state of a client: `delivered` and `matched` record what it has handed out. */
  datatype Session = Session(
    pending: seq<Dict>,
    position: nat,
    loops: nat,
    queries: nat,
    sent: seq<Dict>,
    delivered: seq<Dict>,
    matched: set<nat>)

  const NEW_SESSION := Session([], 0, 0, 0, [], [], {})

  datatype Outcome<+T> = Returned(value: T) | Raised(exn: Exn) {
    predicate IsFailure() {
      Raised?
    }

    function PropagateFailure<U>(): Outcome<U>
      requires Raised?
    {
      Raised(exn)
    }

    function Extract(): T
      requires Returned?
    {
      value
    }
  }

  /** A call that may raise; either way the client has moved on. */
  datatype Step<+T> = Done(session: Session, value: T) | Raise(session: Session, exn: Exn) {
    predicate IsFailure() {
      Raise?
    }

    function PropagateFailure<U>(): Step<U>
      requires Raise?
    {
      Raise(session, exn)
    }

    function Extract(): (Session, T)
      requires Done?
    {
      (session, value)
    }

    function Outcome(): Outcome<T> {
      match this
      case Done(_, value) => Returned(value)
      case Raise(_, exn) => Raised(exn)
    }
  }

  /** A computation that does not touch the client. */
  function Lift<T>(s: Session, outcome: Outcome<T>): Step<T> {
    match outcome
    case Returned(value) => Done(s, value)
    case Raised(exn) => Raise(s, exn)
  }

  function ReceiveStep(env: Env, s: Session): Step<Option<Dict>> {
    if s.pending != [] then
      Done(s.(pending := s.pending[1..], delivered := s.delivered + [s.pending[0]]), Some(s.pending[0]))
    else
      var after := s.(position := s.position + 1);
      match env.raw(s.position)
      case Nothing => Done(after, None)
      case Event(d) => Done(after.(delivered := s.delivered + [d]), Some(d))
      case Malformed => Raise(after, BadJson)
  }

  predicate Carries(d: Dict, extra: string) {
    Get(d, "@extra") == JString(extra)
  }

  /** An event worth keeping: `send_query` drops empty ones. */
  predicate IsUpdate(raw: Raw) {
    raw.Event? && raw.dict != map[]
  }

  /** The native receive that ends the wait for a reply: unreadable text, or the reply itself. */
  predicate Ends(raw: Raw, extra: string) {
    raw.Malformed? || (IsUpdate(raw) && Carries(raw.dict, extra))
  }

  /** One native receive that does not end the wait: what it brings is kept for later. */
  function PassedOver(env: Env, s: Session): Session {
    var raw := env.raw(s.position);
    s.(position := s.position + 1, pending := if IsUpdate(raw) then s.pending + [raw.dict] else s.pending)
  }

  /** The deadline loop of `send_query`. */
  function AwaitReply(env: Env, s: Session, extra: string, turns: nat): Step<Dict>
    decreases turns
  {
    if turns == 0 then Raise(s, Timeout)
    else
      var raw := env.raw(s.position);
      if !Ends(raw, extra) then AwaitReply(env, PassedOver(env, s), extra, turns - 1)
      else if raw.Malformed? then Raise(s.(position := s.position + 1), BadJson)
      else Done(s.(position := s.position + 1, matched := s.matched + {s.position}), raw.dict)
  }

  /** A query as it is sent: under the next token. */
  function WithToken(env: Env, s: Session, query: Dict): Dict {
    query["@extra" := JString(env.uuid(s.queries))]
  }

  function Asked(env: Env, s: Session, query: Dict): Session {
    s.(sent := s.sent + [WithToken(env, s, query)], queries := s.queries + 1, loops := s.loops + 1)
  }

  function QueryStep(env: Env, s: Session, query: Dict): Step<Dict> {
    AwaitReply(env, Asked(env, s, query), env.uuid(s.queries), env.turns(s.loops))
  }

  lemma {:induction false} AwaitSendsNothing(env: Env, s: Session, extra: string, turns: nat)
    ensures AwaitReply(env, s, extra, turns).session.sent == s.sent
    decreases turns
  {
    if turns > 0 && !Ends(env.raw(s.position), extra) {
      AwaitSendsNothing(env, PassedOver(env, s), extra, turns - 1);
    }
  }

  /** A query is sent once, under its token. */
  lemma {:induction false} SendsOne(env: Env, s: Session, query: Dict)
    ensures QueryStep(env, s, query).session.sent == s.sent + [WithToken(env, s, query)]
  {
    AwaitSendsNothing(env, Asked(env, s, query), env.uuid(s.queries), env.turns(s.loops));
  }

  // ----- the client object

  class RealTdJsonClient {
    const env: Env
    var pendingEvents: seq<Dict>
    var closed: bool
    var position: nat
    var loops: nat
    var queries: nat
    ghost var sent: seq<Dict>
    ghost var delivered: seq<Dict>
    ghost var matched: set<nat>
    /** How often `td_json_client_destroy` was called on the native handle. */
    ghost var destroyed: nat

    ghost function Now(): Session
      reads this
    {
      Session(pendingEvents, position, loops, queries, sent, delivered, matched)
    }

    /** The handle is destroyed at most once, and exactly when the client counts as closed. */
    ghost predicate Valid()
      reads this
    {
      destroyed == if closed then 1 else 0
    }

    constructor (env: Env)
      ensures this.env == env && Now() == NEW_SESSION && !closed && Valid()
    {
      this.env := env;
      pendingEvents, closed, position, loops, queries := [], false, 0, 0, 0;
      sent, delivered, matched, destroyed := [], [], {}, 0;
    }

    method Send(query: Dict)
      modifies `sent
      ensures sent == old(sent) + [query]
    {
      sent := sent + [query];
    }

    method Receive() returns (result: Outcome<Option<Dict>>)
      modifies `pendingEvents, `position, `delivered
      ensures var step := ReceiveStep(env, old(Now())); Now() == step.session && result == step.Outcome()
    {
      if pendingEvents != [] {
        var event := pendingEvents[0];
        pendingEvents := pendingEvents[1..];
        delivered := delivered + [event];
        return Returned(Some(event));
      }
      var raw := env.raw(position);
      position := position + 1;
      match raw
      case Nothing => return Returned(None);
      case Malformed => return Raised(BadJson);
      case Event(d) =>
        delivered := delivered + [d];
        return Returned(Some(d));
    }

    method SendQuery(query: Dict) returns (result: Outcome<Dict>)
      modifies `pendingEvents, `position, `loops, `queries, `sent, `matched
      ensures var step := QueryStep(env, old(Now()), query); Now() == step.session && result == step.Outcome()
    {
      ghost var goal := QueryStep(env, Now(), query);
      var extra := env.uuid(queries);
      sent := sent + [query["@extra" := JString(extra)]];
      var turns := env.turns(loops);
      queries, loops := queries + 1, loops + 1;
      while turns > 0
        invariant AwaitReply(env, Now(), extra, turns) == goal
      {
        ghost var before := Now();
        turns := turns - 1;
        var raw := env.raw(position);
        position := position + 1;
        match raw
        case Nothing =>
        case Malformed => return Raised(BadJson);
        case Event(response) =>
          if response != map[] {
            if Carries(response, extra) {
              matched := matched + {position - 1};
              return Returned(response);
            }
            pendingEvents := pendingEvents + [response];
          }
        assert Now() == PassedOver(env, before);
      }
      return Raised(Timeout);
    }

    method Close()
      requires Valid()
      modifies `closed, `destroyed
      ensures Valid() && closed
    {
      if !closed {
        destroyed := destroyed + 1;
        closed := true;
      }
    }
  }
}
