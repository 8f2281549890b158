/**
 The one stream of native events is split without loss: over any interleaving of `receive` and
 `send_query`, timeouts and failures included, what was delivered followed by what is buffered is
 what arrived, in order, less the replies.
 */
module TdlibDemux {
  import opened Json
  import opened TdlibClient

  /** The events of the native receives `lo..hi`, in arrival order, except the matched replies. */
  function Updates(env: Env, lo: nat, hi: nat, matched: set<nat>): seq<Dict>
    decreases hi
  {
    if hi <= lo then []
    else
      Updates(env, lo, hi - 1, matched)
      + (match env.raw(hi - 1)
         case Event(d) => if d != map[] && hi - 1 !in matched then [d] else []
         case _ => [])
  }

  function NonEmpty(events: seq<Dict>): seq<Dict> {
    if events == [] then []
    else
      var last := events[|events| - 1];
      NonEmpty(events[..|events| - 1]) + (if last == map[] then [] else [last])
  }

  ghost predicate AllNonEmpty(events: seq<Dict>) {
    forall i :: 0 <= i < |events| ==> events[i] != map[]
  }

  lemma {:induction false} NonEmptyAppends(xs: seq<Dict>, ys: seq<Dict>)
    ensures NonEmpty(xs + ys) == NonEmpty(xs) + NonEmpty(ys)
  {
    if ys == [] {
      assert xs + ys == xs;
    } else {
      assert (xs + ys)[..|xs + ys| - 1] == xs + ys[..|ys| - 1];
      NonEmptyAppends(xs, ys[..|ys| - 1]);
    }
  }

  lemma {:induction false} UpdatesJoin(env: Env, lo: nat, middle: nat, hi: nat, matched: set<nat>)
    requires lo <= middle <= hi
    ensures Updates(env, lo, hi, matched) == Updates(env, lo, middle, matched) + Updates(env, middle, hi, matched)
    decreases hi
  {
    if middle < hi {
      UpdatesJoin(env, lo, middle, hi - 1, matched);
    }
  }

  /** Only the matches in the range matter. */
  lemma {:induction false} UpdatesAgree(env: Env, lo: nat, hi: nat, a: set<nat>, b: set<nat>)
    requires forall i :: lo <= i < hi ==> (i in a <==> i in b)
    ensures Updates(env, lo, hi, a) == Updates(env, lo, hi, b)
    decreases hi
  {
    if lo < hi {
      UpdatesAgree(env, lo, hi - 1, a, b);
    }
  }

  lemma {:induction false} Regroup(a: seq<Dict>, b: seq<Dict>, c: seq<Dict>)
    ensures a + b + c == a + (b + c)
  {
  }

  /** From `s` to `t` the stream went on, and nothing of it was lost, repeated or reordered. */
  ghost predicate Follows(env: Env, s: Session, t: Session) {
    && s.position <= t.position
    && s.matched <= t.matched && (forall i :: i in t.matched - s.matched ==> s.position <= i < t.position)
    && s.delivered <= t.delivered
    && NonEmpty(t.delivered[|s.delivered|..]) + NonEmpty(t.pending)
       == NonEmpty(s.pending) + Updates(env, s.position, t.position, t.matched - s.matched)
  }

  lemma {:induction false} FollowsItself(env: Env, s: Session)
    ensures Follows(env, s, s)
  {
  }

  lemma {:induction false} FollowsJoin(env: Env, s: Session, t: Session, u: Session)
    requires Follows(env, s, t) && Follows(env, t, u)
    ensures Follows(env, s, u)
  {
    var (first, second) := (t.delivered[|s.delivered|..], u.delivered[|t.delivered|..]);
    assert u.delivered[|s.delivered|..] == first + second;
    NonEmptyAppends(first, second);
    UpdatesFollow(env, s, t, u);
    Regrouped(NonEmpty(first), NonEmpty(second), NonEmpty(u.pending), NonEmpty(t.pending), NonEmpty(s.pending),
              Updates(env, s.position, t.position, t.matched - s.matched),
                Updates(env, t.position, u.position, u.matched - t.matched));
  }

  lemma {:induction false} UpdatesFollow(env: Env, s: Session, t: Session, u: Session)
    requires Follows(env, s, t) && Follows(env, t, u)
    ensures forall i :: i in u.matched - s.matched ==> s.position <= i < u.position
    ensures Updates(env, s.position, u.position, u.matched - s.matched)
            == Updates(env, s.position, t.position, t.matched - s.matched)
              + Updates(env, t.position, u.position, u.matched - t.matched)
  {
    forall i | i in u.matched - s.matched
      ensures i in u.matched - t.matched || i in t.matched - s.matched
    {
    }
    UpdatesJoin(env, s.position, t.position, u.position, u.matched - s.matched);
    UpdatesAgree(env, s.position, t.position, t.matched - s.matched, u.matched - s.matched);
    UpdatesAgree(env, t.position, u.position, u.matched - t.matched, u.matched - s.matched);
  }

  lemma {:induction false} Regrouped(out1: seq<Dict>, out2: seq<Dict>, last: seq<Dict>, middle: seq<Dict>,
        start: seq<Dict>, in1: seq<Dict>, in2: seq<Dict>)
    requires out1 + middle == start + in1 && out2 + last == middle + in2
    ensures out1 + out2 + last == start + (in1 + in2)
  {
    assert out1 + out2 + last == out1 + (out2 + last);
    assert out1 + (middle + in2) == (out1 + middle) + in2;
  }

  lemma {:induction false} ReceiveFollows(env: Env, s: Session)
    ensures Follows(env, s, ReceiveStep(env, s).session)
  {
    var t := ReceiveStep(env, s).session;
    var out := t.delivered[|s.delivered|..];
    if s.pending != [] {
      assert s.pending == out + t.pending;
      NonEmptyAppends(out, t.pending);
      assert t.position == s.position && Updates(env, s.position, t.position, {}) == [];
    } else {
      assert NonEmpty(out) == Updates(env, s.position, t.position, {}) by {
        assert Updates(env, s.position, s.position, {}) == [];
        assert out == (if env.raw(s.position).Event? then [env.raw(s.position).dict] else []);
        assert NonEmpty([]) == [] && (out != [] ==> out[..0] == []);
      }
      assert t.matched - s.matched == {};
    }
  }

  lemma {:induction false} PassedOverFollows(env: Env, s: Session)
    ensures Follows(env, s, PassedOver(env, s))
  {
    var t := PassedOver(env, s);
    assert Updates(env, s.position, s.position, {}) == [];
    assert t.delivered[|s.delivered|..] == [] && t.matched - s.matched == {};
    if t.pending != s.pending {
      var last := [env.raw(s.position).dict];
      NonEmptyAppends(s.pending, last);
      assert last[..0] == [];
    }
  }

  /** The native receive that ends the wait leaves no update behind. */
  lemma {:induction false} EndFollows(env: Env, s: Session, extra: string, turns: nat)
    requires WellFormed(s) && turns > 0 && Ends(env.raw(s.position), extra)
    ensures Follows(env, s, AwaitReply(env, s, extra, turns).session)
  {
    var t := AwaitReply(env, s, extra, turns).session;
    assert Updates(env, s.position, s.position, t.matched - s.matched) == [];
    assert t.delivered[|s.delivered|..] == [];
  }

  lemma {:induction false} AwaitFollows(env: Env, s: Session, extra: string, turns: nat)
    requires WellFormed(s)
    ensures Follows(env, s, AwaitReply(env, s, extra, turns).session)
    decreases turns
  {
    if turns == 0 {
      FollowsItself(env, s);
    } else if Ends(env.raw(s.position), extra) {
      EndFollows(env, s, extra, turns);
    } else {
      PassedOverFollows(env, s);
      AwaitFollows(env, PassedOver(env, s), extra, turns - 1);
      FollowsJoin(env, s, PassedOver(env, s), AwaitReply(env, s, extra, turns).session);
    }
  }

  /** Matches lie in the past of the stream. */
  ghost predicate WellFormed(s: Session) {
    forall i :: i in s.matched ==> i < s.position
  }

  lemma {:induction false} QueryFollows(env: Env, s: Session, query: Dict)
    requires WellFormed(s)
    ensures Follows(env, s, QueryStep(env, s, query).session)
  {
    AwaitFollows(env, Asked(env, s, query), env.uuid(s.queries), env.turns(s.loops));
  }

  lemma {:induction false} FollowsKeepsForm(env: Env, s: Session, t: Session)
    requires WellFormed(s) && Follows(env, s, t)
    ensures WellFormed(t)
  {
    forall i | i in t.matched
      ensures i < t.position
    {
      assert i in s.matched || i in t.matched - s.matched;
    }
  }

  // ----- whole runs

  datatype ClientCall = DoReceive | DoQuery(query: Dict)

  function Run(env: Env, s: Session, calls: seq<ClientCall>): Session {
    if calls == [] then s
    else
      var before := Run(env, s, calls[..|calls| - 1]);
      match calls[|calls| - 1]
      case DoReceive => ReceiveStep(env, before).session
      case DoQuery(query) => QueryStep(env, before, query).session
  }

  /** A reply to the query with this token. */
  ghost predicate IsReply(raw: Raw, token: string) {
    raw.Event? && "@extra" in raw.dict && raw.dict["@extra"] == JString(token)
  }

  /** What ends the wait for a reply: unreadable text, or the reply itself. */
  ghost predicate EndsWait(raw: Raw, token: string) {
    raw == Malformed || IsReply(raw, token)
  }

  lemma {:induction false} EndsExactly(raw: Raw, token: string)
    ensures Ends(raw, token) <==> EndsWait(raw, token)
  {
    assert raw.Event? && raw.dict == map[] ==> "@extra" !in raw.dict;
  }

  /** The event a query was answered with: it carries the token of a query that was sent. */
  ghost predicate MatchesAreReplies(env: Env, s: Session) {
    forall i :: i in s.matched ==> exists k: nat :: k < s.queries && IsReply(env.raw(i), env.uuid(k))
  }

  lemma {:induction false} AwaitMatches(env: Env, s: Session, extra: string, turns: nat)
    ensures var end := AwaitReply(env, s, extra, turns);
            && end.session.queries == s.queries
            && (end.Raise? ==> end.session.matched == s.matched)
            && (end.Done? ==> exists i :: end.session.matched == s.matched + {i} && s.position <= i
                                && env.raw(i) == Event(end.value) && IsReply(env.raw(i), extra))
    decreases turns
  {
    if turns > 0 {
      if !Ends(env.raw(s.position), extra) {
        AwaitMatches(env, PassedOver(env, s), extra, turns - 1);
      } else if !env.raw(s.position).Malformed? {
        assert AwaitReply(env, s, extra, turns).session.matched == s.matched + {s.position};
      }
    }
  }

  /** How many queries of the run were answered. */
  function Answered(env: Env, s: Session, calls: seq<ClientCall>): nat {
    if calls == [] then 0
    else
      var last := calls[|calls| - 1];
      Answered(env, s, calls[..|calls| - 1])
      + (if last.DoQuery? && QueryStep(env, Run(env, s, calls[..|calls| - 1]), last.query).Done? then 1 else 0)
  }

  /**
   Conservation and order, for every run: the events delivered so far followed by the buffer are the
   non-empty events received, in arrival order, less one reply for each answered query, each of
   which carries the token of a query sent.
   */
  lemma {:induction false} RunConserves(env: Env, calls: seq<ClientCall>)
    ensures var s := Run(env, NEW_SESSION, calls);
            && NonEmpty(s.delivered) + s.pending == Updates(env, 0, s.position, s.matched)
            && |s.matched| == Answered(env, NEW_SESSION, calls)
            && MatchesAreReplies(env, s) && WellFormed(s)
  {
    RunKeeps(env, calls);
    var s := Run(env, NEW_SESSION, calls);
    assert s.delivered[0..] == s.delivered && s.matched - {} == s.matched && NonEmpty([]) == [];
    AllNonEmptyUnchanged(s.pending);
  }

  lemma {:induction false} AllNonEmptyUnchanged(events: seq<Dict>)
    requires AllNonEmpty(events)
    ensures NonEmpty(events) == events
  {
    if events != [] {
      AllNonEmptyUnchanged(events[..|events| - 1]);
    }
  }

  lemma {:induction false} AwaitBuffersNonEmpty(env: Env, s: Session, extra: string, turns: nat)
    requires AllNonEmpty(s.pending)
    ensures AllNonEmpty(AwaitReply(env, s, extra, turns).session.pending)
    decreases turns
  {
    if turns > 0 && !Ends(env.raw(s.position), extra) {
      AwaitBuffersNonEmpty(env, PassedOver(env, s), extra, turns - 1);
    }
  }

  /** What every run keeps. */
  ghost predicate Kept(env: Env, s: Session) {
    Follows(env, NEW_SESSION, s) && WellFormed(s) && AllNonEmpty(s.pending) && MatchesAreReplies(env, s)
  }

  lemma {:induction false} QueryKeeps(env: Env, s: Session, query: Dict)
    requires Kept(env, s)
    ensures var end := QueryStep(env, s, query);
            Kept(env, end.session) && |end.session.matched| == |s.matched| + (if end.Done? then 1 else 0)
  {
    var (asked, extra) := (Asked(env, s, query), env.uuid(s.queries));
    var end := QueryStep(env, s, query);
    QueryFollows(env, s, query);
    FollowsJoin(env, NEW_SESSION, s, end.session);
    FollowsKeepsForm(env, s, end.session);
    AwaitBuffersNonEmpty(env, asked, extra, env.turns(s.loops));
    AwaitMatches(env, asked, extra, env.turns(s.loops));
  }

  lemma {:induction false} ReceiveKeeps(env: Env, s: Session)
    requires Kept(env, s)
    ensures var t := ReceiveStep(env, s).session; Kept(env, t) && t.matched == s.matched
  {
    var t := ReceiveStep(env, s).session;
    ReceiveFollows(env, s);
    FollowsJoin(env, NEW_SESSION, s, t);
    FollowsKeepsForm(env, s, t);
  }

  lemma {:induction false} RunKeeps(env: Env, calls: seq<ClientCall>)
    ensures var s := Run(env, NEW_SESSION, calls); Kept(env, s) && |s.matched| == Answered(env, NEW_SESSION, calls)
  {
    if calls == [] {
      FollowsItself(env, NEW_SESSION);
    } else {
      var before := Run(env, NEW_SESSION, calls[..|calls| - 1]);
      RunKeeps(env, calls[..|calls| - 1]);
      match calls[|calls| - 1] {
        case DoReceive => ReceiveKeeps(env, before);
        case DoQuery(query) => QueryKeeps(env, before, query);
      }
    }
  }

  // ----- replies are looked for in the right place

  /** With a token no earlier event carries, no buffered event is a reply to the query being sent. */
  lemma {:induction false} FreshReplyNotBuffered(env: Env, calls: seq<ClientCall>, extra: string)
    requires forall i: nat :: i < Run(env, NEW_SESSION, calls).position ==> !IsReply(env.raw(i), extra)
    ensures forall d :: d in Run(env, NEW_SESSION, calls).pending ==> !IsReply(Event(d), extra)
  {
    var s := Run(env, NEW_SESSION, calls);
    RunConserves(env, calls);
    forall d | d in s.pending
      ensures !IsReply(Event(d), extra)
    {
      assert d in Updates(env, 0, s.position, s.matched);
      var i := UpdateOrigin(env, 0, s.position, s.matched, d);
    }
  }

  lemma {:induction false} UpdateOrigin(env: Env, lo: nat, hi: nat, matched: set<nat>, d: Dict) returns (i: nat)
    requires d in Updates(env, lo, hi, matched)
    ensures lo <= i < hi && env.raw(i) == Event(d)
    decreases hi
  {
    if d in Updates(env, lo, hi - 1, matched) {
      i := UpdateOrigin(env, lo, hi - 1, matched, d);
    } else {
      i := hi - 1;
    }
  }

  /** Which native receive ends the wait for a reply, with what, and what it leaves in the buffer. */
  lemma {:induction false} AwaitExact(env: Env, s: Session, extra: string, turns: nat, j: nat)
    requires j <= turns && forall i :: s.position <= i < s.position + j ==> !EndsWait(env.raw(i), extra)
    requires j < turns ==> EndsWait(env.raw(s.position + j), extra)
    ensures var end := AwaitReply(env, s, extra, turns);
            && end.session.pending == s.pending + Updates(env, s.position, s.position + j, {})
            && end.session.position == s.position + j + (if j == turns then 0 else 1)
            && end.session.queries == s.queries && end.session.loops == s.loops
            && end.Outcome() == (if j == turns then Raised(Timeout)
                                 else if env.raw(s.position + j) == Malformed then Raised(BadJson)
                                 else Returned(env.raw(s.position + j).dict))
    decreases turns
  {
    EndsExactly(env.raw(s.position), extra);
    if j == 0 {
      assert Updates(env, s.position, s.position, {}) == [];
    } else {
      AwaitExact(env, PassedOver(env, s), extra, turns - 1, j - 1);
      PassedOverJoins(env, s, j);
    }
  }

  /**
   What `send_query` sends and returns: the query under its token, and the reply at the first native
   receive that ends the wait, if it comes within the turns; everything else that arrived before it is
   buffered behind what already was.
   */
  lemma {:induction false} QueryExact(env: Env, s: Session, query: Dict, j: nat)
    requires var (turns, token) := (env.turns(s.loops), env.uuid(s.queries));
             && j <= turns && (forall i :: s.position <= i < s.position + j ==> !EndsWait(env.raw(i), token))
             && (j < turns ==> EndsWait(env.raw(s.position + j), token))
    ensures var (end, token) := (QueryStep(env, s, query), env.uuid(s.queries));
            && end.session.sent == s.sent + [query["@extra" := JString(token)]]
            && end.session.queries == s.queries + 1 && end.session.loops == s.loops + 1
            && end.session.pending == s.pending + Updates(env, s.position, s.position + j, {})
            && end.session.delivered == s.delivered
            && end.Outcome() == (if j == env.turns(s.loops) then Raised(Timeout)
                                 else if env.raw(s.position + j) == Malformed then Raised(BadJson)
                                 else Returned(env.raw(s.position + j).dict))
  {
    AwaitExact(env, Asked(env, s, query), env.uuid(s.queries), env.turns(s.loops), j);
    AwaitDeliversNothing(env, Asked(env, s, query), env.uuid(s.queries), env.turns(s.loops));
    SendsOne(env, s, query);
  }

  lemma {:induction false} AwaitDeliversNothing(env: Env, s: Session, extra: string, turns: nat)
    ensures AwaitReply(env, s, extra, turns).session.delivered == s.delivered
    decreases turns
  {
    if turns > 0 && !Ends(env.raw(s.position), extra) {
      AwaitDeliversNothing(env, PassedOver(env, s), extra, turns - 1);
    }
  }

  /** What one receive buffers, and then the next `j - 1`, is what `j` receives buffer. */
  lemma {:induction false} PassedOverJoins(env: Env, s: Session, j: nat)
    requires j > 0
    ensures PassedOver(env, s).pending + Updates(env, s.position + 1, s.position + j, {}) == s.pending
            + Updates(env, s.position, s.position + j, {})
  {
    var p := s.position;
    assert Updates(env, p, p, {}) == [];
    UpdatesJoin(env, p, p + 1, p + j, {});
    Regroup(s.pending, Updates(env, p, p + 1, {}), Updates(env, p + 1, p + j, {}));
  }
}
