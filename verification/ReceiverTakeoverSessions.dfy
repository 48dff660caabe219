/** The takeover sessions of the receiver host: one per endpoint, begun and ended by the ownership token of the
    workflow that took the receivers over. */
module ReceiverTakeoverSessions {
  import opened Samples
  import Ownership = DeviceOwnership

  datatype SavedReceiver = SavedReceiver(receiver: nat, active: bool, frequency: real, mode: int)

  datatype Session = Session(token: Ownership.Token, tookOverListen: bool, receivers: seq<SavedReceiver>)

  type Sessions = map<nat, Session>

  function Find(s: Sessions, t: Ownership.Token): Option<Session> {
    if t.index in s && s[t.index].token == t then Some(s[t.index]) else None
  }

  /** Every session is filed under the endpoint of its token, and its token is a real one. */
  ghost predicate Filed(s: Sessions) {
    forall i :: i in s ==> s[i].token.index == i && s[i].token.id != 0
  }

  datatype Action =
    | Begin(t: Ownership.Token)
    | Take(t: Ownership.Token)
    | Save(t: Ownership.Token, tookOverListen: bool, receivers: seq<SavedReceiver>)

  /** Begin opens a session where there is none; Take ends, and Save fills in, the session of exactly this token. */
  function After(s: Sessions, a: Action): Sessions {
    match a
    case Begin(t) => if t.id == 0 || t.index in s then s else s[t.index := Session(t, false, [])]
    case Take(t) => if Find(s, t).Some? then s - {t.index} else s
    case Save(t, took, receivers) => if Find(s, t).Some? then s[t.index := Session(t, took, receivers)] else s
  }

  function Run(s: Sessions, run: seq<Action>): Sessions
    decreases |run|
  {
    if run == [] then s else Run(After(s, run[0]), run[1..])
  }

  class ReceiverTakeoverSessions {
    var sessions: Sessions

    constructor ()
      ensures sessions == map[]
    {
      sessions := map[];
    }

    /** The session of the token: a new one, or the one it already has; none while another token's session is open. */
    method Begin(t: Ownership.Token) returns (session: Option<Session>)
      modifies this
      ensures sessions == After(old(sessions), Action.Begin(t))
      ensures session == if t.id == 0 then None else Find(sessions, t)
    {
      if t.id == 0 {
        return None;
      }
      if t.index in sessions {
        return if sessions[t.index].token == t then Some(sessions[t.index]) else None;
      }
      sessions := sessions[t.index := Session(t, false, [])];
      session := Some(sessions[t.index]);
    }

    method Take(t: Ownership.Token) returns (session: Option<Session>)
      modifies this
      ensures sessions == After(old(sessions), Action.Take(t)) && session == Find(old(sessions), t)
    {
      session := if t.index in sessions && sessions[t.index].token == t then Some(sessions[t.index]) else None;
      if session.Some? {
        sessions := sessions - {t.index};
      }
    }
  }

  /** Begin opens a session for a real token on an endpoint that has none, and leaves the others; where there is one it
      changes nothing. */
  lemma BeginOpens(s: Sessions, t: Ownership.Token)
    requires t.id != 0
    ensures t.index !in s ==> Find(After(s, Begin(t)), t) == Some(Session(t, false, []))
    ensures t.index in s ==> After(s, Begin(t)) == s
    ensures forall u: Ownership.Token :: u.index != t.index ==> Find(After(s, Begin(t)), u) == Find(s, u)
  {}

  /** Take ends the session of its token, so that another one can begin, and leaves the others; without such a
      session it changes nothing. A null token opens nothing. */
  lemma TakeEnds(s: Sessions, t: Ownership.Token, other: Ownership.Token)
    ensures Find(s, t).Some? ==> t.index !in After(s, Take(t)) && Find(After(s, Take(t)), t).None?
    ensures Find(s, t).None? ==> After(s, Take(t)) == s
    ensures forall u: Ownership.Token :: u.index != t.index ==> Find(After(s, Take(t)), u) == Find(s, u)
    ensures Find(s, t).Some? && other.id != 0 && other.index == t.index ==>
      Find(Run(s, [Take(t), Begin(other)]), other) == Some(Session(other, false, []))
    ensures other.id == 0 ==> After(s, Begin(other)) == s
  {
    var run := [Take(t), Begin(other)];
    assert Run(s, run) == Run(After(s, Take(t)), run[1..]);
    assert Run(After(s, Take(t)), run[1..]) == Run(After(After(s, Take(t)), Begin(other)), run[1..][1..]);
  }

  /** Save fills in the session of its token, for the take that ends it. */
  lemma SavedComesBack(s: Sessions, t: Ownership.Token, took: bool, receivers: seq<SavedReceiver>)
    requires Find(s, t).Some?
    ensures Find(After(s, Save(t, took, receivers)), t) == Some(Session(t, took, receivers))
  {}

  /** Over any run of actions the sessions stay filed: each belongs to its own token and is found by it, and the null
      token has none. */
  lemma {:induction false} RunStaysFiled(s: Sessions, run: seq<Action>)
    requires Filed(s)
    ensures Filed(Run(s, run))
    ensures forall t :: Find(Run(s, run), t).Some? ==> t.id != 0 && Run(s, run)[t.index].token == t
    ensures forall i :: i in Run(s, run) ==> Find(Run(s, run), Run(s, run)[i].token) == Some(Run(s, run)[i])
    decreases |run|
  {
    if run != [] {
      RunStaysFiled(After(s, run[0]), run[1..]);
    }
  }

  /** Whatever completions and takeovers of other tokens come in, an open session stays, and is still its token's. */
  lemma {:induction false} OnlyItsTokenEndsASession(s: Sessions, run: seq<Action>, t: Ownership.Token)
    requires Find(s, t).Some? && Take(t) !in run
    ensures Find(Run(s, run), t).Some?
    ensures (forall a :: a in run ==> a.t != t) ==> Find(Run(s, run), t) == Find(s, t)
    decreases |run|
  {
    if run != [] {
      assert run[0] in run;
      OnlyItsTokenEndsASession(After(s, run[0]), run[1..], t);
    }
  }

  /** A token that was retired cannot end the takeover of the endpoint's present owner: the sessions do not change.
      It stays retired, so no later completion of it can either. */
  lemma StaleCompletionIgnored(o: Ownership.State, ops: seq<Ownership.Operation>, s: Sessions,
                               stale: Ownership.Token, present: Ownership.Token)
    requires Ownership.Inv(o) && Ownership.Dead(o, stale)
    requires Ownership.Run(o, ops).Valid(present) && Find(s, present).Some? && stale.index == present.index
    ensures After(s, Take(stale)) == s && Find(s, stale).None? && After(s, Begin(stale)) == s
  {
    Ownership.NeverValidAgain(o, ops, stale);
  }
}
