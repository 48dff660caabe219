/** The FIFO driver lock: a ticket lock over a mutex and a condition variable, as the interleaved steps of any
    number of threads. One step is one critical section, or the notification that follows one. */
module DriverIoMutex {

  type Thread = nat

  /** Where a thread is. Asleep: blocked on the condition variable. Awake: notified (or woken spuriously), about to
      test its ticket again. Notifying: has advanced the counter in unlock, but has not yet called notify_all. */
  datatype Phase = Idle | Asleep(ticket: nat) | Awake(ticket: nat) | Holding(ticket: nat) | Notifying {
    predicate HasTicket() { Asleep? || Awake? || Holding? }
  }

  /** The counters, the phase of each thread that has one other than Idle, and two histories: who took each
      ticket, and the tickets admitted so far. */
  datatype State = State(next: nat, serving: nat, phases: map<Thread, Phase>, owner: seq<Thread>, admitted: seq<nat>) {
    function Phase(t: Thread): Phase {
      if t in phases then phases[t] else Idle
    }

    function Move(t: Thread, p: Phase): State {
      this.(phases := phases[t := p])
    }

    function Admit(t: Thread, ticket: nat): State {
      Move(t, Holding(ticket)).(admitted := admitted + [ticket])
    }
  }

  datatype Action =
    | Lock(t: Thread)
    | TryLock(t: Thread)
    | Wake(t: Thread)
    | Recheck(t: Thread)
    | Unlock(t: Thread)
    | NotifyAll(t: Thread)

  predicate Enabled(s: State, a: Action) {
    match a
    case Lock(t) => s.Phase(t).Idle?
    case TryLock(t) => s.Phase(t).Idle?
    case Wake(t) => s.Phase(t).Asleep?
    case Recheck(t) => s.Phase(t).Awake?
    case Unlock(t) => s.Phase(t).Holding?
    case NotifyAll(t) => s.Phase(t).Notifying?
  }

  function Woken(phases: map<Thread, Phase>): map<Thread, Phase> {
    map t | t in phases :: if phases[t].Asleep? then Awake(phases[t].ticket) else phases[t]
  }

  function After(s: State, a: Action): State
    requires Enabled(s, a)
  {
    match a
    case Lock(t) =>
      var s' := s.(next := s.next + 1, owner := s.owner + [t]);
      if s.next == s.serving then s'.Admit(t, s.next) else s'.Move(t, Asleep(s.next))
    case TryLock(t) =>
      if s.next != s.serving then s else s.(next := s.next + 1, owner := s.owner + [t]).Admit(t, s.next)
    case Wake(t) => s.Move(t, Awake(s.Phase(t).ticket))
    case Recheck(t) =>
      var ticket := s.Phase(t).ticket;
      if ticket == s.serving then s.Admit(t, ticket) else s.Move(t, Asleep(ticket))
    case Unlock(t) => s.(serving := s.serving + 1).Move(t, Notifying)
    case NotifyAll(t) => s.(phases := Woken(s.phases)).Move(t, Idle)
  }

  const FRESH := State(0, 0, map[], [], [])

  /** Every ticket of [serving, next) has exactly one owner, only the front ticket is held, and the tickets admitted
      are 0, 1, 2, ... up to the front one. */
  ghost predicate TicketsInOrder(s: State) {
    && s.serving <= s.next == |s.owner|
    && (forall k :: s.serving <= k < s.next ==> s.Phase(s.owner[k]).HasTicket() && s.Phase(s.owner[k]).ticket == k)
    && (forall t :: s.Phase(t).HasTicket() ==>
         var k := s.Phase(t).ticket;
         s.serving <= k < s.next && s.owner[k] == t && (s.Phase(t).Holding? ==> k == s.serving))
    && |s.admitted| == s.serving + (if FrontHolds(s) then 1 else 0)
    && (forall i :: 0 <= i < |s.admitted| ==> s.admitted[i] == i)
  }

  predicate FrontHolds(s: State) {
    s.serving < s.next == |s.owner| && s.Phase(s.owner[s.serving]).Holding?
  }

  predicate FrontAsleep(s: State) {
    s.serving < s.next == |s.owner| && s.Phase(s.owner[s.serving]).Asleep?
  }

  /** If the owner of the front ticket is asleep, some thread has yet to call notify_all. */
  ghost predicate NoLostWakeup(s: State) {
    FrontAsleep(s) ==> exists t :: s.Phase(t).Notifying?
  }

  ghost predicate Inv(s: State) {
    TicketsInOrder(s) && NoLostWakeup(s)
  }

  lemma TakingKeepsTickets(s: State, a: Action)
    requires TicketsInOrder(s) && Enabled(s, a) && (a.Lock? || a.TryLock?)
    ensures TicketsInOrder(After(s, a))
  {
    var s' := After(s, a);
    assert forall t :: t != a.t ==> s'.Phase(t) == s.Phase(t);
  }

  lemma ServingKeepsTickets(s: State, t: Thread)
    requires TicketsInOrder(s) && Enabled(s, Unlock(t))
    ensures TicketsInOrder(After(s, Unlock(t)))
  {
    var s' := After(s, Unlock(t));
    assert forall u :: u != t ==> s'.Phase(u) == s.Phase(u);
  }

  lemma WaitingKeepsTickets(s: State, a: Action)
    requires TicketsInOrder(s) && Enabled(s, a) && (a.Wake? || a.Recheck?)
    ensures TicketsInOrder(After(s, a))
  {
    var s' := After(s, a);
    assert forall t :: t != a.t ==> s'.Phase(t) == s.Phase(t);
  }

  lemma NotifyingKeepsTickets(s: State, t: Thread)
    requires TicketsInOrder(s) && Enabled(s, NotifyAll(t))
    ensures TicketsInOrder(After(s, NotifyAll(t)))
  {
    var s' := After(s, NotifyAll(t));
    assert forall u :: s'.Phase(u).HasTicket() == s.Phase(u).HasTicket() && s'.Phase(u).Holding? == s.Phase(u).Holding?;
    assert forall u :: s.Phase(u).HasTicket() ==> s'.Phase(u).ticket == s.Phase(u).ticket;
  }

  lemma StepKeepsTickets(s: State, a: Action)
    requires TicketsInOrder(s) && Enabled(s, a)
    ensures TicketsInOrder(After(s, a))
  {
    match a
    case Lock(_) => TakingKeepsTickets(s, a);
    case TryLock(_) => TakingKeepsTickets(s, a);
    case Unlock(t) => ServingKeepsTickets(s, t);
    case NotifyAll(t) => NotifyingKeepsTickets(s, t);
    case _ => WaitingKeepsTickets(s, a);
  }

  lemma StepKeepsWakeup(s: State, a: Action)
    requires Inv(s) && Enabled(s, a)
    ensures NoLostWakeup(After(s, a))
  {
    var s' := After(s, a);
    if FrontAsleep(s') {
      if a.Unlock? {
        assert s'.Phase(a.t).Notifying?;
      } else {
        assert FrontAsleep(s);
        var u :| s.Phase(u).Notifying?;
        assert s'.Phase(u).Notifying?;
      }
    }
  }

  /** The threads behind the front ticket, in the order they will be served. */
  function Queued(s: State): seq<Thread> {
    if s.serving < s.next == |s.owner| then s.owner[s.serving + 1..] else []
  }

  // ---- Runs ---------------------------------------------------------------------------------

  /** The run is possible: each action is enabled where it happens. */
  predicate Possible(s: State, run: seq<Action>)
    decreases |run|
  {
    run == [] || (Enabled(s, run[0]) && Possible(After(s, run[0]), run[1..]))
  }

  function AfterRun(s: State, run: seq<Action>): State
    requires Possible(s, run)
    decreases |run|
  {
    if run == [] then s else AfterRun(After(s, run[0]), run[1..])
  }

  lemma {:induction false} RunKeepsInv(s: State, run: seq<Action>)
    requires Inv(s) && Possible(s, run)
    ensures Inv(AfterRun(s, run))
    decreases |run|
  {
    if run != [] {
      StepKeepsTickets(s, run[0]);
      StepKeepsWakeup(s, run[0]);
      RunKeepsInv(After(s, run[0]), run[1..]);
    }
  }

  /** Whatever the threads do: at most one holds the lock, and locks were granted in the order the tickets were
      taken, none skipped and none granted twice. */
  lemma FifoMutualExclusion(run: seq<Action>, t: Thread, u: Thread)
    requires Possible(FRESH, run)
    ensures var s := AfterRun(FRESH, run);
      && (s.Phase(t).Holding? && s.Phase(u).Holding? ==> t == u)
      && (s.Phase(t).HasTicket() && s.Phase(u).HasTicket() && s.Phase(t).ticket == s.Phase(u).ticket ==> t == u)
      && s.admitted == seq(|s.admitted|, i => i)
      && s.serving <= |s.admitted| <= s.serving + 1
      && (s.Phase(t).Holding? ==> |s.admitted| == s.serving + 1 && s.Phase(t).ticket == s.serving)
      && (s.Phase(t).Asleep? || s.Phase(t).Awake? ==> s.Phase(t).ticket >= |s.admitted|)
  {
    RunKeepsInv(FRESH, run);
    var s := AfterRun(FRESH, run);
    assert s.Phase(t).HasTicket() ==> s.owner[s.Phase(t).ticket] == t;
    assert s.Phase(u).HasTicket() ==> s.owner[s.Phase(u).ticket] == u;
  }

  lemma QueuedAt(s: State, i: nat)
    requires TicketsInOrder(s) && i < |Queued(s)|
    ensures var t := Queued(s)[i]; s.Phase(t).HasTicket() && s.Phase(t).ticket == s.serving + 1 + i
  {
    assert Queued(s)[i] == s.owner[s.serving + 1 + i];
  }

  lemma WaiterIsQueued(s: State, t: Thread)
    requires TicketsInOrder(s) && s.Phase(t).HasTicket() && s.Phase(t).ticket != s.serving
    ensures t in Queued(s)
  {
    var k := s.Phase(t).ticket;
    assert s.owner[k] == t;
    assert Queued(s)[k - s.serving - 1] == t;
  }

  /** The queue lists exactly the threads whose ticket is not yet admitted, except the front one, each once. */
  lemma QueueIsTheWaiters(run: seq<Action>, t: Thread)
    requires Possible(FRESH, run)
    ensures var s := AfterRun(FRESH, run);
      && (t in Queued(s) <==> s.Phase(t).HasTicket() && s.Phase(t).ticket != s.serving)
      && (forall i, j :: 0 <= i < j < |Queued(s)| ==> Queued(s)[i] != Queued(s)[j])
  {
    RunKeepsInv(FRESH, run);
    var s := AfterRun(FRESH, run);
    var queue := Queued(s);
    forall i | 0 <= i < |queue|
      ensures s.Phase(queue[i]).HasTicket() && s.Phase(queue[i]).ticket == s.serving + 1 + i
    {
      QueuedAt(s, i);
    }
    if s.Phase(t).HasTicket() && s.Phase(t).ticket != s.serving {
      WaiterIsQueued(s, t);
    }
  }

  /** try_lock takes the lock exactly when no thread holds it or waits for it; otherwise it leaves no trace. */
  lemma TryLockNeverQueues(run: seq<Action>, t: Thread)
    requires Possible(FRESH, run) && Enabled(AfterRun(FRESH, run), TryLock(t))
    ensures var s := AfterRun(FRESH, run); var s' := After(s, TryLock(t));
      if forall u :: !s.Phase(u).HasTicket() then s'.Phase(t).Holding? else s' == s
  {
    RunKeepsInv(FRESH, run);
    var s := AfterRun(FRESH, run);
    if s.serving < s.next {
      assert s.Phase(s.owner[s.serving]).HasTicket();
    }
  }

  /** A lock that is wanted is never stuck: the front owner holds it, or is awake and will be admitted by its next
      test, or sleeps with a notification still due that puts it in that position. */
  lemma FrontMakesProgress(run: seq<Action>)
    requires Possible(FRESH, run)
    ensures var s := AfterRun(FRESH, run);
      s.next == |s.owner| && (s.serving < s.next ==>
        var front := s.owner[s.serving];
        || Enabled(s, Unlock(front))
        || (Enabled(s, Recheck(front)) && After(s, Recheck(front)).Phase(front).Holding?)
        || exists u :: Enabled(s, NotifyAll(u)) &&
             var s' := After(s, NotifyAll(u));
             Enabled(s', Recheck(front)) && After(s', Recheck(front)).Phase(front).Holding?)
  {
    RunKeepsInv(FRESH, run);
    var s := AfterRun(FRESH, run);
    if FrontAsleep(s) {
      var u :| s.Phase(u).Notifying?;
      var front := s.owner[s.serving];
      assert After(s, NotifyAll(u)).Phase(front) == Awake(s.serving);
      assert Enabled(s, NotifyAll(u));
    }
  }

  // ---- What each step does ------------------------------------------------------------------

  /** Nobody holds the lock or waits for it. */
  ghost predicate Free(s: State) {
    forall t :: !s.Phase(t).HasTicket()
  }

  lemma FreeIff(s: State)
    requires TicketsInOrder(s)
    ensures Free(s) <==> s.serving == s.next
  {
    if s.serving < s.next {
      assert s.Phase(s.owner[s.serving]).HasTicket();
    }
  }

  /** lock enters a free lock at once, and otherwise sleeps at the end of the queue; the others stay where they are. */
  lemma LockEntersOrQueues(s: State, t: Thread)
    requires TicketsInOrder(s) && Enabled(s, Lock(t))
    ensures var s' := After(s, Lock(t));
      && (if Free(s) then s'.Phase(t).Holding? && Queued(s') == []
          else s'.Phase(t).Asleep? && Queued(s') == Queued(s) + [t])
      && forall u :: u != t ==> s'.Phase(u) == s.Phase(u)
  {
    FreeIff(s);
  }

  /** unlock gives the lock up and makes the first of the queue the next to enter; its notification is still to come. */
  lemma UnlockServesNext(s: State, t: Thread)
    requires TicketsInOrder(s) && Enabled(s, Unlock(t))
    ensures var s' := After(s, Unlock(t));
      && s'.Phase(t).Notifying? && (forall u :: !s'.Phase(u).Holding?)
      && (if Queued(s) == [] then Free(s')
          else s'.serving < s'.next && s'.owner[s'.serving] == Queued(s)[0] && Queued(s') == Queued(s)[1..])
      && forall u :: u != t ==> s'.Phase(u) == s.Phase(u)
  {
    var s' := After(s, Unlock(t));
    ServingKeepsTickets(s, t);
    FreeIff(s');
    assert s.Phase(t).ticket == s.serving && s.owner[s.serving] == t;
    assert forall u :: s.Phase(u).Holding? ==> u == t;
  }

  /** notify_all wakes every sleeping thread, and the others stay where they are. */
  lemma NotifyWakesAll(s: State, t: Thread)
    requires Enabled(s, NotifyAll(t))
    ensures var s' := After(s, NotifyAll(t));
      && s'.Phase(t).Idle?
      && forall u :: u != t ==>
           s'.Phase(u) == if s.Phase(u).Asleep? then Awake(s.Phase(u).ticket) else s.Phase(u)
  {}

  /** A woken thread enters exactly when its ticket is being served, and sleeps again otherwise. */
  lemma RecheckEntersIff(s: State, t: Thread)
    requires Enabled(s, Recheck(t))
    ensures var s' := After(s, Recheck(t)); var k := s.Phase(t).ticket;
      && s'.Phase(t) == (if k == s.serving then Holding(k) else Asleep(k))
      && forall u :: u != t ==> s'.Phase(u) == s.Phase(u)
  {}

  // ---- Everyone can get in ------------------------------------------------------------------

  lemma {:induction false} RunsJoin(s: State, a: seq<Action>, b: seq<Action>)
    requires Possible(s, a) && Possible(AfterRun(s, a), b)
    ensures Possible(s, a + b) && AfterRun(s, a + b) == AfterRun(AfterRun(s, a), b)
    decreases |a|
  {
    if a == [] {
      assert a + b == b;
    } else {
      assert (a + b)[0] == a[0] && (a + b)[1..] == a[1..] + b;
      RunsJoin(After(s, a[0]), a[1..], b);
    }
  }

  lemma OneStep(s: State, a: Action)
    requires Enabled(s, a)
    ensures Possible(s, [a]) && AfterRun(s, [a]) == After(s, a)
  {
    assert [a][1..] == [];
    assert Possible(After(s, a), []) && AfterRun(After(s, a), []) == After(s, a);
  }

  /** The owner of the front ticket can enter, by a pending notification and its own test, while no ticket changes. */
  lemma FrontCanEnter(s: State) returns (run: seq<Action>)
    requires Inv(s) && s.serving < s.next
    ensures Possible(s, run)
    ensures var s' := AfterRun(s, run);
      Inv(s') && s'.serving == s.serving && s'.next == s.next && s'.owner == s.owner
      && s'.Phase(s.owner[s.serving]).Holding?
  {
    var front := s.owner[s.serving];
    if s.Phase(front).Holding? {
      run := [];
    } else if s.Phase(front).Awake? {
      run := [Recheck(front)];
      OneStep(s, Recheck(front));
    } else {
      var u :| s.Phase(u).Notifying?;
      var s1 := After(s, NotifyAll(u));
      NotifyWakesAll(s, u);
      OneStep(s, NotifyAll(u));
      OneStep(s1, Recheck(front));
      run := [NotifyAll(u)] + [Recheck(front)];
      RunsJoin(s, [NotifyAll(u)], [Recheck(front)]);
    }
    RunKeepsInv(s, run);
  }

  /** From every state, whoever has a ticket can get in by steps of those who have one: no thread is ever shut out. */
  lemma {:induction false} EveryoneCanEnter(s: State, t: Thread) returns (run: seq<Action>)
    requires Inv(s) && s.Phase(t).HasTicket()
    ensures Possible(s, run) && AfterRun(s, run).Phase(t).Holding?
    decreases s.Phase(t).ticket - s.serving
  {
    var k := s.Phase(t).ticket;
    run := FrontCanEnter(s);
    if k > s.serving {
      var s1, front := AfterRun(s, run), s.owner[s.serving];
      var s2 := After(s1, Unlock(front));
      OneStep(s1, Unlock(front));
      RunKeepsInv(s1, [Unlock(front)]);
      assert s2.owner[k] == t && s2.Phase(t).ticket == k;
      var rest := EveryoneCanEnter(s2, t);
      RunsJoin(s1, [Unlock(front)], rest);
      RunsJoin(s, run, [Unlock(front)] + rest);
      run := run + ([Unlock(front)] + rest);
    }
  }

  // ---- The lock object ----------------------------------------------------------------------

  /** The counters as the program keeps them; the phases and histories of the threads are ghosts. Each method is one
      critical section of lock, unlock or try_lock. */
  class DriverIoMutex {
    var next: nat
    var serving: nat
    ghost var phases: map<Thread, Phase>
    ghost var owner: seq<Thread>
    ghost var admitted: seq<nat>

    ghost function Now(): State
      reads this
    {
      State(next, serving, phases, owner, admitted)
    }

    constructor ()
      ensures Now() == FRESH && Inv(Now())
    {
      next, serving := 0, 0;
      phases, owner, admitted := map[], [], [];
    }

    ghost method Record(s: State)
      modifies `phases, `owner, `admitted
      ensures phases == s.phases && owner == s.owner && admitted == s.admitted
    {
      phases, owner, admitted := s.phases, s.owner, s.admitted;
    }

    /** lock up to its first test: takes a ticket, and either enters or goes to sleep. */
    method Lock(ghost t: Thread) returns (ticket: nat, entered: bool)
      requires Inv(Now()) && Enabled(Now(), Action.Lock(t))
      modifies this
      ensures Inv(Now()) && Now() == After(old(Now()), Action.Lock(t))
      ensures ticket == old(next) && entered == Now().Phase(t).Holding?
    {
      StepKeepsTickets(Now(), Action.Lock(t));
      StepKeepsWakeup(Now(), Action.Lock(t));
      Record(After(Now(), Action.Lock(t)));
      ticket := next;
      next := next + 1;
      entered := ticket == serving;
    }

    /** The test a woken thread repeats with its ticket. */
    method Recheck(ticket: nat, ghost t: Thread) returns (entered: bool)
      requires Inv(Now()) && Enabled(Now(), Action.Recheck(t)) && Now().Phase(t).ticket == ticket
      modifies `phases, `owner, `admitted
      ensures Inv(Now()) && Now() == After(old(Now()), Action.Recheck(t))
      ensures entered == Now().Phase(t).Holding?
    {
      StepKeepsTickets(Now(), Action.Recheck(t));
      StepKeepsWakeup(Now(), Action.Recheck(t));
      Record(After(Now(), Action.Recheck(t)));
      entered := ticket == serving;
    }

    /** unlock up to, but without, its notify_all. */
    method Unlock(ghost t: Thread)
      requires Inv(Now()) && Enabled(Now(), Action.Unlock(t))
      modifies this
      ensures Inv(Now()) && Now() == After(old(Now()), Action.Unlock(t))
    {
      StepKeepsTickets(Now(), Action.Unlock(t));
      StepKeepsWakeup(Now(), Action.Unlock(t));
      Record(After(Now(), Action.Unlock(t)));
      serving := serving + 1;
    }

    method TryLock(ghost t: Thread) returns (ok: bool)
      requires Inv(Now()) && Enabled(Now(), Action.TryLock(t))
      modifies this
      ensures Inv(Now()) && Now() == After(old(Now()), Action.TryLock(t))
      ensures ok == Now().Phase(t).Holding? && (!ok ==> Now() == old(Now()))
    {
      StepKeepsTickets(Now(), Action.TryLock(t));
      StepKeepsWakeup(Now(), Action.TryLock(t));
      Record(After(Now(), Action.TryLock(t)));
      if next != serving {
        return false;
      }
      next := next + 1;
      ok := true;
    }

    /** The number of threads queued behind the front ticket. */
    method Waiting() returns (n: nat)
      requires Inv(Now())
      ensures n == |Queued(Now())|
    {
      var admittedTickets := next - serving;
      n := if admittedTickets != 0 then admittedTickets - 1 else 0;
    }
  }
}
