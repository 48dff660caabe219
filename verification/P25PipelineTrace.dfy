/** The pipeline trace: a bounded ring of numbered events that producers push without ever waiting and one writer
    drains; and the sequence check of the analyzer that reads what was drained. */
module P25PipelineTrace {

  /** A trace event: its number, given on admission, and what the producer recorded. */
  datatype Event<+P> = Event(sequence: nat, payload: P)

  /** The abstract trace: events queued, oldest first, and the counters. */
  datatype Trace<+P> = Trace(capacity: nat, queue: seq<Event<P>>, sequence: nat, dropped: nat, enabled: bool)

  /** What a producer runs into: sawEnabled is its unlocked read of the flag, contended a failed try_lock. */
  datatype Attempt<+P> = Attempt(payload: P, sawEnabled: bool, contended: bool)

  function Started<P>(t: Trace<P>): Trace<P> {
    t.(queue := [], sequence := 0, dropped := 0, enabled := true)
  }

  function Stopped<P>(t: Trace<P>): Trace<P> {
    t.(enabled := false)
  }

  predicate Accepts<P>(t: Trace<P>, a: Attempt<P>) {
    a.sawEnabled && !a.contended && t.enabled && |t.queue| < t.capacity
  }

  /** The event is counted as dropped: contention, or a full ring. */
  predicate Refuses<P>(t: Trace<P>, a: Attempt<P>) {
    a.sawEnabled && !Accepts(t, a) && (a.contended || t.enabled)
  }

  function Pushed<P>(t: Trace<P>, a: Attempt<P>): Trace<P> {
    if Accepts(t, a) then t.(queue := t.queue + [Event(t.sequence + 1, a.payload)], sequence := t.sequence + 1)
    else if Refuses(t, a) then t.(dropped := t.dropped + 1)
    else t
  }

  function Drained<P>(t: Trace<P>): Trace<P> {
    t.(queue := [])
  }

  /** count slots of a ring from head on, around its end. */
  function Ring<E>(slots: seq<E>, head: nat, count: nat): seq<E>
    requires head < |slots| && count <= |slots|
  {
    if head + count <= |slots| then slots[head..head + count] else slots[head..] + slots[..head + count - |slots|]
  }

  lemma RingAppends<E>(slots: seq<E>, head: nat, count: nat, at: nat, e: E)
    requires head < |slots| && count < |slots| && at == (head + count) % |slots|
    ensures at < |slots| && Ring(slots[at := e], head, count + 1) == Ring(slots, head, count) + [e]
  {
    WrapsOnce(head + count, |slots|);
  }

  lemma WrapsOnce(x: nat, n: nat)
    requires x < 2 * n
    ensures x % n == if x < n then x else x - n
  {
    if x >= n {
      assert x == n * 1 + (x - n);
      assert x / n == 1;
    }
  }

  class P25PipelineTrace<P(0)> {
    const capacity: nat
    const events: array<Event<P>>
    var head: nat
    var count: nat
    var sequence: nat
    var dropped: nat
    var enabled: bool

    ghost predicate Valid()
      reads this, events
    {
      capacity > 0 && events.Length == capacity && head < capacity && count <= capacity
    }

    /** The queued events, oldest first. */
    ghost function Queue(): seq<Event<P>>
      requires Valid()
      reads this, events
    {
      Ring(events[..], head, count)
    }

    ghost function Now(): Trace<P>
      requires Valid()
      reads this, events
    {
      Trace(capacity, Queue(), sequence, dropped, enabled)
    }

    constructor (capacity: nat, blank: P)
      requires capacity > 0
      ensures Valid() && fresh(events) && Now() == Trace(capacity, [], 0, 0, false)
    {
      this.capacity := capacity;
      events := new Event<P>[capacity](_ => Event(0, blank));
      head, count, sequence, dropped, enabled := 0, 0, 0, 0, false;
    }

    method Start()
      requires Valid()
      modifies this
      ensures Valid() && Now() == Started(old(Now()))
    {
      head, count, sequence, dropped, enabled := 0, 0, 0, 0, true;
    }

    method Stop()
      requires Valid()
      modifies this
      ensures Valid() && Now() == Stopped(old(Now()))
    {
      enabled := false;
    }

    method Push(a: Attempt<P>) returns (accepted: bool)
      requires Valid()
      modifies this, events
      ensures Valid() && Now() == Pushed(old(Now()), a) && accepted == Accepts(old(Now()), a)
    {
      if !a.sawEnabled {
        return false;
      }
      if a.contended {
        dropped := dropped + 1;
        return false;
      }
      if !enabled {
        return false;
      }
      if count == capacity {
        dropped := dropped + 1;
        return false;
      }
      Store(a.payload);
      accepted := true;
    }

    /** Puts an event into the next slot of the ring. */
    method Store(payload: P)
      requires Valid() && count < capacity
      modifies `sequence, `count, events
      ensures Valid() && sequence == old(sequence) + 1
      ensures Queue() == old(Queue()) + [Event(sequence, payload)]
    {
      sequence := sequence + 1;
      var at := (head + count) % capacity;
      ghost var slots, e := events[..], Event(sequence, payload);
      RingAppends(slots, head, count, at, e);
      events[at] := Event(sequence, payload);
      assert events[..] == slots[at := e];
      count := count + 1;
    }

    method Drain() returns (result: seq<Event<P>>)
      requires Valid()
      modifies this
      ensures Valid() && Now() == Drained(old(Now())) && result == old(Queue())
    {
      var size, i := count, 0;
      result := [];
      while i < size
        invariant 0 <= i <= size == |Queue()| && result == Queue()[..i]
        modifies {}
      {
        WrapsOnce(head + i, capacity);
        result := result + [events[(head + i) % capacity]];
        i := i + 1;
      }
      WrapsOnce(head + size, capacity);
      head := (head + size) % capacity;
      count := 0;
    }
  }

  // ---- Runs ---------------------------------------------------------------------------------

  datatype Action<+P> = Push(a: Attempt<P>) | Drain | Stop

  function After<P>(t: Trace<P>, action: Action<P>): Trace<P> {
    match action
    case Push(a) => Pushed(t, a)
    case Drain => Drained(t)
    case Stop => Stopped(t)
  }

  /** The trace after a run, what its drains returned in all, and what its pushes offered and got accepted. */
  datatype Outcome<+P> = Outcome(trace: Trace<P>, drained: seq<Event<P>>, accepted: seq<P>, refused: nat)

  function Step<P>(o: Outcome<P>, action: Action<P>): Outcome<P> {
    Outcome(After(o.trace, action),
            if action.Drain? then o.drained + o.trace.queue else o.drained,
            if action.Push? && Accepts(o.trace, action.a) then o.accepted + [action.a.payload] else o.accepted,
            if action.Push? && Refuses(o.trace, action.a) then o.refused + 1 else o.refused)
  }

  function Run<P>(o: Outcome<P>, run: seq<Action<P>>): Outcome<P>
    decreases |run|
  {
    if run == [] then o else Run(Step(o, run[0]), run[1..])
  }

  /** Accepted events are the drained ones followed by the queued ones, numbered 1, 2, 3, ...; the counter of dropped
      events is the number of refused pushes; and the queue stays within its capacity. */
  ghost predicate Accounted<P>(o: Outcome<P>) {
    var all := o.drained + o.trace.queue;
    && |all| == |o.accepted| == o.trace.sequence
    && (forall i :: 0 <= i < |all| ==> all[i] == Event(i + 1, o.accepted[i]))
    && o.trace.dropped == o.refused
    && |o.trace.queue| <= o.trace.capacity
  }

  lemma StepIsAccounted<P>(o: Outcome<P>, action: Action<P>)
    requires Accounted(o)
    ensures Accounted(Step(o, action))
  {
    var o' := Step(o, action);
    var all, all' := o.drained + o.trace.queue, o'.drained + o'.trace.queue;
    if action.Push? && Accepts(o.trace, action.a) {
      assert all' == all + [Event(o.trace.sequence + 1, action.a.payload)];
    } else {
      assert all' == all && o'.accepted == o.accepted;
    }
  }

  lemma {:induction false} RunIsAccounted<P>(o: Outcome<P>, run: seq<Action<P>>)
    requires Accounted(o)
    ensures Accounted(Run(o, run))
    decreases |run|
  {
    if run != [] {
      StepIsAccounted(o, run[0]);
      RunIsAccounted(Step(o, run[0]), run[1..]);
    }
  }

  /** What becomes of an attempt: it is taken exactly if it saw tracing on, got the lock, and found tracing on and room;
      otherwise it leaves the queue alone, and is counted unless tracing was off as far as it could see. */
  lemma AttemptIsTakenOrCounted<P>(t: Trace<P>, a: Attempt<P>)
    ensures var t' := Pushed(t, a); var taken := a.sawEnabled && !a.contended && t.enabled && |t.queue| < t.capacity;
      && t'.queue == t.queue + (if taken then [Event(t.sequence + 1, a.payload)] else [])
      && t'.sequence == t.sequence + (if taken then 1 else 0)
      && t'.dropped == t.dropped + (if a.sawEnabled && !taken && (a.contended || t.enabled) then 1 else 0)
      && t'.enabled == t.enabled && t'.capacity == t.capacity
  {}

  /** After stop nothing is taken any more, but what is queued can still be drained. */
  lemma StoppedTakesNothing<P>(t: Trace<P>, a: Attempt<P>)
    ensures Pushed(Stopped(t), a).queue == Stopped(t).queue == t.queue
    ensures Pushed(Stopped(t), a).sequence == t.sequence && Drained(Pushed(Stopped(t), a)).queue == []
  {}

  /** Uncontended pushes of these payloads. */
  function Burst<P>(payloads: seq<P>): seq<Action<P>> {
    seq(|payloads|, i requires 0 <= i < |payloads| => Push(Attempt(payloads[i], true, false)))
  }

  /** Events with these payloads, numbered on from the given number. */
  function Numbered<P>(payloads: seq<P>, after: nat): seq<Event<P>> {
    seq(|payloads|, i requires 0 <= i < |payloads| => Event(after + 1 + i, payloads[i]))
  }

  lemma NumberedFromFirst<P>(payloads: seq<P>, after: nat)
    requires payloads != []
    ensures Numbered(payloads, after) == [Event(after + 1, payloads[0])] + Numbered(payloads[1..], after + 1)
    ensures Burst(payloads)[0] == Push(Attempt(payloads[0], true, false))
    ensures Burst(payloads)[1..] == Burst(payloads[1..])
  {}

  lemma Regroup<P>(a: seq<P>, b: seq<P>, c: seq<P>)
    ensures a + (b + c) == a + b + c
  {}

  lemma {:induction false} BurstIsQueued<P>(o: Outcome<P>, payloads: seq<P>)
    requires o.trace.enabled && |o.trace.queue| + |payloads| <= o.trace.capacity
    ensures var o' := Run(o, Burst(payloads));
      && o'.trace.queue == o.trace.queue + Numbered(payloads, o.trace.sequence)
      && o'.drained == o.drained && o'.refused == o.refused
    decreases |payloads|
  {
    if payloads == [] {
      assert Burst(payloads) == [] && Numbered(payloads, o.trace.sequence) == [];
    } else {
      var o1, rest := Step(o, Burst(payloads)[0]), payloads[1..];
      NumberedFromFirst(payloads, o.trace.sequence);
      hide Burst, Numbered;
      BurstIsQueued(o1, rest);
      Regroup(o.trace.queue, [Event(o.trace.sequence + 1, payloads[0])], Numbered(rest, o.trace.sequence + 1));
    }
  }

  /** From start on, a burst that fits the ring comes back whole from the next drain, numbered from 1, nothing
      dropped. */
  lemma BurstComesBack<P>(t: Trace<P>, payloads: seq<P>)
    requires |payloads| <= t.capacity
    ensures var o := Step(Run(Outcome(Started(t), [], [], 0), Burst(payloads)), Drain);
      o.drained == Numbered(payloads, 0) && o.refused == 0
  {
    BurstIsQueued(Outcome(Started(t), [], [], 0), payloads);
  }

  // ---- The analyzer -------------------------------------------------------------------------

  /** The number of rows whose sequence number is not the one after the row before; the first should be one more
      than last. */
  function Misordered(sequences: seq<nat>, last: nat): nat {
    if sequences == [] then 0
    else (if sequences[0] != last + 1 then 1 else 0) + Misordered(sequences[1..], sequences[0])
  }

  /** The sequence check of the analyzer over the trace rows, in the order they were written. */
  method OrderErrors(sequences: seq<nat>) returns (orderErrors: nat)
    ensures orderErrors == Misordered(sequences, 0)
    ensures orderErrors == 0 <==> forall i :: 0 <= i < |sequences| ==> sequences[i] == i + 1
  {
    orderErrors := 0;
    var lastSequence, i := 0, 0;
    while i < |sequences|
      invariant 0 <= i <= |sequences|
      invariant orderErrors + Misordered(sequences[i..], lastSequence) == Misordered(sequences, 0)
    {
      assert sequences[i..][1..] == sequences[i + 1..];
      if sequences[i] != lastSequence + 1 {
        orderErrors := orderErrors + 1;
      }
      lastSequence := sequences[i];
      i := i + 1;
    }
    InOrderIff(sequences, 0);
  }

  lemma {:induction false} InOrderIff(sequences: seq<nat>, last: nat)
    ensures Misordered(sequences, last) == 0 <==> forall i :: 0 <= i < |sequences| ==> sequences[i] == last + i + 1
  {
    if sequences != [] {
      InOrderIff(sequences[1..], sequences[0]);
      assert forall i :: 0 < i < |sequences| ==> sequences[i] == sequences[1..][i - 1];
    }
  }

  /** From start on, in every interleaving of pushes, drains and stop, what has been drained has no ordering error. */
  lemma DrainedIsInOrder<P>(t: Trace<P>, run: seq<Action<P>>)
    ensures var o := Run(Outcome(Started(t), [], [], 0), run);
      && Accounted(o)
      && Misordered(seq(|o.drained|, i requires 0 <= i < |o.drained| => o.drained[i].sequence), 0) == 0
  {
    var o := Run(Outcome(Started(t), [], [], 0), run);
    RunIsAccounted(Outcome(Started(t), [], [], 0), run);
    var sequences := seq(|o.drained|, i requires 0 <= i < |o.drained| => o.drained[i].sequence);
    assert forall i :: 0 <= i < |o.drained| ==> o.drained[i] == (o.drained + o.trace.queue)[i];
    InOrderIff(sequences, 0);
  }
}
