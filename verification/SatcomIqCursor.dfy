/** The Satcom IQ cursor: non-consuming snapshots of a ring, each a span of an absolutely labelled stream, turned into
    one chronological stream of deliveries. */
module SatcomIqCursor {
  import opened Samples

  datatype Snapshot = Snapshot(window: seq<Iq>, start: nat, end: nat, epoch: nat, sourceDiscontinuity: bool)

  datatype Delivery = Delivery(samples: seq<Iq>, discontinuity: bool, start: nat, end: nat, epoch: nat)

  datatype Cursor = Cursor(valid: bool, next: nat, epoch: nat)

  const RESET := Cursor(false, 0, 0)

  function Nothing(epoch: nat): Delivery {
    Delivery([], false, 0, 0, epoch)
  }

  /** The snapshot begins a new stream: nothing before it can be continued. */
  predicate Restarts(c: Cursor, s: Snapshot)
    requires s.end > s.start
  {
    || !c.valid || s.epoch != c.epoch || s.end < c.next || s.sourceDiscontinuity
    || s.end - s.start != |s.window|
  }

  /** The cursor and the delivery after one snapshot. */
  function Consumed(c: Cursor, s: Snapshot): (Cursor, Delivery) {
    if s.window == [] || s.end <= s.start then (c, Nothing(s.epoch))
    else if Restarts(c, s) || (s.end > c.next && c.next < s.start) then
      (Cursor(true, s.end, s.epoch), Delivery(s.window, true, s.start, s.end, s.epoch))
    else if s.end <= c.next then (c, Nothing(s.epoch))
    else (Cursor(true, s.end, s.epoch), Delivery(s.window[c.next - s.start..], false, c.next, s.end, s.epoch))
  }

  class SatcomIqCursor {
    var valid: bool
    var nextAbsolute: nat
    var streamEpoch: nat

    ghost function Now(): Cursor
      reads this
    {
      Cursor(valid, nextAbsolute, streamEpoch)
    }

    constructor ()
      ensures Now() == RESET
    {
      valid, nextAbsolute, streamEpoch := false, 0, 0;
    }

    method Consume(s: Snapshot) returns (result: Delivery)
      modifies this
      ensures (Now(), result) == Consumed(old(Now()), s)
    {
      result := Nothing(s.epoch);
      if s.window == [] || s.end <= s.start {
        return;
      }
      var shapeMismatch := s.end - s.start != |s.window|;
      var newEpoch := valid && s.epoch != streamEpoch;
      var rewound := valid && s.end < nextAbsolute;
      if !valid || newEpoch || rewound || s.sourceDiscontinuity || shapeMismatch {
        valid, nextAbsolute, streamEpoch := true, s.end, s.epoch;
        return Delivery(s.window, true, s.start, s.end, s.epoch);
      }
      streamEpoch := s.epoch;
      if s.end <= nextAbsolute {
        return;
      }
      if nextAbsolute < s.start {
        nextAbsolute := s.end;
        return Delivery(s.window, true, s.start, s.end, s.epoch);
      }
      var offset := nextAbsolute - s.start;
      if offset >= |s.window| {
        // The source re-anchors here; a window of the declared size always reaches past the cursor.
        assert false;
      }
      result := Delivery(s.window[offset..], false, nextAbsolute, s.end, s.epoch);
      nextAbsolute := s.end;
    }
  }

  // ---- Runs ---------------------------------------------------------------------------------

  /** A true view of one stream per epoch. */
  ghost predicate ViewOf(s: Snapshot, stream: (nat, nat) -> Iq) {
    && s.end >= s.start && |s.window| == s.end - s.start && !s.sourceDiscontinuity
    && forall i :: 0 <= i < |s.window| ==> s.window[i] == stream(s.epoch, s.start + i)
  }

  /** A later snapshot: of the same epoch and reaching no less far, or of a later epoch. */
  predicate Follows(s: Snapshot, epoch: nat, end: nat) {
    s.epoch > epoch || (s.epoch == epoch && s.end >= end)
  }

  /** Snapshots that are true views, in the order they were taken, the first not before (epoch, end). */
  ghost predicate InOrder(snapshots: seq<Snapshot>, stream: (nat, nat) -> Iq, epoch: nat, end: nat)
    decreases |snapshots|
  {
    snapshots != [] ==>
      && ViewOf(snapshots[0], stream) && Follows(snapshots[0], epoch, end)
      && InOrder(snapshots[1..], stream, snapshots[0].epoch, snapshots[0].end)
  }

  /** All non-empty deliveries of a run. */
  function Deliveries(c: Cursor, snapshots: seq<Snapshot>): seq<Delivery>
    decreases |snapshots|
  {
    if snapshots == [] then []
    else
      var (c', d) := Consumed(c, snapshots[0]);
      (if d.samples == [] then [] else [d]) + Deliveries(c', snapshots[1..])
  }

  /** One delivery continues a cursor: it holds the samples of its own labels; in the same epoch it begins where the
      cursor stands, or later with the gap flagged; unflagged it begins exactly there. */
  ghost predicate Continues(c: Cursor, d: Delivery, stream: (nat, nat) -> Iq) {
    && d.start < d.end && |d.samples| == d.end - d.start
    && (forall i :: 0 <= i < |d.samples| ==> d.samples[i] == stream(d.epoch, d.start + i))
    && (c.valid ==> c.epoch <= d.epoch)
    && (c.valid && c.epoch == d.epoch ==> c.next <= d.start)
    && (d.discontinuity <==> !c.valid || c.epoch != d.epoch || d.start != c.next)
  }

  /** Each delivery continues where the one before it ended. */
  ghost predicate Chronological(c: Cursor, ds: seq<Delivery>, stream: (nat, nat) -> Iq)
    decreases |ds|
  {
    ds != [] ==> Continues(c, ds[0], stream) && Chronological(Cursor(true, ds[0].end, ds[0].epoch), ds[1..], stream)
  }

  /** One view, at or after the cursor. */
  lemma ConsumedContinues(c: Cursor, s: Snapshot, stream: (nat, nat) -> Iq)
    requires ViewOf(s, stream) && (c.valid ==> Follows(s, c.epoch, c.next))
    ensures var (c', d) := Consumed(c, s);
      && (if d.samples == [] then c' == c else Continues(c, d, stream) && c' == Cursor(true, d.end, d.epoch))
      && (c'.valid ==> c'.epoch < s.epoch || (c'.epoch == s.epoch && c'.next <= s.end))
  {}

  /** The deliveries of a run are the first one, unless it is empty, and the others. */
  lemma DeliveriesUnfold(c: Cursor, snapshots: seq<Snapshot>)
    requires snapshots != []
    ensures var (c', d) := Consumed(c, snapshots[0]); var rest := Deliveries(c', snapshots[1..]);
      var ds := Deliveries(c, snapshots);
      if d.samples == [] then ds == rest else ds == [d] + rest && ds[0] == d && ds[1..] == rest
  {}

  lemma {:induction false} RunIsChronological(c: Cursor, snapshots: seq<Snapshot>, stream: (nat, nat) -> Iq,
                                              epoch: nat, end: nat)
    requires InOrder(snapshots, stream, epoch, end)
    requires c.valid ==> c.epoch < epoch || (c.epoch == epoch && c.next <= end)
    ensures Chronological(c, Deliveries(c, snapshots), stream)
    decreases |snapshots|
  {
    if snapshots != [] {
      var s := snapshots[0];
      var (c', d) := Consumed(c, s);
      ConsumedContinues(c, s, stream);
      RunIsChronological(c', snapshots[1..], stream, s.epoch, s.end);
      DeliveriesUnfold(c, snapshots);
    }
  }

  /** Later deliveries are of later epochs or of later labels. */
  lemma {:induction false} LaterThanCursor(c: Cursor, ds: seq<Delivery>, stream: (nat, nat) -> Iq, j: nat)
    requires Chronological(c, ds, stream) && j < |ds|
    ensures ds[j].start < ds[j].end
    ensures c.valid ==> c.epoch < ds[j].epoch || (c.epoch == ds[j].epoch && c.next <= ds[j].start)
    decreases |ds|
  {
    if j > 0 {
      LaterThanCursor(Cursor(true, ds[0].end, ds[0].epoch), ds[1..], stream, j - 1);
    }
  }

  lemma {:induction false} DeliveriesApart(c: Cursor, ds: seq<Delivery>, stream: (nat, nat) -> Iq, i: nat, j: nat)
    requires Chronological(c, ds, stream) && i < j < |ds|
    ensures ds[i].epoch < ds[j].epoch || (ds[i].epoch == ds[j].epoch && ds[i].end <= ds[j].start)
    decreases |ds|
  {
    if i > 0 {
      DeliveriesApart(Cursor(true, ds[0].end, ds[0].epoch), ds[1..], stream, i - 1, j - 1);
    } else {
      LaterThanCursor(Cursor(true, ds[0].end, ds[0].epoch), ds[1..], stream, j - 1);
    }
  }

  /** From a reset cursor, whatever views of the streams come in: no label of an epoch is delivered twice, and they
      come in increasing order. */
  lemma AtMostOnceInOrder(snapshots: seq<Snapshot>, stream: (nat, nat) -> Iq, i: nat, j: nat)
    requires InOrder(snapshots, stream, 0, 0) && i < j < |Deliveries(RESET, snapshots)|
    ensures var ds := Deliveries(RESET, snapshots);
      ds[i].epoch < ds[j].epoch || (ds[i].epoch == ds[j].epoch && ds[i].end <= ds[j].start)
  {
    RunIsChronological(RESET, snapshots, stream, 0, 0);
    DeliveriesApart(RESET, Deliveries(RESET, snapshots), stream, i, j);
  }

  // ---- What is handed out -------------------------------------------------------------------

  predicate Has(epoch: nat, start: nat, end: nat, p: nat, at: nat) {
    epoch == p && start <= at < end
  }

  /** Some delivery holds this label of this epoch. */
  ghost predicate Handed(ds: seq<Delivery>, p: nat, at: nat) {
    exists i :: 0 <= i < |ds| && Has(ds[i].epoch, ds[i].start, ds[i].end, p, at)
  }

  /** A view with samples in it is always taken up to its end, and what it has beyond the cursor is handed out, all
      of it and nothing else. */
  lemma ViewIsTaken(c: Cursor, s: Snapshot, stream: (nat, nat) -> Iq, p: nat, at: nat)
    requires ViewOf(s, stream) && s.window != [] && (c.valid ==> Follows(s, c.epoch, c.next))
    ensures var (c', d) := Consumed(c, s);
      && c' == Cursor(true, s.end, s.epoch)
      && (d.samples != [] && Has(d.epoch, d.start, d.end, p, at) <==>
           Has(s.epoch, s.start, s.end, p, at) && (c.valid && c.epoch == p ==> at >= c.next))
  {}

  /** Where a cursor stands after a view: at its end, unless it is empty. */
  function Reached(c: Cursor, s: Snapshot): Cursor {
    if s.window == [] then c else Cursor(true, s.end, s.epoch)
  }

  /** Some view has this label, and no view before it went further in the epoch, nor had the cursor. */
  ghost predicate SeenFirst(c: Cursor, snapshots: seq<Snapshot>, p: nat, at: nat)
    decreases |snapshots|
  {
    && snapshots != []
    && ((Has(snapshots[0].epoch, snapshots[0].start, snapshots[0].end, p, at)
         && (c.valid && c.epoch == p ==> at >= c.next))
        || SeenFirst(Reached(c, snapshots[0]), snapshots[1..], p, at))
  }

  lemma HandedUnfolds(d: Delivery, rest: seq<Delivery>, p: nat, at: nat)
    ensures Handed([d] + rest, p, at) <==> Has(d.epoch, d.start, d.end, p, at) || Handed(rest, p, at)
  {
    var ds := [d] + rest;
    if Handed(rest, p, at) {
      var i :| 0 <= i < |rest| && Has(rest[i].epoch, rest[i].start, rest[i].end, p, at);
      assert ds[i + 1] == rest[i];
    }
    if Has(d.epoch, d.start, d.end, p, at) {
      assert ds[0] == d;
    }
  }

  /** Exactly those labels are handed out that some view has beyond all that was seen of the epoch before. */
  lemma {:induction false} HandedIff(c: Cursor, snapshots: seq<Snapshot>, stream: (nat, nat) -> Iq, epoch: nat,
                                     end: nat, p: nat, at: nat)
    requires InOrder(snapshots, stream, epoch, end)
    requires c.valid ==> c.epoch < epoch || (c.epoch == epoch && c.next <= end)
    ensures Handed(Deliveries(c, snapshots), p, at) <==> SeenFirst(c, snapshots, p, at)
    decreases |snapshots|
  {
    if snapshots != [] {
      var s := snapshots[0];
      var (c', d) := Consumed(c, s);
      DeliveriesUnfold(c, snapshots);
      if s.window != [] {
        ViewIsTaken(c, s, stream, p, at);
      }
      assert c' == Reached(c, s);
      HandedIff(c', snapshots[1..], stream, s.epoch, s.end, p, at);
      if d.samples != [] {
        HandedUnfolds(d, Deliveries(c', snapshots[1..]), p, at);
      }
    }
  }

  /** Views of a ring that only moves forward: within an epoch no view begins before an earlier one. */
  ghost predicate Sliding(snapshots: seq<Snapshot>, epoch: nat, start: nat)
    decreases |snapshots|
  {
    snapshots != [] ==>
      && (snapshots[0].epoch == epoch ==> snapshots[0].start >= start)
      && Sliding(snapshots[1..], snapshots[0].epoch, snapshots[0].start)
  }

  /** Then every label of every view is handed out: seen first in it, or already in one before. */
  lemma {:induction false} SlidingSeesAll(c: Cursor, snapshots: seq<Snapshot>, stream: (nat, nat) -> Iq, epoch: nat,
                                          start: nat, end: nat, i: nat, at: nat)
    requires InOrder(snapshots, stream, epoch, end) && Sliding(snapshots, epoch, start)
    requires c.valid ==> c.epoch == epoch && c.next == end
    requires i < |snapshots| && snapshots[i].start <= at < snapshots[i].end
    requires forall k :: 0 <= k <= i ==> snapshots[k].window != []
    ensures SeenFirst(c, snapshots, snapshots[i].epoch, at)
      || (c.valid && epoch == snapshots[i].epoch && start <= at < end)
    decreases |snapshots|
  {
    var s := snapshots[0];
    if i > 0 {
      assert snapshots[1..][i - 1] == snapshots[i];
      SlidingSeesAll(Reached(c, s), snapshots[1..], stream, s.epoch, s.start, s.end, i - 1, at);
    }
  }

  /** From a reset cursor, over views that are not empty, of a ring that only moves forward: every label of every
      view is handed out. */
  lemma EveryViewIsHanded(snapshots: seq<Snapshot>, stream: (nat, nat) -> Iq, i: nat, at: nat)
    requires InOrder(snapshots, stream, 0, 0) && Sliding(snapshots, 0, 0)
    requires i < |snapshots| && snapshots[i].start <= at < snapshots[i].end
    requires forall k :: 0 <= k < |snapshots| ==> snapshots[k].window != []
    ensures Handed(Deliveries(RESET, snapshots), snapshots[i].epoch, at)
  {
    SlidingSeesAll(RESET, snapshots, stream, 0, 0, 0, i, at);
    HandedIff(RESET, snapshots, stream, 0, 0, snapshots[i].epoch, at);
  }

  /** A view that reaches further back than the one before: its label 5 is in no delivery. */
  lemma OlderLabelIsNotHanded()
    ensures var stream, views := (_: nat, _: nat) => ZERO,
              [Snapshot(seq(10, _ => ZERO), 10, 20, 0, false), Snapshot(seq(20, _ => ZERO), 5, 25, 0, false)];
      && InOrder(views, stream, 0, 0) && views[1].start <= 5 < views[1].end
      && !Handed(Deliveries(RESET, views), 0, 5)
  {
    var stream := (_: nat, _: nat) => ZERO;
    var first, second := Snapshot(seq(10, _ => ZERO), 10, 20, 0, false), Snapshot(seq(20, _ => ZERO), 5, 25, 0, false);
    var views := [first, second];
    assert views[1..] == [second] && [second][1..] == [];
    assert InOrder([second], stream, 0, 20);
    assert !SeenFirst(Cursor(true, 20, 0), [second], 0, 5);
    HandedIff(RESET, views, stream, 0, 0, 0, 5);
  }

  /** The consumer keeps up with the ring: every view reaches back to what was delivered before. */
  predicate KeepsUp(snapshots: seq<Snapshot>, epoch: nat, next: nat)
    decreases |snapshots|
  {
    snapshots != [] ==>
      && snapshots[0].epoch == epoch && snapshots[0].start <= next
      && KeepsUp(snapshots[1..], epoch, Max(snapshots[0].end, next))
  }

  function LastEnd(snapshots: seq<Snapshot>, next: nat): nat
    decreases |snapshots|
  {
    if snapshots == [] then next else LastEnd(snapshots[1..], Max(snapshots[0].end, next))
  }

  function Flat(ds: seq<Delivery>): seq<Iq> {
    if ds == [] then [] else ds[0].samples + Flat(ds[1..])
  }

  /** The samples of an epoch's stream from one label up to another. */
  function Span(stream: (nat, nat) -> Iq, epoch: nat, from: nat, to: nat): (s: seq<Iq>)
    requires from <= to
    ensures |s| == to - from && forall i :: 0 <= i < |s| ==> s[i] == stream(epoch, from + i)
  {
    seq(to - from, i requires 0 <= i => stream(epoch, from + i))
  }

  lemma SpanJoins(stream: (nat, nat) -> Iq, epoch: nat, from: nat, mid: nat, to: nat)
    requires from <= mid <= to
    ensures Span(stream, epoch, from, mid) + Span(stream, epoch, mid, to) == Span(stream, epoch, from, to)
  {}

  /** A view that reaches back to the cursor gives what is new in it, unflagged. */
  lemma ConsumedKeepsUp(c: Cursor, s: Snapshot, stream: (nat, nat) -> Iq)
    requires c.valid && ViewOf(s, stream) && s.epoch == c.epoch && s.start <= c.next <= s.end
    ensures var (c', d) := Consumed(c, s);
      && c' == Cursor(true, s.end, c.epoch) && d.samples == Span(stream, c.epoch, c.next, s.end)
      && !d.discontinuity
  {}

  /** Then the deliveries concatenate to the stream itself, nothing lost, nothing repeated, nothing flagged. */
  lemma {:induction false} NothingLostWhenKeepingUp(c: Cursor, snapshots: seq<Snapshot>, stream: (nat, nat) -> Iq)
    requires c.valid && InOrder(snapshots, stream, c.epoch, c.next) && KeepsUp(snapshots, c.epoch, c.next)
    ensures LastEnd(snapshots, c.next) >= c.next
    ensures Flat(Deliveries(c, snapshots)) == Span(stream, c.epoch, c.next, LastEnd(snapshots, c.next))
    ensures forall d :: d in Deliveries(c, snapshots) ==> !d.discontinuity
    decreases |snapshots|
  {
    if snapshots != [] {
      var s := snapshots[0];
      var (c', d) := Consumed(c, s);
      ConsumedKeepsUp(c, s, stream);
      NothingLostWhenKeepingUp(c', snapshots[1..], stream);
      DeliveriesUnfold(c, snapshots);
      SpanJoins(stream, c.epoch, c.next, s.end, LastEnd(snapshots, c.next));
    }
  }

  /** A delivery repeats labels already delivered in its epoch exactly when the snapshot is taken as the start of a
      new stream although it is of the same epoch and begins before the cursor; the delivery is then flagged. */
  lemma RepeatsIff(c: Cursor, s: Snapshot)
    requires c.valid && s.epoch == c.epoch && s.window != [] && s.end > s.start
    ensures var (c', d) := Consumed(c, s);
      && ((d.samples != [] && d.start < c.next) <==>
           (s.start < c.next && (s.end < c.next || s.sourceDiscontinuity || s.end - s.start != |s.window|)))
      && (d.samples != [] && d.start < c.next ==> d.discontinuity)
  {}
}
