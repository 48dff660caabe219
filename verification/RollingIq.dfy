/** The rolling IQ window of the Phase-2 decoder: samples with absolute stream labels, and cursors for what has been
    decoded, submitted for decoding, and held back. */
module RollingIq {
  import opened Samples

  /** A window of the receive ring as the device reports it. */
  datatype Chunk = Chunk(samples: seq<Iq>, start: nat, end: nat, epoch: nat, discontinuity: bool) {
    /** The labels agree with the number of samples. */
    predicate ValidAbsolute() {
      end >= start && end - start == |samples|
    }
  }

  /** The fields of the rolling window. */
  datatype Window = Window(
    samples: seq<Iq>, start: nat, end: nat, last: nat, submitted: nat, heldStart: nat, heldEnd: nat, epoch: nat,
    absoluteKnown: bool, decodeKnown: bool, submittedKnown: bool, heldKnown: bool, epochKnown: bool)

  const CLEARED := Window([], 0, 0, 0, 0, 0, 0, 0, false, false, false, false, false)

  /** Pre-roll before the decode cursor that trimming must leave in place: 280 ms at 2.048 MHz. */
  const PROTECTED_OVERLAP: nat := 573440

  // ---- The cursor operations ----------------------------------------------------------------

  /** Where the next take begins: the committed cursor, or the submitted one when that is ahead. */
  function EffectiveDecode(w: Window): nat {
    if w.decodeKnown && w.submittedKnown then Max(w.last, w.submitted) else w.last
  }

  function MarkSubmitted(w: Window, decodeEnd: nat): Window {
    if w.absoluteKnown && !w.decodeKnown then w
    else w.(submitted := decodeEnd, submittedKnown := true, decodeKnown := true)
  }

  function Commit(w: Window, decodeEnd: nat): Window {
    var w1 := if !w.decodeKnown || decodeEnd > w.last then w.(last := decodeEnd, decodeKnown := true) else w;
    var w2 :=
      if w.heldKnown && decodeEnd >= w.heldEnd then w1.(heldKnown := false, heldStart := 0, heldEnd := 0) else w1;
    w2.(submittedKnown := false)
  }

  function Rollback(w: Window): Window {
    w.(submittedKnown := false)
  }

  function Hold(w: Window, decodeEnd: nat): Window {
    w.(heldStart := w.last, heldEnd := decodeEnd, heldKnown := decodeEnd > w.last, submittedKnown := false)
  }

  // ---- Append -------------------------------------------------------------------------------

  /** The largest gap that append bridges with zeros. */
  function MaxJoinGap(maxSamples: nat): nat {
    Max(4096, maxSamples / 8)
  }

  predicate EpochChanges(w: Window, c: Chunk) {
    c.epoch != 0 && w.epochKnown && w.epoch != c.epoch
  }

  /** The epoch marker after a chunk; a change of epoch rewinds the decode cursor to the start of the window. */
  function WithEpoch(w: Window, c: Chunk): Window {
    var w1 := if EpochChanges(w, c) then w.(last := w.start, decodeKnown := w.absoluteKnown) else w;
    if c.epoch != 0 then w1.(epoch := c.epoch, epochKnown := true) else w1
  }

  /** A chunk taken as the whole content. */
  function Adopt(w: Window, c: Chunk): Window {
    var valid := c.ValidAbsolute();
    w.(samples := c.samples, start := if valid then c.start else 0, end := if valid then c.end else |c.samples|,
       absoluteKnown := valid, last := if valid then c.start else 0, decodeKnown := true)
  }

  /** From sample-index mode to absolute labels: the samples held so far are taken to precede the chunk. */
  function Promote(w: Window, c: Chunk): Window {
    var samples := w.samples + c.samples;
    var start := if c.start > |w.samples| then c.start - |w.samples| else 0;
    w.(samples := samples, start := start, end := start + |samples|, absoluteKnown := true, decodeKnown := true,
       last := if w.decodeKnown then start + Min(w.last, |samples|) else start)
  }

  /** What an absolute chunk adds to an absolute window: zeros for a bridged gap, then its new samples. */
  function NewSamples(w: Window, c: Chunk, maxSamples: nat): seq<Iq>
    requires c.ValidAbsolute() && c.end > w.end
  {
    if c.start > w.end then
      (if c.start - w.end <= MaxJoinGap(maxSamples) then seq(c.start - w.end, _ => ZERO) else []) + c.samples
    else
      c.samples[w.end - c.start..]
  }

  /** The window with the chunk joined on, before trimming; or nothing when the chunk is refused. */
  function Join(w: Window, c: Chunk, maxSamples: nat): Option<Window> {
    if w.samples == [] then Some(Adopt(w, c))
    else if !w.absoluteKnown then
      if c.ValidAbsolute() then Some(Promote(w, c))
      else Some(w.(samples := w.samples + c.samples, end := |w.samples| + |c.samples|))
    else if c.ValidAbsolute() && c.end > w.start && c.end > w.end then
      Some(w.(samples := w.samples + NewSamples(w, c, maxSamples), end := c.end))
    else None
  }

  /** How many samples the soft trim drops from a window longer than maxSamples: never past the protected pre-roll
      of the decode cursor. */
  function SoftDrop(w: Window, maxSamples: nat): nat
    requires |w.samples| > maxSamples
  {
    var excess := |w.samples| - maxSamples;
    if w.absoluteKnown && w.decodeKnown && EffectiveDecode(w) >= w.start then
      var head := Min(EffectiveDecode(w) - w.start, |w.samples|);
      if head > PROTECTED_OVERLAP then Min(excess, head - PROTECTED_OVERLAP) else 0
    else excess
  }

  /** An offset into the samples after the first drop of them are gone. */
  function Shifted(offset: nat, drop: nat): nat {
    if offset > drop then offset - drop else 0
  }

  function DropPrefix(w: Window, drop: nat): Window
    requires drop <= |w.samples|
  {
    var w1 := w.(samples := w.samples[drop..]);
    if w.absoluteKnown then
      var start := w.start + drop;
      w1.(start := start,
          last := if w.decodeKnown && w.last < start then start else w.last,
          submitted := if w.submittedKnown && w.submitted < start then start else w.submitted)
    else if w.decodeKnown then
      w1.(last := Shifted(w.last, drop), end := |w1.samples|,
          submitted := if w.submittedKnown then Shifted(w.submitted, drop) else w.submitted)
    else w1
  }

  /** The last resort when the soft trim drops nothing and four times the limit is exceeded: undecoded samples go.
      Only a window with absolute labels and a decode cursor gets here. */
  function ForceTrim(w: Window, maxSamples: nat): Window
    requires |w.samples| > maxSamples
  {
    var drop := |w.samples| - maxSamples;
    var start := w.start + drop;
    w.(samples := w.samples[drop..], start := start, last := if w.last < start then start else w.last)
  }

  predicate ForcesTrim(w: Window, maxSamples: nat) {
    maxSamples > 0 && |w.samples| > 4 * maxSamples && SoftDrop(w, maxSamples) == 0
  }

  function Trim(w: Window, maxSamples: nat): Window {
    if maxSamples == 0 || |w.samples| <= maxSamples then w
    else if SoftDrop(w, maxSamples) > 0 then DropPrefix(w, SoftDrop(w, maxSamples))
    else if ForcesTrim(w, maxSamples) then ForceTrim(w, maxSamples)
    else w
  }

  /** The window after append, and what append returns. */
  function Appended(w: Window, c: Chunk, maxSamples: nat): (Window, bool) {
    if c.samples == [] then (w, false)
    else if c.discontinuity then (CLEARED, false)
    else
      match Join(WithEpoch(w, c), c, maxSamples)
      case None => (WithEpoch(w, c), false)
      case Some(joined) => (Trim(joined, maxSamples), true)
  }

  // ---- Take ---------------------------------------------------------------------------------

  /** The parameters of a take. */
  datatype Request = Request(maxSamples: nat, overlap: nat, minFresh: nat, allowPartial: bool)

  /** A span handed to the decoder: context samples of pre-roll, then the fresh ones. */
  datatype Taken = Taken(
    samples: seq<Iq>, start: nat, absoluteKnown: bool, freshCount: nat, contextCount: nat, decodeEnd: nat,
    decodeEndKnown: bool)

  const NOTHING := Taken([], 0, false, 0, 0, 0, false)

  /** The index of the first sample not yet decoded or submitted. */
  function FirstNew(w: Window): nat {
    var cursor := EffectiveDecode(w);
    if !w.decodeKnown then 0
    else if w.absoluteKnown then (if cursor > w.start then Min(cursor - w.start, |w.samples|) else 0)
    else Min(cursor, |w.samples|)
  }

  /** In sample-index mode a cursor at the live edge is rewound into the buffer. */
  predicate Recovers(w: Window, minFresh: nat) {
    !w.absoluteKnown && FirstNew(w) >= |w.samples| > Max(minFresh, 8192)
  }

  function Recovered(w: Window, minFresh: nat): Window
    requires Recovers(w, minFresh)
  {
    w.(last := |w.samples| - Max(minFresh, 8192), decodeKnown := true, submittedKnown := false)
  }

  /** The fresh samples a take insists on; a partial fill above a floor will do when the caller allows it. */
  function EffectiveMinFresh(w: Window, r: Request, available: nat): nat {
    var floor := if w.absoluteKnown then 4096 else 8192;
    if r.allowPartial && floor <= available < r.minFresh then available else r.minFresh
  }

  /** A take begins up to overlap samples before the first fresh one, as far as the window reaches back. */
  function SpanBegin(r: Request, firstNew: nat): nat {
    if firstNew > r.overlap then firstNew - r.overlap else 0
  }

  /** A take ends at the end of the window, or maxSamples fresh samples on. */
  function SpanEnd(w: Window, r: Request, firstNew: nat): nat {
    if r.maxSamples > 0 then Min(|w.samples|, firstNew + r.maxSamples) else |w.samples|
  }

  /** What a take returns when the first fresh sample has index firstNew. */
  function TakeFrom(w: Window, r: Request, firstNew: nat): Taken
    requires firstNew < |w.samples|
  {
    var first, returnedEnd := SpanBegin(r, firstNew), SpanEnd(w, r, firstNew);
    var freshCount := returnedEnd - firstNew;
    if freshCount < EffectiveMinFresh(w, r, |w.samples| - firstNew) then NOTHING
    else
      var base := if w.absoluteKnown then w.start else 0;
      Taken(w.samples[first..returnedEnd], base + first, w.absoluteKnown, freshCount, firstNew - first,
            base + returnedEnd, true)
  }

  /** The index of the first fresh sample, if there is one, after a recovery where that applies. */
  function Locate(w: Window, minFresh: nat): (Window, Option<nat>) {
    if w.samples == [] || (w.absoluteKnown && w.decodeKnown && EffectiveDecode(w) >= w.end) then (w, None)
    else
      var w' := if Recovers(w, minFresh) then Recovered(w, minFresh) else w;
      (w', if FirstNew(w') >= |w'.samples| then None else Some(FirstNew(w')))
  }

  function Take(w: Window, r: Request): (Window, Taken) {
    var (w', firstNew) := Locate(w, r.minFresh);
    (w', if firstNew.None? then NOTHING else TakeFrom(w', r, firstNew.value))
  }

  // ---- The object ---------------------------------------------------------------------------

  class RollingIqWindow {
    var samples: seq<Iq>
    var startAbsolute: nat
    var endAbsolute: nat
    var lastDecodeAbsolute: nat
    var submittedDecodeEndAbsolute: nat
    var heldDecodeStartAbsolute: nat
    var heldDecodeEndAbsolute: nat
    var streamEpoch: nat
    var absoluteKnown: bool
    var decodeAbsoluteKnown: bool
    var submittedDecodeEndKnown: bool
    var heldDecodeRangeKnown: bool
    var streamEpochKnown: bool

    ghost function Now(): Window
      reads this
    {
      Window(samples, startAbsolute, endAbsolute, lastDecodeAbsolute, submittedDecodeEndAbsolute,
             heldDecodeStartAbsolute, heldDecodeEndAbsolute, streamEpoch,
             absoluteKnown, decodeAbsoluteKnown, submittedDecodeEndKnown, heldDecodeRangeKnown, streamEpochKnown)
    }

    constructor ()
      ensures Now() == CLEARED
    {
      samples := [];
      startAbsolute, endAbsolute, lastDecodeAbsolute, submittedDecodeEndAbsolute := 0, 0, 0, 0;
      heldDecodeStartAbsolute, heldDecodeEndAbsolute, streamEpoch := 0, 0, 0;
      absoluteKnown, decodeAbsoluteKnown, submittedDecodeEndKnown := false, false, false;
      heldDecodeRangeKnown, streamEpochKnown := false, false;
    }

    method Clear()
      modifies this
      ensures samples == [] && startAbsolute == endAbsolute == lastDecodeAbsolute == submittedDecodeEndAbsolute == 0
      ensures heldDecodeStartAbsolute == heldDecodeEndAbsolute == streamEpoch == 0
      ensures !absoluteKnown && !decodeAbsoluteKnown && !submittedDecodeEndKnown
      ensures !heldDecodeRangeKnown && !streamEpochKnown
    {
      samples := [];
      startAbsolute := 0;
      endAbsolute := 0;
      absoluteKnown := false;
      lastDecodeAbsolute := 0;
      decodeAbsoluteKnown := false;
      ClearMarks();
    }

    /** The part of clear for the submission, the held range and the epoch. */
    method ClearMarks()
      modifies `submittedDecodeEndAbsolute, `submittedDecodeEndKnown, `heldDecodeStartAbsolute, `heldDecodeEndAbsolute
      modifies `heldDecodeRangeKnown, `streamEpoch, `streamEpochKnown
      ensures submittedDecodeEndAbsolute == heldDecodeStartAbsolute == heldDecodeEndAbsolute == streamEpoch == 0
      ensures !submittedDecodeEndKnown && !heldDecodeRangeKnown && !streamEpochKnown
    {
      submittedDecodeEndAbsolute := 0;
      submittedDecodeEndKnown := false;
      heldDecodeStartAbsolute := 0;
      heldDecodeEndAbsolute := 0;
      heldDecodeRangeKnown := false;
      streamEpoch := 0;
      streamEpochKnown := false;
    }

    method EffectiveDecodeAbsolute() returns (cursor: nat)
      ensures cursor == EffectiveDecode(Now())
    {
      if !decodeAbsoluteKnown {
        return lastDecodeAbsolute;
      }
      if !submittedDecodeEndKnown {
        return lastDecodeAbsolute;
      }
      cursor := Max(lastDecodeAbsolute, submittedDecodeEndAbsolute);
    }

    method MarkDecodeSubmitted(decodeEnd: nat)
      modifies this
      ensures Now() == MarkSubmitted(old(Now()), decodeEnd)
    {
      if absoluteKnown {
        if !decodeAbsoluteKnown {
          return;
        }
        submittedDecodeEndAbsolute, submittedDecodeEndKnown := decodeEnd, true;
        return;
      }
      submittedDecodeEndAbsolute, submittedDecodeEndKnown := decodeEnd, true;
      decodeAbsoluteKnown := true;
    }

    /** The committed cursor moves forward only, or becomes known. */
    method AdvanceCommitted(decodeEnd: nat)
      modifies `lastDecodeAbsolute, `decodeAbsoluteKnown
      ensures Now() == old(Now()).(last := if !old(decodeAbsoluteKnown) || decodeEnd > old(lastDecodeAbsolute)
                                           then decodeEnd else old(lastDecodeAbsolute), decodeKnown := true)
    {
      if absoluteKnown {
        if !decodeAbsoluteKnown || decodeEnd > lastDecodeAbsolute {
          lastDecodeAbsolute, decodeAbsoluteKnown := decodeEnd, true;
        }
      } else {
        if !decodeAbsoluteKnown || decodeEnd > lastDecodeAbsolute {
          lastDecodeAbsolute := decodeEnd;
        }
        decodeAbsoluteKnown := true;
      }
    }

    method CommitDecodeAbsolute(decodeEnd: nat)
      modifies this
      ensures Now() == Commit(old(Now()), decodeEnd)
    {
      AdvanceCommitted(decodeEnd);
      if heldDecodeRangeKnown && decodeEnd >= heldDecodeEndAbsolute {
        heldDecodeRangeKnown := false;
        heldDecodeStartAbsolute, heldDecodeEndAbsolute := 0, 0;
      }
      submittedDecodeEndKnown := false;
    }

    method RollbackSubmittedDecode()
      modifies this
      ensures Now() == Rollback(old(Now()))
    {
      submittedDecodeEndKnown := false;
    }

    method HoldDecodeAbsolute(decodeEnd: nat)
      modifies this
      ensures Now() == Hold(old(Now()), decodeEnd)
    {
      heldDecodeStartAbsolute, heldDecodeEndAbsolute := lastDecodeAbsolute, decodeEnd;
      heldDecodeRangeKnown := decodeEnd > heldDecodeStartAbsolute;
      submittedDecodeEndKnown := false;
    }

    /** The part of append that joins the chunk on. */
    method JoinChunk(c: Chunk, maxSamples: nat) returns (ok: bool)
      requires c.samples != []
      modifies this
      ensures var joined := Join(old(Now()), c, maxSamples);
        ok == joined.Some? && Now() == if ok then joined.value else old(Now())
    {
      var valid := c.ValidAbsolute();
      if samples != [] && absoluteKnown && !valid {
        return false;
      }
      if samples == [] {
        JoinFirst(c);
      } else if !absoluteKnown && !valid {
        samples := samples + c.samples;
        endAbsolute := |samples|;
      } else if !absoluteKnown && valid {
        JoinPromoting(c);
      } else {
        ok := JoinAbsolute(c, maxSamples);
        return;
      }
      ok := true;
    }

    /** Takes the chunk as the whole content. */
    method JoinFirst(c: Chunk)
      requires c.samples != []
      modifies `samples, `startAbsolute, `endAbsolute, `lastDecodeAbsolute, `absoluteKnown, `decodeAbsoluteKnown
      ensures Now() == Adopt(old(Now()), c)
    {
      var valid := c.ValidAbsolute();
      samples := c.samples;
      startAbsolute := if valid then c.start else 0;
      endAbsolute := if valid then c.end else |samples|;
      absoluteKnown := valid;
      lastDecodeAbsolute := startAbsolute;
      decodeAbsoluteKnown := valid || samples != [];
      if !absoluteKnown {
        lastDecodeAbsolute := 0;
      }
    }

    /** Joins an absolute chunk to a sample-index window, which takes on its labels. */
    method JoinPromoting(c: Chunk)
      modifies `samples, `startAbsolute, `endAbsolute, `lastDecodeAbsolute, `absoluteKnown, `decodeAbsoluteKnown
      ensures Now() == Promote(old(Now()), c)
    {
      var priorSize := |samples|;
      samples := samples + c.samples;
      startAbsolute := if c.start > priorSize then c.start - priorSize else 0;
      endAbsolute := startAbsolute + |samples|;
      absoluteKnown := true;
      if decodeAbsoluteKnown {
        lastDecodeAbsolute := startAbsolute + Min(lastDecodeAbsolute, |samples|);
      } else {
        lastDecodeAbsolute := startAbsolute;
        decodeAbsoluteKnown := true;
      }
    }

    /** Joins an absolute chunk to an absolute window, bridging a short gap with zeros. */
    method JoinAbsolute(c: Chunk, maxSamples: nat) returns (ok: bool)
      requires samples != [] && absoluteKnown && c.ValidAbsolute()
      modifies `samples, `endAbsolute
      ensures var joined := Join(old(Now()), c, maxSamples);
        ok == joined.Some? && Now() == if ok then joined.value else old(Now())
    {
      if c.end <= startAbsolute {
        return false;
      } else if c.start > endAbsolute {
        var gap := c.start - endAbsolute;
        var bridge := if gap <= MaxJoinGap(maxSamples) then seq(gap, _ => ZERO) else [];
        samples := samples + (bridge + c.samples);
        endAbsolute := c.end;
      } else if c.end > endAbsolute {
        var overlap := endAbsolute - c.start;
        if overlap > |c.samples| {
          // The source replaces its content here; labels that agree with the size rule it out.
          assert false;
        } else {
          samples := samples + c.samples[overlap..];
          endAbsolute := c.end;
        }
      } else {
        return false;
      }
      ok := true;
    }

    /** Erases the first drop samples and moves the cursors with them. */
    method DropFront(drop: nat)
      requires drop <= |samples|
      modifies `samples, `startAbsolute, `endAbsolute, `lastDecodeAbsolute, `submittedDecodeEndAbsolute
      ensures Now() == DropPrefix(old(Now()), drop)
    {
      samples := samples[drop..];
      if absoluteKnown {
        startAbsolute := startAbsolute + drop;
        if decodeAbsoluteKnown && lastDecodeAbsolute < startAbsolute {
          lastDecodeAbsolute := startAbsolute;
        }
        if submittedDecodeEndKnown && submittedDecodeEndAbsolute < startAbsolute {
          submittedDecodeEndAbsolute := startAbsolute;
        }
      } else if decodeAbsoluteKnown {
        lastDecodeAbsolute := if lastDecodeAbsolute > drop then lastDecodeAbsolute - drop else 0;
        if submittedDecodeEndKnown {
          submittedDecodeEndAbsolute :=
            if submittedDecodeEndAbsolute > drop then submittedDecodeEndAbsolute - drop else 0;
        }
        endAbsolute := |samples|;
      }
    }

    /** Erases the oldest samples down to the limit, undecoded or not. */
    method ForceDrop(maxSamples: nat)
      requires |samples| > maxSamples
      modifies `samples, `startAbsolute, `lastDecodeAbsolute
      ensures Now() == ForceTrim(old(Now()), maxSamples)
    {
      var forceDrop := |samples| - maxSamples;
      samples := samples[forceDrop..];
      startAbsolute := startAbsolute + forceDrop;
      if lastDecodeAbsolute < startAbsolute {
        lastDecodeAbsolute := startAbsolute;
      }
    }

    /** The part of append that keeps the buffer near its limit. */
    method TrimTo(maxSamples: nat)
      modifies this
      ensures Now() == Trim(old(Now()), maxSamples)
    {
      if maxSamples == 0 || |samples| <= maxSamples {
        return;
      }
      var drop := |samples| - maxSamples;
      var cursor := EffectiveDecodeAbsolute();
      var protects := absoluteKnown && decodeAbsoluteKnown && cursor >= startAbsolute;
      if protects {
        var head := Min(cursor - startAbsolute, |samples|);
        drop := if head > PROTECTED_OVERLAP then Min(drop, head - PROTECTED_OVERLAP) else 0;
      }
      assert drop == SoftDrop(Now(), maxSamples);
      if drop == 0 {
        TrimUndroppable(maxSamples, cursor);
        return;
      }
      DropFront(drop);
    }

    /** The part of the trim for a window in which the soft trim finds nothing to drop. */
    method TrimUndroppable(maxSamples: nat, cursor: nat)
      requires |samples| > maxSamples > 0 && cursor == EffectiveDecode(Now()) && SoftDrop(Now(), maxSamples) == 0
      modifies `samples, `startAbsolute, `lastDecodeAbsolute
      ensures Now() == Trim(old(Now()), maxSamples)
    {
      if |samples| > maxSamples + maxSamples / 2 {
        var emergencyDrop := 0;
        if absoluteKnown && decodeAbsoluteKnown && cursor >= startAbsolute {
          var head := Min(cursor - startAbsolute, |samples|);
          if head > PROTECTED_OVERLAP {
            emergencyDrop := head - PROTECTED_OVERLAP;
          }
        }
        if emergencyDrop > 0 {
          // A head longer than the protected overlap already gave the soft trim something to drop.
          assert false;
        } else if |samples| > 4 * maxSamples {
          ForceDrop(maxSamples);
        }
      }
    }

    /** The part of append that follows the epoch of the stream. */
    method NoteEpoch(c: Chunk)
      modifies `lastDecodeAbsolute, `decodeAbsoluteKnown, `streamEpoch, `streamEpochKnown
      ensures Now() == WithEpoch(old(Now()), c)
    {
      if c.epoch != 0 {
        if streamEpochKnown && streamEpoch != c.epoch {
          lastDecodeAbsolute := startAbsolute;
          decodeAbsoluteKnown := absoluteKnown;
        }
        streamEpoch, streamEpochKnown := c.epoch, true;
      }
    }

    method Append(c: Chunk, maxSamples: nat) returns (ok: bool)
      modifies this
      ensures (Now(), ok) == Appended(old(Now()), c, maxSamples)
    {
      if c.samples == [] {
        return false;
      }
      if c.discontinuity {
        Clear();
        return false;
      }
      NoteEpoch(c);
      ok := JoinChunk(c, maxSamples);
      if ok {
        TrimTo(maxSamples);
      }
    }

    method LocateFresh(minFresh: nat) returns (found: Option<nat>)
      modifies `lastDecodeAbsolute, `decodeAbsoluteKnown, `submittedDecodeEndKnown
      ensures (Now(), found) == Locate(old(Now()), minFresh)
    {
      if samples == [] {
        return None;
      }
      var cursor := EffectiveDecodeAbsolute();
      var firstNew := 0;
      if absoluteKnown && decodeAbsoluteKnown {
        if cursor >= endAbsolute {
          return None;
        }
        if cursor > startAbsolute {
          firstNew := Min(cursor - startAbsolute, |samples|);
        }
      } else if !absoluteKnown && decodeAbsoluteKnown {
        firstNew := Min(cursor, |samples|);
      }
      if !absoluteKnown && firstNew >= |samples| && |samples| > minFresh {
        var recoverFresh := Max(minFresh, 8192);
        if |samples| > recoverFresh {
          firstNew := |samples| - recoverFresh;
          lastDecodeAbsolute, decodeAbsoluteKnown, submittedDecodeEndKnown := firstNew, true, false;
        }
      }
      found := if firstNew >= |samples| then None else Some(firstNew);
    }

    method SoftenMinFresh(r: Request, available: nat) returns (minFresh: nat)
      ensures minFresh == EffectiveMinFresh(Now(), r, available)
    {
      minFresh := r.minFresh;
      if r.allowPartial && minFresh > 0 && available < minFresh {
        var softFloor := if absoluteKnown then 4096 else 8192;
        if available >= softFloor {
          minFresh := available;
        }
      }
    }

    method CopySpan(r: Request, firstNew: nat) returns (taken: Taken)
      requires firstNew < |samples|
      ensures taken == TakeFrom(Now(), r, firstNew)
    {
      var effectiveMinFresh := SoftenMinFresh(r, |samples| - firstNew);
      var first := firstNew;
      if r.overlap > 0 {
        first := if firstNew > r.overlap then firstNew - r.overlap else 0;
      }
      var returnedEnd := if r.maxSamples > 0 then Min(|samples|, firstNew + r.maxSamples) else |samples|;
      assert first == SpanBegin(r, firstNew) && returnedEnd == SpanEnd(Now(), r, firstNew);
      assert first <= firstNew < returnedEnd;
      var freshCount, contextCount := returnedEnd - firstNew, firstNew - first;
      if effectiveMinFresh > 0 && freshCount < effectiveMinFresh {
        return NOTHING;
      }
      if decodeAbsoluteKnown && r.overlap > 0 && firstNew > 0 && contextCount == 0 {
        // Pre-roll is there whenever something precedes the first fresh sample.
        assert false;
      }
      var base := if absoluteKnown then startAbsolute else 0;
      taken := Taken(samples[first..returnedEnd], base + first, absoluteKnown, freshCount, contextCount,
                     base + returnedEnd, true);
    }

    method TakeUndecoded(r: Request) returns (taken: Taken)
      modifies this
      ensures (Now(), taken) == Take(old(Now()), r)
    {
      var found := LocateFresh(r.minFresh);
      if found.None? {
        return NOTHING;
      }
      taken := CopySpan(r, found.value);
    }
  }
}
