/** What the rolling IQ window promises: labels that stay true, pre-roll that trimming respects, and every received
    sample decoded exactly once over whole runs. */
module RollingIqDelivery {
  import opened Samples
  import opened RollingIq

  /** An absolute window whose labels and cursors agree with its content. */
  ghost predicate Labelled(w: Window) {
    && w.samples != [] && w.absoluteKnown && w.decodeKnown
    && w.end == w.start + |w.samples|
    && w.start <= w.last <= w.end
    && (w.submittedKnown ==> w.submitted <= w.end)
  }

  /** The chunk leaves no gap after the window of more than 4096 samples and more than an eighth of the limit. */
  predicate Joinable(w: Window, c: Chunk, maxSamples: nat) {
    c.start <= w.end + 4096 || 8 * (c.start - w.end) <= maxSamples
  }

  // ---- Trimming -----------------------------------------------------------------------------

  /** The soft trim stays clear of the pre-roll of the cursor, so something is always left. */
  lemma SoftDropIsSmall(w: Window, maxSamples: nat)
    requires Labelled(w) && |w.samples| > maxSamples
    ensures SoftDrop(w, maxSamples) <= Max(0, EffectiveDecode(w) - w.start - PROTECTED_OVERLAP)
    ensures SoftDrop(w, maxSamples) < |w.samples|
  {}

  /** Dropping decoded or submitted samples keeps the labels and moves no cursor below them. */
  lemma DropKeepsLabels(w: Window, drop: nat)
    requires Labelled(w) && drop < |w.samples| && w.start + drop <= EffectiveDecode(w)
    ensures var w' := DropPrefix(w, drop);
      && Labelled(w') && w'.start == w.start + drop && w'.end == w.end && w'.samples == w.samples[drop..]
      && w'.last == Max(w.last, w'.start) && EffectiveDecode(w') == EffectiveDecode(w)
  {}

  /** Trimming keeps the labels, and keeps every sample not yet decoded or submitted together with the smaller of
      its old pre-roll and the protected overlap, unless it has to force. */
  lemma TrimProtectsPreRoll(w: Window, maxSamples: nat)
    requires Labelled(w) && !ForcesTrim(w, maxSamples)
    ensures var w' := Trim(w, maxSamples); var cursor := EffectiveDecode(w);
      && Labelled(w') && w.start <= w'.start <= cursor && w'.end == w.end
      && w'.samples == w.samples[w'.start - w.start..]
      && cursor - w'.start >= Min(cursor - w.start, PROTECTED_OVERLAP)
      && EffectiveDecode(w') == cursor && w'.last == Max(w.last, w'.start)
  {
    if maxSamples > 0 && |w.samples| > maxSamples && SoftDrop(w, maxSamples) > 0 {
      SoftDropIsSmall(w, maxSamples);
      DropKeepsLabels(w, SoftDrop(w, maxSamples));
    }
  }

  /** It drops all it may: what is left has the length of the limit, or begins the protected overlap before the cursor,
      unless the pre-roll was no longer than that before. */
  lemma TrimDropsAllItMay(w: Window, maxSamples: nat)
    requires Labelled(w) && maxSamples > 0 && |w.samples| > maxSamples && !ForcesTrim(w, maxSamples)
    ensures var w', cursor := Trim(w, maxSamples), EffectiveDecode(w);
      || |w'.samples| == maxSamples
      || (|w'.samples| > maxSamples && cursor - w'.start == PROTECTED_OVERLAP)
      || (w' == w && cursor - w.start <= PROTECTED_OVERLAP)
  {}

  /** It has to force exactly when more than four times the limit is held and none of it lies before the pre-roll. */
  lemma ForcesTrimIff(w: Window, maxSamples: nat)
    requires Labelled(w)
    ensures ForcesTrim(w, maxSamples) <==>
      maxSamples > 0 && |w.samples| > 4 * maxSamples && EffectiveDecode(w) - w.start <= 573440
    ensures maxSamples > 0 ==>
      |Trim(w, maxSamples).samples| <= Max(4 * maxSamples, w.end - EffectiveDecode(w) + 573440)
  {}

  lemma ShortStaysWhole(w: Window, maxSamples: nat)
    ensures maxSamples == 0 || |w.samples| <= maxSamples ==> Trim(w, maxSamples) == w
  {}

  /** The soft trim moves the committed cursor, so that a rollback would skip samples, exactly when it may drop
      beyond that cursor: the excess reaches past it and the submitted span is longer than the protected overlap. */
  lemma TrimKeepsCommittedCursorIff(w: Window, maxSamples: nat)
    requires Labelled(w) && maxSamples > 0 && |w.samples| > maxSamples && !ForcesTrim(w, maxSamples)
    ensures Trim(w, maxSamples).last == w.last
      <==> |w.samples| - maxSamples <= w.last - w.start || EffectiveDecode(w) - w.last <= PROTECTED_OVERLAP
  {}

  /** A forced trim leaves exactly maxSamples, and skips undecoded samples exactly when more than the decoded ones
      have to go. */
  lemma ForcedTrimSkipsIff(w: Window, maxSamples: nat)
    requires Labelled(w) && ForcesTrim(w, maxSamples)
    ensures var w' := Trim(w, maxSamples);
      && |w'.samples| == maxSamples && w'.end == w.end == w'.start + maxSamples
      && (w'.last > w.last <==> w.end - w.last > maxSamples)
      && w.end - EffectiveDecode(w) > 4 * maxSamples - PROTECTED_OVERLAP
  {}

  /** Trimming drops as many labels as samples. */
  lemma TrimKeepsExtent(w: Window, maxSamples: nat)
    requires w.absoluteKnown && w.decodeKnown
    ensures var w' := Trim(w, maxSamples);
      w'.end == w.end && w'.end - w'.start - |w'.samples| == w.end - w.start - |w.samples|
  {}

  lemma TrimKeepsLabels(w: Window, maxSamples: nat)
    requires Labelled(w)
    ensures Labelled(Trim(w, maxSamples)) && Trim(w, maxSamples).end == w.end
  {
    if ForcesTrim(w, maxSamples) {
      ForcedTrimSkipsIff(w, maxSamples);
    } else {
      TrimProtectsPreRoll(w, maxSamples);
    }
  }

  /** Any trim moves the cursors up to the start of what is left, and no further. */
  lemma TrimMovesCursorsToStart(w: Window, maxSamples: nat)
    requires w.absoluteKnown && w.decodeKnown && w.start <= w.last
    ensures var w' := Trim(w, maxSamples);
      && w'.absoluteKnown && w'.decodeKnown && w'.submittedKnown == w.submittedKnown
      && w.start <= w'.start && w'.last == Max(w.last, w'.start)
      && EffectiveDecode(w') == Max(EffectiveDecode(w), w'.start)
      && (!ForcesTrim(w, maxSamples) ==> w'.start <= EffectiveDecode(w))
  {
    if maxSamples > 0 && |w.samples| > maxSamples {
      if SoftDrop(w, maxSamples) > 0 {
        DropMovesCursorsToStart(w, SoftDrop(w, maxSamples));
      } else if ForcesTrim(w, maxSamples) {
        assert Trim(w, maxSamples) == ForceTrim(w, maxSamples);
      } else {
        assert Trim(w, maxSamples) == w;
      }
    }
  }

  lemma DropMovesCursorsToStart(w: Window, drop: nat)
    requires w.absoluteKnown && w.decodeKnown && w.start <= w.last && drop <= |w.samples|
    ensures var w' := DropPrefix(w, drop);
      && w'.absoluteKnown && w'.decodeKnown && w'.submittedKnown == w.submittedKnown
      && w'.start == w.start + drop && w'.last == Max(w.last, w'.start)
      && (w.submittedKnown ==> w'.submitted == Max(w.submitted, w'.start))
      && EffectiveDecode(w') == Max(EffectiveDecode(w), w'.start)
  {}

  // ---- Labels -------------------------------------------------------------------------------

  lemma JoinLabels(w: Window, c: Chunk, maxSamples: nat)
    requires Labelled(w) && c.ValidAbsolute() && Join(w, c, maxSamples).Some?
    ensures var joined := Join(w, c, maxSamples).value;
      && joined.absoluteKnown && joined.decodeKnown && joined.end == c.end
      && (Joinable(w, c, maxSamples) ==> Labelled(joined))
      && (!Joinable(w, c, maxSamples) ==> joined.end - joined.start > |joined.samples|)
  {}

  /** Joining a valid chunk to a labelled window keeps the labels true exactly when the gap is one that is bridged. */
  lemma LabelsKeptIffJoinable(w: Window, c: Chunk, maxSamples: nat)
    requires Labelled(w) && c.samples != [] && !c.discontinuity && c.ValidAbsolute()
    ensures Labelled(Appended(w, c, maxSamples).0) <==> Joinable(w, c, maxSamples)
  {
    var w1 := WithEpoch(w, c);
    EpochKeepsLabels(w, c);
    if Join(w1, c, maxSamples).Some? {
      var joined := Join(w1, c, maxSamples).value;
      JoinLabels(w1, c, maxSamples);
      TrimKeepsExtent(joined, maxSamples);
      if Joinable(w, c, maxSamples) {
        TrimKeepsLabels(joined, maxSamples);
      }
    }
  }

  lemma TakeKeepsWindow(w: Window, r: Request)
    requires w.absoluteKnown
    ensures Take(w, r).0 == w
  {}

  lemma LandingKeepsLabelsIff(w: Window, e: nat)
    requires Labelled(w)
    ensures Labelled(MarkSubmitted(w, e)) <==> e <= w.end
    ensures Labelled(Commit(w, e)) <==> e <= w.end
    ensures Labelled(Rollback(w)) && Labelled(Hold(w, e))
  {
    assert Commit(w, e).last == Max(w.last, e);
  }

  /** A rollback takes a submission back. */
  lemma RollbackUndoesSubmission(w: Window, e: nat)
    requires !w.submittedKnown && (w.absoluteKnown || w.decodeKnown)
    ensures Rollback(MarkSubmitted(w, e)).(submitted := w.submitted) == w
  {}

  /** What trimming never touches. */
  lemma TrimLeaves(w: Window, maxSamples: nat)
    ensures var w' := Trim(w, maxSamples);
      && w'.epoch == w.epoch && w'.epochKnown == w.epochKnown
      && w'.heldKnown == w.heldKnown && w'.heldStart == w.heldStart && w'.heldEnd == w.heldEnd
      && w'.absoluteKnown == w.absoluteKnown && w'.decodeKnown == w.decodeKnown
  {
    if maxSamples > 0 && |w.samples| > maxSamples && SoftDrop(w, maxSamples) > 0 {
      var w' := DropPrefix(w, SoftDrop(w, maxSamples));
      assert w'.epoch == w.epoch && w'.heldEnd == w.heldEnd;
    }
  }

  /** What joining never touches. */
  lemma JoinLeaves(w: Window, c: Chunk, maxSamples: nat)
    requires Join(w, c, maxSamples).Some?
    ensures var w' := Join(w, c, maxSamples).value;
      && w'.epoch == w.epoch && w'.epochKnown == w.epochKnown
      && w'.heldKnown == w.heldKnown && w'.heldStart == w.heldStart && w'.heldEnd == w.heldEnd
      && ((w.absoluteKnown ==> w.decodeKnown) ==> w'.absoluteKnown ==> w'.decodeKnown)
  {}

  /** A discontinuity forgets everything, whatever was there: the window is as good as new, and the chunk is refused. */
  lemma DiscontinuityForgets(w: Window, c: Chunk, maxSamples: nat)
    requires c.samples != [] && c.discontinuity
    ensures var (w', ok) := Appended(w, c, maxSamples);
      && w'.samples == [] && w' == CLEARED && !ok
      && !w'.absoluteKnown && !w'.decodeKnown && !w'.submittedKnown && !w'.heldKnown && !w'.epochKnown
  {}

  /** Any other chunk with a sample sets the epoch, if it has one, whether it is joined or not. */
  lemma EpochIsFollowed(w: Window, c: Chunk, maxSamples: nat)
    requires c.samples != [] && !c.discontinuity
    ensures var w' := Appended(w, c, maxSamples).0;
      if c.epoch != 0 then w'.epochKnown && w'.epoch == c.epoch
      else w'.epochKnown == w.epochKnown && w'.epoch == w.epoch
  {
    var w1 := WithEpoch(w, c);
    hide Join, Trim;
    if Join(w1, c, maxSamples).Some? {
      JoinLeaves(w1, c, maxSamples);
      TrimLeaves(Join(w1, c, maxSamples).value, maxSamples);
    }
  }

  /** The cursor goes back to the start exactly when both the window and the chunk name an epoch and the two differ; in
      any other case it stays, or is moved up to what the trim left. */
  lemma ReceivingMovesCursor(w: Window, c: Chunk, maxSamples: nat)
    requires Labelled(w) && c.samples != [] && !c.discontinuity
    ensures var w' := Appended(w, c, maxSamples).0; var retuned := c.epoch != 0 && w.epochKnown && c.epoch != w.epoch;
      && w.start <= w'.start && w'.last == Max(if retuned then w.start else w.last, w'.start)
      && w'.decodeKnown && w'.submittedKnown == w.submittedKnown
  {
    var w1 := WithEpoch(w, c);
    if Join(w1, c, maxSamples).Some? {
      var joined := Join(w1, c, maxSamples).value;
      assert joined.start == w1.start && joined.last == w1.last && joined.submittedKnown == w1.submittedKnown;
      hide Join;
      TrimMovesCursorsToStart(joined, maxSamples);
    }
  }

  lemma EpochKeepsLabels(w: Window, c: Chunk)
    requires Labelled(w)
    ensures Labelled(WithEpoch(w, c)) && WithEpoch(w, c).samples == w.samples && WithEpoch(w, c).end == w.end
  {}

  /** A chunk whose labels disagree with its size is refused. */
  lemma BadLabelsRefused(w: Window, c: Chunk, maxSamples: nat)
    requires Labelled(w) && !c.discontinuity && !c.ValidAbsolute()
    ensures Appended(w, c, maxSamples) == (if c.samples == [] then w else WithEpoch(w, c), false)
  {}

  /** Submitting or committing up to a label keeps the labels true exactly when it does not lie beyond the window; every
      other operation keeps them always. */
  lemma CursorOperationsKeepLabels(w: Window, e: nat, r: Request, c: Chunk, maxSamples: nat)
    requires Labelled(w)
    ensures Labelled(MarkSubmitted(w, e)) <==> e <= w.end
    ensures Labelled(Commit(w, e)) <==> e <= w.end
    ensures Labelled(Rollback(w)) && Labelled(Hold(w, e))
    ensures Take(w, r).0 == w
    ensures !c.discontinuity && !c.ValidAbsolute() ==>
      Labelled(Appended(w, c, maxSamples).0) && !Appended(w, c, maxSamples).1
  {
    LandingKeepsLabelsIff(w, e);
    TakeKeepsWindow(w, r);
    if !c.discontinuity && !c.ValidAbsolute() {
      BadLabelsRefused(w, c, maxSamples);
      EpochKeepsLabels(w, c);
    }
  }

  // ---- Changes of labelling -----------------------------------------------------------------

  /** A sample-index window: offsets for labels. A flight ends within it. */
  ghost predicate Indexed(w: Window) {
    && w.samples != [] && !w.absoluteKnown && w.decodeKnown
    && w.start == 0 && w.end == |w.samples| && w.last <= w.end
    && (w.submittedKnown ==> w.submitted <= w.end)
  }

  /** The label that the first sample of an index window gets with the first labelled chunk. */
  function FirstLabel(w: Window, c: Chunk): nat {
    if c.start > |w.samples| then c.start - |w.samples| else 0
  }

  lemma PromotedIsLabelled(w: Window, c: Chunk)
    requires Indexed(w) && c.samples != [] && c.ValidAbsolute()
    ensures var p := Promote(WithEpoch(w, c), c);
      && Labelled(p) && p.submittedKnown == w.submittedKnown && p.submitted == w.submitted
      && p.start == FirstLabel(w, c) && p.last == p.start + (if EpochChanges(w, c) then 0 else w.last)
      && p.samples == w.samples + c.samples && (p.end == c.end <==> c.start >= |w.samples|)
  {}

  lemma AppendPromotes(w: Window, c: Chunk, maxSamples: nat)
    requires Indexed(w) && c.samples != [] && c.ValidAbsolute() && !c.discontinuity
    ensures Appended(w, c, maxSamples).0 == Trim(Promote(WithEpoch(w, c), c), maxSamples)
  {
    assert Join(WithEpoch(w, c), c, maxSamples) == Some(Promote(WithEpoch(w, c), c));
  }

  /** When the device begins to report labels within an epoch, with no flight under way, what was undecoded before is
      undecoded after, followed by the chunk, and the pre-roll stays up to the protected overlap, whatever the limit,
      unless the trim has to force; the labels are those of the stream exactly when the chunk starts late enough for all
      earlier samples to have a label. */
  lemma PromotionKeepsCursor(w: Window, c: Chunk, maxSamples: nat)
    requires Indexed(w) && !w.submittedKnown && !EpochChanges(w, c)
    requires c.samples != [] && c.ValidAbsolute() && !c.discontinuity
    requires !ForcesTrim(Promote(WithEpoch(w, c), c), maxSamples)
    ensures var w' := Appended(w, c, maxSamples).0;
      && Labelled(w') && Min(w.last, PROTECTED_OVERLAP) <= w'.last - w'.start <= w.last
      && (|w.samples| + |c.samples| <= maxSamples || maxSamples == 0 ==> w'.last - w'.start == w.last)
      && w'.samples[w'.last - w'.start..] == w.samples[w.last..] + c.samples
      && (w'.end == c.end <==> c.start >= |w.samples|)
  {
    var p := Promote(WithEpoch(w, c), c);
    hide Trim, Promote, WithEpoch, Appended, ForcesTrim;
    PromotedIsLabelled(w, c);
    AppendPromotes(w, c, maxSamples);
    TrimKeepsUndecoded(p, maxSamples);
    SuffixOfSum(w.samples, c.samples, w.last);
  }

  /** With no flight the soft trim keeps the cursor and what follows it. */
  lemma TrimKeepsUndecoded(w: Window, maxSamples: nat)
    requires Labelled(w) && !w.submittedKnown && !ForcesTrim(w, maxSamples)
    ensures var w', decoded := Trim(w, maxSamples), w.last - w.start;
      && Labelled(w') && w'.end == w.end && Min(decoded, PROTECTED_OVERLAP) <= w'.last - w'.start <= decoded
      && (|w.samples| <= maxSamples || maxSamples == 0 ==> w'.last - w'.start == decoded)
      && w'.samples[w'.last - w'.start..] == w.samples[decoded..]
  {
    TrimProtectsPreRoll(w, maxSamples);
    ShortStaysWhole(w, maxSamples);
    hide Trim, ForcesTrim;
    var w' := Trim(w, maxSamples);
    assert w'.last == w.last;
    SuffixOfSuffix(w.samples, w'.start - w.start, w.last - w.start);
  }

  /** With any flight and any epoch: the next take goes on where it would have gone on before exactly when the flight
      ends at or before the committed cursor, or the first sample gets the label 0, so that the end of the flight, which
      stays an offset, is a label too; across a change of epoch, when nothing was decoded or submitted, or the first
      sample gets the label 0 and the flight ends at or beyond the cursor. Otherwise samples are given out again, and
      the commit of the flight does not prevent it. */
  lemma PromotionKeepsFlightIff(w: Window, c: Chunk, maxSamples: nat)
    requires Indexed(w) && c.samples != [] && c.ValidAbsolute() && !c.discontinuity
    requires !ForcesTrimOn(w, c, maxSamples)
    ensures var w' := Appended(w, c, maxSamples).0; var flight := if w.submittedKnown then w.submitted else 0;
      && (EffectiveDecode(w') == FirstLabel(w, c) + EffectiveDecode(w) <==>
           if EpochChanges(w, c) then EffectiveDecode(w) == 0 || (c.start <= |w.samples| && flight >= w.last)
           else flight <= w.last || c.start <= |w.samples|)
      && EffectiveDecode(w') <= FirstLabel(w, c) + EffectiveDecode(w)
      && (w.submittedKnown ==> EffectiveDecode(Commit(w', w.submitted)) == EffectiveDecode(w'))
  {
    var p := Promote(WithEpoch(w, c), c);
    PromotedIsLabelled(w, c);
    AppendPromotes(w, c, maxSamples);
    assert Join(WithEpoch(w, c), c, maxSamples) == Some(p);
    hide Trim, Promote, WithEpoch, Appended, ForcesTrim, Join;
    var w', flight := Trim(p, maxSamples), if w.submittedKnown then w.submitted else 0;
    FlightAfterTrim(p, maxSamples);
    FlightArithmetic(w.last, flight, FirstLabel(w, c), EpochChanges(w, c));
    assert EffectiveDecode(w) == Max(w.last, flight) && EffectiveDecode(w') == Max(p.last, flight);
  }

  /** A trim that does not force leaves the cursor where it was, and the commit of the flight does too. */
  lemma FlightAfterTrim(w: Window, maxSamples: nat)
    requires Labelled(w) && !ForcesTrim(w, maxSamples)
    ensures var w' := Trim(w, maxSamples);
      && EffectiveDecode(w') == Max(w.last, if w.submittedKnown then w.submitted else 0)
      && (w.submittedKnown ==> EffectiveDecode(Commit(w', w.submitted)) == EffectiveDecode(w'))
  {
    TrimProtectsPreRoll(w, maxSamples);
    TrimKeepsFlight(w, maxSamples);
  }

  lemma FlightArithmetic(last: nat, flight: nat, first: nat, retuned: bool)
    ensures var before, after := Max(last, flight), Max(first + (if retuned then 0 else last), flight);
      && (after == first + before <==>
           if retuned then before == 0 || (first == 0 && flight >= last) else flight <= last || first == 0)
      && after <= first + before
  {}

  lemma SuffixOfSuffix(s: seq<Iq>, i: nat, j: nat)
    requires i <= j <= |s|
    ensures s[i..][j - i..] == s[j..]
  {}

  lemma SuffixOfSum(s: seq<Iq>, added: seq<Iq>, i: nat)
    requires i <= |s|
    ensures (s + added)[i..] == s[i..] + added
  {}

  /** Where a change of epoch leaves the cursor before trimming: at the start of the window, or at the end of the
      flight that was submitted. */
  function Rewound(w: Window): nat {
    if w.submittedKnown then Max(w.start, w.submitted) else w.start
  }

  /** A chunk of another epoch forces the trim. */
  predicate ForcesTrimOn(w: Window, c: Chunk, maxSamples: nat) {
    var joined := Join(WithEpoch(w, c), c, maxSamples);
    joined.Some? && ForcesTrim(joined.value, maxSamples)
  }

  /** A change of epoch sends the committed cursor back to the start of the window, whatever the chunk, the limit and
      the flight; with no forced trim, samples already decoded are taken again exactly when the window still held some
      before the cursor and no flight ends beyond it. A flight keeps the cursor at its end; its rollback gives the
      whole window out again, its commit nothing but what follows it. */
  lemma EpochChangeRewinds(w: Window, c: Chunk, maxSamples: nat)
    requires Labelled(w) && c.samples != [] && !c.discontinuity && EpochChanges(w, c)
    ensures var w' := Appended(w, c, maxSamples).0;
      && EffectiveDecode(w') == Max(Rewound(w), w'.start)
      && EffectiveDecode(Rollback(w')) == w'.start
      && EffectiveDecode(Commit(w', w.submitted)) == Max(w.submitted, w'.start)
      && (!ForcesTrimOn(w, c, maxSamples) ==>
           (EffectiveDecode(w') < EffectiveDecode(w) <==>
            w.last > w.start && (!w.submittedKnown || w.submitted < w.last)))
  {
    var joined := Join(WithEpoch(w, c), c, maxSamples);
    if joined.Some? {
      var v := joined.value;
      assert v.start == w.start == v.last && v.submittedKnown == w.submittedKnown && v.submitted == w.submitted;
      TrimMovesCursorsToStart(v, maxSamples);
    }
  }

  // ---- Where the promises end ---------------------------------------------------------------

  /** n samples labelled from 0, of which the first decoded ones are decoded. */
  function Holding(n: nat, decoded: nat): Window {
    CLEARED.(samples := seq(n, _ => ZERO), end := n, last := decoded, absoluteKnown := true, decodeKnown := true)
  }

  /** A gap one sample too long to be bridged: the end label runs ahead of the samples. */
  lemma LongGapBreaksLabels()
    ensures var c := Chunk([ZERO], 4098, 4099, 0, false); var w := Appended(Holding(1, 0), c, 0).0;
      Labelled(Holding(1, 0)) && c.ValidAbsolute() && w.end == 4099 && w.start + |w.samples| == 2
  {}

  /** The first labelled chunk starts at 1 although two samples came before it: from then on its labels are one too
      high, and the sample that follows it is refused as already there. */
  lemma EarlyPromotionLosesSample()
    ensures var w := CLEARED.(samples := [ZERO, ZERO], end := 2, decodeKnown := true);
      var w1 := Appended(w, Chunk([ZERO], 1, 2, 0, false), 0).0;
      Indexed(w) && w1.end == 3 && !Appended(w1, Chunk([ZERO], 2, 3, 0, false), 0).1
  {}

  /** Two samples decoded in a flight when the first labelled chunk comes in, at 100: both are given out again, before
      the flight is committed and after. */
  lemma PromotionRepeatsFlight()
    ensures var w := MarkSubmitted(CLEARED.(samples := [ZERO, ZERO], end := 2, decodeKnown := true), 2);
      var w' := Appended(w, Chunk([ZERO], 100, 101, 0, false), 0).0;
      Indexed(w) && FirstNew(w) == 2 && FirstNew(w') == 0 && FirstNew(Commit(w', 2)) == 0
  {}

  /** Two flights at a time: the commit of the first forgets the second, whose sample is given out again. */
  lemma SecondFlightIsRepeated()
    ensures var w := MarkSubmitted(MarkSubmitted(Holding(2, 0), 1), 2);
      Labelled(w) && FirstNew(w) == 2 && FirstNew(Commit(w, 1)) == 1
  {}

  /** A flight longer than the protected overlap: the soft trim drops what a rollback would need. */
  lemma LongFlightLosesSamples()
    ensures var w := MarkSubmitted(Holding(PROTECTED_OVERLAP + 2, 0), PROTECTED_OVERLAP + 2);
      Labelled(w) && EffectiveDecode(Rollback(w)) == 0 && EffectiveDecode(Rollback(Trim(w, 1))) == 2
  {}

  /** Five undecoded samples under a limit of one: the forced trim skips four of them. */
  lemma ForcedTrimSkipsFour()
    ensures ForcesTrim(Holding(5, 0), 1) && EffectiveDecode(Trim(Holding(5, 0), 1)) == 4
  {}

  /** A retune after the window has been decoded: it is all taken again. */
  lemma RetuneRepeatsWindow()
    ensures var w := Holding(1, 1).(epoch := 1, epochKnown := true);
      var w' := Appended(w, Chunk([ZERO], 1, 2, 2, false), 0).0;
      FirstNew(w) == 1 && FirstNew(w') == 0 && |w'.samples| == 2
  {}

  // ---- Exactly-once delivery over whole runs ------------------------------------------------

  /** A take that is being decoded: its fresh samples, and where they end. */
  datatype Flight = Flight(content: seq<Iq>, end: nat)

  /** A stretch between discontinuities: what has come in since its first chunk (from label origin on), which of that
      the device reported (the rest is zeros over a gap), and what has been committed. */
  datatype Segment = Segment(origin: nat, received: seq<Iq>, reported: seq<bool>, delivered: seq<Iq>)

  /** The window, the present segment with the take in flight, and the segments before it. */
  datatype Run = Run(w: Window, now: Segment, flight: Option<Flight>, past: seq<Segment>)

  const NO_SAMPLES := Segment(0, [], [], [])

  const START := Run(CLEARED, NO_SAMPLES, None, [])

  datatype Event =
    | Receive(c: Chunk, maxSamples: nat)
    | Submit(r: Request)
    | CommitFlight
    | RollbackFlight
    | HoldFlight
    | CommitAbandoned(end: nat)

  /** The chunk is a view of the stream; one in which the labels disagree with the size is not used for its samples. */
  ghost predicate ViewOf(c: Chunk, stream: nat -> Iq) {
    c.ValidAbsolute() ==> forall i :: 0 <= i < |c.samples| ==> c.samples[i] == stream(c.start + i)
  }

  /** A chunk that continues the present segment: a view of its stream within its epoch, and if it is joined, across a
      gap that is bridged and without a forced trim. */
  ghost predicate Continues(run: Run, c: Chunk, maxSamples: nat, stream: nat -> Iq) {
    && ViewOf(c, stream) && !EpochChanges(run.w, c)
    && (run.w.samples == [] ==> c.ValidAbsolute())
    && (Joins(run, c, maxSamples) ==>
         && (run.w.samples == [] || Joinable(run.w, c, maxSamples))
         && !ForcesTrim(Extended(run, c, maxSamples).w, maxSamples))
  }

  /** What the run assumes of an event: chunks that continue the segment, or discontinuities; one take in flight at a
      time, and no longer than the protected overlap. A flight that a discontinuity overtook may be committed later,
      if the labels have gone on from where it ended. */
  ghost predicate Admissible(run: Run, e: Event, stream: nat -> Iq) {
    match e
    case Receive(c, maxSamples) => c.samples == [] || c.discontinuity || Continues(run, c, maxSamples, stream)
    case Submit(r) => run.flight.None? && Take(run.w, r).1.freshCount <= PROTECTED_OVERLAP
    case CommitAbandoned(end) => run.flight.None? && (run.w.samples != [] ==> end <= run.w.last)
    case _ => run.flight.Some?
  }

  /** The samples a received chunk adds. */
  function Added(w: Window, c: Chunk, maxSamples: nat): seq<Iq> {
    if c.samples == [] then []
    else if w.samples == [] then c.samples
    else if c.ValidAbsolute() && c.end > w.end then NewSamples(w, c, maxSamples)
    else []
  }

  /** How many of the added samples stand for lost ones. */
  function Lost(w: Window, c: Chunk): nat {
    if w.samples != [] && c.start > w.end then c.start - w.end else 0
  }

  predicate Joins(run: Run, c: Chunk, maxSamples: nat) {
    Join(WithEpoch(run.w, c), c, maxSamples).Some?
  }

  /** The segment with the chunk received. */
  function Lengthened(run: Run, c: Chunk, maxSamples: nat): Segment {
    var added, lost := Added(run.w, c, maxSamples), Lost(run.w, c);
    Segment(if run.w.samples == [] then c.start else run.now.origin, run.now.received + added,
            run.now.reported + seq(|added|, i => i >= lost), run.now.delivered)
  }

  /** Received with the chunk joined on, before trimming. */
  function Extended(run: Run, c: Chunk, maxSamples: nat): Run {
    var joined := Join(WithEpoch(run.w, c), c, maxSamples);
    run.(w := if joined.Some? then joined.value else WithEpoch(run.w, c), now := Lengthened(run, c, maxSamples))
  }

  /** After a take that returned something. */
  function Submitted(run: Run, t: Taken): Run {
    var content := t.samples[Min(t.contextCount, |t.samples|)..];
    run.(w := MarkSubmitted(run.w, t.decodeEnd), flight := Some(Flight(content, t.decodeEnd)))
  }

  /** After the commit of a flight. */
  function Landed(run: Run, f: Flight): Run {
    Run(Commit(run.w, f.end), run.now.(delivered := run.now.delivered + f.content), None, run.past)
  }

  function Next(run: Run, e: Event): Run {
    match e
    case Receive(c, maxSamples) =>
      if c.samples == [] then run
      else if c.discontinuity then Run(Appended(run.w, c, maxSamples).0, NO_SAMPLES, None, run.past + [run.now])
      else Extended(run, c, maxSamples).(w := Appended(run.w, c, maxSamples).0)
    case Submit(r) =>
      var (w, taken) := Take(run.w, r);
      if taken.samples == [] then run.(w := w) else Submitted(run.(w := w), taken)
    case CommitFlight => if run.flight.None? then run else Landed(run, run.flight.value)
    case RollbackFlight => run.(w := Rollback(run.w), flight := None)
    case HoldFlight => if run.flight.None? then run else run.(w := Hold(run.w, run.flight.value.end), flight := None)
    case CommitAbandoned(end) => run.(w := Commit(run.w, end))
  }

  /** Received samples are the stream's where the device reported them, and zeros over the gaps. */
  ghost predicate TrueLabels(s: Segment, stream: nat -> Iq) {
    && |s.reported| == |s.received|
    && forall i :: 0 <= i < |s.received| ==> s.received[i] == if s.reported[i] then stream(s.origin + i) else ZERO
  }

  /** The window holds the end of what was received, and what precedes the cursor has been delivered. */
  ghost predicate Accounted(s: Segment, samples: seq<Iq>, start: nat, last: nat, end: nat) {
    && s.origin <= start <= last <= end && |s.received| == end - s.origin
    && samples == s.received[start - s.origin..]
    && s.delivered == s.received[..last - s.origin]
  }

  /** The flight is the next part to deliver. */
  ghost predicate NextPart(s: Segment, f: Flight, last: nat, end: nat) {
    && s.origin <= last < f.end <= end && |s.received| == end - s.origin
    && |f.content| <= PROTECTED_OVERLAP && f.content == s.received[last - s.origin..f.end - s.origin]
  }

  /** The conservation law: received samples are the delivered ones followed by what the window still has to
      deliver, and the flight is the first part of that. */
  ghost predicate Conserved(run: Run) {
    var w := run.w;
    if w.samples == [] then
      !w.submittedKnown && run.flight.None? && run.now.received == [] && run.now.delivered == []
    else
      && Labelled(w) && Accounted(run.now, w.samples, w.start, w.last, w.end)
      && w.submittedKnown == run.flight.Some?
      && (run.flight.Some? ==>
           w.submitted == run.flight.value.end && NextPart(run.now, run.flight.value, w.last, w.end))
  }

  // ---- Receiving ----------------------------------------------------------------------------

  /** A joined chunk adds one sample for each label from the end of the window to the end of the chunk. */
  lemma AddedByLabel(w: Window, c: Chunk, maxSamples: nat)
    requires Labelled(w) && c.ValidAbsolute() && c.end > w.end && Joinable(w, c, maxSamples)
    ensures |NewSamples(w, c, maxSamples)| == c.end - w.end
    ensures forall i :: 0 <= i < c.end - w.end ==>
      NewSamples(w, c, maxSamples)[i] == if w.end + i < c.start then ZERO else c.samples[w.end + i - c.start]
  {}

  /** If the chunk brings anything new, the gap before it is one that is bridged. */
  predicate BridgedIfNew(w: Window, c: Chunk, maxSamples: nat) {
    c.ValidAbsolute() && c.end > w.end ==> Joinable(w, c, maxSamples)
  }

  lemma ContinuingIsBridged(run: Run, c: Chunk, maxSamples: nat, stream: nat -> Iq)
    requires Labelled(run.w) && Continues(run, c, maxSamples, stream)
    ensures BridgedIfNew(run.w, c, maxSamples)
  {}

  lemma AddedIsTrue(w: Window, c: Chunk, maxSamples: nat, stream: nat -> Iq)
    requires (w.samples == [] && c.ValidAbsolute()) || (Labelled(w) && BridgedIfNew(w, c, maxSamples))
    requires ViewOf(c, stream)
    ensures var added, base := Added(w, c, maxSamples), if w.samples == [] then c.start else w.end;
      forall i :: 0 <= i < |added| ==> added[i] == if i >= Lost(w, c) then stream(base + i) else ZERO
  {
    if w.samples != [] && c.samples != [] && c.ValidAbsolute() && c.end > w.end {
      AddedByLabel(w, c, maxSamples);
      var added := NewSamples(w, c, maxSamples);
      forall i | 0 <= i < |added|
        ensures added[i] == if i >= Lost(w, c) then stream(w.end + i) else ZERO
      {
        if i >= Lost(w, c) {
          assert added[i] == c.samples[w.end + i - c.start];
        }
      }
    }
  }

  lemma LengthenedIsTrue(s: Segment, s': Segment, added: seq<Iq>, lost: nat, stream: nat -> Iq)
    requires TrueLabels(s, stream) && (s.received == [] || s'.origin == s.origin)
    requires s'.received == s.received + added && s'.reported == s.reported + seq(|added|, i => i >= lost)
    requires forall i :: 0 <= i < |added| ==>
      added[i] == if i >= lost then stream(s'.origin + |s.received| + i) else ZERO
    ensures TrueLabels(s', stream)
  {
    var n := |s.received|;
    forall i | 0 <= i < |s'.received|
      ensures s'.received[i] == if s'.reported[i] then stream(s'.origin + i) else ZERO
    {
      if i >= n {
        assert s'.received[i] == added[i - n];
      }
    }
  }

  lemma ExtendKeepsLabels(run: Run, c: Chunk, maxSamples: nat, stream: nat -> Iq)
    requires Conserved(run) && TrueLabels(run.now, stream) && Continues(run, c, maxSamples, stream)
    ensures TrueLabels(Lengthened(run, c, maxSamples), stream)
  {
    var s' := Lengthened(run, c, maxSamples);
    if run.w.samples != [] {
      ContinuingIsBridged(run, c, maxSamples, stream);
    }
    AddedIsTrue(run.w, c, maxSamples, stream);
    assert s'.origin + |run.now.received| == if run.w.samples == [] then c.start else run.w.end;
    LengthenedIsTrue(run.now, s', Added(run.w, c, maxSamples), Lost(run.w, c), stream);
  }

  /** The window grows at its end; the cursors stay. */
  ghost predicate Grows(w: Window, w': Window, added: seq<Iq>) {
    w' == w.(samples := w.samples + added, end := w.end + |added|, epoch := w'.epoch, epochKnown := w'.epochKnown)
  }

  lemma SliceOfSum(s: seq<Iq>, added: seq<Iq>, i: nat, j: nat)
    requires i <= j <= |s|
    ensures (s + added)[i..j] == s[i..j]
  {}

  lemma AccountedGrows(s: Segment, samples: seq<Iq>, start: nat, last: nat, end: nat, s': Segment, added: seq<Iq>)
    requires Accounted(s, samples, start, last, end)
    requires s'.origin == s.origin && s'.received == s.received + added && s'.delivered == s.delivered
    ensures Accounted(s', samples + added, start, last, end + |added|)
  {
    SuffixOfSum(s.received, added, start - s.origin);
    SliceOfSum(s.received, added, 0, last - s.origin);
  }

  lemma NextPartGrows(s: Segment, f: Flight, last: nat, end: nat, s': Segment, added: seq<Iq>)
    requires NextPart(s, f, last, end) && s'.origin == s.origin && s'.received == s.received + added
    ensures NextPart(s', f, last, end + |added|)
  {
    SliceOfSum(s.received, added, last - s.origin, f.end - s.origin);
  }

  lemma GrowthConserves(run: Run, run': Run, added: seq<Iq>)
    requires Conserved(run) && run.w.samples != [] && Grows(run.w, run'.w, added) && run'.flight == run.flight
    requires run'.now.received == run.now.received + added
    requires run'.now.origin == run.now.origin && run'.now.delivered == run.now.delivered
    ensures Conserved(run')
  {
    var w := run.w;
    AccountedGrows(run.now, w.samples, w.start, w.last, w.end, run'.now, added);
    if run.flight.Some? {
      NextPartGrows(run.now, run.flight.value, w.last, w.end, run'.now, added);
    }
  }

  lemma JoinGrows(w: Window, c: Chunk, maxSamples: nat)
    requires Labelled(w) && c.samples != [] && !EpochChanges(w, c) && BridgedIfNew(w, c, maxSamples)
    ensures var joined := Join(WithEpoch(w, c), c, maxSamples);
      Grows(w, if joined.Some? then joined.value else WithEpoch(w, c), Added(w, c, maxSamples))
  {
    var w1, joined := WithEpoch(w, c), Join(WithEpoch(w, c), c, maxSamples);
    if c.ValidAbsolute() && c.end > w.end {
      var added := NewSamples(w, c, maxSamples);
      AddedByLabel(w, c, maxSamples);
      assert joined == Some(w1.(samples := w.samples + added, end := w.end + |added|));
    } else {
      assert joined.None? && w.samples + [] == w.samples;
    }
  }

  /** The first chunk of a segment is the whole content of the window. */
  lemma FirstChunkConserves(run: Run, c: Chunk, maxSamples: nat)
    requires Conserved(run) && run.w.samples == [] && c.samples != [] && c.ValidAbsolute()
    ensures Conserved(Extended(run, c, maxSamples))
  {
    var run' := Extended(run, c, maxSamples);
    assert run'.w == Adopt(WithEpoch(run.w, c), c) && !run'.w.submittedKnown && run'.flight.None?;
    assert run'.now.received == c.samples && run'.now.delivered == [] && run'.now.origin == c.start;
    assert Accounted(run'.now, c.samples, c.start, c.start, c.end);
  }

  lemma ExtendConserves(run: Run, c: Chunk, maxSamples: nat, stream: nat -> Iq)
    requires Conserved(run) && Continues(run, c, maxSamples, stream) && c.samples != []
    ensures Conserved(Extended(run, c, maxSamples))
  {
    if run.w.samples == [] {
      FirstChunkConserves(run, c, maxSamples);
    } else {
      ContinuingIsBridged(run, c, maxSamples, stream);
      JoinGrows(run.w, c, maxSamples);
      GrowthConserves(run, Extended(run, c, maxSamples), Added(run.w, c, maxSamples));
    }
  }

  lemma AccountedTrimmed(s: Segment, samples: seq<Iq>, start: nat, last: nat, end: nat, start': nat)
    requires Accounted(s, samples, start, last, end) && start <= start' <= last
    ensures Accounted(s, samples[start' - start..], start', last, end)
  {
    SuffixOfSuffix(s.received, start - s.origin, start' - s.origin);
  }

  /** A trim that is not forced leaves what is still to be delivered in the window. */
  lemma TrimConserves(run: Run, maxSamples: nat)
    requires Conserved(run) && run.w.samples != [] && !ForcesTrim(run.w, maxSamples)
    ensures Conserved(run.(w := Trim(run.w, maxSamples)))
  {
    hide Trim, ForcesTrim, SoftDrop;
    var w, w' := run.w, Trim(run.w, maxSamples);
    TrimProtectsPreRoll(w, maxSamples);
    TrimKeepsFlight(w, maxSamples);
    assert w'.start <= w.last by {
      if run.flight.Some? {
        assert EffectiveDecode(w) - w.last <= PROTECTED_OVERLAP;
      }
      if maxSamples > 0 && |w.samples| > maxSamples {
        TrimKeepsCommittedCursorIff(w, maxSamples);
      } else {
        ShortStaysWhole(w, maxSamples);
      }
    }
    AccountedTrimmed(run.now, w.samples, w.start, w.last, w.end, w'.start);
  }

  lemma TrimKeepsFlight(w: Window, maxSamples: nat)
    requires Labelled(w) && !ForcesTrim(w, maxSamples)
    ensures var w' := Trim(w, maxSamples);
      && w'.submittedKnown == w.submittedKnown
      && (w.submittedKnown && w.submitted > w.last ==> w'.submitted == w.submitted)
  {
    TrimProtectsPreRoll(w, maxSamples);
  }

  lemma ReceiveIsExtendThenTrim(run: Run, c: Chunk, maxSamples: nat)
    requires c.samples != [] && !c.discontinuity
    ensures var run' := Extended(run, c, maxSamples);
      Next(run, Receive(c, maxSamples))
      == if Joins(run, c, maxSamples) then run'.(w := Trim(run'.w, maxSamples)) else run'
  {}

  lemma ContinuingConserves(run: Run, c: Chunk, maxSamples: nat, stream: nat -> Iq)
    requires Conserved(run) && TrueLabels(run.now, stream)
    requires c.samples != [] && !c.discontinuity && Continues(run, c, maxSamples, stream)
    ensures var run' := Next(run, Receive(c, maxSamples));
      Conserved(run') && TrueLabels(run'.now, stream) && run'.past == run.past
  {
    ExtendConserves(run, c, maxSamples, stream);
    ExtendKeepsLabels(run, c, maxSamples, stream);
    ReceiveIsExtendThenTrim(run, c, maxSamples);
    if Joins(run, c, maxSamples) {
      TrimConserves(Extended(run, c, maxSamples), maxSamples);
    }
  }

  // ---- Taking and landing -------------------------------------------------------------------

  /** The span of a take: from the committed cursor, less as much of the overlap as the window still holds. */
  lemma TakeSpan(w: Window, r: Request)
    requires Labelled(w) && !w.submittedKnown && Take(w, r).1.samples != []
    ensures var t := Take(w, r).1;
      && w.last < t.decodeEnd <= w.end
      && t.contextCount == Min(r.overlap, w.last - w.start) && t.freshCount == t.decodeEnd - w.last
      && t.start == w.last - t.contextCount && t.samples == w.samples[t.start - w.start..t.decodeEnd - w.start]
  {}

  lemma SliceOfSuffix(s: seq<Iq>, k: nat, i: nat, j: nat)
    requires k <= |s| && i <= j <= |s| - k
    ensures s[k..][i..j] == s[k + i..k + j]
  {}

  /** A take from a conserved run starts its fresh part exactly at the committed cursor, gives the samples received
      there, and precedes them by as much of the overlap as the window still holds. */
  lemma TakeContinues(run: Run, r: Request)
    requires Conserved(run) && run.flight.None? && Take(run.w, r).1.samples != []
    ensures var t := Take(run.w, r).1; var w, s := run.w, run.now;
      && w.last < t.decodeEnd <= w.end
      && t.contextCount == Min(r.overlap, w.last - w.start) && t.freshCount == t.decodeEnd - w.last
      && t.start == w.last - t.contextCount && |t.samples| == t.contextCount + t.freshCount
      && s.origin <= t.start && t.samples == s.received[t.start - s.origin..t.decodeEnd - s.origin]
  {
    var t, w := Take(run.w, r).1, run.w;
    TakeSpan(w, r);
    SliceOfSuffix(run.now.received, w.start - run.now.origin, t.start - w.start, t.decodeEnd - w.start);
  }

  /** A take comes back empty exactly when nothing is undecoded, or too little for the caller. */
  lemma TakeStarvesIff(w: Window, r: Request)
    requires Labelled(w)
    ensures var available := w.end - EffectiveDecode(w);
      var offered := if r.maxSamples > 0 then Min(available, r.maxSamples) else available;
      var floor := if r.allowPartial && available >= 4096 then Min(available, r.minFresh) else r.minFresh;
      Take(w, r).1.samples == [] <==> available == 0 || offered < floor
  {}

  /** A take that is not empty begins its fresh part where the last commit or flight ended, hands out all that is left
      there up to the caller's limit, and names the labels of what it hands out. */
  lemma TakeHandsOutAll(w: Window, r: Request)
    requires Labelled(w) && Take(w, r).1.samples != []
    ensures var t, cursor := Take(w, r).1, if w.submittedKnown && w.submitted > w.last then w.submitted else w.last;
      var available := w.end - cursor;
      && t.freshCount == (if 0 < r.maxSamples < available then r.maxSamples else available)
      && t.contextCount == Min(r.overlap, cursor - w.start) && t.start == cursor - t.contextCount
      && t.decodeEnd == cursor + t.freshCount && t.absoluteKnown && t.decodeEndKnown
      && t.samples == w.samples[t.start - w.start..t.decodeEnd - w.start]
  {}

  lemma EndOfSlice(s: seq<Iq>, i: nat, j: nat, k: nat)
    requires i <= j <= k <= |s|
    ensures s[i..k][j - i..] == s[j..k]
  {}

  lemma SubmitConserves(run: Run, r: Request)
    requires Conserved(run) && run.flight.None? && Take(run.w, r).1.freshCount <= PROTECTED_OVERLAP
    ensures Conserved(Next(run, Submit(r)))
  {
    var t, w := Take(run.w, r).1, run.w;
    if w.samples != [] {
      TakeKeepsWindow(w, r);
      if t.samples != [] {
        TakeContinues(run, r);
        assert Next(run, Submit(r)) == Submitted(run, t);
        SubmittedConserves(run, t);
      }
    }
  }

  /** A take that begins at the committed cursor becomes a flight. */
  lemma SubmittedConserves(run: Run, t: Taken)
    requires Conserved(run) && run.w.samples != [] && run.flight.None? && t.freshCount <= PROTECTED_OVERLAP
    requires run.w.last < t.decodeEnd <= run.w.end && t.freshCount == t.decodeEnd - run.w.last
    requires run.now.origin <= t.start == run.w.last - t.contextCount
    requires t.samples == run.now.received[t.start - run.now.origin..t.decodeEnd - run.now.origin]
    ensures Conserved(Submitted(run, t))
  {
    var s, w := run.now, run.w;
    EndOfSlice(s.received, t.start - s.origin, w.last - s.origin, t.decodeEnd - s.origin);
    assert NextPart(s, Submitted(run, t).flight.value, w.last, w.end);
  }

  lemma AccountedCommitted(s: Segment, samples: seq<Iq>, start: nat, last: nat, end: nat, f: Flight)
    requires Accounted(s, samples, start, last, end) && NextPart(s, f, last, end)
    ensures Accounted(s.(delivered := s.delivered + f.content), samples, start, f.end, end)
  {
    PrefixGrows(s.received, last - s.origin, f.end - s.origin);
  }

  lemma PrefixGrows(s: seq<Iq>, i: nat, j: nat)
    requires i <= j <= |s|
    ensures s[..i] + s[i..j] == s[..j]
  {}

  lemma LandingConserves(run: Run, e: Event)
    requires Conserved(run) && run.flight.Some? && (e.CommitFlight? || e.RollbackFlight? || e.HoldFlight?)
    ensures Conserved(Next(run, e))
  {
    var w, f := run.w, run.flight.value;
    if e.CommitFlight? {
      AccountedCommitted(run.now, w.samples, w.start, w.last, w.end, f);
      assert Commit(w, f.end).last == f.end;
    }
  }

  // ---- Runs ---------------------------------------------------------------------------------

  /** A segment that a discontinuity ended: true labels, and what was delivered is the beginning of it. */
  ghost predicate Closed(s: Segment, stream: nat -> Iq) {
    TrueLabels(s, stream) && s.delivered <= s.received
  }

  /** The law for the present segment and for those before it; segment k is one of stream k. */
  ghost predicate Kept(run: Run, streams: nat -> nat -> Iq) {
    && Conserved(run) && TrueLabels(run.now, streams(|run.past|))
    && forall k :: 0 <= k < |run.past| ==> Closed(run.past[k], streams(k))
  }

  lemma ConservedIsPrefix(run: Run)
    requires Conserved(run)
    ensures run.now.delivered <= run.now.received
  {}

  lemma DiscontinuityCloses(run: Run, c: Chunk, maxSamples: nat, streams: nat -> nat -> Iq)
    requires Kept(run, streams) && c.samples != [] && c.discontinuity
    ensures Kept(Next(run, Receive(c, maxSamples)), streams)
  {
    ConservedIsPrefix(run);
  }

  /** Only receiving adds to a segment, and only a discontinuity ends it. */
  lemma OnlyReceivingReceives(run: Run, e: Event)
    requires !e.Receive?
    ensures var run' := Next(run, e); run'.past == run.past && run'.now == run.now.(delivered := run'.now.delivered)
  {}

  lemma AbandonedConserves(run: Run, end: nat)
    requires Conserved(run) && run.flight.None? && (run.w.samples != [] ==> end <= run.w.last)
    ensures Conserved(Next(run, CommitAbandoned(end)))
  {}

  lemma ReceivingConserves(run: Run, c: Chunk, maxSamples: nat, streams: nat -> nat -> Iq)
    requires Kept(run, streams) && Admissible(run, Receive(c, maxSamples), streams(|run.past|))
    ensures Kept(Next(run, Receive(c, maxSamples)), streams)
  {
    if c.samples == [] {
    } else if c.discontinuity {
      DiscontinuityCloses(run, c, maxSamples, streams);
    } else {
      ContinuingConserves(run, c, maxSamples, streams(|run.past|));
    }
  }

  /** Every admissible event keeps the law. */
  lemma StepConserves(run: Run, e: Event, streams: nat -> nat -> Iq)
    requires Kept(run, streams) && Admissible(run, e, streams(|run.past|))
    ensures Kept(Next(run, e), streams)
  {
    hide Next, Conserved, TrueLabels, Closed;
    if e.Receive? {
      ReceivingConserves(run, e.c, e.maxSamples, streams);
    } else {
      OnlyReceivingReceives(run, e);
      SameLabels(run.now, Next(run, e).now, streams(|run.past|));
      match e
      case Submit(r) => SubmitConserves(run, r);
      case CommitAbandoned(end) => AbandonedConserves(run, end);
      case _ => LandingConserves(run, e);
    }
  }

  lemma SameLabels(s: Segment, s': Segment, stream: nat -> Iq)
    requires TrueLabels(s, stream) && s' == s.(delivered := s'.delivered)
    ensures TrueLabels(s', stream)
  {}

  /** Every event is admissible where it happens. */
  ghost predicate AdmissibleRun(run: Run, events: seq<Event>, streams: nat -> nat -> Iq)
    decreases |events|
  {
    events == []
    || (Admissible(run, events[0], streams(|run.past|)) && AdmissibleRun(Next(run, events[0]), events[1..], streams))
  }

  function After(run: Run, events: seq<Event>): Run
    decreases |events|
  {
    if events == [] then run else After(Next(run, events[0]), events[1..])
  }

  lemma {:induction false} RunConserves(run: Run, events: seq<Event>, streams: nat -> nat -> Iq)
    requires Kept(run, streams) && AdmissibleRun(run, events, streams)
    ensures Kept(After(run, events), streams)
    decreases |events|
  {
    if events != [] {
      StepConserves(run, events[0], streams);
      RunConserves(Next(run, events[0]), events[1..], streams);
    }
  }

  lemma AccountedSplits(s: Segment, samples: seq<Iq>, start: nat, last: nat, end: nat)
    requires Accounted(s, samples, start, last, end)
    ensures last - start <= |samples| && last == s.origin + |s.delivered|
    ensures s.received == s.delivered + samples[last - start..]
  {
    SuffixOfSuffix(s.received, start - s.origin, last - s.origin);
    PrefixGrows(s.received, last - s.origin, |s.received|);
  }

  /** Exactly once: after any run, what has been committed since the last discontinuity is the received stream from its
      first sample on, without a sample skipped or repeated, and all the rest is still in the window at the cursor; and
      what was committed between earlier discontinuities is the beginning of what was received there. */
  lemma ExactlyOnce(events: seq<Event>, streams: nat -> nat -> Iq)
    requires AdmissibleRun(START, events, streams)
    ensures var run := After(START, events); var w, s := run.w, run.now;
      && TrueLabels(s, streams(|run.past|))
      && (w.samples != [] ==>
           && w.start <= w.last && w.last - w.start <= |w.samples|
           && s.received == s.delivered + w.samples[w.last - w.start..]
           && w.last == s.origin + |s.delivered|)
      && (w.samples == [] ==> s.received == [] && s.delivered == [])
      && forall k :: 0 <= k < |run.past| ==>
           TrueLabels(run.past[k], streams(k)) && run.past[k].delivered <= run.past[k].received
  {
    RunConserves(START, events, streams);
    var run := After(START, events);
    var w, s := run.w, run.now;
    if w.samples != [] {
      AccountedSplits(s, w.samples, w.start, w.last, w.end);
    }
  }
}
