/** The rolling IQ window while the device reports no labels: offsets into the samples take their place. */
module RollingIqIndexMode {
  import opened Samples
  import opened RollingIq
  import opened RollingIqDelivery

  /** How many samples go when n are held under a limit. */
  function Surplus(n: nat, maxSamples: nat): nat {
    if maxSamples > 0 && n > maxSamples then n - maxSamples else 0
  }

  /** A chunk without labels for an empty window is its whole content, all of it fresh. */
  lemma FirstChunkIsFresh(w: Window, c: Chunk, maxSamples: nat)
    requires w.samples == [] && !w.submittedKnown && c.samples != [] && !c.discontinuity && !c.ValidAbsolute()
    ensures var (w', ok) := Appended(w, c, maxSamples);
      ok && Indexed(w') && FirstNew(w') == 0 && w'.samples == c.samples[Surplus(|c.samples|, maxSamples)..]
  {}

  lemma TrimKeepsOffsets(w: Window, maxSamples: nat)
    requires Indexed(w)
    ensures var w' := Trim(w, maxSamples); var gone := Surplus(|w.samples|, maxSamples);
      && Indexed(w') && w'.samples == w.samples[gone..] && w'.last == Max(w.last, gone) - gone
      && w'.submittedKnown == w.submittedKnown
      && (w.submittedKnown ==> w'.submitted == Max(w.submitted, gone) - gone)
  {
    if maxSamples > 0 && |w.samples| > maxSamples {
      assert SoftDrop(w, maxSamples) == |w.samples| - maxSamples;
      assert Trim(w, maxSamples) == DropPrefix(w, |w.samples| - maxSamples);
    }
  }

  /** Within an epoch, a chunk without labels joins the end, the oldest samples beyond the limit go, and the
      cursors stay at their samples, or at the first one left. */
  lemma AppendKeepsOffsets(w: Window, c: Chunk, maxSamples: nat)
    requires Indexed(w) && c.samples != [] && !c.discontinuity && !c.ValidAbsolute() && !EpochChanges(w, c)
    ensures var (w', ok) := Appended(w, c, maxSamples);
      var all := w.samples + c.samples; var gone := Surplus(|all|, maxSamples);
      && ok && Indexed(w') && w'.samples == all[gone..] && w'.last == Max(w.last, gone) - gone
      && w'.submittedKnown == w.submittedKnown
      && (w.submittedKnown ==> w'.submitted == Max(w.submitted, gone) - gone)
  {
    var w1, all := WithEpoch(w, c), w.samples + c.samples;
    var joined := w1.(samples := all, end := |all|);
    assert Join(w1, c, maxSamples) == Some(joined) && Indexed(joined);
    hide Trim, Join;
    TrimKeepsOffsets(joined, maxSamples);
  }

  /** A change of epoch makes everything fresh again. */
  lemma RetuneMakesAllFresh(w: Window, c: Chunk, maxSamples: nat)
    requires Indexed(w) && c.samples != [] && !c.discontinuity && !c.ValidAbsolute() && EpochChanges(w, c)
    ensures var (w', ok) := Appended(w, c, maxSamples); var all := w.samples + c.samples;
      ok && FirstNew(w') == 0 && w'.samples == all[Surplus(|all|, maxSamples)..]
  {}

  /** Flights and commits are offsets: the next take goes on behind the furthest flight or commit, and a commit never
      moves back. */
  lemma OffsetsAreFollowed(w: Window, e: nat)
    requires Indexed(w) && e <= |w.samples|
    ensures Indexed(MarkSubmitted(w, e)) && FirstNew(MarkSubmitted(w, e)) == Max(w.last, e)
    ensures Indexed(Commit(w, e)) && FirstNew(Commit(w, e)) == Max(w.last, e)
    ensures Indexed(Rollback(w)) && FirstNew(Rollback(w)) == w.last
    ensures Indexed(Hold(w, e)) && FirstNew(Hold(w, e)) == w.last
  {}

  /** The fresh samples that a take offers from an offset on. */
  function Offered(w: Window, r: Request, from: nat): int {
    var available := |w.samples| - from;
    if 0 < r.maxSamples < available then r.maxSamples else available
  }

  /** What a take insists on when this much is available. */
  function Floor(r: Request, available: int): int {
    if r.allowPartial && available >= 8192 then Min(available, r.minFresh) else r.minFresh
  }

  /** The take is empty when it would offer less than the caller insists on; otherwise it hands out all it offers
      from the offset on, behind as much of the overlap as there is. */
  ghost predicate HandsOutFrom(w: Window, r: Request, t: Taken, from: nat)
    requires from < |w.samples|
  {
    var offered := Offered(w, r, from);
    if offered < Floor(r, |w.samples| - from) then t.samples == []
    else
      && t.freshCount == offered && t.contextCount == Min(r.overlap, from) && t.start == from - t.contextCount
      && t.decodeEnd == from + offered && t.decodeEndKnown && !t.absoluteKnown
      && t.samples == w.samples[from - t.contextCount..from + offered]
  }

  lemma SpanHandsOut(w: Window, r: Request, from: nat)
    requires !w.absoluteKnown && from < |w.samples|
    ensures HandsOutFrom(w, r, TakeFrom(w, r, from), from)
  {}

  /** A take goes on behind the furthest flight or commit. At the live edge it gets nothing, unless the window
      holds more than the caller insists on and more than 8192 samples: then the cursor goes back by the larger of
      the two, the flight is forgotten, and the take begins there. */
  lemma TakeByOffset(w: Window, r: Request)
    requires Indexed(w)
    ensures var (w', t) := Take(w, r); var cursor, back := EffectiveDecode(w), Max(r.minFresh, 8192);
      if cursor < |w.samples| then w' == w && HandsOutFrom(w, r, t, cursor)
      else if |w.samples| <= back then w' == w && t.samples == []
      else
        && Indexed(w') && w'.samples == w.samples && !w'.submittedKnown && w'.last == |w.samples| - back
        && HandsOutFrom(w', r, t, w'.last)
  {
    hide TakeFrom, HandsOutFrom;
    var cursor, back := EffectiveDecode(w), Max(r.minFresh, 8192);
    if cursor < |w.samples| {
      SpanHandsOut(w, r, cursor);
    } else if |w.samples| > back {
      assert Recovers(w, r.minFresh);
      SpanHandsOut(Recovered(w, r.minFresh), r, |w.samples| - back);
    }
  }

  /** With the first labels a cursor beyond the samples comes back to their end, those of the chunk included, and after
      a change of epoch to their start; trimming moves it no further than to what is left. */
  lemma LabelsBoundCursor(w: Window, c: Chunk, maxSamples: nat)
    requires w.samples != [] && !w.absoluteKnown && w.decodeKnown
    requires c.samples != [] && !c.discontinuity && c.ValidAbsolute()
    ensures var w' := Appended(w, c, maxSamples).0; var all := w.samples + c.samples;
      && w'.absoluteKnown && w'.start <= w'.last <= w'.end == FirstLabel(w, c) + |all|
      && w'.last == Max(w'.start, FirstLabel(w, c) + if EpochChanges(w, c) then 0 else Min(w.last, |all|))
  {
    var p := Promote(WithEpoch(w, c), c);
    assert Join(WithEpoch(w, c), c, maxSamples) == Some(p);
    assert p.last == p.start + if EpochChanges(w, c) then 0 else Min(w.last, |p.samples|);
    hide Promote, Join;
    TrimMovesCursorsToStart(p, maxSamples);
    TrimKeepsExtent(p, maxSamples);
  }

  /** A window with labels always has a decode cursor, so that no submission is ignored. */
  lemma LabelsComeWithCursor(w: Window, c: Chunk, maxSamples: nat, e: nat, r: Request)
    requires w.absoluteKnown ==> w.decodeKnown
    ensures var w' := Appended(w, c, maxSamples).0; w'.absoluteKnown ==> w'.decodeKnown
    ensures Commit(w, e).absoluteKnown ==> Commit(w, e).decodeKnown
    ensures Take(w, r).0.absoluteKnown ==> Take(w, r).0.decodeKnown
    ensures MarkSubmitted(w, e).submittedKnown && MarkSubmitted(w, e).submitted == e && MarkSubmitted(w, e).decodeKnown
  {
    var w1 := WithEpoch(w, c);
    assert w1.absoluteKnown ==> w1.decodeKnown;
    assert Take(w, r).0.absoluteKnown ==> Take(w, r).0.decodeKnown;
    hide Join, Trim, Take, Commit;
    if Join(w1, c, maxSamples).Some? {
      JoinLeaves(w1, c, maxSamples);
      TrimLeaves(Join(w1, c, maxSamples).value, maxSamples);
    }
  }
}
