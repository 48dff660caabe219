/** Held decode ranges of the rolling IQ window: a range that has to be decoded again stays held until a commit reaches
    its end, and only results that cover it pass. */
module RollingIqHeld {
  import opened Samples
  import opened RollingIq
  import opened RollingIqDelivery

  /** A decode result as the caller knows it: from where to where, and whether those labels are known. */
  datatype Outcome = Outcome(start: nat, startKnown: bool, end: nat, endKnown: bool)

  predicate Covers(w: Window, o: Outcome) {
    !w.heldKnown
    || (o.endKnown && o.end >= w.heldEnd && (o.startKnown || !w.absoluteKnown) && o.start <= w.heldStart)
  }

  /** The result of decoding a take. */
  function OutcomeOf(t: Taken): Outcome {
    Outcome(t.start, t.absoluteKnown, t.decodeEnd, t.decodeEndKnown)
  }

  method ResultCoversHeldDecodeRange(w: RollingIqWindow, o: Outcome) returns (ok: bool)
    ensures ok == Covers(w.Now(), o)
  {
    if !w.heldDecodeRangeKnown {
      return true;
    }
    if !o.endKnown || o.end < w.heldDecodeEndAbsolute {
      return false;
    }
    var comparableStartKnown := o.startKnown || !w.absoluteKnown;
    if !comparableStartKnown {
      return false;
    }
    ok := o.start <= w.heldDecodeStartAbsolute;
  }

  /** The two windows hold the same range. */
  predicate SameHold(w: Window, w': Window) {
    w'.heldKnown == w.heldKnown && w'.heldStart == w.heldStart && w'.heldEnd == w.heldEnd
  }

  /** A hold leaves the cursor, ends the flight, and keeps the range from the cursor to the given label; an empty
      range is no hold. */
  lemma HoldKeepsRange(w: Window, e: nat)
    ensures var w' := Hold(w, e);
      && w'.last == w.last && w'.samples == w.samples && !w'.submittedKnown && EffectiveDecode(w') == w.last
      && (w'.heldKnown <==> e > w.last)
      && (w'.heldKnown ==> w'.heldStart == w.last && w'.heldEnd == e)
  {}

  /** A commit releases the range exactly when it reaches its end. */
  lemma CommitReleasesIff(w: Window, e: nat)
    requires w.heldKnown
    ensures !Commit(w, e).heldKnown <==> e >= w.heldEnd
    ensures e < w.heldEnd ==> SameHold(w, Commit(w, e))
  {}

  /** Nothing else releases it but a discontinuity. */
  lemma OthersKeepHold(w: Window, e: nat, r: Request, c: Chunk, maxSamples: nat)
    ensures SameHold(w, MarkSubmitted(w, e)) && SameHold(w, Rollback(w)) && SameHold(w, Take(w, r).0)
    ensures c.samples == [] || !c.discontinuity ==> SameHold(w, Appended(w, c, maxSamples).0)
  {
    var w1 := WithEpoch(w, c);
    assert SameHold(w, w1) && SameHold(w, Take(w, r).0);
    hide Join, Trim;
    if Join(w1, c, maxSamples).Some? {
      JoinLeaves(w1, c, maxSamples);
      TrimLeaves(Join(w1, c, maxSamples).value, maxSamples);
    }
  }

  /** After a hold the next take, if it reaches the end of the range, covers it; its commit then releases the range. One
      that stops short does not pass, nor does a result from further on. */
  lemma RetakeCoversHold(w: Window, e: nat, r: Request)
    requires Labelled(w) && w.last < e <= w.end && Take(Hold(w, e), r).1.samples != []
    ensures var w' := Hold(w, e); var t := Take(w', r).1;
      && t.start <= w.last && (Covers(w', OutcomeOf(t)) <==> t.decodeEnd >= e)
      && (t.decodeEnd >= e ==> !Commit(w', t.decodeEnd).heldKnown)
    ensures forall o: Outcome :: o.start > w.last ==> !Covers(Hold(w, e), o)
  {
    var w' := Hold(w, e);
    assert Labelled(w');
    TakeHandsOutAll(w', r);
  }
}
