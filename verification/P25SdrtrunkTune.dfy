/** Placing the tuner's centre frequency for one or two P25 channels: the calculator, and the independent check of
    whether a centre serves the channels. Frequencies are reals; rounding is not modelled. */
module P25SdrtrunkTune {

  const CHANNEL_BANDWIDTH := 12500.0
  const DC_SPIKE_HALF := 5000.0
  const USABLE_PERCENT := 0.98
  const INVALID_CENTER := 0.0

  function MinR(a: real, b: real): real { if a < b then a else b }

  function MaxR(a: real, b: real): real { if a < b then b else a }

  function UsableBandwidth(sampleRate: real): real {
    (if sampleRate > 0.0 then sampleRate else 2048000.0) * USABLE_PERCENT
  }

  function UsableHalf(sampleRate: real): real { UsableBandwidth(sampleRate) * 0.5 }

  function ChannelMin(channel: real): real { channel - CHANNEL_BANDWIDTH * 0.5 }

  function ChannelMax(channel: real): real { channel + CHANNEL_BANDWIDTH * 0.5 }

  /** The channel and the range have more than 1 Hz in common. */
  predicate OverlapsRange(channel: real, minAvoid: real, maxAvoid: real) {
    MinR(ChannelMax(channel), maxAvoid) - MaxR(ChannelMin(channel), minAvoid) > 1.0
  }

  predicate InDcHole(channel: real, center: real) {
    OverlapsRange(channel, center - DC_SPIKE_HALF, center + DC_SPIKE_HALF)
  }

  /** The channels asked for, lowest first: those that are positive, and one only of two within 1 Hz. */
  function Channels(a: real, b: real): (ch: seq<real>)
    ensures |ch| <= 2 && forall c :: c in ch ==> c > 0.0
    ensures |ch| == 2 ==> ch[0] <= ch[1]
  {
    var one := if a > 0.0 then [a] else [];
    if b <= 0.0 || (|one| == 1 && -1.0 <= b - a <= 1.0) then one
    else if |one| == 1 && b < a then [b, a]
    else one + [b]
  }

  /** The positive channels, each once; the second one asked for only if it is more than 1 Hz from the first. */
  lemma ChannelsAre(a: real, b: real)
    ensures var ch := Channels(a, b); var apart := a <= 0.0 || b - a > 1.0 || a - b > 1.0;
      && (forall c :: c in ch <==> (c == a && a > 0.0) || (c == b && b > 0.0 && apart))
      && |ch| == (if a > 0.0 then 1 else 0) + (if b > 0.0 && apart then 1 else 0)
      && (|ch| == 2 ==> ch[1] - ch[0] > 1.0)
  {}

  /** The channel is inside the span around the centre and outside its DC hole. */
  predicate ServesOne(center: real, usableHalf: real, channel: real) {
    && center - usableHalf <= ChannelMin(channel) && ChannelMax(channel) <= center + usableHalf
    && !InDcHole(channel, center)
  }

  predicate Serves(center: real, usableHalf: real, ch: seq<real>) {
    forall i :: 0 <= i < |ch| ==> ServesOne(center, usableHalf, ch[i])
  }

  predicate TunedFor(center: real, sampleRate: real, a: real, b: real) {
    center > 0.0 && Channels(a, b) != [] && Serves(center, UsableHalf(sampleRate), Channels(a, b))
  }

  /** The first channel that the DC hole of the candidate hits. */
  function Hit(ch: seq<real>, candidate: real): (i: nat)
    requires |ch| == 2
    ensures i <= 2 && (i == 2 <==> !InDcHole(ch[0], candidate) && !InDcHole(ch[1], candidate))
    ensures i < 2 ==> InDcHole(ch[i], candidate)
  {
    if InDcHole(ch[0], candidate) then 0 else if InDcHole(ch[1], candidate) then 1 else 2
  }

  /** The candidate moved until its DC hole is clear of both channels, or the invalid centre when that takes it
      beyond the reach of the lower channel. It stops after guard rounds. */
  function Settle(ch: seq<real>, candidate: real, usableHalf: real, guard: nat): real
    requires |ch| == 2
    decreases guard
  {
    var i := Hit(ch, candidate);
    if guard == 0 || i == 2 then candidate
    else
      var moved := ChannelMax(ch[i]) + DC_SPIKE_HALF + 1.0;
      if moved - usableHalf <= ChannelMin(ch[0]) then Settle(ch, moved, usableHalf, guard - 1) else INVALID_CENTER
  }

  const ROUNDS: nat := 16

  /** The centre for the collected channels. */
  function Place(ch: seq<real>, usableHalf: real): real
    requires |ch| <= 2
  {
    if |ch| == 0 then INVALID_CENTER
    else if |ch| == 1 then ChannelMin(ch[0]) - DC_SPIKE_HALF + 1.0
    else if ChannelMax(ch[1]) - ChannelMin(ch[0]) <= usableHalf then ChannelMin(ch[0]) - DC_SPIKE_HALF
    else Settle(ch, ChannelMax(ch[1]) - usableHalf, usableHalf, ROUNDS)
  }

  function Center(sampleRate: real, a: real, b: real): real {
    Place(Channels(a, b), UsableHalf(sampleRate))
  }

  predicate CanTune(sampleRate: real, a: real, b: real) {
    var ch := Channels(a, b);
    |ch| == 1 || (|ch| == 2 && ChannelMax(ch[1]) - ChannelMin(ch[0]) <= UsableBandwidth(sampleRate)
                  && Center(sampleRate, a, b) != INVALID_CENTER)
  }

  // ---- The adjusting loop -------------------------------------------------------------------

  /** A candidate just above a channel's DC reach is clear of that channel, and so is every higher one. */
  lemma ClearAbove(channel: real, candidate: real)
    requires candidate >= ChannelMax(channel) + DC_SPIKE_HALF - 1.0
    ensures !InDcHole(channel, candidate)
  {}

  /** Exactly the candidates strictly between these two are hit by the channel. */
  lemma HitExactlyBetween(channel: real, candidate: real)
    ensures InDcHole(channel, candidate) <==>
      ChannelMin(channel) - DC_SPIKE_HALF + 1.0 < candidate < ChannelMax(channel) + DC_SPIKE_HALF - 1.0
  {}

  /** The loop passes each channel at most once: with three rounds left it settles as with any larger number, far
      before its guard of sixteen. */
  lemma {:induction false} GuardNeverReached(ch: seq<real>, candidate: real, usableHalf: real, guard: nat)
    requires |ch| == 2 && ch[0] <= ch[1] && guard >= 3
    ensures Settle(ch, candidate, usableHalf, guard) == Settle(ch, candidate, usableHalf, 3)
    ensures var c := Settle(ch, candidate, usableHalf, guard); c == INVALID_CENTER || Hit(ch, c) == 2
  {
    var i := Hit(ch, candidate);
    if i < 2 {
      var second := ChannelMax(ch[i]) + DC_SPIKE_HALF + 1.0;
      ClearAbove(ch[i], second);
      var j := Hit(ch, second);
      if j < 2 {
        assert i == 0 && j == 1;
        var third := ChannelMax(ch[j]) + DC_SPIKE_HALF + 1.0;
        ClearAbove(ch[0], third);
        ClearAbove(ch[1], third);
        assert Settle(ch, third, usableHalf, guard - 2) == third == Settle(ch, third, usableHalf, 1);
      }
      assert Settle(ch, second, usableHalf, guard - 1) == Settle(ch, second, usableHalf, 2);
    }
  }

  /** A settled candidate is no lower than the one the loop began with, and its span still reaches the lower channel. */
  lemma {:induction false} SettleStaysInReach(ch: seq<real>, candidate: real, usableHalf: real, guard: nat)
    requires |ch| == 2 && candidate - usableHalf <= ChannelMin(ch[0])
    ensures var c := Settle(ch, candidate, usableHalf, guard);
      c == INVALID_CENTER || candidate <= c <= ChannelMin(ch[0]) + usableHalf
    decreases guard
  {
    var i := Hit(ch, candidate);
    if guard > 0 && i < 2 {
      var moved := ChannelMax(ch[i]) + DC_SPIKE_HALF + 1.0;
      HitExactlyBetween(ch[i], candidate);
      if moved - usableHalf <= ChannelMin(ch[0]) {
        SettleStaysInReach(ch, moved, usableHalf, guard - 1);
      }
    }
  }

  // ---- Calculator and check agree -----------------------------------------------------------

  /** The centres that serve two channels: within reach of both, and below, between or above their DC holes. */
  lemma ServesPairIff(ch: seq<real>, usableHalf: real, c: real)
    requires |ch| == 2 && ch[0] <= ch[1]
    ensures Serves(c, usableHalf, ch) <==>
      && ChannelMax(ch[1]) - usableHalf <= c <= ChannelMin(ch[0]) + usableHalf
      && (c <= ch[0] - 11249.0 || ch[0] + 11249.0 <= c <= ch[1] - 11249.0 || ch[1] + 11249.0 <= c)
  {
    HitExactlyBetween(ch[0], c);
    HitExactlyBetween(ch[1], c);
    assert Serves(c, usableHalf, ch) <==> ServesOne(c, usableHalf, ch[0]) && ServesOne(c, usableHalf, ch[1]);
  }

  function Span(ch: seq<real>): real
    requires |ch| == 2
  {
    ChannelMax(ch[1]) - ChannelMin(ch[0])
  }

  /** Two channels further apart than half the usable band, but not than all of it: those for which the loop runs. */
  predicate WidePair(sampleRate: real, ch: seq<real>) {
    |ch| == 2 && UsableHalf(sampleRate) < Span(ch) <= UsableBandwidth(sampleRate)
  }

  /** For channels the tuner can take, the calculated centre passes the independent check exactly: for one channel,
      when it lies above 11249 Hz and half the usable band is at least 17499 Hz; for two, when their span is more than
      half the usable band, or when the lower lies above 11250 Hz and their span is at most half the usable band less
      the 5 kHz DC half-width. */
  lemma CalculatorMeetsCheckIff(sampleRate: real, a: real, b: real)
    requires CanTune(sampleRate, a, b)
    ensures var ch, usableHalf := Channels(a, b), UsableHalf(sampleRate);
      TunedFor(Center(sampleRate, a, b), sampleRate, a, b) <==>
        if |ch| == 1 then ch[0] > 11249.0 && usableHalf >= 17499.0
        else Span(ch) > usableHalf || (ch[0] > 11250.0 && Span(ch) <= usableHalf - DC_SPIKE_HALF)
  {
    var ch, usableHalf := Channels(a, b), UsableHalf(sampleRate);
    if |ch| == 1 {
      OneMeetsCheckIff(ch, usableHalf);
    } else if Span(ch) > usableHalf {
      SettledServes(ch, usableHalf);
    } else {
      NarrowPairMeetsCheckIff(ch, usableHalf);
    }
  }

  lemma OneMeetsCheckIff(ch: seq<real>, usableHalf: real)
    requires |ch| == 1
    ensures Serves(Place(ch, usableHalf), usableHalf, ch) <==> usableHalf >= 17499.0
  {
    HitExactlyBetween(ch[0], Place(ch, usableHalf));
    assert Serves(Place(ch, usableHalf), usableHalf, ch) <==> ServesOne(Place(ch, usableHalf), usableHalf, ch[0]);
  }

  lemma NarrowPairMeetsCheckIff(ch: seq<real>, usableHalf: real)
    requires |ch| == 2 && ch[0] <= ch[1] && Span(ch) <= usableHalf
    ensures Serves(Place(ch, usableHalf), usableHalf, ch) <==> Span(ch) <= usableHalf - DC_SPIKE_HALF
  {
    ServesPairIff(ch, usableHalf, Place(ch, usableHalf));
  }

  /** What the loop settles on for a wide pair is positive and serves both channels. */
  lemma SettledServes(ch: seq<real>, usableHalf: real)
    requires |ch| == 2 && 0.0 < ch[0] <= ch[1] && usableHalf < Span(ch) <= usableHalf * 2.0
    ensures var c := Settle(ch, ChannelMax(ch[1]) - usableHalf, usableHalf, ROUNDS);
      c == INVALID_CENTER || (c > 0.0 && Serves(c, usableHalf, ch))
  {
    var c := Settle(ch, ChannelMax(ch[1]) - usableHalf, usableHalf, ROUNDS);
    SettleStaysInReach(ch, ChannelMax(ch[1]) - usableHalf, usableHalf, ROUNDS);
    GuardNeverReached(ch, ChannelMax(ch[1]) - usableHalf, usableHalf, ROUNDS);
    HitExactlyBetween(ch[0], c);
  }

  /** At 2.048 MHz two channels 987.5 kHz apart can be tuned, but the calculated centre does not serve them. */
  lemma WidePairMissesCheck()
    ensures var sampleRate, a, b := 2048000.0, 851000000.0, 851987500.0; var c := Center(sampleRate, a, b);
      CanTune(sampleRate, a, b) && c > 0.0 && !TunedFor(c, sampleRate, a, b)
  {
    CalculatorMeetsCheckIff(2048000.0, 851000000.0, 851987500.0);
  }

  /** At 30 kHz a single channel is parked outside the usable band. */
  lemma NarrowBandMissesCheck()
    ensures var sampleRate, a, b := 30000.0, 851000000.0, 0.0;
      CanTune(sampleRate, a, b) && !TunedFor(Center(sampleRate, a, b), sampleRate, a, b)
  {
    CalculatorMeetsCheckIff(30000.0, 851000000.0, 0.0);
  }

  /** On which side the centre lies: a single channel is 11249 Hz above it, and both of a narrow pair are above,
      the lower one by 11250 Hz. Without a channel there is none, and without a rate it is that for 2.048 MHz. */
  lemma CenterLiesBelow(sampleRate: real, a: real, b: real)
    ensures var ch, c := Channels(a, b), Center(sampleRate, a, b);
      && (|ch| == 0 ==> c == 0.0)
      && (|ch| == 1 ==> ch[0] - c == 11249.0)
      && (|ch| == 2 && Span(ch) <= UsableHalf(sampleRate) ==> ch[0] - c == 11250.0)
      && (sampleRate <= 0.0 ==> c == Center(2048000.0, a, b))
    ensures UsableHalf(2048000.0) == 1003520.0
  {}

  // ---- Centres the calculator misses --------------------------------------------------------

  /** Some centre passes the check. */
  ghost predicate Servable(sampleRate: real, a: real, b: real) {
    exists c :: TunedFor(c, sampleRate, a, b)
  }

  /** A centre exists exactly: for one channel, when half the usable band is at least 17499 Hz; for two, when the DC
      hole has room beside both (span at most half the usable band less 4999 Hz), or between them (at least 22498 Hz
      apart, in a usable band of twice 17499 Hz that holds their span). */
  lemma ServableIff(sampleRate: real, a: real, b: real)
    ensures var ch, usableHalf := Channels(a, b), UsableHalf(sampleRate);
      Servable(sampleRate, a, b) <==>
        if ch == [] then false
        else if |ch| == 1 then usableHalf >= 17499.0
        else || Span(ch) <= usableHalf - 4999.0
             || (ch[1] - ch[0] >= 22498.0 && usableHalf >= 17499.0 && Span(ch) <= UsableBandwidth(sampleRate))
  {
    var ch := Channels(a, b);
    if |ch| == 1 {
      OneServableIff(sampleRate, a, b);
    } else if |ch| == 2 {
      PairServableIff(sampleRate, a, b);
    }
  }

  lemma OneServableIff(sampleRate: real, a: real, b: real)
    requires |Channels(a, b)| == 1
    ensures Servable(sampleRate, a, b) <==> UsableHalf(sampleRate) >= 17499.0
  {
    var channel, usableHalf := Channels(a, b)[0], UsableHalf(sampleRate);
    if usableHalf >= 17499.0 {
      assert TunedFor(channel + 11249.0, sampleRate, a, b) by {
        HitExactlyBetween(channel, channel + 11249.0);
      }
    }
    if Servable(sampleRate, a, b) {
      var c :| TunedFor(c, sampleRate, a, b);
      HitExactlyBetween(channel, c);
      assert ServesOne(c, usableHalf, channel);
    }
  }

  lemma PairServableIff(sampleRate: real, a: real, b: real)
    requires |Channels(a, b)| == 2
    ensures var ch, usableHalf := Channels(a, b), UsableHalf(sampleRate);
      Servable(sampleRate, a, b) <==>
        || Span(ch) <= usableHalf - 4999.0
        || (ch[1] - ch[0] >= 22498.0 && usableHalf >= 17499.0 && Span(ch) <= UsableBandwidth(sampleRate))
  {
    var ch, usableHalf := Channels(a, b), UsableHalf(sampleRate);
    var above, between := ch[1] + 11249.0, MaxR(ch[0] + 11249.0, ChannelMax(ch[1]) - usableHalf);
    ServesPairIff(ch, usableHalf, above);
    ServesPairIff(ch, usableHalf, between);
    if Span(ch) <= usableHalf - 4999.0 {
      assert TunedFor(above, sampleRate, a, b);
    } else if ch[1] - ch[0] >= 22498.0 && usableHalf >= 17499.0 && Span(ch) <= UsableBandwidth(sampleRate) {
      assert TunedFor(between, sampleRate, a, b);
    } else if Servable(sampleRate, a, b) {
      var c :| TunedFor(c, sampleRate, a, b);
      ServesPairIff(ch, usableHalf, c);
      assert false;
    }
  }

  /** For a wide pair the calculator finds a centre exactly when there is room between the channels and its first
      candidate is clear of the lower one, or the room is 2 Hz more than needed on both counts: its steps go 2 Hz
      beyond the DC hole. */
  lemma CenterFoundIff(sampleRate: real, a: real, b: real)
    requires WidePair(sampleRate, Channels(a, b))
    ensures var ch, usableHalf := Channels(a, b), UsableHalf(sampleRate); var gap := ch[1] - ch[0];
      Center(sampleRate, a, b) != INVALID_CENTER <==>
        || (usableHalf >= 17499.0 && usableHalf <= gap - 4999.0)
        || (usableHalf >= 17501.0 && usableHalf > gap - 4999.0 && gap >= 22500.0)
  {
    var ch, usableHalf := Channels(a, b), UsableHalf(sampleRate);
    var first := ChannelMax(ch[1]) - usableHalf;
    HitExactlyBetween(ch[0], first);
    HitExactlyBetween(ch[1], first);
    var i := Hit(ch, first);
    if i < 2 {
      var second := ChannelMax(ch[i]) + DC_SPIKE_HALF + 1.0;
      ClearAbove(ch[i], second);
      HitExactlyBetween(ch[1], second);
      assert Settle(ch, first, usableHalf, ROUNDS)
          == if second - usableHalf <= ChannelMin(ch[0]) then Settle(ch, second, usableHalf, ROUNDS - 1)
             else INVALID_CENTER;
      if i == 0 && Hit(ch, second) == 1 {
        var third := ChannelMax(ch[1]) + DC_SPIKE_HALF + 1.0;
        assert third - usableHalf > ChannelMin(ch[0]);
        assert Settle(ch, second, usableHalf, ROUNDS - 1) == INVALID_CENTER;
      }
    }
  }

  /** Just below where the loop would move the centre for a channel: 2 Hz that the check accepts and the loop skips. */
  predicate InSkippedSliver(ch: seq<real>, c: real) {
    exists i :: 0 <= i < |ch| && ChannelMax(ch[i]) + DC_SPIKE_HALF - 1.0 <= c < ChannelMax(ch[i]) + DC_SPIKE_HALF + 1.0
  }

  /** For a wide pair it is the lowest centre that passes the check, but for the 2 Hz that a step goes too far. */
  lemma CenterIsLowest(sampleRate: real, a: real, b: real, other: real)
    requires WidePair(sampleRate, Channels(a, b)) && Center(sampleRate, a, b) != INVALID_CENTER
    requires TunedFor(other, sampleRate, a, b)
    ensures Center(sampleRate, a, b) <= other + 2.0
    ensures Center(sampleRate, a, b) > other ==> InSkippedSliver(Channels(a, b), other)
  {
    var ch, usableHalf := Channels(a, b), UsableHalf(sampleRate);
    var first := ChannelMax(ch[1]) - usableHalf;
    ServesPairIff(ch, usableHalf, other);
    HitExactlyBetween(ch[0], first);
    HitExactlyBetween(ch[1], first);
    if Hit(ch, first) == 0 {
      var second := ch[0] + 11251.0;
      ClearAbove(ch[0], second);
      HitExactlyBetween(ch[1], second);
      CenterFoundIff(sampleRate, a, b);
      assert Settle(ch, second, usableHalf, ROUNDS - 1) == second;
      assert Center(sampleRate, a, b) == second;
      var reach := ChannelMax(ch[0]) + DC_SPIKE_HALF;
      assert other < second ==> reach - 1.0 <= other < reach + 1.0;
    } else if Hit(ch, first) == 1 {
      CenterFoundIff(sampleRate, a, b);
      assert false;
    }
  }

  /** CanTune accepts one channel always, and two that fit the usable band and get a centre: a narrow pair, unless its
      centre would be 0, which stands for none; a wide pair as for CenterFoundIff. */
  lemma CanTuneIff(sampleRate: real, a: real, b: real)
    ensures var ch, usableHalf := Channels(a, b), UsableHalf(sampleRate);
      CanTune(sampleRate, a, b) <==>
        if |ch| < 2 then |ch| == 1
        else
          var gap := ch[1] - ch[0];
          if gap + 12500.0 <= usableHalf then ch[0] != 11250.0
          else
            && gap + 12500.0 <= 2.0 * usableHalf && usableHalf >= 17499.0
            && (usableHalf <= gap - 4999.0 || (usableHalf >= 17501.0 && gap >= 22500.0))
  {
    var ch, usableHalf := Channels(a, b), UsableHalf(sampleRate);
    if WidePair(sampleRate, ch) {
      CenterFoundIff(sampleRate, a, b);
    }
  }

  /** "No centre" does not always mean that there is none: for a wide pair the calculator misses one exactly when the
      channels are at least 22498 Hz apart, half the usable band is at least 17499 Hz and reaches beyond the gap less
      4999 Hz, and one of the two is short of the 2 Hz more that its steps need. From 35 kHz of half the usable band on
      it misses nothing. */
  lemma NoCenterMissesIff(sampleRate: real, a: real, b: real)
    requires WidePair(sampleRate, Channels(a, b))
    ensures var ch, usableHalf := Channels(a, b), UsableHalf(sampleRate); var gap := ch[1] - ch[0];
      Center(sampleRate, a, b) == INVALID_CENTER && Servable(sampleRate, a, b) <==>
        && usableHalf > gap - 4999.0 && usableHalf >= 17499.0 && gap >= 22498.0
        && (usableHalf < 17501.0 || gap < 22500.0)
    ensures UsableHalf(sampleRate) >= 35000.0 && Center(sampleRate, a, b) == INVALID_CENTER
      ==> !Servable(sampleRate, a, b)
  {
    CenterFoundIff(sampleRate, a, b);
    ServableIff(sampleRate, a, b);
  }

  /** At 40816 Hz two channels 22499 Hz apart get no centre, although the middle between them serves both. */
  lemma MiddleIsMissed()
    ensures var sampleRate, a, b := 40816.0, 851000000.0, 851022499.0;
      Center(sampleRate, a, b) == INVALID_CENTER && TunedFor(851011249.5, sampleRate, a, b)
  {
    NoCenterMissesIff(40816.0, 851000000.0, 851022499.0);
    CenterFoundIff(40816.0, 851000000.0, 851022499.0);
  }

  /** Every centre that is missed lies in the 2 Hz that the steps skip. */
  lemma MissedOnlyInSlivers(sampleRate: real, a: real, b: real, c: real)
    requires WidePair(sampleRate, Channels(a, b)) && Center(sampleRate, a, b) == INVALID_CENTER
    requires TunedFor(c, sampleRate, a, b)
    ensures InSkippedSliver(Channels(a, b), c)
  {
    var ch, usableHalf := Channels(a, b), UsableHalf(sampleRate);
    ServesPairIff(ch, usableHalf, c);
    CenterFoundIff(sampleRate, a, b);
    assert ChannelMax(ch[0]) + DC_SPIKE_HALF - 1.0 <= c < ChannelMax(ch[0]) + DC_SPIKE_HALF + 1.0;
  }

  // ---- The program --------------------------------------------------------------------------

  method CollectChannels(a: real, b: real, out: array<real>) returns (n: nat)
    requires out.Length == 2
    modifies out
    ensures n <= 2 && out[..n] == Channels(a, b)
  {
    n := 0;
    if a > 0.0 {
      out[n] := a;
      n := n + 1;
    }
    if b > 0.0 {
      if n == 0 || b - out[0] > 1.0 || b - out[0] < -1.0 {
        out[n] := b;
        n := n + 1;
      }
    }
    if n == 2 && ChannelMin(out[1]) < ChannelMin(out[0]) {
      out[0], out[1] := out[1], out[0];
    }
  }

  method TunerIsTunedFor(center: real, sampleRate: real, a: real, b: real) returns (ok: bool)
    ensures ok == TunedFor(center, sampleRate, a, b)
  {
    if center <= 0.0 {
      return false;
    }
    var ch := new real[2](_ => 0.0);
    var n := CollectChannels(a, b, ch);
    if n == 0 {
      return false;
    }
    ok := AllServed(ch, n, center, UsableHalf(sampleRate));
  }

  /** The loop of the check. */
  method AllServed(ch: array<real>, n: nat, center: real, usableHalf: real) returns (ok: bool)
    requires n <= ch.Length
    ensures ok == Serves(center, usableHalf, ch[..n])
  {
    var minTuned, maxTuned := center - usableHalf, center + usableHalf;
    var minAvoid, maxAvoid := center - DC_SPIKE_HALF, center + DC_SPIKE_HALF;
    var i := 0;
    while i < n
      invariant 0 <= i <= n && forall k :: 0 <= k < i ==> ServesOne(center, usableHalf, ch[k])
    {
      if ChannelMin(ch[i]) < minTuned || ChannelMax(ch[i]) > maxTuned || OverlapsRange(ch[i], minAvoid, maxAvoid) {
        assert ch[..n][i] == ch[i];
        return false;
      }
      i := i + 1;
    }
    ok := true;
  }

  method GetCenterFrequencyHz(sampleRate: real, a: real, b: real) returns (center: real)
    ensures center == Center(sampleRate, a, b)
  {
    var ch := new real[2](_ => 0.0);
    var n := CollectChannels(a, b, ch);
    center := PlaceCollected(ch, n, UsableHalf(sampleRate));
  }

  /** The part of the calculator after collecting the channels. */
  method PlaceCollected(ch: array<real>, n: nat, usableHalf: real) returns (center: real)
    requires ch.Length == 2 && n <= 2
    ensures center == Place(ch[..n], usableHalf)
  {
    if n == 0 {
      return INVALID_CENTER;
    }
    ghost var collected := ch[..n];
    assert collected[0] == ch[0];
    if n == 1 {
      return ChannelMin(ch[0]) - DC_SPIKE_HALF + 1.0;
    }
    assert collected == ch[..] && collected[1] == ch[1];
    var minChannel, maxChannel := ChannelMin(ch[0]), ChannelMax(ch[1]);
    if maxChannel - minChannel <= usableHalf {
      return minChannel - DC_SPIKE_HALF;
    }
    center := AvoidDc(ch, maxChannel - usableHalf, usableHalf);
  }

  /** The loop that moves the candidate past the channels its DC hole hits. */
  method AvoidDc(ch: array<real>, start: real, usableHalf: real) returns (center: real)
    requires ch.Length == 2
    ensures center == Settle(ch[..], start, usableHalf, ROUNDS)
  {
    var candidate, valid, processing, guard := start, true, true, 0;
    while valid && processing && guard < ROUNDS
      invariant guard <= ROUNDS
      invariant if !valid then Settle(ch[..], start, usableHalf, ROUNDS) == INVALID_CENTER
                else if processing then
                  Settle(ch[..], start, usableHalf, ROUNDS) == Settle(ch[..], candidate, usableHalf, ROUNDS - guard)
                else Settle(ch[..], start, usableHalf, ROUNDS) == candidate
      decreases ROUNDS - guard
    {
      guard := guard + 1;
      processing := false;
      var i := FirstHit(ch, candidate);
      if i < 2 {
        var adjustment := ChannelMax(ch[i]) - (candidate - DC_SPIKE_HALF) + 1.0;
        if candidate + adjustment - usableHalf <= ChannelMin(ch[0]) {
          candidate := candidate + adjustment;
          processing := true;
        } else {
          valid := false;
        }
      }
    }
    center := if valid then candidate else INVALID_CENTER;
  }

  method FirstHit(ch: array<real>, candidate: real) returns (i: nat)
    requires ch.Length == 2
    ensures i == Hit(ch[..], candidate)
  {
    var minAvoid, maxAvoid := candidate - DC_SPIKE_HALF, candidate + DC_SPIKE_HALF;
    i := 0;
    while i < 2 && !OverlapsRange(ch[i], minAvoid, maxAvoid)
      invariant 0 <= i <= Hit(ch[..], candidate)
    {
      i := i + 1;
    }
  }

  method MayTune(sampleRate: real, a: real, b: real) returns (ok: bool)
    ensures ok == CanTune(sampleRate, a, b)
  {
    var ch := new real[2](_ => 0.0);
    var n := CollectChannels(a, b, ch);
    ghost var chs := ch[..n];
    if n == 0 {
      return false;
    }
    if n == 1 {
      return true;
    }
    if ChannelMax(ch[1]) - ChannelMin(ch[0]) > UsableBandwidth(sampleRate) {
      return false;
    }
    assert chs == [ch[0], ch[1]];
    var center := GetCenterFrequencyHz(sampleRate, a, b);
    ok := center != INVALID_CENTER;
  }
}
