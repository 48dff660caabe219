/** The scanner's tiling planner: local-oscillator centres whose usable spans, each with a hole around DC,
    together show every frequency of the searched range. */
module SatcomTiling {

  /** Distance between neighbouring centres; zero for an unusable rate or bandwidth. */
  function TileStride(rate: real, bandwidth: real): real {
    if rate <= 0.0 || bandwidth <= 0.0 || rate < 9.0 * bandwidth then 0.0
    else rate * 0.4 - bandwidth * 0.5
  }

  function Abs(x: real): real {
    if x < 0.0 then -x else x
  }

  /** Half-width of the region around the centre that a channel must avoid. */
  function DcGuard(rate: real, bandwidth: real, bins: int): real
    requires bins > 0
  {
    var leak := 3.0 * rate / bins as real;
    if bandwidth < leak then leak else bandwidth
  }

  predicate Observable(frequency: real, center: real, rate: real, bandwidth: real, bins: int)
    requires bins > 0
  {
    var half := TileStride(rate, bandwidth);
    var offset := Abs(frequency - center);
    half > 0.0 && offset <= half && offset >= DcGuard(rate, bandwidth, bins)
  }

  function FirstTile(low: real, rate: real, bw: real): real {
    low + TileStride(rate, bw) * 0.5
  }

  function NextTile(center: real, low: real, high: real, rate: real, bw: real): real {
    var stride := TileStride(rate, bw);
    if stride == 0.0 || low > high then 0.0
    else
      var first := FirstTile(low, rate, bw);
      var next := center + if Abs(center - first) < 1.0 then stride * (2.0 / 3.0) else stride;
      if next - stride > high then first else next
  }

  /** A frequency is seen from a centre exactly when the rate is usable for the bandwidth and the distance is at
      least the bandwidth and three bins, and at most 40% of the rate less half the bandwidth. */
  lemma ObservableIff(frequency: real, center: real, rate: real, bandwidth: real, bins: int)
    requires bins > 0
    ensures var distance := if frequency < center then center - frequency else frequency - center;
      Observable(frequency, center, rate, bandwidth, bins) <==>
        && rate > 0.0 && bandwidth > 0.0 && rate >= 9.0 * bandwidth
        && distance <= 0.4 * rate - 0.5 * bandwidth
        && distance >= bandwidth && distance * bins as real >= 3.0 * rate
  {
    var distance, n := Abs(frequency - center), bins as real;
    var leak := 3.0 * rate / n;
    assert leak * n == 3.0 * rate;
    assert distance * n - 3.0 * rate == (distance - leak) * n;
    if distance >= leak {
      assert (distance - leak) * n >= 0.0;
    } else {
      assert (leak - distance) * n > 0.0;
    }
  }

  /** A search the scanner runs: a usable rate for the bandwidth, and a range. */
  datatype Search = Search(low: real, high: real, rate: real, bw: real, bins: int) {

    predicate Usable() {
      bw > 0.0 && rate >= 9.0 * bw && low <= high && bins >= 27
    }

    function Stride(): real { TileStride(rate, bw) }

    function First(): real { FirstTile(low, rate, bw) }

    function Next(center: real): real { NextTile(center, low, high, rate, bw) }

    /** The centre after k steps of the planner. */
    function Visit(center: real, k: nat): real {
      if k == 0 then center else Next(Visit(center, k - 1))
    }

    predicate Sees(center: real, frequency: real)
      requires bins > 0
    {
      Observable(frequency, center, rate, bw, bins)
    }

    /** Some centre among the first n+1 of a sweep sees the frequency. */
    ghost predicate Covered(frequency: real, n: nat)
      requires bins > 0
    {
      exists k: nat :: k <= n && Sees(Visit(First(), k), frequency)
    }
  }

  /** The hole around a centre is narrower than a third of a stride on each side. */
  lemma GuardUnderThird(s: Search)
    requires s.Usable()
    ensures 0.0 < DcGuard(s.rate, s.bw, s.bins) < s.Stride() / 3.0
  {
    var share := s.rate / s.bins as real;
    assert share * s.bins as real == s.rate;
    assert share * (s.bins as real - 27.0) >= 0.0;
    assert 3.0 * s.rate / s.bins as real == 3.0 * share;
  }

  /** What n steps of a sweep have covered: everything below the last centre, except that nothing has yet
      looked into the lower part of the very first hole. */
  ghost predicate SweptBelow(s: Search, n: nat)
    requires s.Usable()
  {
    var c, g := s.Visit(s.First(), n), DcGuard(s.rate, s.bw, s.bins);
    && c >= s.First()
    && forall f :: s.low <= f <= s.high && (f <= c - g || (n > 0 && f < c)) ==> s.Covered(f, n)
  }

  lemma SweepStep(s: Search, n: nat)
    requires s.Usable() && SweptBelow(s, n)
    requires s.Visit(s.First(), n + 1) > s.Visit(s.First(), n)
    ensures SweptBelow(s, n + 1)
  {
    var c, c', g := s.Visit(s.First(), n), s.Visit(s.First(), n + 1), DcGuard(s.rate, s.bw, s.bins);
    GuardUnderThird(s);
    var m := n + 1;
    forall f | s.low <= f <= s.high && f < c'
      ensures s.Covered(f, m)
    {
      if f <= c - g || (n > 0 && f < c) {
        assert s.Covered(f, n);
      } else if f >= c + g {
        assert s.Sees(c, f);
      } else {
        assert s.Sees(c', f);
      }
    }
  }

  /** The length of n steps. */
  function Steps(n: nat, step: real): real {
    if n == 0 then 0.0 else Steps(n - 1, step) + step
  }

  /** Unless it wraps, a step goes up by two thirds of a stride at least; it wraps only past the range. */
  lemma Forward(s: Search, n: nat)
    requires s.Usable() && s.Visit(s.First(), n) >= s.First()
    ensures var c, c' := s.Visit(s.First(), n), s.Visit(s.First(), n + 1);
      if c' == s.First() then s.high < c && (c == s.First() ==> s.high < c - s.Stride() / 3.0)
      else c' >= c + s.Stride() * (2.0 / 3.0) && c' - s.Stride() <= s.high
  {
    GuardUnderThird(s);
  }

  lemma SweepEnd(s: Search, n: nat)
    requires s.Usable() && SweptBelow(s, n) && s.Visit(s.First(), n + 1) == s.First()
    ensures forall f :: s.low <= f <= s.high ==> s.Covered(f, n)
  {
    Forward(s, n);
    GuardUnderThird(s);
  }

  /** Steps upward until the last tile; the steps left are bounded by the distance to go. */
  lemma {:induction false} SweepFrom(s: Search, n: nat, left: nat) returns (last: nat)
    requires s.Usable() && SweptBelow(s, n)
    requires s.high + s.Stride() - s.Visit(s.First(), n) < Steps(left, s.Stride() * (2.0 / 3.0))
    ensures s.Visit(s.First(), last + 1) == s.First()
    ensures forall f :: s.low <= f <= s.high ==> s.Covered(f, last)
    decreases left
  {
    var c := s.Visit(s.First(), n);
    Forward(s, n);
    if s.Visit(s.First(), n + 1) == s.First() {
      SweepEnd(s, n);
      last := n;
    } else {
      SweepStep(s, n);
      last := SweepFrom(s, n + 1, left - 1);
    }
  }

  lemma {:induction false} StepsIsProduct(n: nat, step: real)
    ensures Steps(n, step) == n as real * step
  {
    if n > 0 {
      StepsIsProduct(n - 1, step);
      assert n as real * step == (n - 1) as real * step + step;
    }
  }

  /** Enough steps of a positive size pass any distance. */
  lemma StepsToPass(distance: real, step: real) returns (n: nat)
    requires step > 0.0
    ensures distance < Steps(n, step)
  {
    var q := distance / step;
    n := if q < 0.0 then 0 else q.Floor + 1;
    assert distance == q * step;
    assert (n as real - q) * step > 0.0;
    StepsIsProduct(n, step);
  }

  /** A sweep from the first tile comes back to it, and on the way every frequency of the range is seen, inside
      the span and outside the DC hole of some visited centre. */
  lemma SweepCoversRange(s: Search) returns (last: nat)
    requires s.Usable()
    ensures s.Visit(s.First(), last + 1) == s.First()
    ensures forall f :: s.low <= f <= s.high ==> s.Covered(f, last)
  {
    var g := DcGuard(s.rate, s.bw, s.bins);
    GuardUnderThird(s);
    forall f | s.low <= f <= s.high && f <= s.First() - g
      ensures s.Covered(f, 0)
    {
      assert s.Sees(s.Visit(s.First(), 0), f);
    }
    var left := StepsToPass(s.high + s.Stride() - s.First(), s.Stride() * (2.0 / 3.0));
    last := SweepFrom(s, 0, left);
  }

  /** The tiles of a sweep: the first, the second two thirds of a stride on, and then one every stride. */
  function Tile(s: Search, k: nat): real {
    if k == 0 then s.First()
    else if k == 1 then s.First() + s.Stride() * (2.0 / 3.0)
    else Tile(s, k - 1) + s.Stride()
  }

  lemma {:induction false} TilesRise(s: Search, k: nat)
    requires s.Usable() && k > 0
    ensures Tile(s, k) >= s.First() + s.Stride() * (2.0 / 3.0) && s.Stride() > 0.0
  {
    GuardUnderThird(s);
    if k > 1 {
      TilesRise(s, k - 1);
    }
  }

  /** With a stride of 1.5 Hz or more the sweep visits exactly these, as long as the tile before the next one does
      not lie beyond the range, and then starts again. */
  lemma {:induction false} SweepVisitsTiles(s: Search, k: nat)
    requires s.Usable() && s.Stride() >= 1.5 && (k > 0 ==> Tile(s, k) - s.Stride() <= s.high)
    ensures s.Visit(s.First(), k) == Tile(s, k)
    ensures s.Visit(s.First(), k + 1)
         == if Tile(s, k + 1) - s.Stride() > s.high then s.First() else Tile(s, k + 1)
  {
    if k > 0 {
      TilesRise(s, k);
      if k > 1 {
        TilesRise(s, k - 1);
      }
      SweepVisitsTiles(s, k - 1);
    }
  }

  /** A step goes two thirds of a stride up from a centre less than 1 Hz from the first tile, and a whole stride from
      any other; when the tile before the next one would lie beyond the range, it goes to the first, half a stride
      above its lower end. */
  lemma StepIs(s: Search, center: real)
    requires s.Usable()
    ensures var stride := 0.4 * s.rate - 0.5 * s.bw; var first := s.low + 0.5 * stride;
      var step := if -1.0 < center - first < 1.0 then 2.0 * stride / 3.0 else stride;
      s.Next(center) == if center + step - stride > s.high then first else center + step
  {}

  /** Where there is nothing to search, or no usable rate, the planner gives 0. */
  lemma NothingToSearch(center: real, low: real, high: real, rate: real, bw: real)
    requires low > high || rate <= 0.0 || bw <= 0.0 || rate < 9.0 * bw
    ensures NextTile(center, low, high, rate, bw) == 0.0
  {}

  /** From any centre at all the planner reaches the first tile. */
  lemma {:induction false} ReachesFirst(s: Search, center: real, left: nat) returns (k: nat)
    requires s.Usable() && s.high + s.Stride() - center < Steps(left, s.Stride() * (2.0 / 3.0))
    ensures k > 0 && s.Visit(center, k) == s.First()
    decreases left
  {
    var step := s.Stride() * (2.0 / 3.0);
    GuardUnderThird(s);
    var next := s.Next(center);
    if next == s.First() {
      assert s.Visit(center, 0) == center;
      k := 1;
    } else {
      k := ReachesFirst(s, next, left - 1);
      VisitFromNext(s, center, k);
      k := k + 1;
    }
  }

  lemma {:induction false} VisitFromNext(s: Search, center: real, k: nat)
    ensures s.Visit(s.Next(center), k) == s.Visit(center, k + 1)
  {
    if k == 0 {
      assert s.Visit(center, 0) == center;
    } else {
      VisitFromNext(s, center, k - 1);
    }
  }

  lemma SweepStartsAnywhere(s: Search, center: real)
    requires s.Usable()
    ensures exists k: nat :: k > 0 && s.Visit(center, k) == s.First()
  {
    GuardUnderThird(s);
    var left := StepsToPass(s.high + s.Stride() - center, s.Stride() * (2.0 / 3.0));
    var k := ReachesFirst(s, center, left);
  }
}
