/** The in-place radix-2 transform of the Satcom scanner (bit reversal, then butterfly passes),
    over any commutative ring that has a suitable root of unity. */
module SatcomSpectrum {
  import opened CommutativeRing
  import opened Division
  import opened Samples

  // ---- Bit reversal -------------------------------------------------------------------------

  predicate IsPowerOfTwo(n: nat) {
    n == 1 || (n > 0 && n % 2 == 0 && IsPowerOfTwo(n / 2))
  }

  /** x with its log2(n) bits reversed. */
  function Reversed(n: nat, x: nat): (y: nat)
    requires IsPowerOfTwo(n) && x < n
    ensures y < n
  {
    if n == 1 then 0 else Reversed(n / 2, x / 2) + if x % 2 == 1 then n / 2 else 0
  }

  /** The high bit of the argument is the low bit of the result. */
  lemma {:induction false} ReversedHighBit(n: nat, u: nat)
    requires IsPowerOfTwo(n) && n > 1 && u < n / 2
    ensures Reversed(n, u) == 2 * Reversed(n / 2, u)
    ensures Reversed(n, u + n / 2) == 2 * Reversed(n / 2, u) + 1
  {
    if n > 2 {
      ReversedHighBit(n / 2, u / 2);
      assert (u + n / 2) / 2 == u / 2 + n / 2 / 2;
    }
  }

  lemma {:induction false} ReversedInvolution(n: nat, x: nat)
    requires IsPowerOfTwo(n) && x < n
    ensures Reversed(n, Reversed(n, x)) == x
  {
    if n > 1 {
      ReversedHighBit(n, Reversed(n / 2, x / 2));
      ReversedInvolution(n / 2, x / 2);
    }
  }

  // ---- The transform and its partial sums ---------------------------------------------------

  /** A length-n transform problem: the ring, and a root w with w^(n/2) == -1 (so that w^n == 1). */
  ghost predicate IsRootOfUnity<T(!new)>(r: Ring<T>, w: T, n: nat) {
    && IsRing(r)
    && IsPowerOfTwo(n)
    && r.Pow(w, n) == r.one
    && (n > 1 ==> r.Pow(w, n / 2) == r.MinusOne())
  }

  /** The first cnt terms of the discrete Fourier transform of x at frequency m. */
  function DftPrefix<T>(r: Ring<T>, w: T, x: seq<T>, m: nat, cnt: nat): T
    requires cnt <= |x|
  {
    if cnt == 0 then r.zero
    else r.add(DftPrefix(r, w, x, m, cnt - 1), r.mul(x[cnt - 1], r.Pow(w, (cnt - 1) * m)))
  }

  /** The discrete Fourier transform: the sum of x[i] * w^(i*m) over all i. */
  function Dft<T>(r: Ring<T>, w: T, x: seq<T>, m: nat): T {
    DftPrefix(r, w, x, m, |x|)
  }

  /** The t-th term of a transform that takes every s-th element of x from off on. */
  function Term<T>(r: Ring<T>, w: T, x: seq<T>, off: nat, s: nat, t: nat, m: nat): T {
    r.mul(At(x, off + Mul(s, t), r.zero), r.Pow(w, Mul(Mul(s, t), m)))
  }

  /** The sum over t < cnt of x[off + s*t] * w^(s*t*m). */
  function StridedSum<T>(r: Ring<T>, w: T, x: seq<T>, off: nat, s: nat, cnt: nat, m: nat): T
    decreases cnt
  {
    if cnt == 0 then r.zero
    else r.add(StridedSum(r, w, x, off, s, cnt - 1, m), Term(r, w, x, off, s, cnt - 1, m))
  }

  lemma {:induction false} DftIsStridedSum<T(!new)>(r: Ring<T>, w: T, x: seq<T>, m: nat, cnt: nat)
    requires cnt <= |x|
    ensures DftPrefix(r, w, x, m, cnt) == StridedSum(r, w, x, 0, 1, cnt, m)
  {
    if cnt != 0 {
      DftIsStridedSum(r, w, x, m, cnt - 1);
      MulOne(cnt - 1);
      MulIsProduct(cnt - 1, m);
    }
  }

  lemma EvenTerm<T>(r: Ring<T>, w: T, x: seq<T>, off: nat, s: nat, k: nat, m: nat)
    ensures Term(r, w, x, off, s, 2 * k, m) == Term(r, w, x, off, 2 * s, k, m)
  {
    MulTwice(s, k);
  }

  lemma OddTerm<T(!new)>(r: Ring<T>, w: T, x: seq<T>, off: nat, s: nat, k: nat, m: nat)
    requires IsRing(r)
    ensures Term(r, w, x, off, s, 2 * k + 1, m) == r.mul(r.Pow(w, Mul(s, m)), Term(r, w, x, off + s, 2 * s, k, m))
  {
    var d := Mul(2 * s, k);
    MulTwice(s, k);
    AddMul(d, s, m);
    PowAdd(r, w, Mul(s, m), Mul(d, m));
    var a, p, q := At(x, off + s + d, r.zero), r.Pow(w, Mul(s, m)), r.Pow(w, Mul(d, m));
    assert r.Laws(a, p, q) && r.Laws(p, a, q);
  }

  /** (e + p*o + a) + p*b == (e + a) + p*(o + b) */
  lemma Interleave<T(!new)>(r: Ring<T>, e: T, o: T, p: T, a: T, b: T)
    requires IsRing(r)
    ensures r.add(r.add(r.add(e, r.mul(p, o)), a), r.mul(p, b)) == r.add(r.add(e, a), r.mul(p, r.add(o, b)))
  {
    var po := r.mul(p, o);
    assert r.Laws(p, o, b) && r.Laws(e, po, a) && r.Laws(po, a, a) && r.Laws(e, a, po);
    assert r.Laws(r.add(e, a), po, r.mul(p, b));
  }

  lemma LastPair<T>(r: Ring<T>, w: T, x: seq<T>, off: nat, s: nat, k: nat, m: nat)
    ensures StridedSum(r, w, x, off, s, 2 * k + 2, m)
         == r.add(r.add(StridedSum(r, w, x, off, s, 2 * k, m), Term(r, w, x, off, s, 2 * k, m)),
                  Term(r, w, x, off, s, 2 * k + 1, m))
  {
    var n := 2 * k + 1;
    assert StridedSum(r, w, x, off, s, n + 1, m)
        == r.add(StridedSum(r, w, x, off, s, n, m), Term(r, w, x, off, s, n, m));
  }

  /** Even and odd halves of a strided sum. */
  lemma {:induction false} SplitEvenOdd<T(!new)>(r: Ring<T>, w: T, x: seq<T>, off: nat, s: nat, half: nat, m: nat)
    requires IsRing(r)
    ensures StridedSum(r, w, x, off, s, 2 * half, m)
         == r.add(StridedSum(r, w, x, off, 2 * s, half, m),
                  r.mul(r.Pow(w, Mul(s, m)), StridedSum(r, w, x, off + s, 2 * s, half, m)))
    decreases half
  {
    var p := r.Pow(w, Mul(s, m));
    if half == 0 {
      MulZero(r, p);
      assert r.Laws(r.zero, r.zero, r.zero);
    } else {
      var k := half - 1;
      SplitEvenOdd(r, w, x, off, s, k, m);
      EvenTerm(r, w, x, off, s, k, m);
      OddTerm(r, w, x, off, s, k, m);
      LastPair(r, w, x, off, s, k, m);
      Interleave(r, StridedSum(r, w, x, off, 2 * s, k, m), StridedSum(r, w, x, off + s, 2 * s, k, m),
                 p, Term(r, w, x, off, 2 * s, k, m), Term(r, w, x, off + s, 2 * s, k, m));
    }
  }

  lemma ExponentShift(s: nat, t: nat, m: nat, half: nat)
    ensures Mul(Mul(s, t), m + half) == Mul(Mul(s, t), m) + Mul(Mul(s, half), t)
  {
    MulAdd(Mul(s, t), m, half);
    MulMul(s, t, half);
    MulCommutes(t, half);
    MulMul(s, half, t);
  }

  lemma PowPeriodic<T(!new)>(r: Ring<T>, w: T, e: nat, periods: nat, e': nat)
    requires IsRing(r) && r.Pow(w, periods) == r.one && e' == e + periods
    ensures r.Pow(w, e') == r.Pow(w, e)
  {
    PowAdd(r, w, e, periods);
    assert r.Laws(r.Pow(w, e), r.one, r.one);
  }

  lemma TermPeriodic<T(!new)>(r: Ring<T>, w: T, x: seq<T>, off: nat, s: nat, t: nat, m: nat, half: nat)
    requires IsRing(r) && r.Pow(w, Mul(s, half)) == r.one
    ensures Term(r, w, x, off, s, t, m + half) == Term(r, w, x, off, s, t, m)
  {
    ExponentShift(s, t, m, half);
    PowOfUnit(r, w, Mul(s, half), t);
    PowPeriodic(r, w, Mul(Mul(s, t), m), Mul(Mul(s, half), t), Mul(Mul(s, t), m + half));
  }

  /** A half-length sum is periodic in the frequency. */
  lemma {:induction false} HalfPeriodic<T(!new)>(r: Ring<T>, w: T, x: seq<T>, off: nat, s: nat, cnt: nat, m: nat,
                                                 half: nat)
    requires IsRing(r) && r.Pow(w, Mul(s, half)) == r.one
    ensures StridedSum(r, w, x, off, s, cnt, m + half) == StridedSum(r, w, x, off, s, cnt, m)
    decreases cnt
  {
    if cnt != 0 {
      HalfPeriodic(r, w, x, off, s, cnt - 1, m, half);
      TermPeriodic(r, w, x, off, s, cnt - 1, m, half);
    }
  }

  // ---- Block arithmetic ---------------------------------------------------------------------

  /** The number of blocks of length len in n positions. */
  function Blocks(n: nat, len: nat): (s: nat)
    requires IsPowerOfTwo(n) && IsPowerOfTwo(len) && len <= n
    ensures IsPowerOfTwo(s)
    decreases len
  {
    if len == 1 then n else Blocks(n / 2, len / 2)
  }

  /** The block a position is in. */
  function Block(len: nat, p: nat): nat
    requires IsPowerOfTwo(len)
    decreases len
  {
    if len == 1 then p else Block(len / 2, p / 2)
  }

  /** The place of a position in its block. */
  function Offset(len: nat, p: nat): (m: nat)
    requires IsPowerOfTwo(len)
    ensures m < len
    decreases len
  {
    if len == 1 then 0 else 2 * Offset(len / 2, p / 2) + p % 2
  }

  lemma {:induction false} BlocksFill(n: nat, len: nat)
    requires IsPowerOfTwo(n) && IsPowerOfTwo(len) && len <= n
    ensures Mul(Blocks(n, len), len) == n
    decreases len
  {
    if len == 1 {
      MulOne(n);
    } else {
      BlocksFill(n / 2, len / 2);
      MulTwice(Blocks(n, len), len / 2);
    }
  }

  lemma {:induction false} OneBlock(n: nat)
    requires IsPowerOfTwo(n)
    ensures Blocks(n, n) == 1
  {
    if n > 1 {
      OneBlock(n / 2);
    }
  }

  lemma {:induction false} BlockInRange(n: nat, len: nat, p: nat)
    requires IsPowerOfTwo(n) && IsPowerOfTwo(len) && len <= n && p < n
    ensures Block(len, p) < Blocks(n, len)
    decreases len
  {
    if len > 1 {
      BlockInRange(n / 2, len / 2, p / 2);
    }
  }

  /** Block and place determine the position, and the position determines them. */
  lemma {:induction false} Located(len: nat, b: nat, m: nat, p: nat)
    requires IsPowerOfTwo(len) && m < len && p == Mul(b, len) + m
    ensures Block(len, p) == b && Offset(len, p) == m
    decreases len
  {
    if len == 1 {
      MulOne(b);
    } else {
      var half := len / 2;
      MulTwice(b, half);
      assert p / 2 == Mul(b, half) + m / 2 && p % 2 == m % 2;
      Located(half, b, m / 2, p / 2);
    }
  }

  // ---- What the array holds between passes --------------------------------------------------

  /** Position p once blocks of length len are done: the transform, at the frequency of its place in the block, of
      every s-th element of x starting at the reversed block number, where s is the number of blocks. */
  function StageValue<T>(r: Ring<T>, w: T, x: seq<T>, len: nat, p: nat): T
    requires IsPowerOfTwo(|x|) && IsPowerOfTwo(len) && len <= |x| && p < |x|
  {
    BlockInRange(|x|, len, p);
    var s := Blocks(|x|, len);
    StridedSum(r, w, x, Reversed(s, Block(len, p)), s, len, Offset(len, p))
  }

  /** Blocks of length one hold the input in bit-reversed order. */
  lemma FirstStage<T(!new)>(r: Ring<T>, w: T, x: seq<T>, p: nat)
    requires IsRing(r) && IsPowerOfTwo(|x|) && p < |x|
    ensures StageValue(r, w, x, 1, p) == x[Reversed(|x|, p)]
  {
    var off := Reversed(|x|, p);
    assert StridedSum(r, w, x, off, |x|, 1, 0) == r.add(r.zero, Term(r, w, x, off, |x|, 0, 0));
    assert r.Laws(x[off], r.zero, r.zero) && r.Laws(r.zero, x[off], x[off]);
  }

  /** One block of length |x| holds the whole transform. */
  lemma LastStage<T(!new)>(r: Ring<T>, w: T, x: seq<T>, p: nat)
    requires IsPowerOfTwo(|x|) && p < |x|
    ensures StageValue(r, w, x, |x|, p) == Dft(r, w, x, p)
  {
    MulOne(|x|);
    Located(|x|, 0, p, p);
    OneBlock(|x|);
    DftIsStridedSum(r, w, x, p, |x|);
  }

  /** The sums over both halves of a block give the sum over the block, at frequencies j and j + half. */
  lemma ButterflySums<T(!new)>(r: Ring<T>, w: T, x: seq<T>, off: nat, s: nat, half: nat, j: nat)
    requires IsRing(r) && r.Pow(w, Mul(2 * s, half)) == r.one && r.Pow(w, Mul(s, half)) == r.MinusOne()
    ensures var u := StridedSum(r, w, x, off, 2 * s, half, j);
      var v := r.mul(StridedSum(r, w, x, off + s, 2 * s, half, j), r.Pow(w, Mul(s, j)));
      && StridedSum(r, w, x, off, s, 2 * half, j) == r.add(u, v)
      && StridedSum(r, w, x, off, s, 2 * half, j + half) == r.sub(u, v)
  {
    var p := r.Pow(w, Mul(s, j));
    var e, o := StridedSum(r, w, x, off, 2 * s, half, j), StridedSum(r, w, x, off + s, 2 * s, half, j);
    assert StridedSum(r, w, x, off, s, 2 * half, j) == r.add(e, r.mul(o, p)) by {
      SplitEvenOdd(r, w, x, off, s, half, j);
      assert r.Laws(p, o, o);
    }
    assert StridedSum(r, w, x, off, s, 2 * half, j + half) == r.sub(e, r.mul(o, p)) by {
      SplitEvenOdd(r, w, x, off, s, half, j + half);
      HalfPeriodic(r, w, x, off, 2 * s, half, j, half);
      HalfPeriodic(r, w, x, off + s, 2 * s, half, j, half);
      TwiddleAt(r, w, s, j, half);
      AddNegated(r, e, p, o);
    }
  }

  lemma TwiddleAt<T(!new)>(r: Ring<T>, w: T, s: nat, j: nat, half: nat)
    requires IsRing(r) && r.Pow(w, Mul(s, half)) == r.MinusOne()
    ensures r.Pow(w, Mul(s, j + half)) == r.mul(r.Pow(w, Mul(s, j)), r.MinusOne())
  {
    MulAdd(s, j, half);
    PowAdd(r, w, Mul(s, j), Mul(s, half));
  }

  /** The reversed numbers of the two halves of block b. */
  lemma HalfBlockNumbers(s: nat, b: nat)
    requires IsPowerOfTwo(s) && b < s
    ensures IsPowerOfTwo(2 * s) && 2 * b + 1 < 2 * s
    ensures Reversed(2 * s, 2 * b) == Reversed(s, b) && Reversed(2 * s, 2 * b + 1) == Reversed(s, b) + s
  {}

  lemma {:induction false} TwiceTheBlocks(n: nat, len: nat, half: nat)
    requires IsPowerOfTwo(n) && IsPowerOfTwo(len) && len == 2 * half && 1 <= half && len <= n && IsPowerOfTwo(half)
    ensures Blocks(n, half) == 2 * Blocks(n, len)
    decreases half
  {
    assert len / 2 == half && Blocks(n, len) == Blocks(n / 2, half);
    if half > 1 {
      TwiceTheBlocks(n / 2, half, half / 2);
    }
  }

  /** One level of the numbering of blocks and places. */
  lemma PlaceUnfolds(len: nat, half: nat, p: nat, u: nat, c: nat)
    requires IsPowerOfTwo(len) && len == 2 * half && half >= 1 && p == 2 * u + c && c < 2
    ensures IsPowerOfTwo(half) && Block(len, p) == Block(half, u) && Offset(len, p) == 2 * Offset(half, u) + c
  {
    assert len / 2 == half && p / 2 == u && p % 2 == c;
  }

  /** A position in the first half of a block, and its partner in the second half, are at the same place of an even
      block of half the length and of the next one. */
  ghost predicate Partners(len: nat, half: nat, p: nat, q: nat)
    requires IsPowerOfTwo(len) && IsPowerOfTwo(half)
  {
    && Block(half, p) == 2 * Block(len, p) && Offset(half, p) == Offset(len, p)
    && Block(half, q) == 2 * Block(len, p) + 1 && Offset(half, q) == Offset(len, p)
    && Block(len, q) == Block(len, p) && Offset(len, q) == Offset(len, p) + half
  }

  lemma {:induction false} HalfPlaces(len: nat, half: nat, p: nat)
    requires IsPowerOfTwo(len) && IsPowerOfTwo(half) && len == 2 * half && Offset(len, p) < half
    ensures Partners(len, half, p, p + half)
    decreases half
  {
    var u, c := p / 2, p % 2;
    PlaceUnfolds(len, half, p, u, c);
    if half == 1 {
      PlaceUnfolds(len, half, p + 1, u, 1);
    } else {
      var quarter := half / 2;
      assert half == 2 * quarter;
      HalfPlaces(half, quarter, u);
      PartnersDouble(len, half, quarter, p, u, c);
    }
  }

  lemma PartnersDouble(len: nat, half: nat, quarter: nat, p: nat, u: nat, c: nat)
    requires IsPowerOfTwo(len) && IsPowerOfTwo(half) && IsPowerOfTwo(quarter) && len == 2 * half && half == 2 * quarter
    requires p == 2 * u + c && c < 2 && Partners(half, quarter, u, u + quarter)
    ensures Partners(len, half, p, p + half)
  {
    hide Block, Offset, IsPowerOfTwo;
    PlaceUnfolds(len, half, p, u, c);
    PlaceUnfolds(half, quarter, p, u, c);
    PlaceUnfolds(half, quarter, p + half, u + quarter, c);
    PlaceUnfolds(len, half, p + half, u + quarter, c);
  }

  lemma {:induction false} PartnerInRange(n: nat, len: nat, half: nat, p: nat)
    requires IsPowerOfTwo(n) && IsPowerOfTwo(len) && len == 2 * half && 1 <= half && len <= n && p < n
    requires Offset(len, p) < half
    ensures p + half < n
    decreases half
  {
    var u, c := p / 2, p % 2;
    PlaceUnfolds(len, half, p, u, c);
    if half > 1 {
      PartnerInRange(n / 2, half, half / 2, u);
    }
  }

  lemma HalfRoot<T(!new)>(r: Ring<T>, w: T, n: nat, len: nat, half: nat, s: nat)
    requires IsRootOfUnity(r, w, n) && IsPowerOfTwo(len) && len == 2 * half && 2 <= len <= n && s == Blocks(n, len)
    ensures r.Pow(w, Mul(2 * s, half)) == r.one && r.Pow(w, Mul(s, half)) == r.MinusOne()
  {
    BlocksFill(n, len);
    MulTwice(s, half);
  }

  /** Sum and difference of two half-block values, the second one times the twiddle factor, are two block values. */
  ghost predicate ButterflyAt<T>(r: Ring<T>, w: T, x: seq<T>, twiddle: T, half: nat, len: nat, p: nat) {
    && IsPowerOfTwo(|x|) && IsPowerOfTwo(half) && IsPowerOfTwo(len) && half <= len <= |x| && p + half < |x|
    && var u, v := StageValue(r, w, x, half, p), r.mul(StageValue(r, w, x, half, p + half), twiddle);
       StageValue(r, w, x, len, p) == r.add(u, v) && StageValue(r, w, x, len, p + half) == r.sub(u, v)
  }

  /** The value of a position given as block and place. */
  lemma StageAt<T>(r: Ring<T>, w: T, x: seq<T>, s: nat, len: nat, b: nat, m: nat, p: nat)
    requires IsPowerOfTwo(|x|) && IsPowerOfTwo(len) && IsPowerOfTwo(s) && len <= |x| && p < |x| && b < s
    requires Blocks(|x|, len) == s && Block(len, p) == b && Offset(len, p) == m
    ensures StageValue(r, w, x, len, p) == StridedSum(r, w, x, Reversed(s, b), s, len, m)
  {}

  /** The four values of a butterfly as strided sums. */
  ghost predicate FourSums<T>(r: Ring<T>, w: T, x: seq<T>, off: nat, s: nat, half: nat, len: nat, j: nat, p: nat) {
    && IsPowerOfTwo(|x|) && IsPowerOfTwo(half) && IsPowerOfTwo(len) && half <= len <= |x| && p + half < |x|
    && StageValue(r, w, x, half, p) == StridedSum(r, w, x, off, 2 * s, half, j)
    && StageValue(r, w, x, half, p + half) == StridedSum(r, w, x, off + s, 2 * s, half, j)
    && StageValue(r, w, x, len, p) == StridedSum(r, w, x, off, s, len, j)
    && StageValue(r, w, x, len, p + half) == StridedSum(r, w, x, off, s, len, j + half)
  }

  lemma FourSumsAt<T>(r: Ring<T>, w: T, x: seq<T>, s: nat, half: nat, len: nat, b: nat, j: nat, p: nat, q: nat)
    requires IsPowerOfTwo(|x|) && IsPowerOfTwo(len) && IsPowerOfTwo(half) && len == 2 * half && len <= |x|
    requires q == p + half < |x| && IsPowerOfTwo(s) && b < s && s == Blocks(|x|, len) && 2 * s == Blocks(|x|, half)
    requires b == Block(len, p) && j == Offset(len, p) && Partners(len, half, p, q)
    ensures FourSums(r, w, x, Reversed(s, b), s, half, len, j, p)
  {
    hide Blocks, Block, Offset, StridedSum, Reversed, StageValue, IsPowerOfTwo;
    HalfBlockNumbers(s, b);
    var double, even, odd := 2 * s, 2 * b, 2 * b + 1;
    StageAt(r, w, x, s, len, b, j, p);
    StageAt(r, w, x, s, len, b, j + half, q);
    StageAt(r, w, x, double, half, even, j, p);
    StageAt(r, w, x, double, half, odd, j, q);
  }

  lemma SumsAreButterfly<T(!new)>(r: Ring<T>, w: T, x: seq<T>, off: nat, s: nat, half: nat, len: nat, j: nat, p: nat)
    requires IsRing(r) && FourSums(r, w, x, off, s, half, len, j, p) && len == 2 * half
    requires r.Pow(w, Mul(2 * s, half)) == r.one && r.Pow(w, Mul(s, half)) == r.MinusOne()
    ensures ButterflyAt(r, w, x, r.Pow(w, Mul(s, j)), half, len, p)
  {
    ButterflySums(r, w, x, off, s, half, j);
  }

  /** A butterfly turns two half-block values into two block values. */
  lemma Butterfly<T(!new)>(r: Ring<T>, w: T, x: seq<T>, len: nat, half: nat, p: nat)
    requires IsRootOfUnity(r, w, |x|) && IsPowerOfTwo(len) && len == 2 * half && 2 <= len <= |x| && p < |x|
    requires Offset(len, p) < half
    ensures ButterflyAt(r, w, x, r.Pow(w, Mul(Blocks(|x|, len), Offset(len, p))), half, len, p)
  {
    var s, b, j := Blocks(|x|, len), Block(len, p), Offset(len, p);
    PlaceUnfolds(len, half, p, p / 2, p % 2);
    BlockInRange(|x|, len, p);
    TwiceTheBlocks(|x|, len, half);
    HalfPlaces(len, half, p);
    PartnerInRange(|x|, len, half, p);
    FourSumsAt(r, w, x, s, half, len, b, j, p, p + half);
    HalfRoot(r, w, |x|, len, half, s);
    SumsAreButterfly(r, w, x, Reversed(s, b), s, half, len, j, p);
  }

  // ---- The algorithm ------------------------------------------------------------------------

  /** Counting in bit-reversed order: adds one to j from its high bit down. */
  method NextReversed(n: nat, j0: nat, ghost k0: nat) returns (j: nat)
    requires IsPowerOfTwo(n) && k0 + 1 < n && j0 == Reversed(n, k0)
    ensures j == Reversed(n, k0 + 1)
  {
    j := j0;
    var bit := n / 2;
    ghost var k := k0;
    while j / bit % 2 == 1
      invariant bit >= 1 && 0 <= k && k + 1 < 2 * bit && IsPowerOfTwo(2 * bit)
      invariant j == Reversed(2 * bit, k)
      invariant Reversed(n, k0 + 1) == Reversed(2 * bit, k + 1)
      decreases bit
    {
      ReversedStep(bit, k);
      j := j - bit;
      bit := bit / 2;
      k := k / 2;
    }
    ReversedStep(bit, k);
    j := j + bit;
  }

  /** The top bit of the reversed number is the parity of the number: an even number is incremented there,
      an odd one carries on into the bits below. */
  lemma ReversedStep(bit: nat, k: nat)
    requires IsPowerOfTwo(2 * bit) && bit >= 1 && k + 1 < 2 * bit
    ensures Reversed(2 * bit, k) / bit % 2 == k % 2
    ensures k % 2 == 0 ==> Reversed(2 * bit, k + 1) == Reversed(2 * bit, k) + bit
    ensures k % 2 == 1 ==>
      var bit', k' := bit / 2, k / 2;
      && bit' >= 1 && 2 * bit' == bit && k' + 1 < 2 * bit'
      && Reversed(2 * bit, k) == Reversed(2 * bit', k') + bit
      && Reversed(2 * bit, k + 1) == Reversed(2 * bit', k' + 1)
  {
    Quotient(Reversed(2 * bit, k), bit, k % 2, Reversed(bit, k / 2));
    if k % 2 == 0 {
      assert (k + 1) / 2 == k / 2 && (k + 1) % 2 == 1;
    } else {
      assert (k + 1) / 2 == k / 2 + 1 && (k + 1) % 2 == 0 && bit > 1;
    }
  }

  /** What the permutation leaves at position p once the positions below i have been exchanged. */
  function Exchanged<T>(x: seq<T>, i: nat, p: nat): T
    requires IsPowerOfTwo(|x|) && p < |x|
  {
    if p < i || Reversed(|x|, p) < i then x[Reversed(|x|, p)] else x[p]
  }

  lemma ExchangeStep<T>(x: seq<T>, i: nat, p: nat)
    requires IsPowerOfTwo(|x|) && p < |x| && i < |x|
    ensures var j := Reversed(|x|, i);
      Exchanged(x, i + 1, p) == Exchanged(x, i, if i < j && p == i then j else if i < j && p == j then i else p)
  {
    ReversedInvolution(|x|, i);
    ReversedInvolution(|x|, p);
  }

  /** The bit-reversal permutation, in place. */
  method BitReverse<T>(a: array<T>)
    requires IsPowerOfTwo(a.Length)
    modifies a
    ensures forall p :: 0 <= p < a.Length ==> a[p] == old(a[Reversed(a.Length, p)])
  {
    var n := a.Length;
    ghost var x := a[..];
    var i, j := 1, 0;
    ReversedZero(n);
    forall p | 0 <= p < n
      ensures a[p] == Exchanged(x, 1, p)
    {
      ReversedInvolution(n, p);
    }
    while i < n
      invariant 1 <= i <= n && j == Reversed(n, i - 1)
      invariant forall p :: 0 <= p < n ==> a[p] == Exchanged(x, i, p)
    {
      j := NextReversed(n, j, i - 1);
      ghost var before := a[..];
      if i < j {
        a[i], a[j] := a[j], a[i];
      }
      forall p | 0 <= p < n
        ensures a[p] == Exchanged(x, i + 1, p)
      {
        ExchangeStep(x, i, p);
        assert a[p] == before[if i < j && p == i then j else if i < j && p == j then i else p];
      }
      i := i + 1;
    }
  }

  lemma {:induction false} ReversedZero(n: nat)
    requires IsPowerOfTwo(n)
    ensures Reversed(n, 0) == 0
  {
    if n > 1 {
      ReversedZero(n / 2);
    }
  }

  /** The sequence x after the first j butterflies of the block that starts at i, read at position p. */
  function Butterflied<T>(r: Ring<T>, w: T, s: nat, half: nat, i: nat, j: nat, x: seq<T>, p: nat): T
    requires i + 2 * half <= |x| && j <= half && p < |x|
  {
    if i <= p < i + j then r.add(x[p], r.mul(x[p + half], r.Pow(w, Mul(s, p - i))))
    else if i + half <= p < i + half + j then
      var q := p - half;
      r.sub(x[q], r.mul(x[p], r.Pow(w, Mul(s, q - i))))
    else x[p]
  }

  /** One block of a pass. The twiddle factor is advanced by the step w^s, the principal root for this length. */
  method ButterflyBlock<T(!new)>(r: Ring<T>, w: T, a: array<T>, half: nat, step: T, i: nat, ghost s: nat)
    requires IsRing(r) && step == r.Pow(w, s) && i + 2 * half <= a.Length
    modifies a
    ensures forall p :: 0 <= p < a.Length ==> a[p] == Butterflied(r, w, s, half, i, half, old(a[..]), p)
  {
    var tw, j := r.one, 0;
    while j < half
      invariant 0 <= j <= half && tw == r.Pow(w, Mul(s, j))
      invariant forall p :: 0 <= p < a.Length ==> a[p] == Butterflied(r, w, s, half, i, j, old(a[..]), p)
    {
      var u, v := a[i + j], r.mul(a[i + j + half], tw);
      a[i + j] := r.add(u, v);
      a[i + j + half] := r.sub(u, v);
      NextTwiddle(r, w, s, j);
      tw := r.mul(tw, step);
      j := j + 1;
    }
  }

  lemma NextTwiddle<T(!new)>(r: Ring<T>, w: T, s: nat, j: nat)
    requires IsRing(r)
    ensures r.Pow(w, Mul(s, j + 1)) == r.mul(r.Pow(w, Mul(s, j)), r.Pow(w, s))
  {
    PowAdd(r, w, Mul(s, j), s);
  }

  /** The butterflies of one block make its positions those of the next stage. */
  lemma BlockDone<T(!new)>(r: Ring<T>, w: T, x: seq<T>, len: nat, half: nat, b: nat, i: nat, y: seq<T>, p: nat)
    requires IsRootOfUnity(r, w, |x|) && IsPowerOfTwo(len) && len == 2 * half && IsPowerOfTwo(half) && 2 <= len <= |x|
    requires i == Mul(b, len) && i <= p < i + len <= |x| == |y|
    requires forall q :: i <= q < i + len ==> y[q] == StageValue(r, w, x, half, q)
    ensures Butterflied(r, w, Blocks(|x|, len), half, i, half, y, p) == StageValue(r, w, x, len, p)
  {
    hide Blocks, Block, Offset, StageValue, IsPowerOfTwo, Mul;
    var s, q := Blocks(|x|, len), if p < i + half then p else p - half;
    Located(len, b, q - i, q);
    Butterfly(r, w, x, len, half, q);
    PairDone(r, w, x, s, half, len, i, y, q, q + half);
    assert p == q || p == q + half;
  }

  lemma PairDone<T>(r: Ring<T>, w: T, x: seq<T>, s: nat, half: nat, len: nat, i: nat, y: seq<T>, p: nat, q: nat)
    requires i <= p < i + half && q == p + half && i + 2 * half <= |x| == |y|
    requires ButterflyAt(r, w, x, r.Pow(w, Mul(s, p - i)), half, len, p)
    requires y[p] == StageValue(r, w, x, half, p) && y[q] == StageValue(r, w, x, half, q)
    ensures Butterflied(r, w, s, half, i, half, y, p) == StageValue(r, w, x, len, p)
    ensures Butterflied(r, w, s, half, i, half, y, q) == StageValue(r, w, x, len, q)
  {}

  /** One pass: every pair of adjacent blocks of length len/2 becomes a block of length len. */
  method ButterflyPass<T(!new)>(r: Ring<T>, w: T, a: array<T>, len: nat, ghost x: seq<T>)
    requires IsRootOfUnity(r, w, |x|) && a.Length == |x| && IsPowerOfTwo(len) && 2 <= len <= |x|
    requires forall p :: 0 <= p < |x| ==> a[p] == StageValue(r, w, x, len / 2, p)
    modifies a
    ensures forall p :: 0 <= p < |x| ==> a[p] == StageValue(r, w, x, len, p)
  {
    ghost var s := Blocks(|x|, len);
    BlocksFill(|x|, len);
    MulIsProduct(s, len);
    Quotient(|x|, len, s, 0);
    var half, step := len / 2, r.Pow(w, a.Length / len);
    var i := 0;
    ghost var b := 0;
    MulOne(len);
    while i < a.Length
      invariant 0 <= i <= |x| && i == Mul(b, len)
      invariant forall p :: 0 <= p < i ==> a[p] == StageValue(r, w, x, len, p)
      invariant forall p :: i <= p < |x| ==> a[p] == StageValue(r, w, x, half, p)
    {
      MulFits(b, s, len);
      ghost var before := a[..];
      ButterflyBlock(r, w, a, half, step, i, s);
      forall p | i <= p < i + len
        ensures a[p] == StageValue(r, w, x, len, p)
      {
        BlockDone(r, w, x, len, half, b, i, before, p);
      }
      MulOneMore(b, len);
      i, b := i + len, b + 1;
    }
  }

  /** The whole in-place transform: the array ends up holding the discrete Fourier transform of what it held. */
  method Transform<T(!new)>(r: Ring<T>, w: T, a: array<T>)
    requires IsRootOfUnity(r, w, a.Length)
    modifies a
    ensures forall m :: 0 <= m < a.Length ==> a[m] == Dft(r, w, old(a[..]), m)
  {
    ghost var x := a[..];
    var n := a.Length;
    BitReverse(a);
    forall p | 0 <= p < n
      ensures a[p] == StageValue(r, w, x, 1, p)
    {
      FirstStage(r, w, x, p);
    }
    var len := 2;
    while len <= n
      invariant len >= 2 && IsPowerOfTwo(len) && len / 2 <= n
      invariant forall p :: 0 <= p < n ==> a[p] == StageValue(r, w, x, len / 2, p)
      decreases 2 * n - len
    {
      ButterflyPass(r, w, a, len, x);
      len := 2 * len;
    }
    assert len / 2 == n by { PowersApart(n, len); }
    forall m | 0 <= m < n
      ensures a[m] == Dft(r, w, x, m)
    {
      LastStage(r, w, x, m);
    }
  }

  /** Between a power of two and its double there is no other. */
  lemma {:induction false} PowersApart(n: nat, len: nat)
    requires IsPowerOfTwo(n) && IsPowerOfTwo(len) && len / 2 <= n < len
    ensures len == 2 * n
  {
    if n > 1 {
      PowersApart(n / 2, len / 2);
    }
  }
}
