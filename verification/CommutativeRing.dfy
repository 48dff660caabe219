/** Arithmetic the signal path needs, as a value: a commutative ring with its operations, and powers in it.
    The laws are stated at one triple of elements so that a proof names the instances it uses. */
module CommutativeRing {
  import opened Division

  datatype Ring<!T> = Ring(zero: T, one: T, add: (T, T) -> T, sub: (T, T) -> T, mul: (T, T) -> T) {

    ghost predicate Laws(x: T, y: T, z: T) {
      && add(x, y) == add(y, x)
      && add(add(x, y), z) == add(x, add(y, z))
      && add(x, zero) == x
      && add(sub(x, y), y) == x
      && sub(add(x, y), y) == x
      && mul(x, y) == mul(y, x)
      && mul(mul(x, y), z) == mul(x, mul(y, z))
      && mul(x, one) == x
      && mul(x, add(y, z)) == add(mul(x, y), mul(x, z))
    }

    function Pow(x: T, n: nat): T {
      if n == 0 then one else mul(Pow(x, n - 1), x)
    }

    /** The additive inverse of one. */
    function MinusOne(): T {
      sub(zero, one)
    }
  }

  ghost predicate IsRing<T(!new)>(r: Ring<T>) {
    forall x, y, z :: r.Laws(x, y, z)
  }

  lemma {:induction false} PowAdd<T(!new)>(r: Ring<T>, x: T, m: nat, n: nat)
    requires IsRing(r)
    ensures r.Pow(x, m + n) == r.mul(r.Pow(x, m), r.Pow(x, n))
  {
    if n == 0 {
      assert r.Laws(r.Pow(x, m), r.one, r.one);
    } else {
      PowAdd(r, x, m, n - 1);
      assert r.Laws(r.Pow(x, m), r.Pow(x, n - 1), x);
    }
  }

  lemma {:induction false} PowOfUnit<T(!new)>(r: Ring<T>, x: T, n: nat, k: nat)
    requires IsRing(r) && r.Pow(x, n) == r.one
    ensures r.Pow(x, Mul(n, k)) == r.one
  {
    if k != 0 {
      PowOfUnit(r, x, n, k - 1);
      PowAdd(r, x, Mul(n, k - 1), n);
      assert r.Laws(r.one, r.one, r.one);
    }
  }

  lemma MulZero<T(!new)>(r: Ring<T>, x: T)
    requires IsRing(r)
    ensures r.mul(x, r.zero) == r.zero && r.mul(r.zero, x) == r.zero
  {
    var p := r.mul(x, r.zero);
    assert r.Laws(r.zero, r.zero, r.zero);
    assert r.Laws(x, r.zero, r.zero);
    assert r.add(p, p) == p;
    assert r.Laws(p, p, p);
    assert r.Laws(r.zero, p, p);
  }

  /** Multiplying by the inverse of one is what subtraction does. */
  lemma AddNegated<T(!new)>(r: Ring<T>, e: T, p: T, o: T)
    requires IsRing(r)
    ensures r.add(e, r.mul(r.mul(p, r.MinusOne()), o)) == r.sub(e, r.mul(o, p))
  {
    var m, a := r.MinusOne(), r.mul(o, p);
    assert r.mul(r.mul(p, m), o) == r.mul(m, a) by {
      assert r.Laws(p, m, o) && r.Laws(m, p, o) && r.Laws(p, o, o);
    }
    assert r.add(r.mul(m, a), a) == r.zero by {
      assert r.Laws(a, m, r.one) && r.Laws(m, a, a) && r.Laws(r.zero, r.one, r.one);
      MulZero(r, a);
    }
    assert r.Laws(e, r.mul(m, a), a) && r.Laws(e, a, a);
    assert r.Laws(r.add(e, r.mul(m, a)), a, a);
  }

  // ---- The complex numbers ------------------------------------------------------------------

  datatype Complex = Complex(re: real, im: real)

  function Plus(x: Complex, y: Complex): Complex { Complex(x.re + y.re, x.im + y.im) }

  function Minus(x: Complex, y: Complex): Complex { Complex(x.re - y.re, x.im - y.im) }

  function Times(x: Complex, y: Complex): Complex { Complex(x.re * y.re - x.im * y.im, x.re * y.im + x.im * y.re) }

  /** The arithmetic the scanner's transform runs in, without rounding. */
  const COMPLEX_RING: Ring<Complex> := Ring(Complex(0.0, 0.0), Complex(1.0, 0.0), Plus, Minus, Times)

  lemma ComplexIsRing()
    ensures IsRing(COMPLEX_RING)
  {
    forall x, y, z
      ensures COMPLEX_RING.Laws(x, y, z)
    {
      TimesAssociates(x, y, z);
      TimesDistributes(x, y, z);
      TimesCommutes(x, y);
      PlusAndUnits(x, y, z);
    }
  }

  lemma Product(a: real, b: real, c: real)
    ensures (a * b) * c == a * (b * c)
  {}

  lemma Expand(a: real, b: real, c: real)
    ensures (a + b) * c == a * c + b * c && (a - b) * c == a * c - b * c
    ensures c * (a + b) == c * a + c * b && c * (a - b) == c * a - c * b
  {}

  lemma TimesAssociates(x: Complex, y: Complex, z: Complex)
    ensures Times(Times(x, y), z) == Times(x, Times(y, z))
  {
    var a, b, c, d, e, f := x.re, x.im, y.re, y.im, z.re, z.im;
    RealPart(a, b, c, d, e, f);
    ImaginaryPart(a, b, c, d, e, f);
  }

  lemma RealPart(a: real, b: real, c: real, d: real, e: real, f: real)
    ensures (a * c - b * d) * e - (a * d + b * c) * f == a * (c * e - d * f) - b * (c * f + d * e)
  {
    Expand(a * c, b * d, e);
    Expand(a * d, b * c, f);
    Expand(c * e, d * f, a);
    Expand(c * f, d * e, b);
    Product(a, c, e);
    Product(a, d, f);
    Product(b, c, f);
    Product(b, d, e);
  }

  lemma ImaginaryPart(a: real, b: real, c: real, d: real, e: real, f: real)
    ensures (a * c - b * d) * f + (a * d + b * c) * e == a * (c * f + d * e) + b * (c * e - d * f)
  {
    Expand(a * c, b * d, f);
    Expand(a * d, b * c, e);
    Expand(c * f, d * e, a);
    Expand(c * e, d * f, b);
    Product(a, c, f);
    Product(a, d, e);
    Product(b, c, e);
    Product(b, d, f);
  }

  lemma TimesDistributes(x: Complex, y: Complex, z: Complex)
    ensures Times(x, Plus(y, z)) == Plus(Times(x, y), Times(x, z))
  {
    Expand(y.re, z.re, x.re);
    Expand(y.im, z.im, x.im);
    Expand(y.re, z.re, x.im);
    Expand(y.im, z.im, x.re);
  }

  lemma TimesCommutes(x: Complex, y: Complex)
    ensures Times(x, y) == Times(y, x)
  {}

  lemma PlusAndUnits(x: Complex, y: Complex, z: Complex)
    ensures Plus(x, y) == Plus(y, x) && Plus(Plus(x, y), z) == Plus(x, Plus(y, z))
    ensures Plus(x, Complex(0.0, 0.0)) == x && Times(x, Complex(1.0, 0.0)) == x
    ensures Plus(Minus(x, y), y) == x && Minus(Plus(x, y), y) == x
  {}
}
