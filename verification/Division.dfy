/** Products and quotients by a divisor that is not a constant. */
module Division {

  lemma Distribute(a: int, b: int, c: int)
    ensures (a + b) * c == a * c + b * c
  {}

  lemma MulGap(a: nat, b: nat, d: nat)
    ensures a < b ==> a * d + d <= b * d
  {
    if a < b {
      assert (b - a - 1) * d >= 0;
      assert b * d == a * d + d + (b - a - 1) * d by { assert b == a + 1 + (b - a - 1); }
    }
  }

  /** Quotient and remainder are determined by their equation. */
  lemma Quotient(p: nat, d: nat, q: nat, m: nat)
    requires p == q * d + m && m < d
    ensures p / d == q && p % d == m
  {
    MulGap(p / d, q, d);
    MulGap(q, p / d, d);
    assert p == (p / d) * d + p % d;
  }

  // ---- Products as values of a function -----------------------------------------------------

  /** The product, by repeated addition: a proof then names the laws of multiplication it needs. */
  function Mul(a: nat, b: nat): nat {
    if b == 0 then 0 else Mul(a, b - 1) + a
  }

  lemma {:induction false} MulIsProduct(a: nat, b: nat)
    ensures Mul(a, b) == a * b
  {
    if b > 0 {
      MulIsProduct(a, b - 1);
      assert a * b == a * (b - 1) + a;
    }
  }

  lemma {:induction false} MulAdd(a: nat, b: nat, c: nat)
    ensures Mul(a, b + c) == Mul(a, b) + Mul(a, c)
  {
    if c > 0 {
      MulAdd(a, b, c - 1);
    }
  }

  lemma {:induction false} AddMul(a: nat, b: nat, c: nat)
    ensures Mul(a + b, c) == Mul(a, c) + Mul(b, c)
  {
    if c > 0 {
      AddMul(a, b, c - 1);
    }
  }

  lemma {:induction false} MulOne(a: nat)
    ensures Mul(a, 1) == a && Mul(1, a) == a && Mul(0, a) == 0
  {
    if a > 0 {
      MulOne(a - 1);
    }
  }

  lemma {:induction false} MulCommutes(a: nat, b: nat)
    ensures Mul(a, b) == Mul(b, a)
  {
    if b == 0 {
      MulOne(a);
    } else {
      MulCommutes(a, b - 1);
      AddMul(b - 1, 1, a);
      MulOne(a);
    }
  }

  lemma {:induction false} MulMul(a: nat, b: nat, c: nat)
    ensures Mul(Mul(a, b), c) == Mul(a, Mul(b, c))
  {
    if c > 0 {
      MulMul(a, b, c - 1);
      MulAdd(a, Mul(b, c - 1), b);
    }
  }

  lemma MulTwice(a: nat, b: nat)
    ensures Mul(a, 2 * b) == Mul(2 * a, b) == 2 * Mul(a, b)
  {
    MulAdd(a, b, b);
    AddMul(a, a, b);
  }

  lemma MulOneMore(a: nat, b: nat)
    ensures Mul(a + 1, b) == Mul(a, b) + b
  {
    AddMul(a, 1, b);
    MulOne(b);
  }

  /** One multiple below another leaves room for a whole divisor. */
  lemma MulFits(a: nat, b: nat, d: nat)
    requires Mul(a, d) < Mul(b, d)
    ensures a < b && Mul(a, d) + d <= Mul(b, d)
  {
    MulIsProduct(a, d);
    MulIsProduct(b, d);
    MulGap(b, a, d);
    MulGap(a, b, d);
  }
}
