/**
 * The toy algebra the protocol is modelled over: the prime field Z/7.
 *
 * Every group of the protocol (G1, G2, the target group GT) and the scalar
 * field collapse to this one field; the bilinear pairing e(a, b) becomes the
 * product a * b, and group addition becomes field addition. Elements are kept
 * in canonical form 0 <= x < 7.
 */
module Field {

  const P: int := 7

  /** A canonical residue modulo P. */
  type Elem = x: int | 0 <= x < P

  /** A challenge: an invertible (non-zero) field element. */
  type NonZero = x: Elem | x != 0 witness 1

  function Add(a: Elem, b: Elem): Elem {
    (a + b) % P
  }

  function Mul(a: Elem, b: Elem): Elem {
    (a * b) % P
  }

  /** Multiplicative inverse, read off the multiplication table of Z/7. */
  function Inv(a: NonZero): (r: NonZero)
    ensures Mul(a, r) == 1
    ensures Mul(r, a) == 1
  {
    if a == 1 then 1
    else if a == 2 then 4
    else if a == 3 then 5
    else if a == 4 then 2
    else if a == 5 then 3
    else 6
  }

  // ----- modular-arithmetic helpers, over unbounded integers -----

  lemma ModShift(z: int, k: int)
    ensures (P * k + z) % P == z % P
  {
  }

  lemma ModMulLeft(x: int, y: int)
    ensures ((x % P) * y) % P == (x * y) % P
  {
    var q := x / P;
    assert x == P * q + x % P;
    assert x * y == P * (q * y) + (x % P) * y;
    ModShift((x % P) * y, q * y);
  }

  lemma ModMulRight(x: int, y: int)
    ensures (x * (y % P)) % P == (x * y) % P
  {
    ModMulLeft(y, x);
    assert x * (y % P) == (y % P) * x;
  }

  lemma ModAdd(x: int, y: int)
    ensures ((x % P) + (y % P)) % P == (x + y) % P
  {
    ModShift((x % P) + (y % P), x / P + y / P);
  }

  lemma ModAddAssoc(a: int, b: int, c: int)
    ensures ((a + b) % P + c) % P == (a + (b + c) % P) % P
  {
    ModShift((a + b) % P + c, (a + b) / P);
    ModShift(a + (b + c) % P, (b + c) / P);
  }

  lemma ModMulAssoc(a: int, b: int, c: int)
    ensures (((a * b) % P) * c) % P == (a * ((b * c) % P)) % P
  {
    calc {
      (((a * b) % P) * c) % P;
      { ModMulLeft(a * b, c); }
      ((a * b) * c) % P;
      { assert (a * b) * c == a * (b * c); }
      (a * (b * c)) % P;
      { ModMulRight(a, b * c); }
      (a * ((b * c) % P)) % P;
    }
  }

  lemma ModDistrib(a: int, b: int, c: int)
    ensures (a * ((b + c) % P)) % P == ((a * b) % P + (a * c) % P) % P
  {
    calc {
      (a * ((b + c) % P)) % P;
      { ModMulRight(a, b + c); }
      (a * (b + c)) % P;
      { assert a * (b + c) == a * b + a * c; }
      (a * b + a * c) % P;
      { ModAdd(a * b, a * c); }
      ((a * b) % P + (a * c) % P) % P;
    }
  }

  // ----- the field laws the protocol's algebra uses -----

  lemma MulComm(a: Elem, b: Elem)
    ensures Mul(a, b) == Mul(b, a)
  {
  }

  lemma MulOne(a: Elem)
    ensures Mul(1, a) == a
  {
  }

  lemma AddAssoc(a: Elem, b: Elem, c: Elem)
    ensures Add(Add(a, b), c) == Add(a, Add(b, c))
  {
    ModAddAssoc(a, b, c);
  }

  /** Exchanging the middle terms of a sum of four. */
  lemma AddSwap(a: Elem, b: Elem, c: Elem, d: Elem)
    ensures Add(Add(a, b), Add(c, d)) == Add(Add(a, c), Add(b, d))
  {
    AddAssoc(a, b, Add(c, d));
    AddAssoc(b, c, d);
    AddAssoc(c, b, d);
    AddAssoc(a, c, Add(b, d));
  }

  lemma MulAssoc(a: Elem, b: Elem, c: Elem)
    ensures Mul(Mul(a, b), c) == Mul(a, Mul(b, c))
  {
    ModMulAssoc(a, b, c);
  }

  lemma Distrib(a: Elem, b: Elem, c: Elem)
    ensures Mul(a, Add(b, c)) == Add(Mul(a, b), Mul(a, c))
  {
    ModDistrib(a, b, c);
  }

  lemma DistribRight(a: Elem, b: Elem, c: Elem)
    ensures Mul(Add(b, c), a) == Add(Mul(b, a), Mul(c, a))
  {
    Distrib(a, b, c);
  }

  /** Exchanging the middle factors of a product of four. */
  lemma MulSwap(a: Elem, b: Elem, c: Elem, d: Elem)
    ensures Mul(Mul(a, b), Mul(c, d)) == Mul(Mul(a, c), Mul(b, d))
  {
    MulAssoc(a, b, Mul(c, d));
    MulAssoc(b, c, d);
    MulAssoc(c, b, d);
    MulAssoc(a, c, Mul(b, d));
  }

  /** Multiplying by a challenge and then by its inverse is the identity. */
  lemma InvCancel(c: NonZero, x: Elem)
    ensures Mul(c, Mul(Inv(c), x)) == x
    ensures Mul(Inv(c), Mul(c, x)) == x
  {
    MulAssoc(c, Inv(c), x);
    MulAssoc(Inv(c), c, x);
  }

  /**
   * alpha (alpha^-1 ll + lr) + (alpha^-1 rl + rr) = ((ll + rr) + alpha lr) + alpha^-1 rl:
   * the regrouping behind the fold identity of a reduction round.
   */
  lemma RegroupFold(alpha: NonZero, ll: Elem, lr: Elem, rl: Elem, rr: Elem)
    ensures Add(Mul(alpha, Add(Mul(Inv(alpha), ll), lr)), Add(Mul(Inv(alpha), rl), rr)) ==
      Add(Add(Add(ll, rr), Mul(alpha, lr)), Mul(Inv(alpha), rl))
  {
    assert Add(Mul(Inv(alpha), rl), rr) == Add(rr, Mul(Inv(alpha), rl));
    Distrib(alpha, Mul(Inv(alpha), ll), lr);
    InvCancel(alpha, ll);
    AddSwap(ll, Mul(alpha, lr), rr, Mul(Inv(alpha), rl));
    AddAssoc(Add(ll, rr), Mul(alpha, lr), Mul(Inv(alpha), rl));
  }

  /**
   * (a + (g p) h2)(b + (g^-1 q) h1)
   *   = a b + (g^-1 h1)(a q) + (g h2)(p b) + (h1 h2)(p q).
   */
  lemma ExpandBlindedProduct(a: Elem, b: Elem, p: Elem, q: Elem, h1: Elem, h2: Elem, g: NonZero)
    ensures Mul(Add(a, Mul(Mul(g, p), h2)), Add(b, Mul(Mul(Inv(g), q), h1))) ==
      Add(Add(Mul(a, b), Mul(Mul(Inv(g), h1), Mul(a, q))),
          Add(Mul(Mul(g, h2), Mul(p, b)), Mul(Mul(h1, h2), Mul(p, q))))
  {
    var gi := Inv(g);
    var x, y := Mul(Mul(g, p), h2), Mul(Mul(gi, q), h1);
    calc {
      Mul(Add(a, x), Add(b, y));
      { DistribRight(Add(b, y), a, x); }
      Add(Mul(a, Add(b, y)), Mul(x, Add(b, y)));
      { Distrib(a, b, y); Distrib(x, b, y); }
      Add(Add(Mul(a, b), Mul(a, y)), Add(Mul(x, b), Mul(x, y)));
      { BlindedTermA(a, q, h1, gi); BlindedTermB(b, p, h2, g); BlindedTermC(p, q, h1, h2, g); }
      Add(Add(Mul(a, b), Mul(Mul(gi, h1), Mul(a, q))),
          Add(Mul(Mul(g, h2), Mul(p, b)), Mul(Mul(h1, h2), Mul(p, q))));
    }
  }

  lemma BlindedTermA(a: Elem, q: Elem, h1: Elem, gi: Elem)
    ensures Mul(a, Mul(Mul(gi, q), h1)) == Mul(Mul(gi, h1), Mul(a, q))
  {
    calc {
      Mul(a, Mul(Mul(gi, q), h1));
      { MulAssoc(gi, q, h1); }
      Mul(a, Mul(gi, Mul(q, h1)));
      { MulAssoc(a, gi, Mul(q, h1)); }
      Mul(Mul(a, gi), Mul(q, h1));
      { MulSwap(a, gi, q, h1); }
      Mul(Mul(a, q), Mul(gi, h1));
    }
  }

  lemma BlindedTermB(b: Elem, p: Elem, h2: Elem, g: Elem)
    ensures Mul(Mul(Mul(g, p), h2), b) == Mul(Mul(g, h2), Mul(p, b))
  {
    calc {
      Mul(Mul(Mul(g, p), h2), b);
      { MulAssoc(Mul(g, p), h2, b); }
      Mul(Mul(g, p), Mul(h2, b));
      { MulSwap(g, p, h2, b); }
      Mul(Mul(g, h2), Mul(p, b));
    }
  }

  lemma BlindedTermC(p: Elem, q: Elem, h1: Elem, h2: Elem, g: NonZero)
    ensures Mul(Mul(Mul(g, p), h2), Mul(Mul(Inv(g), q), h1)) == Mul(Mul(h1, h2), Mul(p, q))
  {
    var gi := Inv(g);
    calc {
      Mul(Mul(Mul(g, p), h2), Mul(Mul(gi, q), h1));
      { MulAssoc(g, p, h2); MulAssoc(gi, q, h1); }
      Mul(Mul(g, Mul(p, h2)), Mul(gi, Mul(q, h1)));
      { MulSwap(g, Mul(p, h2), gi, Mul(q, h1)); }
      Mul(Mul(g, gi), Mul(Mul(p, h2), Mul(q, h1)));
      { assert Mul(g, gi) == 1; MulOne(Mul(Mul(p, h2), Mul(q, h1))); }
      Mul(Mul(p, h2), Mul(q, h1));
      { MulSwap(p, h2, q, h1); }
      Mul(Mul(p, q), Mul(h2, h1));
      { MulComm(h2, h1); MulComm(Mul(p, q), Mul(h1, h2)); }
      Mul(Mul(h1, h2), Mul(p, q));
    }
  }
}
