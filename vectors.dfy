/**
 * Vectors over the toy field: the pairing sum <a, b>, elementwise addition,
 * scaling by a challenge, and the left/right halves a reduction round splits
 * a vector into. The lemmas are the bilinearity facts the round identities
 * of the prover state are built from.
 */
module Vectors {
  import opened Field

  /** The pairing sum <a, b> = sum over i of e(a[i], b[i]); e is Mul here. */
  function Inner(a: seq<Elem>, b: seq<Elem>): Elem
    requires |a| == |b|
    decreases |a|
  {
    if |a| == 0 then 0 else Add(Mul(a[0], b[0]), Inner(a[1..], b[1..]))
  }

  /** Elementwise sum a + b. */
  function Plus(a: seq<Elem>, b: seq<Elem>): (r: seq<Elem>)
    requires |a| == |b|
    ensures |r| == |a|
  {
    seq(|a|, i requires 0 <= i < |a| => Add(a[i], b[i]))
  }

  /** The scalar multiple c * a. */
  function Scale(c: Elem, a: seq<Elem>): (r: seq<Elem>)
    ensures |r| == |a|
  {
    seq(|a|, i requires 0 <= i < |a| => Mul(c, a[i]))
  }

  /** The left half a_L: the first |a| / 2 entries. */
  function Left(a: seq<Elem>): seq<Elem> {
    a[..|a| / 2]
  }

  /** The right half a_R: the entries after the left half. */
  function Right(a: seq<Elem>): seq<Elem> {
    a[|a| / 2..]
  }

  /** The fold c * a_L + a_R of a vector of even length. */
  function FoldHalves(c: Elem, a: seq<Elem>): (r: seq<Elem>)
    requires |a| % 2 == 0
    ensures |r| == |a| / 2
  {
    Plus(Scale(c, Left(a)), Right(a))
  }

  // ----- bilinearity of the pairing sum -----

  lemma {:induction false} InnerAppend(a1: seq<Elem>, a2: seq<Elem>, b1: seq<Elem>, b2: seq<Elem>)
    requires |a1| == |b1| && |a2| == |b2|
    ensures Inner(a1 + a2, b1 + b2) == Add(Inner(a1, b1), Inner(a2, b2))
  {
    if |a1| == 0 {
      assert a1 + a2 == a2 && b1 + b2 == b2;
    } else {
      assert (a1 + a2)[1..] == a1[1..] + a2;
      assert (b1 + b2)[1..] == b1[1..] + b2;
      InnerAppend(a1[1..], a2, b1[1..], b2);
      AddAssoc(Mul(a1[0], b1[0]), Inner(a1[1..], b1[1..]), Inner(a2, b2));
    }
  }

  /** <a, b> = <a_L, b_L> + <a_R, b_R>. */
  lemma InnerHalves(a: seq<Elem>, b: seq<Elem>)
    requires |a| == |b|
    ensures Inner(a, b) == Add(Inner(Left(a), Left(b)), Inner(Right(a), Right(b)))
  {
    assert a == Left(a) + Right(a);
    assert b == Left(b) + Right(b);
    InnerAppend(Left(a), Right(a), Left(b), Right(b));
  }

  lemma InnerSingle(a: seq<Elem>, b: seq<Elem>)
    requires |a| == |b| == 1
    ensures Inner(a, b) == Mul(a[0], b[0])
  {
    assert Inner(a[1..], b[1..]) == 0;
  }

  lemma {:induction false} InnerComm(a: seq<Elem>, b: seq<Elem>)
    requires |a| == |b|
    ensures Inner(a, b) == Inner(b, a)
  {
    if |a| > 0 {
      InnerComm(a[1..], b[1..]);
    }
  }

  lemma {:induction false} InnerPlusLeft(x: seq<Elem>, y: seq<Elem>, z: seq<Elem>)
    requires |x| == |y| == |z|
    ensures Inner(Plus(x, y), z) == Add(Inner(x, z), Inner(y, z))
  {
    if |x| > 0 {
      assert Plus(x, y)[1..] == Plus(x[1..], y[1..]);
      DistribRight(z[0], x[0], y[0]);
      InnerPlusLeft(x[1..], y[1..], z[1..]);
      AddSwap(Mul(x[0], z[0]), Mul(y[0], z[0]), Inner(x[1..], z[1..]), Inner(y[1..], z[1..]));
    }
  }

  lemma InnerPlusRight(x: seq<Elem>, y: seq<Elem>, z: seq<Elem>)
    requires |x| == |y| == |z|
    ensures Inner(z, Plus(x, y)) == Add(Inner(z, x), Inner(z, y))
  {
    InnerComm(z, Plus(x, y));
    InnerComm(z, x);
    InnerComm(z, y);
    InnerPlusLeft(x, y, z);
  }

  lemma {:induction false} InnerScaleLeft(c: Elem, x: seq<Elem>, z: seq<Elem>)
    requires |x| == |z|
    ensures Inner(Scale(c, x), z) == Mul(c, Inner(x, z))
  {
    if |x| > 0 {
      assert Scale(c, x)[1..] == Scale(c, x[1..]);
      InnerScaleLeft(c, x[1..], z[1..]);
      MulAssoc(c, x[0], z[0]);
      Distrib(c, Mul(x[0], z[0]), Inner(x[1..], z[1..]));
    }
  }

  lemma InnerScaleRight(c: Elem, x: seq<Elem>, z: seq<Elem>)
    requires |x| == |z|
    ensures Inner(z, Scale(c, x)) == Mul(c, Inner(z, x))
  {
    InnerComm(z, Scale(c, x));
    InnerComm(z, x);
    InnerScaleLeft(c, x, z);
  }

  // ----- halves of sums and multiples -----

  lemma HalvesOfPlus(x: seq<Elem>, y: seq<Elem>)
    requires |x| == |y|
    ensures Left(Plus(x, y)) == Plus(Left(x), Left(y))
    ensures Right(Plus(x, y)) == Plus(Right(x), Right(y))
  {
  }

  lemma HalvesOfScale(c: Elem, x: seq<Elem>)
    ensures Left(Scale(c, x)) == Scale(c, Left(x))
    ensures Right(Scale(c, x)) == Scale(c, Right(x))
  {
  }
}
