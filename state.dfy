/**
 * The prover state of the Dory inner-product reduction: the vectors v1, v2,
 * s1, s2, the five operations of a reduction session, and the identities
 * that make each message meaningful: what the verifier can compute about
 * the next state from the message, the challenge and the public setup alone.
 *
 * Every operation is a pure function: the message computations read the
 * state, combine and fold return a new state, and the scalar-product step
 * returns a message and no state.
 */
module State {
  import opened Field
  import opened Vectors
  import opened Messages

  /**
   * Public parameters: for each vector length n the generators Gamma1 and
   * Gamma2 of that length, and the two base points H1, H2.
   */
  datatype Setup = Setup(
    gamma1: map<nat, seq<Elem>>,
    gamma2: map<nat, seq<Elem>>,
    h1: Elem,
    h2: Elem)
  {
    /** The setup supplies generators of length n. */
    predicate Covers(n: nat) {
      n in gamma1 && n in gamma2 && |gamma1[n]| == n && |gamma2[n]| == n
    }
  }

  datatype ProverState = ProverState(v1: seq<Elem>, v2: seq<Elem>, s1: seq<Elem>, s2: seq<Elem>)
  {
    /** The current round length L. */
    function Len(): nat {
      |v1|
    }

    /** All four vectors have the same length L. */
    predicate Valid() {
      |v2| == |v1| && |s1| == |v1| && |s2| == |v1|
    }

    /** The state can be split into two halves of equal length. */
    predicate Reducible() {
      Valid() && Len() >= 2 && Len() % 2 == 0
    }
  }

  /**
   * The first Dory-Reduce message, from the full-length generators Gamma1,
   * Gamma2 and the half-length generators Gamma1', Gamma2'.
   */
  function ComputeFirstReduceMessage(s: ProverState, setup: Setup): FirstReduceMessage
    requires s.Reducible() && setup.Covers(s.Len()) && setup.Covers(s.Len() / 2)
  {
    var g1, g2 := setup.gamma1[s.Len()], setup.gamma2[s.Len()];
    var g1h, g2h := setup.gamma1[s.Len() / 2], setup.gamma2[s.Len() / 2];
    FirstReduceMessage(
      Inner(Left(s.v1), g2h), Inner(Right(s.v1), g2h),
      Inner(g1h, Left(s.v2)), Inner(g1h, Right(s.v2)),
      Inner(g1, s.s2), Inner(s.s1, g2))
  }

  /** v1 <- v1 + beta Gamma1, v2 <- v2 + beta^-1 Gamma2; s1 and s2 are kept. */
  function ReduceCombine(s: ProverState, setup: Setup, beta: NonZero): (r: ProverState)
    requires s.Valid() && s.Len() >= 2 && setup.Covers(s.Len())
    ensures r.Valid() && r.Len() == s.Len()
    ensures r.s1 == s.s1 && r.s2 == s.s2
    ensures forall i {:trigger r.v1[i]} :: 0 <= i < s.Len() ==> r.v1[i] == Add(s.v1[i], Mul(beta, setup.gamma1[s.Len()][i]))
    ensures forall i {:trigger r.v2[i]} :: 0 <= i < s.Len() ==> r.v2[i] == Add(s.v2[i], Mul(Inv(beta), setup.gamma2[s.Len()][i]))
  {
    ProverState(
      Plus(s.v1, Scale(beta, setup.gamma1[s.Len()])),
      Plus(s.v2, Scale(Inv(beta), setup.gamma2[s.Len()])),
      s.s1, s.s2)
  }

  /** The second Dory-Reduce message: the cross terms between the halves. */
  function ComputeSecondReduceMessage(s: ProverState): SecondReduceMessage
    requires s.Reducible()
  {
    SecondReduceMessage(
      Inner(Left(s.v1), Right(s.v2)), Inner(Right(s.v1), Left(s.v2)),
      Inner(Left(s.v1), Right(s.s2)), Inner(Right(s.v1), Left(s.s2)),
      Inner(Left(s.s1), Right(s.v2)), Inner(Right(s.s1), Left(s.v2)))
  }

  /**
   * v1' = alpha v1L + v1R, v2' = alpha^-1 v2L + v2R,
   * s1' = alpha s1L + s1R, s2' = alpha^-1 s2L + s2R.
   */
  function ReduceFold(s: ProverState, alpha: NonZero): (r: ProverState)
    requires s.Reducible()
    ensures r.Valid() && r.Len() == s.Len() / 2
    ensures forall i {:trigger r.v1[i]} :: 0 <= i < r.Len() ==> r.v1[i] == Add(Mul(alpha, s.v1[i]), s.v1[i + s.Len() / 2])
    ensures forall i {:trigger r.v2[i]} :: 0 <= i < r.Len() ==> r.v2[i] == Add(Mul(Inv(alpha), s.v2[i]), s.v2[i + s.Len() / 2])
    ensures forall i {:trigger r.s1[i]} :: 0 <= i < r.Len() ==> r.s1[i] == Add(Mul(alpha, s.s1[i]), s.s1[i + s.Len() / 2])
    ensures forall i {:trigger r.s2[i]} :: 0 <= i < r.Len() ==> r.s2[i] == Add(Mul(Inv(alpha), s.s2[i]), s.s2[i + s.Len() / 2])
  {
    ProverState(
      FoldHalves(alpha, s.v1), FoldHalves(Inv(alpha), s.v2),
      FoldHalves(alpha, s.s1), FoldHalves(Inv(alpha), s.s2))
  }

  /** E1 = v1 + gamma s1 H2, E2 = v2 + gamma^-1 s2 H1, on a state of length 1. */
  function ComputeScalarProductMessage(s: ProverState, setup: Setup, gamma: NonZero): ScalarProductMessage
    requires s.Valid() && s.Len() == 1
  {
    ScalarProductMessage(
      Add(s.v1[0], Mul(Mul(gamma, s.s1[0]), setup.h2)),
      Add(s.v2[0], Mul(Mul(Inv(gamma), s.s2[0]), setup.h1)))
  }

  // ----- what each message tells the verifier about the next state -----

  /**
   * After combining with beta, the cross terms <v1, s2> and <s1, v2> move by
   * beta E_1beta and beta^-1 E_2beta, and <v1, v2> becomes
   * C + beta^-1 <v1, Gamma2> + beta <Gamma1, v2> + <Gamma1, Gamma2>.
   */
  lemma CombineCrossTerms(s: ProverState, setup: Setup, beta: NonZero)
    requires s.Reducible() && setup.Covers(s.Len()) && setup.Covers(s.Len() / 2)
    ensures
      var m, c := ComputeFirstReduceMessage(s, setup), ReduceCombine(s, setup, beta);
      Inner(c.v1, c.s2) == Add(Inner(s.v1, s.s2), Mul(beta, m.e1Beta)) &&
      Inner(c.s1, c.v2) == Add(Inner(s.s1, s.v2), Mul(Inv(beta), m.e2Beta))
    ensures
      var c, g1, g2 := ReduceCombine(s, setup, beta), setup.gamma1[s.Len()], setup.gamma2[s.Len()];
      Inner(c.v1, c.v2) ==
        Add(Add(Inner(s.v1, s.v2), Mul(Inv(beta), Inner(s.v1, g2))),
            Add(Mul(beta, Inner(g1, s.v2)), Inner(g1, g2)))
  {
    var g1, g2 := setup.gamma1[s.Len()], setup.gamma2[s.Len()];
    var b1, b2 := Scale(beta, g1), Scale(Inv(beta), g2);
    // <v1 + beta Gamma1, s2>
    InnerPlusLeft(s.v1, b1, s.s2);
    InnerScaleLeft(beta, g1, s.s2);
    // <s1, v2 + beta^-1 Gamma2>
    InnerPlusRight(s.v2, b2, s.s1);
    InnerScaleRight(Inv(beta), g2, s.s1);
    // <v1 + beta Gamma1, v2 + beta^-1 Gamma2>
    var w2 := Plus(s.v2, b2);
    InnerPlusLeft(s.v1, b1, w2);
    InnerPlusRight(s.v2, b2, s.v1);
    InnerScaleRight(Inv(beta), g2, s.v1);
    InnerScaleLeft(beta, g1, w2);
    InnerPlusRight(s.v2, b2, g1);
    InnerScaleRight(Inv(beta), g2, g1);
    Distrib(beta, Inner(g1, s.v2), Mul(Inv(beta), Inner(g1, g2)));
    InvCancel(beta, Inner(g1, g2));
  }

  /** <alpha xL + xR, alpha^-1 yL + yR> by bilinearity, before regrouping. */
  lemma FoldPairingExpand(alpha: NonZero, x: seq<Elem>, y: seq<Elem>)
    requires |x| == |y| && |x| % 2 == 0
    ensures Inner(FoldHalves(alpha, x), FoldHalves(Inv(alpha), y)) ==
      Add(Mul(alpha, Add(Mul(Inv(alpha), Inner(Left(x), Left(y))), Inner(Left(x), Right(y)))),
          Add(Mul(Inv(alpha), Inner(Right(x), Left(y))), Inner(Right(x), Right(y))))
  {
    var ai := Inv(alpha);
    var xL, xR, yL, yR := Left(x), Right(x), Left(y), Right(y);
    var y' := FoldHalves(ai, y);
    InnerPlusLeft(Scale(alpha, xL), xR, y');
    InnerScaleLeft(alpha, xL, y');
    InnerPlusRight(Scale(ai, yL), yR, xL);
    InnerScaleRight(ai, yL, xL);
    InnerPlusRight(Scale(ai, yL), yR, xR);
    InnerScaleRight(ai, yL, xR);
  }

  /** <alpha xL + xR, alpha^-1 yL + yR> = <x, y> + alpha <xL, yR> + alpha^-1 <xR, yL>. */
  lemma FoldPairing(alpha: NonZero, x: seq<Elem>, y: seq<Elem>)
    requires |x| == |y| && |x| % 2 == 0
    ensures Inner(FoldHalves(alpha, x), FoldHalves(Inv(alpha), y)) ==
      Add(Add(Inner(x, y), Mul(alpha, Inner(Left(x), Right(y)))), Mul(Inv(alpha), Inner(Right(x), Left(y))))
  {
    FoldPairingExpand(alpha, x, y);
    RegroupFold(alpha, Inner(Left(x), Left(y)), Inner(Left(x), Right(y)), Inner(Right(x), Left(y)), Inner(Right(x), Right(y)));
    InnerHalves(x, y);
  }

  /**
   * After folding with alpha, each of <v1, v2>, <v1, s2>, <s1, v2> becomes
   * its old value plus alpha times the "+" term and alpha^-1 times the "-"
   * term of the second message.
   */
  lemma FoldCrossTerms(s: ProverState, alpha: NonZero)
    requires s.Reducible()
    ensures
      var m, f := ComputeSecondReduceMessage(s), ReduceFold(s, alpha);
      Inner(f.v1, f.v2) == Add(Add(Inner(s.v1, s.v2), Mul(alpha, m.cPlus)), Mul(Inv(alpha), m.cMinus)) &&
      Inner(f.v1, f.s2) == Add(Add(Inner(s.v1, s.s2), Mul(alpha, m.e1Plus)), Mul(Inv(alpha), m.e1Minus)) &&
      Inner(f.s1, f.v2) == Add(Add(Inner(s.s1, s.v2), Mul(alpha, m.e2Plus)), Mul(Inv(alpha), m.e2Minus))
  {
    FoldPairing(alpha, s.v1, s.v2);
    FoldPairing(alpha, s.v1, s.s2);
    FoldPairing(alpha, s.s1, s.v2);
  }

  /**
   * The commitments <v1, Gamma2'> and <Gamma1', v2> of the state a round
   * produces follow from the first message and setup values:
   *   alpha (D_1L + beta <Gamma1L, Gamma2'>) + D_1R + beta <Gamma1R, Gamma2'>
   *   alpha^-1 (D_2L + beta^-1 <Gamma1', Gamma2L>) + D_2R + beta^-1 <Gamma1', Gamma2R>
   */
  lemma FoldedCommitments(s: ProverState, setup: Setup, beta: NonZero, alpha: NonZero)
    requires s.Reducible() && setup.Covers(s.Len()) && setup.Covers(s.Len() / 2)
    ensures
      var m, f := ComputeFirstReduceMessage(s, setup), ReduceFold(ReduceCombine(s, setup, beta), alpha);
      var g1, g2 := setup.gamma1[s.Len()], setup.gamma2[s.Len()];
      var g1h, g2h := setup.gamma1[s.Len() / 2], setup.gamma2[s.Len() / 2];
      Inner(f.v1, g2h) ==
        Add(Mul(alpha, Add(m.d1L, Mul(beta, Inner(Left(g1), g2h)))),
            Add(m.d1R, Mul(beta, Inner(Right(g1), g2h)))) &&
      Inner(g1h, f.v2) ==
        Add(Mul(Inv(alpha), Add(m.d2L, Mul(Inv(beta), Inner(g1h, Left(g2))))),
            Add(m.d2R, Mul(Inv(beta), Inner(g1h, Right(g2)))))
  {
    var g1, g2 := setup.gamma1[s.Len()], setup.gamma2[s.Len()];
    var g1h, g2h := setup.gamma1[s.Len() / 2], setup.gamma2[s.Len() / 2];
    var c := ReduceCombine(s, setup, beta);
    var ai, bi := Inv(alpha), Inv(beta);
    // halves of the combined vectors
    HalvesOfPlus(s.v1, Scale(beta, g1));
    HalvesOfScale(beta, g1);
    HalvesOfPlus(s.v2, Scale(bi, g2));
    HalvesOfScale(bi, g2);
    var l1, r1 := Left(c.v1), Right(c.v1);
    var l2, r2 := Left(c.v2), Right(c.v2);
    // <alpha l1 + r1, Gamma2'>
    InnerPlusLeft(Scale(alpha, l1), r1, g2h);
    InnerScaleLeft(alpha, l1, g2h);
    InnerPlusLeft(Left(s.v1), Scale(beta, Left(g1)), g2h);
    InnerScaleLeft(beta, Left(g1), g2h);
    InnerPlusLeft(Right(s.v1), Scale(beta, Right(g1)), g2h);
    InnerScaleLeft(beta, Right(g1), g2h);
    // <Gamma1', alpha^-1 l2 + r2>
    InnerPlusRight(Scale(ai, l2), r2, g1h);
    InnerScaleRight(ai, l2, g1h);
    InnerPlusRight(Left(s.v2), Scale(bi, Left(g2)), g1h);
    InnerScaleRight(bi, Left(g2), g1h);
    InnerPlusRight(Right(s.v2), Scale(bi, Right(g2)), g1h);
    InnerScaleRight(bi, Right(g2), g1h);
  }

  /**
   * The pairing of the two scalar-product elements expands to
   * C + gamma^-1 H1 <v1, s2> + gamma H2 <s1, v2> + H1 H2 <s1, s2>.
   */
  lemma ScalarProductExpansion(s: ProverState, setup: Setup, gamma: NonZero)
    requires s.Valid() && s.Len() == 1
    ensures
      var m := ComputeScalarProductMessage(s, setup, gamma);
      Mul(m.e1, m.e2) ==
        Add(Add(Inner(s.v1, s.v2), Mul(Mul(Inv(gamma), setup.h1), Inner(s.v1, s.s2))),
            Add(Mul(Mul(gamma, setup.h2), Inner(s.s1, s.v2)), Mul(Mul(setup.h1, setup.h2), Inner(s.s1, s.s2))))
  {
    InnerSingle(s.v1, s.v2);
    InnerSingle(s.v1, s.s2);
    InnerSingle(s.s1, s.v2);
    InnerSingle(s.s1, s.s2);
    ExpandBlindedProduct(s.v1[0], s.v2[0], s.s1[0], s.s2[0], setup.h1, setup.h2, gamma);
  }
}
