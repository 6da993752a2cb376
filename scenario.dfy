/**
 * One concrete session in the toy algebra: one round from length 2, with
 * all generators and base points equal to 1, v1 = [2, 3], v2 = [4, 5],
 * s1 = s2 = [1, 1], and a builder whose derivations give beta = 2,
 * alpha = 3 and gamma = 5 whatever the log holds. Every intermediate value
 * is worked out by hand and stated below.
 */
module Scenario {
  import opened Field
  import opened Vectors
  import opened Messages
  import opened State
  import opened Builder
  import opened InnerProduct

  function ExampleSetup(): Setup {
    Setup(map[1 := [1], 2 := [1, 1]], map[1 := [1], 2 := [1, 1]], 1, 1)
  }

  function ExampleState(): ProverState {
    ProverState([2, 3], [4, 5], [1, 1], [1, 1])
  }

  function ExampleChallenge(log: seq<Message>, kind: ChallengeKind): NonZero {
    match kind
    case FirstReduceChallenge => 2
    case SecondReduceChallenge => 3
    case FoldScalarsChallenge => 5
  }

  /** The first message: D_1L = 2, D_1R = 3, D_2L = 4, D_2R = 5, E_1beta = E_2beta = 2. */
  lemma ExampleFirstMessage()
    ensures ComputeFirstReduceMessage(ExampleState(), ExampleSetup()) == FirstReduceMessage(2, 3, 4, 5, 2, 2)
  {
    var s, setup := ExampleState(), ExampleSetup();
    InnerSingle(Left(s.v1), [1]);
    InnerSingle(Right(s.v1), [1]);
    InnerSingle([1], Left(s.v2));
    InnerSingle([1], Right(s.v2));
    assert Inner(setup.gamma1[2], s.s2) == 2 by {
      assert Inner([1, 1][1..], [1, 1][1..]) == 1 by {
        InnerSingle([1], [1]);
      }
    }
    assert Inner(s.s1, setup.gamma2[2]) == 2 by {
      assert Inner([1, 1][1..], [1, 1][1..]) == 1 by {
        InnerSingle([1], [1]);
      }
    }
  }

  /** Combining with beta = 2 (so beta^-1 = 4) gives v1 = [4, 5] and v2 = [1, 2]. */
  lemma ExampleCombine()
    ensures ReduceCombine(ExampleState(), ExampleSetup(), 2) == ProverState([4, 5], [1, 2], [1, 1], [1, 1])
  {
    var c := ReduceCombine(ExampleState(), ExampleSetup(), 2);
    assert c.v1[0] == 4 && c.v1[1] == 5 && c.v2[0] == 1 && c.v2[1] == 2;
  }

  /** With beta = 1 the combination adds Gamma1 and Gamma2 unscaled: v1 = [3, 4] and v2 = [5, 6]. */
  lemma ExampleCombineBetaOne()
    ensures ReduceCombine(ExampleState(), ExampleSetup(), 1) == ProverState([3, 4], [5, 6], [1, 1], [1, 1])
  {
    var c := ReduceCombine(ExampleState(), ExampleSetup(), 1);
    assert c.v1[0] == 3 && c.v1[1] == 4 && c.v2[0] == 5 && c.v2[1] == 6;
  }

  /** The second message on the combined state: C+ = 1, C- = 5, E_1+ = 4, E_1- = 5, E_2+ = 2, E_2- = 1. */
  lemma ExampleSecondMessage()
    ensures ComputeSecondReduceMessage(ProverState([4, 5], [1, 2], [1, 1], [1, 1])) == SecondReduceMessage(1, 5, 4, 5, 2, 1)
  {
    var s := ProverState([4, 5], [1, 2], [1, 1], [1, 1]);
    InnerSingle(Left(s.v1), Right(s.v2));
    InnerSingle(Right(s.v1), Left(s.v2));
    InnerSingle(Left(s.v1), Right(s.s2));
    InnerSingle(Right(s.v1), Left(s.s2));
    InnerSingle(Left(s.s1), Right(s.v2));
    InnerSingle(Right(s.s1), Left(s.v2));
  }

  /** Folding with alpha = 3 (so alpha^-1 = 5) gives v1 = [3], v2 = [0], s1 = [4], s2 = [6]. */
  lemma ExampleFold()
    ensures ReduceFold(ProverState([4, 5], [1, 2], [1, 1], [1, 1]), 3) == ProverState([3], [0], [4], [6])
  {
    var f := ReduceFold(ProverState([4, 5], [1, 2], [1, 1], [1, 1]), 3);
    assert f.v1[0] == 3 && f.v2[0] == 0;
    assert Mul(3, 1) == 3 && Add(3, 1) == 4 && Inv(3) == 5 && Mul(5, 1) == 5 && Add(5, 1) == 6;
    assert f.s1[0] == 4 && f.s2[0] == 6;
  }

  /** With gamma = 5 (so gamma^-1 = 3): E1 = 3 + 5 * 4 * 1 = 2 and E2 = 0 + 3 * 6 * 1 = 4. */
  lemma ExampleScalarProduct()
    ensures ComputeScalarProductMessage(ProverState([3], [0], [4], [6]), ExampleSetup(), 5) == ScalarProductMessage(2, 4)
  {
  }

  /** The one round draws beta = 2 and alpha = 3, appends the two reduce messages and leaves the state at length 1. */
  lemma ExampleRound()
    ensures var r := Rounds(ProofBuilder([]), ExampleState(), ExampleSetup(), 1, ExampleChallenge);
      r.state == ProverState([3], [0], [4], [6]) &&
      r.builder.proof == [FirstReduce(FirstReduceMessage(2, 3, 4, 5, 2, 2)), SecondReduce(SecondReduceMessage(1, 5, 4, 5, 2, 1))] &&
      r.steps == [AppendedFirst(2, 2), Combined(2, 2), AppendedSecond(2, 3), Folded(2, 3)]
  {
    var s, setup := ExampleState(), ExampleSetup();
    assert Pow2(1) == 2 && Pow2(0) == 1;
    assert Ready(s, setup, 1);
    ExampleFirstMessage();
    ExampleCombine();
    ExampleSecondMessage();
    ExampleFold();
    var first := AppendFirstReduceMessage(ProofBuilder([]), ComputeFirstReduceMessage(s, setup), ExampleChallenge);
    assert first == Drawn(2, ProofBuilder([FirstReduce(FirstReduceMessage(2, 3, 4, 5, 2, 2))]));
    var combined := ReduceCombine(s, setup, first.challenge);
    var second := AppendSecondReduceMessage(first.builder, ComputeSecondReduceMessage(combined), ExampleChallenge);
    assert second.challenge == 3;
    var rest := Rounds(second.builder, ReduceFold(combined, second.challenge), setup, 0, ExampleChallenge);
    assert rest == RoundResult(second.builder, ProverState([3], [0], [4], [6]), [], [ProverState([3], [0], [4], [6])]);
    assert Rounds(ProofBuilder([]), s, setup, 1, ExampleChallenge) == RoundThenRest(ProofBuilder([]), s, setup, 1, ExampleChallenge);
  }

  /** The whole session: the proof is the first message, the second message and the scalar-product message. */
  lemma ExampleProof()
    ensures InnerProductProve(ProofBuilder([]), ExampleState(), ExampleSetup(), 1, ExampleChallenge).proof == [
      FirstReduce(FirstReduceMessage(2, 3, 4, 5, 2, 2)),
      SecondReduce(SecondReduceMessage(1, 5, 4, 5, 2, 1)),
      ScalarProduct(ScalarProductMessage(2, 4))]
  {
    assert Pow2(1) == 2 && Pow2(0) == 1;
    assert Ready(ExampleState(), ExampleSetup(), 1);
    ExampleRound();
    ExampleScalarProduct();
  }
}
