/**
 * The proof builder: one accumulated value that is both the Fiat-Shamir
 * transcript and the proof. It is modelled by the ordered log of the
 * messages appended so far. Challenges are drawn from that log by a
 * deterministic, otherwise unknown derivation supplied by the concrete
 * builder (the ChallengeOracle); each of the three drawing methods has its
 * own derivation, named by a ChallengeKind.
 */
module Builder {
  import opened Field
  import opened Messages

  datatype Message =
    | FirstReduce(first: FirstReduceMessage)
    | SecondReduce(second: SecondReduceMessage)
    | ScalarProduct(scalarProduct: ScalarProductMessage)

  datatype ChallengeKind = FirstReduceChallenge | SecondReduceChallenge | FoldScalarsChallenge

  /**
   * How a concrete builder derives a challenge from the accumulated log.
   * Returning an invertible element is that builder's obligation.
   */
  type ChallengeOracle = (seq<Message>, ChallengeKind) -> NonZero

  datatype ProofBuilder = ProofBuilder(proof: seq<Message>)

  /** A challenge together with the builder it was drawn from. */
  datatype Drawn = Drawn(challenge: NonZero, builder: ProofBuilder)

  /** Appends the first reduce message, then draws beta from the extended log. */
  function AppendFirstReduceMessage(b: ProofBuilder, m: FirstReduceMessage, oracle: ChallengeOracle): (r: Drawn)
    ensures r.builder.proof == b.proof + [FirstReduce(m)]
    ensures r.challenge == oracle(r.builder.proof, FirstReduceChallenge)
  {
    var b' := ProofBuilder(b.proof + [FirstReduce(m)]);
    Drawn(oracle(b'.proof, FirstReduceChallenge), b')
  }

  /** Appends the second reduce message, then draws alpha from the extended log. */
  function AppendSecondReduceMessage(b: ProofBuilder, m: SecondReduceMessage, oracle: ChallengeOracle): (r: Drawn)
    ensures r.builder.proof == b.proof + [SecondReduce(m)]
    ensures r.challenge == oracle(r.builder.proof, SecondReduceChallenge)
  {
    var b' := ProofBuilder(b.proof + [SecondReduce(m)]);
    Drawn(oracle(b'.proof, SecondReduceChallenge), b')
  }

  /** Draws gamma from the log as it stands; nothing is appended. */
  function ChallengeFoldScalars(b: ProofBuilder, oracle: ChallengeOracle): (r: Drawn)
    ensures r.builder == b
    ensures r.challenge == oracle(b.proof, FoldScalarsChallenge)
  {
    Drawn(oracle(b.proof, FoldScalarsChallenge), b)
  }

  /** Appends the scalar-product message; no challenge follows. */
  function AppendScalarProductMessage(b: ProofBuilder, m: ScalarProductMessage): (r: ProofBuilder)
    ensures r.proof == b.proof + [ScalarProduct(m)]
  {
    ProofBuilder(b.proof + [ScalarProduct(m)])
  }
}
