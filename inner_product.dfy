/**
 * The driver of the Dory inner-product argument (the prover side of the
 * extended Dory-Reduce / Scalar-Product protocol). It threads a proof
 * builder and a prover state through num_rounds reduction rounds and a final
 * scalar-product step, and returns the builder produced by the last append.
 *
 * The model also records the schedule of calls as a list of Steps (which
 * operation ran, at which vector length, with which challenge) so that the
 * order of calls and the flow of challenges can be stated and proved.
 */
module InnerProduct {
  import opened Field
  import opened Messages
  import opened State
  import opened Builder

  /** 2^k, the vector length a run of k rounds starts from. */
  function Pow2(k: nat): (r: nat)
    ensures r >= 1
  {
    if k == 0 then 1 else 2 * Pow2(k - 1)
  }

  /** The setup supplies generators for every length 2^k with k <= n. */
  predicate CoversRounds(setup: Setup, n: nat) {
    forall k: nat {:trigger setup.Covers(Pow2(k))} :: k <= n ==> setup.Covers(Pow2(k))
  }

  /** The precondition of the driver: a consistent state of length 2^n. */
  predicate Ready(s: ProverState, setup: Setup, n: nat) {
    s.Valid() && s.Len() == Pow2(n) && CoversRounds(setup, n)
  }

  /** One call of the driver into the state or the builder. */
  datatype Step =
    | AppendedFirst(len: nat, beta: NonZero)      // first message computed at len, appended, beta drawn
    | Combined(len: nat, beta: NonZero)           // reduce_combine at len with beta
    | AppendedSecond(len: nat, alpha: NonZero)    // second message computed at len, appended, alpha drawn
    | Folded(len: nat, alpha: NonZero)            // reduce_fold at len with alpha
    | DrewFoldScalars(gamma: NonZero)             // challenge_fold_scalars
    | AppendedScalarProduct(len: nat, gamma: NonZero) // scalar-product message at len with gamma, appended

  /**
   * What the round loop leaves: the builder, the state, the calls it made and
   * the states it passed through (the state each round started from, then
   * the final one).
   */
  datatype RoundResult = RoundResult(builder: ProofBuilder, state: ProverState, steps: seq<Step>, states: seq<ProverState>)

  /** What the driver returns (the builder), with the calls it made. */
  datatype Run = Run(builder: ProofBuilder, steps: seq<Step>)

  // ----- what a run is expected to look like -----

  /**
   * The four calls of one round at length len, starting at position at:
   * append the first message and draw beta, combine with that beta, append
   * the second message and draw alpha, fold with that alpha.
   */
  predicate RoundStepsAt(steps: seq<Step>, at: nat, len: nat) {
    at + 3 < |steps| &&
    steps[at].AppendedFirst? && steps[at].len == len &&
    steps[at + 1] == Combined(len, steps[at].beta) &&
    steps[at + 2].AppendedSecond? && steps[at + 2].len == len &&
    steps[at + 3] == Folded(len, steps[at + 2].alpha)
  }

  /** The steps of n rounds: a round at length 2^n, then the steps of n - 1 rounds. */
  predicate Schedule(steps: seq<Step>, n: nat)
    decreases n
  {
    if n == 0 then steps == []
    else RoundStepsAt(steps, 0, Pow2(n)) && Schedule(steps[4..], n - 1)
  }

  /** Round i of a run of n rounds works at length 2^(n-i). */
  predicate RoundAt(steps: seq<Step>, n: nat, i: nat) {
    i < n && RoundStepsAt(steps, 4 * i, Pow2(n - i))
  }

  /** From position k on, the proof holds n pairs of a first and a second reduce message. */
  predicate Alternates(proof: seq<Message>, k: nat, n: nat)
    decreases n
  {
    n == 0 ||
    (k + 1 < |proof| && proof[k].FirstReduce? && proof[k + 1].SecondReduce? && Alternates(proof, k + 2, n - 1))
  }

  /** The j-th message appended after position k is a first message for even j, a second one for odd j. */
  predicate ReduceMessageAt(proof: seq<Message>, k: nat, j: nat) {
    k + j < |proof| &&
    if j % 2 == 0 then proof[k + j].FirstReduce? else proof[k + j].SecondReduce?
  }

  /**
   * The challenge a verifier recomputes for the message at position j of a
   * proof: a reduce message is followed by a draw from the log that ends
   * with it; the scalar-product message is preceded by a draw from the log
   * before it.
   */
  function ChallengeFor(proof: seq<Message>, j: nat, oracle: ChallengeOracle): NonZero
    requires j < |proof|
  {
    match proof[j]
    case FirstReduce(_) => oracle(proof[..j + 1], FirstReduceChallenge)
    case SecondReduce(_) => oracle(proof[..j + 1], SecondReduceChallenge)
    case ScalarProduct(_) => oracle(proof[..j], FoldScalarsChallenge)
  }

  /** The kinds of the four calls of a round, which is all that decides what it draws. */
  predicate RoundShape(steps: seq<Step>) {
    4 <= |steps| &&
    steps[0].AppendedFirst? && steps[1].Combined? && steps[2].AppendedSecond? && steps[3].Folded?
  }

  /**
   * The steps are n rounds, and in each the beta and the alpha are the
   * challenges recomputed for the round's two messages, which start at
   * position k of the proof.
   */
  predicate Replays(steps: seq<Step>, proof: seq<Message>, k: nat, n: nat, oracle: ChallengeOracle)
    decreases n
  {
    if n == 0 then steps == [] else
    RoundShape(steps) && k + 1 < |proof| &&
    steps[0].beta == ChallengeFor(proof, k, oracle) &&
    steps[2].alpha == ChallengeFor(proof, k + 1, oracle) &&
    Replays(steps[4..], proof, k + 2, n - 1, oracle)
  }

  /** The challenge a step draws, if it draws one. */
  function DrawnBy(step: Step): seq<NonZero> {
    match step
    case AppendedFirst(_, beta) => [beta]
    case AppendedSecond(_, alpha) => [alpha]
    case DrewFoldScalars(gamma) => [gamma]
    case _ => []
  }

  /** The challenges drawn during a run, in the order they were drawn. */
  function DrawnChallenges(steps: seq<Step>): seq<NonZero> {
    if steps == [] then [] else DrawnBy(steps[0]) + DrawnChallenges(steps[1..])
  }

  /** The challenges recomputed for the messages at positions from .. to - 1. */
  function Replay(proof: seq<Message>, from: nat, to: nat, oracle: ChallengeOracle): (r: seq<NonZero>)
    requires from <= to <= |proof|
    ensures |r| == to - from
    decreases (to as int) - (from as int)
  {
    if from == to then [] else [ChallengeFor(proof, from, oracle)] + Replay(proof, from + 1, to, oracle)
  }

  // ----- the states a run passes through -----

  /** The state can run one round: its halves and the generators it needs exist. */
  predicate CanRound(s: ProverState, setup: Setup) {
    s.Reducible() && setup.Covers(s.Len()) && setup.Covers(s.Len() / 2)
  }

  /** A state ready for m > 0 more rounds can run one. */
  lemma {:induction false} ReadyForRound(s: ProverState, setup: Setup, m: nat)
    requires Ready(s, setup, m) && m > 0
    ensures CanRound(s, setup)
  {
    assert CoversRounds(setup, m - 1);
    assert setup.Covers(Pow2(m)) && setup.Covers(Pow2(m - 1));
  }

  /** The state alone through one round: combine with beta, then fold with alpha. */
  function AfterRound(s: ProverState, setup: Setup, beta: NonZero, alpha: NonZero): (r: ProverState)
    requires CanRound(s, setup)
    ensures r.Valid() && r.Len() == s.Len() / 2
  {
    ReduceFold(ReduceCombine(s, setup, beta), alpha)
  }

  /** After one round a state ready for m > 0 rounds is ready for the remaining m - 1. */
  lemma {:induction false} AfterRoundReady(s: ProverState, setup: Setup, m: nat, beta: NonZero, alpha: NonZero)
    requires Ready(s, setup, m) && m > 0
    ensures CanRound(s, setup) && Ready(AfterRound(s, setup, beta, alpha), setup, m - 1)
  {
    ReadyForRound(s, setup, m);
  }

  /**
   * The state s is driven to by the first j pairs of challenges in
   * cs = [beta, alpha, beta, alpha, ...], independently of any builder.
   */
  function StateAfterRec(s: ProverState, setup: Setup, m: nat, cs: seq<NonZero>, j: nat): (r: ProverState)
    requires Ready(s, setup, m) && j <= m && 2 * j <= |cs|
    ensures Ready(r, setup, m - j)
    decreases j
  {
    if j == 0 then s
    else
      AfterRoundReady(s, setup, m, cs[0], cs[1]);
      StateAfterRec(AfterRound(s, setup, cs[0], cs[1]), setup, m - 1, cs[2..], j - 1)
  }

  /** The state after the first j rounds from s; the lemmas about it unfold StateAfterRec one round at a time. */
  function StateAfter(s: ProverState, setup: Setup, m: nat, cs: seq<NonZero>, j: nat): (r: ProverState)
    requires Ready(s, setup, m) && j <= m && 2 * j <= |cs|
  {
    StateAfterRec(s, setup, m, cs, j)
  }

  /** The first reduce message of a round run on s. */
  function FirstMessageOf(s: ProverState, setup: Setup): Message
    requires CanRound(s, setup)
  {
    FirstReduce(ComputeFirstReduceMessage(s, setup))
  }

  /** The second reduce message of a round run on s with beta: that of s combined with beta. */
  function SecondMessageOf(s: ProverState, setup: Setup, beta: NonZero): Message
    requires CanRound(s, setup)
  {
    SecondReduce(ComputeSecondReduceMessage(ReduceCombine(s, setup, beta)))
  }

  /**
   * Round i appended, at positions k + 2i and k + 2i + 1, the first message
   * of states[i] and the second message of states[i] with the round's beta.
   */
  predicate AppendedAt(proof: seq<Message>, k: nat, states: seq<ProverState>, steps: seq<Step>, setup: Setup, i: nat) {
    i < |states| && 4 * i < |steps| && steps[4 * i].AppendedFirst? && CanRound(states[i], setup) &&
    k + 2 * i + 1 < |proof| &&
    proof[k + 2 * i] == FirstMessageOf(states[i], setup) &&
    proof[k + 2 * i + 1] == SecondMessageOf(states[i], setup, steps[4 * i].beta)
  }

  /** Round i leads from states[i] to states[i + 1]: combine with its beta, then fold with its alpha. */
  predicate LeadsLink(states: seq<ProverState>, setup: Setup, steps: seq<Step>, i: nat) {
    i + 1 < |states| && 4 * i + 2 < |steps| &&
    steps[4 * i].AppendedFirst? && steps[4 * i + 2].AppendedSecond? && CanRound(states[i], setup) &&
    states[i + 1] == AfterRound(states[i], setup, steps[4 * i].beta, steps[4 * i + 2].alpha)
  }

  /** The n + 1 states of n rounds, each round leading from one to the next. */
  predicate Leads(states: seq<ProverState>, setup: Setup, steps: seq<Step>, n: nat) {
    |states| == n + 1 && forall i :: 0 <= i < n ==> LeadsLink(states, setup, steps, i)
  }

  /**
   * Round i (counting from 0) of a run from s with challenges cs: its two
   * messages, at positions k + 2i and k + 2i + 1, are those of the round run
   * with the i-th pair on the state the first i pairs lead to.
   */
  predicate RoundMessagesAt(proof: seq<Message>, k: nat, s: ProverState, setup: Setup, m: nat, cs: seq<NonZero>, i: nat) {
    Ready(s, setup, m) && i < m && 2 * i + 2 <= |cs| && k + 2 * i + 1 < |proof| &&
    var before := StateAfter(s, setup, m, cs, i);
    ReadyForRound(before, setup, m - i);
    proof[k + 2 * i] == FirstMessageOf(before, setup) &&
    proof[k + 2 * i + 1] == SecondMessageOf(before, setup, cs[2 * i])
  }

  // ----- the driver -----

  /**
   * What one pass of the loop body on s guarantees: its four calls, the two
   * messages it appended (the first message of s, then the second message of
   * s combined with beta), the challenges drawn after them, and the state it
   * left (s combined with beta, then folded with alpha).
   */
  predicate RoundRan(b: ProofBuilder, s: ProverState, setup: Setup, n: nat, oracle: ChallengeOracle, r: RoundResult) {
    n > 0 && CanRound(s, setup) &&
    RoundShape(r.steps) && |r.steps| == 4 && RoundStepsAt(r.steps, 0, s.Len()) &&
    r.builder.proof == b.proof + [FirstMessageOf(s, setup), SecondMessageOf(s, setup, r.steps[0].beta)] &&
    r.steps[0].beta == ChallengeFor(r.builder.proof, |b.proof|, oracle) &&
    r.steps[2].alpha == ChallengeFor(r.builder.proof, |b.proof| + 1, oracle) &&
    r.state == AfterRound(s, setup, r.steps[0].beta, r.steps[2].alpha) && Ready(r.state, setup, n - 1) &&
    r.states == [s]
  }

  /**
   * What n rounds from s guarantee: a final state of length 1; the schedule
   * of calls; the builder extended by 2n messages that alternate first and
   * second; betas and alphas that are the challenges a verifier recomputes
   * from the proof; round i appending the messages of states[i]; and states
   * that lead from s, round by round, to the final state.
   */
  ghost predicate RoundsRan(b: ProofBuilder, s: ProverState, setup: Setup, n: nat, oracle: ChallengeOracle, r: RoundResult) {
    r.state.Valid() && r.state.Len() == 1 &&
    |r.steps| == 4 * n && Schedule(r.steps, n) &&
    |r.builder.proof| == |b.proof| + 2 * n && b.proof <= r.builder.proof &&
    Alternates(r.builder.proof, |b.proof|, n) &&
    Replays(r.steps, r.builder.proof, |b.proof|, n, oracle) &&
    (forall i :: 0 <= i < n ==> AppendedAt(r.builder.proof, |b.proof|, r.states, r.steps, setup, i)) &&
    Leads(r.states, setup, r.steps, n) && r.states[0] == s && r.states[n] == r.state
  }

  /** The round loop: n rounds, each on the state the previous one produced. */
  function Rounds(b: ProofBuilder, s: ProverState, setup: Setup, n: nat, oracle: ChallengeOracle): (r: RoundResult)
    requires Ready(s, setup, n)
    ensures RoundsRan(b, s, setup, n, oracle, r)
    decreases n, 1
  {
    if n == 0 then RoundResult(b, s, [], [s]) else RoundThenRest(b, s, setup, n, oracle)
  }

  /**
   * One pass of the loop body on a state of length 2^n: compute the first
   * message, append it and draw beta; combine with beta; compute the second
   * message, append it and draw alpha; fold with alpha.
   */
  function Round(b: ProofBuilder, s: ProverState, setup: Setup, n: nat, oracle: ChallengeOracle): (r: RoundResult)
    requires Ready(s, setup, n) && n > 0
    ensures RoundRan(b, s, setup, n, oracle, r)
  {
    ReadyForRound(s, setup, n);
    var len := s.Len();
    var first := AppendFirstReduceMessage(b, ComputeFirstReduceMessage(s, setup), oracle);
    var combined := ReduceCombine(s, setup, first.challenge);
    var second := AppendSecondReduceMessage(first.builder, ComputeSecondReduceMessage(combined), oracle);
    assert second.builder.proof[..|b.proof| + 1] == first.builder.proof;
    assert second.builder.proof[..|b.proof| + 2] == second.builder.proof;
    RoundResult(second.builder, ReduceFold(combined, second.challenge),
      [AppendedFirst(len, first.challenge), Combined(len, first.challenge),
       AppendedSecond(len, second.challenge), Folded(len, second.challenge)],
      [s])
  }

  /** One pass of the loop body, then the remaining n - 1 rounds on the builder and state it leaves. */
  function RoundThenRest(b: ProofBuilder, s: ProverState, setup: Setup, n: nat, oracle: ChallengeOracle): (r: RoundResult)
    requires Ready(s, setup, n) && n > 0
    ensures RoundsRan(b, s, setup, n, oracle, r)
    decreases n, 0
  {
    var one := Round(b, s, setup, n, oracle);
    var rest := Rounds(one.builder, one.state, setup, n - 1, oracle);
    RoundThenRestRan(b, s, setup, n, oracle, one, rest);
    RoundResult(rest.builder, rest.state, one.steps + rest.steps, [s] + rest.states)
  }

  /** A pass of the loop body, then n - 1 rounds on what it leaves, are n rounds. */
  lemma {:induction false} RoundThenRestRan(b: ProofBuilder, s: ProverState, setup: Setup, n: nat, oracle: ChallengeOracle,
                                            one: RoundResult, rest: RoundResult)
    requires RoundRan(b, s, setup, n, oracle, one)
    requires RoundsRan(one.builder, one.state, setup, n - 1, oracle, rest)
    ensures RoundsRan(b, s, setup, n, oracle, RoundResult(rest.builder, rest.state, one.steps + rest.steps, [s] + rest.states))
  {
    assert s.Len() == Pow2(n);
    RoundThenRestShape(b, n, oracle, one, rest, FirstMessageOf(s, setup), SecondMessageOf(s, setup, one.steps[0].beta));
    RoundThenRestStates(b, s, setup, n, oracle, one, rest);
  }

  /** A pass of the loop body, then n - 1 rounds: the messages each round appended and the states they lead along. */
  lemma {:induction false} RoundThenRestStates(b: ProofBuilder, s: ProverState, setup: Setup, n: nat, oracle: ChallengeOracle,
                                               one: RoundResult, rest: RoundResult)
    requires RoundRan(b, s, setup, n, oracle, one)
    requires RoundsRan(one.builder, one.state, setup, n - 1, oracle, rest)
    ensures var proof, steps, states := rest.builder.proof, one.steps + rest.steps, [s] + rest.states;
      (forall i :: 0 <= i < n ==> AppendedAt(proof, |b.proof|, states, steps, setup, i)) &&
      Leads(states, setup, steps, n) && states[0] == s && states[n] == rest.state
  {
    var k := |b.proof|;
    var steps := one.steps + rest.steps;
    assert steps[..4] == one.steps && steps[4..] == rest.steps;
    assert rest.builder.proof[k] == one.builder.proof[k] && rest.builder.proof[k + 1] == one.builder.proof[k + 1];
    RoundThenAppends(rest.builder.proof, k, s, setup, steps, n, rest.states, k + 2, rest.steps);
    RoundThenLeads(s, setup, steps, n, rest.states, rest.steps);
  }

  /**
   * One round's four calls and two messages, then the rounds after it: the
   * schedule, the message kinds and the replayed challenges of them all.
   */
  lemma {:induction false} RoundThenRestShape(b: ProofBuilder, n: nat, oracle: ChallengeOracle, one: RoundResult, rest: RoundResult,
                                              first: Message, second: Message)
    requires n > 0 && RoundShape(one.steps) && |one.steps| == 4 && RoundStepsAt(one.steps, 0, Pow2(n))
    requires one.builder.proof == b.proof + [first, second] && first.FirstReduce? && second.SecondReduce?
    requires one.steps[0].beta == ChallengeFor(one.builder.proof, |b.proof|, oracle)
    requires one.steps[2].alpha == ChallengeFor(one.builder.proof, |b.proof| + 1, oracle)
    requires |rest.steps| == 4 * (n - 1) && Schedule(rest.steps, n - 1)
    requires |rest.builder.proof| == |one.builder.proof| + 2 * (n - 1) && one.builder.proof <= rest.builder.proof
    requires Alternates(rest.builder.proof, |one.builder.proof|, n - 1)
    requires Replays(rest.steps, rest.builder.proof, |one.builder.proof|, n - 1, oracle)
    ensures var proof, steps := rest.builder.proof, one.steps + rest.steps;
      |steps| == 4 * n && Schedule(steps, n) &&
      |proof| == |b.proof| + 2 * n && b.proof <= proof &&
      Alternates(proof, |b.proof|, n) &&
      Replays(steps, proof, |b.proof|, n, oracle) &&
      steps[4..] == rest.steps && proof[|b.proof|] == first && proof[|b.proof| + 1] == second
  {
    var k := |b.proof|;
    var proof, steps := rest.builder.proof, one.steps + rest.steps;
    ChallengeForPrefix(one.builder.proof, proof, k, oracle);
    ChallengeForPrefix(one.builder.proof, proof, k + 1, oracle);
    assert steps[..4] == one.steps && steps[4..] == rest.steps;
    assert proof[k] == one.builder.proof[k] && proof[k + 1] == one.builder.proof[k + 1];
  }

  /** A round's two messages at k, then the messages of the rounds after it, are the messages of them all. */
  lemma {:induction false} RoundThenAppends(proof: seq<Message>, k: nat, s: ProverState, setup: Setup, steps: seq<Step>, n: nat,
                                            rest: seq<ProverState>, k2: nat, later: seq<Step>)
    requires n > 0 && RoundShape(steps) && CanRound(s, setup) && k + 1 < |proof|
    requires proof[k] == FirstMessageOf(s, setup) && proof[k + 1] == SecondMessageOf(s, setup, steps[0].beta)
    requires forall i :: 0 <= i < n - 1 ==> AppendedAt(proof, k2, rest, later, setup, i)
    requires k2 == k + 2 && later == steps[4..]
    ensures forall i :: 0 <= i < n ==> AppendedAt(proof, k, [s] + rest, steps, setup, i)
  {
    forall i | 0 <= i < n
      ensures AppendedAt(proof, k, [s] + rest, steps, setup, i)
    {
      if i == 0 {
        assert ([s] + rest)[0] == s;
      } else {
        assert AppendedAt(proof, k2, rest, later, setup, i - 1);
        AppendedShift(proof, k, s, rest, steps, setup, i);
      }
    }
  }

  /** The messages of round i - 1 of the later rounds are those of round i of them all. */
  lemma {:induction false} AppendedShift(proof: seq<Message>, k: nat, s: ProverState, rest: seq<ProverState>, steps: seq<Step>,
                                         setup: Setup, i: nat)
    requires i > 0 && 4 <= |steps| && AppendedAt(proof, k + 2, rest, steps[4..], setup, i - 1)
    ensures AppendedAt(proof, k, [s] + rest, steps, setup, i)
  {
    assert ([s] + rest)[i] == rest[i - 1];
    assert steps[4 * i] == steps[4..][4 * (i - 1)];
  }

  /** A round from s to the first of the later states, then rounds along those, lead along them all. */
  lemma {:induction false} RoundThenLeads(s: ProverState, setup: Setup, steps: seq<Step>, n: nat, rest: seq<ProverState>,
                                          later: seq<Step>)
    requires n > 0 && RoundShape(steps) && CanRound(s, setup) && rest != []
    requires rest[0] == AfterRound(s, setup, steps[0].beta, steps[2].alpha)
    requires Leads(rest, setup, later, n - 1) && later == steps[4..]
    ensures Leads([s] + rest, setup, steps, n)
  {
    forall i | 0 <= i < n
      ensures LeadsLink([s] + rest, setup, steps, i)
    {
      if i == 0 {
        assert ([s] + rest)[0] == s && ([s] + rest)[1] == rest[0];
      } else {
        assert LeadsLink(rest, setup, later, i - 1);
        LeadsShift(s, rest, setup, steps, i);
      }
    }
  }

  /** Round i - 1 of the later rounds is round i of them all. */
  lemma {:induction false} LeadsShift(s: ProverState, rest: seq<ProverState>, setup: Setup, steps: seq<Step>, i: nat)
    requires i > 0 && 4 <= |steps| && LeadsLink(rest, setup, steps[4..], i - 1)
    ensures LeadsLink([s] + rest, setup, steps, i)
  {
    assert ([s] + rest)[i] == rest[i - 1] && ([s] + rest)[i + 1] == rest[i];
    assert steps[4 * i] == steps[4..][4 * (i - 1)] && steps[4 * i + 2] == steps[4..][4 * (i - 1) + 2];
  }

  /** The whole argument: the round loop, then the fold-scalars challenge and the scalar-product message. */
  function Prove(b: ProofBuilder, s: ProverState, setup: Setup, n: nat, oracle: ChallengeOracle): (r: Run)
    requires Ready(s, setup, n)
    ensures |r.steps| == 4 * n + 2
    ensures |r.builder.proof| == |b.proof| + 2 * n + 1 && b.proof <= r.builder.proof
  {
    var rounds := Rounds(b, s, setup, n, oracle);
    var drawn := ChallengeFoldScalars(rounds.builder, oracle);
    var message := ComputeScalarProductMessage(rounds.state, setup, drawn.challenge);
    Run(
      AppendScalarProductMessage(drawn.builder, message),
      rounds.steps + [DrewFoldScalars(drawn.challenge), AppendedScalarProduct(rounds.state.Len(), drawn.challenge)])
  }

  /** inner_product_prove: the builder returned by the final append is the proof. */
  function InnerProductProve(b: ProofBuilder, s: ProverState, setup: Setup, n: nat, oracle: ChallengeOracle): (r: ProofBuilder)
    requires Ready(s, setup, n)
    ensures b.proof <= r.proof && |r.proof| == |b.proof| + 2 * n + 1
    ensures r.proof[|r.proof| - 1].ScalarProduct?
  {
    Prove(b, s, setup, n, oracle).builder
  }

  // ----- the specification predicates, unfolded -----

  /** The schedule of n rounds, round by round. */
  lemma {:induction false} ScheduleRounds(steps: seq<Step>, n: nat)
    requires Schedule(steps, n)
    ensures |steps| == 4 * n
    ensures forall i :: 0 <= i < n ==> RoundAt(steps, n, i)
    decreases n
  {
    if n > 0 {
      var rest := steps[4..];
      ScheduleRounds(rest, n - 1);
      forall i | 0 <= i < n
        ensures RoundAt(steps, n, i)
      {
        if i > 0 {
          assert RoundAt(rest, n - 1, i - 1);
          assert n - 1 - (i - 1) == n - i;
        }
      }
    }
  }

  /** The 2n messages of n rounds, message by message. */
  lemma {:induction false} AlternatesAt(proof: seq<Message>, k: nat, n: nat)
    requires Alternates(proof, k, n)
    ensures forall j :: 0 <= j < 2 * n ==> ReduceMessageAt(proof, k, j)
    decreases n
  {
    if n > 0 {
      AlternatesAt(proof, k + 2, n - 1);
      forall j | 0 <= j < 2 * n
        ensures ReduceMessageAt(proof, k, j)
      {
        if j >= 2 {
          assert ReduceMessageAt(proof, k + 2, j - 2);
        }
      }
    }
  }

  /** The challenges drawn by two runs of steps, one after the other. */
  lemma {:induction false} DrawnChallengesAppend(a: seq<Step>, b: seq<Step>)
    ensures DrawnChallenges(a + b) == DrawnChallenges(a) + DrawnChallenges(b)
  {
    if a == [] {
      assert a + b == b;
    } else {
      assert (a + b)[0] == a[0];
      assert (a + b)[1..] == a[1..] + b;
      DrawnChallengesAppend(a[1..], b);
      assert DrawnBy(a[0]) + (DrawnChallenges(a[1..]) + DrawnChallenges(b)) ==
        (DrawnBy(a[0]) + DrawnChallenges(a[1..])) + DrawnChallenges(b);
    }
  }

  /** The challenges drawn by a non-empty run of steps: those of its first step first. */
  lemma {:induction false} DrawnHead(steps: seq<Step>)
    requires steps != []
    ensures DrawnChallenges(steps) == DrawnBy(steps[0]) + DrawnChallenges(steps[1..])
  {
  }

  /** A round draws its beta and then its alpha; the steps after it draw the rest. */
  lemma {:induction false} DrawnChallengesOfRound(steps: seq<Step>)
    requires RoundShape(steps)
    ensures DrawnChallenges(steps) == [steps[0].beta, steps[2].alpha] + DrawnChallenges(steps[4..])
  {
    var beta, alpha, s1, s2, s3, s4 := steps[0].beta, steps[2].alpha, steps[1..], steps[2..], steps[3..], steps[4..];
    DrawnHead(steps);
    DrawnHead(s1);
    DrawnHead(s2);
    DrawnHead(s3);
    assert s1[1..] == s2 && s2[1..] == s3 && s3[1..] == s4;
    assert DrawnBy(s1[0]) == [] && DrawnBy(s2[0]) == [alpha] && DrawnBy(s3[0]) == [];
    assert DrawnChallenges(s3) == DrawnChallenges(s4);
    assert DrawnChallenges(s1) == [alpha] + DrawnChallenges(s4);
  }

  /** The replay of two or more messages starts with the challenges of the first two. */
  lemma {:induction false} ReplayTwo(proof: seq<Message>, from: nat, to: nat, oracle: ChallengeOracle)
    requires from + 2 <= to <= |proof|
    ensures Replay(proof, from, to, oracle) ==
      [ChallengeFor(proof, from, oracle), ChallengeFor(proof, from + 1, oracle)] + Replay(proof, from + 2, to, oracle)
  {
    assert Replay(proof, from + 1, to, oracle) == [ChallengeFor(proof, from + 1, oracle)] + Replay(proof, from + 2, to, oracle);
  }

  /**
   * A round whose beta and alpha replay the messages at k and k + 1, then
   * steps that draw the replay from k + 2: together they draw the replay from k.
   */
  lemma {:induction false} RoundDrawnReplays(steps: seq<Step>, proof: seq<Message>, k: nat, to: nat, oracle: ChallengeOracle)
    requires RoundShape(steps) && k + 2 <= to <= |proof|
    requires steps[0].beta == ChallengeFor(proof, k, oracle) && steps[2].alpha == ChallengeFor(proof, k + 1, oracle)
    requires DrawnChallenges(steps[4..]) == Replay(proof, k + 2, to, oracle)
    ensures DrawnChallenges(steps) == Replay(proof, k, to, oracle)
  {
    DrawnChallengesOfRound(steps);
    ReplayTwo(proof, k, to, oracle);
  }

  /** The challenges drawn in n scheduled rounds that replay are those recomputed for their 2n messages. */
  lemma {:induction false} ReplaysDrawn(steps: seq<Step>, proof: seq<Message>, k: nat, n: nat, oracle: ChallengeOracle)
    requires Replays(steps, proof, k, n, oracle) && k + 2 * n <= |proof|
    ensures DrawnChallenges(steps) == Replay(proof, k, k + 2 * n, oracle)
    decreases n
  {
    if n > 0 {
      var rest, to := steps[4..], k + 2 * n;
      assert (k + 2) + 2 * (n - 1) == to;
      ReplaysDrawn(rest, proof, k + 2, n - 1, oracle);
      RoundDrawnReplays(steps, proof, k, to, oracle);
    }
  }

  /** Running one more round first: the pair [beta, alpha] in front of the challenges. */
  lemma {:induction false} StateAfterCons(s: ProverState, setup: Setup, m: nat, beta: NonZero, alpha: NonZero, rest: seq<NonZero>, j: nat)
    requires Ready(s, setup, m) && 0 < j <= m && 2 * (j - 1) <= |rest|
    ensures (AfterRoundReady(s, setup, m, beta, alpha);
      StateAfter(s, setup, m, [beta, alpha] + rest, j) == StateAfter(AfterRound(s, setup, beta, alpha), setup, m - 1, rest, j - 1))
  {
    var all := [beta, alpha] + rest;
    assert all[0] == beta && all[1] == alpha && all[2..] == rest;
  }

  /** The state after j > 0 rounds is the state after j - 1 rounds from the state after the first. */
  lemma {:induction false} StateAfterStep(s: ProverState, setup: Setup, m: nat, cs: seq<NonZero>, j: nat)
    requires Ready(s, setup, m) && 0 < j <= m && 2 * j <= |cs|
    ensures (AfterRoundReady(s, setup, m, cs[0], cs[1]);
      StateAfter(s, setup, m, cs, j) == StateAfter(AfterRound(s, setup, cs[0], cs[1]), setup, m - 1, cs[2..], j - 1))
  {
  }

  /** The state reached after j rounds depends only on the first j pairs of challenges. */
  lemma {:induction false} StateAfterPrefix(s: ProverState, setup: Setup, m: nat, cs: seq<NonZero>, longer: seq<NonZero>, j: nat)
    requires Ready(s, setup, m) && j <= m && 2 * j <= |cs| && cs <= longer
    ensures StateAfter(s, setup, m, cs, j) == StateAfter(s, setup, m, longer, j)
    decreases j
  {
    if j > 0 {
      assert cs[0] == longer[0] && cs[1] == longer[1] && cs[2..] <= longer[2..];
      AfterRoundReady(s, setup, m, cs[0], cs[1]);
      StateAfterPrefix(AfterRound(s, setup, cs[0], cs[1]), setup, m - 1, cs[2..], longer[2..], j - 1);
    }
  }

  // ----- properties of a whole run -----

  /**
   * A run of n rounds makes exactly 4n + 2 calls: the n rounds in order with
   * lengths 2^n, 2^(n-1), ..., 2, then the fold-scalars draw, then the
   * scalar-product message at length 1 with the gamma just drawn.
   */
  lemma {:induction false} ProveSchedule(b: ProofBuilder, s: ProverState, setup: Setup, n: nat, oracle: ChallengeOracle)
    requires Ready(s, setup, n)
    ensures var steps := Prove(b, s, setup, n, oracle).steps;
      |steps| == 4 * n + 2 &&
      (forall i :: 0 <= i < n ==> RoundAt(steps, n, i)) &&
      steps[4 * n].DrewFoldScalars? &&
      steps[4 * n + 1] == AppendedScalarProduct(1, steps[4 * n].gamma)
  {
    var rounds := Rounds(b, s, setup, n, oracle);
    var steps := Prove(b, s, setup, n, oracle).steps;
    ScheduleRounds(rounds.steps, n);
    forall i | 0 <= i < n
      ensures RoundAt(steps, n, i)
    {
      assert RoundAt(rounds.steps, n, i);
    }
  }

  /**
   * The driver appends exactly 2n + 1 messages to the proof it was given:
   * first and second reduce messages alternating, n of each, then one
   * scalar-product message, which is the last thing in the proof.
   */
  lemma {:induction false} ProveMessages(b: ProofBuilder, s: ProverState, setup: Setup, n: nat, oracle: ChallengeOracle)
    requires Ready(s, setup, n)
    ensures var proof := InnerProductProve(b, s, setup, n, oracle).proof;
      |proof| == |b.proof| + 2 * n + 1 && proof[..|b.proof|] == b.proof &&
      (forall j :: 0 <= j < 2 * n ==> ReduceMessageAt(proof, |b.proof|, j)) &&
      proof[|b.proof| + 2 * n].ScalarProduct?
  {
    var rounds := Rounds(b, s, setup, n, oracle);
    var proof := InnerProductProve(b, s, setup, n, oracle).proof;
    AlternatesAt(rounds.builder.proof, |b.proof|, n);
    assert proof == rounds.builder.proof + [proof[|proof| - 1]];
    forall j | 0 <= j < 2 * n
      ensures ReduceMessageAt(proof, |b.proof|, j)
    {
      assert ReduceMessageAt(rounds.builder.proof, |b.proof|, j);
    }
  }

  /** The challenge recomputed for a message depends only on the log up to it. */
  lemma {:induction false} ChallengeForPrefix(short: seq<Message>, long: seq<Message>, j: nat, oracle: ChallengeOracle)
    requires short <= long && j < |short|
    ensures ChallengeFor(short, j, oracle) == ChallengeFor(long, j, oracle)
  {
    assert long[..j + 1] == short[..j + 1];
    assert long[..j] == short[..j];
  }

  /** Recomputing challenges for messages of a prefix of the log gives the same as on the whole log. */
  lemma {:induction false} ReplayPrefix(short: seq<Message>, long: seq<Message>, from: nat, to: nat, oracle: ChallengeOracle)
    requires short <= long && from <= to <= |short|
    ensures Replay(short, from, to, oracle) == Replay(long, from, to, oracle)
    decreases (to as int) - (from as int)
  {
    if from < to {
      ChallengeForPrefix(short, long, from, oracle);
      ReplayPrefix(short, long, from + 1, to, oracle);
    }
  }

  /** Recomputing the challenges from `from` to `to` is recomputing them up to `mid`, then from `mid` on. */
  lemma {:induction false} ReplaySplit(proof: seq<Message>, from: nat, mid: nat, to: nat, oracle: ChallengeOracle)
    requires from <= mid <= to <= |proof|
    ensures Replay(proof, from, to, oracle) == Replay(proof, from, mid, oracle) + Replay(proof, mid, to, oracle)
    decreases (mid as int) - (from as int)
  {
    if from < mid {
      ReplaySplit(proof, from + 1, mid, to, oracle);
    }
  }

  /** The last two calls add gamma, and nothing more, to the challenges drawn in the rounds. */
  lemma {:induction false} DrawnChallengesWithLastCalls(steps: seq<Step>, gamma: NonZero, len: nat)
    ensures DrawnChallenges(steps + [DrewFoldScalars(gamma), AppendedScalarProduct(len, gamma)]) == DrawnChallenges(steps) + [gamma]
  {
    var tail := [DrewFoldScalars(gamma), AppendedScalarProduct(len, gamma)];
    DrawnChallengesAppend(steps, tail);
    assert tail[1..][1..] == [];
    assert DrawnChallenges(tail[1..]) == [];
  }

  /** The scalar-product message at the end of a proof replays the gamma drawn from the log before it. */
  lemma {:induction false} ReplayLast(proof: seq<Message>, j: nat, oracle: ChallengeOracle)
    requires j + 1 == |proof| && proof[j].ScalarProduct?
    ensures Replay(proof, j, j + 1, oracle) == [oracle(proof[..j], FoldScalarsChallenge)]
  {
    assert Replay(proof, j + 1, j + 1, oracle) == [];
  }

  /** Appending the scalar-product message adds the gamma drawn from the log before it to the replay. */
  lemma {:induction false} ReplayWithLast(short: seq<Message>, proof: seq<Message>, k: nat, oracle: ChallengeOracle)
    requires k <= |short| && |proof| == |short| + 1 && proof[..|short|] == short && proof[|short|].ScalarProduct?
    ensures Replay(proof, k, |proof|, oracle) == Replay(short, k, |short|, oracle) + [oracle(short, FoldScalarsChallenge)]
  {
    var m := |short|;
    ReplayPrefix(short, proof, k, m, oracle);
    ReplaySplit(proof, k, m, m + 1, oracle);
    ReplayLast(proof, m, oracle);
  }

  /**
   * n rounds whose challenges replay, followed by gamma drawn from the log
   * they left and one scalar-product message, replay as a whole.
   */
  lemma {:induction false} RunReplays(steps: seq<Step>, short: seq<Message>, proof: seq<Message>, k: nat, n: nat,
                                      gamma: NonZero, last: Message, oracle: ChallengeOracle)
    requires Replays(steps, short, k, n, oracle) && |short| == k + 2 * n
    requires proof == short + [last] && last.ScalarProduct? && gamma == oracle(short, FoldScalarsChallenge)
    ensures DrawnChallenges(steps + [DrewFoldScalars(gamma), AppendedScalarProduct(1, gamma)]) == Replay(proof, k, |proof|, oracle)
  {
    assert proof[..|short|] == short;
    ReplaysDrawn(steps, short, k, n, oracle);
    DrawnChallengesWithLastCalls(steps, gamma, 1);
    ReplayWithLast(short, proof, k, oracle);
  }

  /**
   * Fiat-Shamir replay: the 2n + 1 challenges the prover drew (beta and
   * alpha of each round, then gamma) are exactly those a verifier
   * recomputes from the returned proof alone.
   */
  lemma {:induction false} ProveReplay(b: ProofBuilder, s: ProverState, setup: Setup, n: nat, oracle: ChallengeOracle)
    requires Ready(s, setup, n)
    ensures var run := Prove(b, s, setup, n, oracle);
      DrawnChallenges(run.steps) == Replay(run.builder.proof, |b.proof|, |run.builder.proof|, oracle) &&
      |DrawnChallenges(run.steps)| == 2 * n + 1
  {
    var rounds := Rounds(b, s, setup, n, oracle);
    var gamma := oracle(rounds.builder.proof, FoldScalarsChallenge);
    RunReplays(rounds.steps, rounds.builder.proof, Prove(b, s, setup, n, oracle).builder.proof, |b.proof|, n,
      gamma, ScalarProduct(ComputeScalarProductMessage(rounds.state, setup, gamma)), oracle);
  }

  /** The beta and the alpha of round i of rounds that replay are the challenges recomputed for its two messages. */
  lemma {:induction false} ReplaysAt(steps: seq<Step>, proof: seq<Message>, k: nat, n: nat, oracle: ChallengeOracle, i: nat)
    requires Replays(steps, proof, k, n, oracle) && i < n
    ensures 4 * i + 3 < |steps| && k + 2 * i + 1 < |proof|
    ensures steps[4 * i].AppendedFirst? && steps[4 * i + 2].AppendedSecond?
    ensures steps[4 * i].beta == ChallengeFor(proof, k + 2 * i, oracle)
    ensures steps[4 * i + 2].alpha == ChallengeFor(proof, k + 2 * i + 1, oracle)
    decreases i
  {
    if i > 0 {
      ReplaysAt(steps[4..], proof, k + 2, n - 1, oracle, i - 1);
      assert steps[4..][4 * (i - 1)] == steps[4 * i] && steps[4..][4 * (i - 1) + 2] == steps[4 * i + 2];
      assert k + 2 + 2 * (i - 1) == k + 2 * i;
    }
  }

  /** Each state is the previous one after a round with the next pair of challenges. */
  predicate Chain(states: seq<ProverState>, setup: Setup, cs: seq<NonZero>, n: nat) {
    |states| == n + 1 && 2 * n <= |cs| && forall i :: 0 <= i < n ==> ChainLink(states, setup, cs, i)
  }

  /** State i + 1 is state i after a round with the i-th pair of challenges. */
  predicate ChainLink(states: seq<ProverState>, setup: Setup, cs: seq<NonZero>, i: nat) {
    i + 1 < |states| && 2 * i + 1 < |cs| &&
    CanRound(states[i], setup) && states[i + 1] == AfterRound(states[i], setup, cs[2 * i], cs[2 * i + 1])
  }

  /** Along a chain from a ready state, state j is the one the first j pairs lead to. */
  lemma {:induction false} ChainStateAfter(states: seq<ProverState>, setup: Setup, cs: seq<NonZero>, n: nat, j: nat)
    requires Chain(states, setup, cs, n) && Ready(states[0], setup, n) && j <= n
    ensures states[j] == StateAfter(states[0], setup, n, cs, j)
    decreases j
  {
    if j > 0 {
      AfterRoundReady(states[0], setup, n, cs[0], cs[1]);
      StateAfterStep(states[0], setup, n, cs, j);
      assert ChainLink(states, setup, cs, 0);
      ChainTail(states, setup, cs, n);
      ChainStateAfter(states[1..], setup, cs[2..], n - 1, j - 1);
      assert states[1..][0] == states[1] && states[1..][j - 1] == states[j];
    }
  }

  /** A chain without its first state and first pair of challenges is still a chain. */
  lemma {:induction false} ChainTail(states: seq<ProverState>, setup: Setup, cs: seq<NonZero>, n: nat)
    requires Chain(states, setup, cs, n) && n > 0
    ensures Chain(states[1..], setup, cs[2..], n - 1)
  {
    var tail, later := states[1..], cs[2..];
    forall i | 0 <= i < n - 1
      ensures ChainLink(tail, setup, later, i)
    {
      assert ChainLink(states, setup, cs, i + 1);
      assert tail[i] == states[i + 1] && tail[i + 1] == states[i + 2];
      assert later[2 * i] == cs[2 * (i + 1)] && later[2 * i + 1] == cs[2 * (i + 1) + 1];
    }
  }

  /** Entry j of a replay is the challenge recomputed for message from + j. */
  lemma {:induction false} ReplayAt(proof: seq<Message>, from: nat, to: nat, oracle: ChallengeOracle, j: nat)
    requires from <= to <= |proof| && j < to - from
    ensures Replay(proof, from, to, oracle)[j] == ChallengeFor(proof, from + j, oracle)
    decreases j
  {
    if j > 0 {
      ReplayAt(proof, from + 1, to, oracle, j - 1);
    }
  }

  /**
   * What the proof holds, for any number of rounds, in terms of the
   * challenges a verifier recomputes from it: with cs = [beta_0, alpha_0,
   * ..., beta_(n-1), alpha_(n-1), gamma], round i appended the first message
   * of the state the first i rounds lead to and the second message of that
   * state combined with beta_i, and the last message is the scalar-product
   * message of the state after all n rounds with gamma.
   */
  lemma {:induction false} ProveComputes(b: ProofBuilder, s: ProverState, setup: Setup, n: nat, oracle: ChallengeOracle)
    requires Ready(s, setup, n)
    ensures var proof := InnerProductProve(b, s, setup, n, oracle).proof;
      var cs := Replay(proof, |b.proof|, |proof|, oracle);
      |cs| == 2 * n + 1 &&
      (forall i :: 0 <= i < n ==> RoundMessagesAt(proof, |b.proof|, s, setup, n, cs, i)) &&
      proof[|proof| - 1] == ScalarProduct(ComputeScalarProductMessage(StateAfter(s, setup, n, cs, n), setup, cs[2 * n]))
  {
    var rounds := Rounds(b, s, setup, n, oracle);
    RunComputes(rounds, |b.proof|, InnerProductProve(b, s, setup, n, oracle).proof, s, setup, n, oracle);
  }

  /** The states of rounds that replay form a chain under the challenges recomputed from any extension of their proof. */
  lemma {:induction false} LeadsChain(states: seq<ProverState>, setup: Setup, steps: seq<Step>, n: nat,
                   short: seq<Message>, proof: seq<Message>, k: nat, oracle: ChallengeOracle, cs: seq<NonZero>)
    requires Leads(states, setup, steps, n) && Replays(steps, short, k, n, oracle)
    requires short <= proof && k + 2 * n <= |short| && cs == Replay(proof, k, |proof|, oracle)
    ensures Chain(states, setup, cs, n)
  {
    forall i | 0 <= i < n
      ensures ChainLink(states, setup, cs, i)
    {
      assert LeadsLink(states, setup, steps, i);
      ReplaysAt(steps, short, k, n, oracle, i);
      ChallengeForPrefix(short, proof, k + 2 * i, oracle);
      ChallengeForPrefix(short, proof, k + 2 * i + 1, oracle);
      ReplayAt(proof, k, |proof|, oracle, 2 * i);
      ReplayAt(proof, k, |proof|, oracle, 2 * i + 1);
    }
  }

  /** The messages of round i of rounds that replay, found in any extension of their proof. */
  lemma {:induction false} AppendsRoundAt(states: seq<ProverState>, setup: Setup, steps: seq<Step>, n: nat,
                                          short: seq<Message>, proof: seq<Message>, k: nat, oracle: ChallengeOracle, cs: seq<NonZero>, i: nat)
    requires AppendedAt(short, k, states, steps, setup, i) && Replays(steps, short, k, n, oracle) && i < n
    requires short <= proof && cs == Replay(proof, k, |proof|, oracle)
    ensures 2 * i < |cs| && CanRound(states[i], setup)
    ensures proof[k + 2 * i] == FirstMessageOf(states[i], setup)
    ensures proof[k + 2 * i + 1] == SecondMessageOf(states[i], setup, cs[2 * i])
  {
    ReplaysAt(steps, short, k, n, oracle, i);
    ChallengeForPrefix(short, proof, k + 2 * i, oracle);
    ReplayAt(proof, k, |proof|, oracle, 2 * i);
  }

  /** The messages of rounds that replay, round by round, in any extension of their proof. */
  lemma {:induction false} AppendsRounds(states: seq<ProverState>, setup: Setup, steps: seq<Step>, n: nat,
                                         short: seq<Message>, proof: seq<Message>, k: nat, oracle: ChallengeOracle, cs: seq<NonZero>)
    requires forall i :: 0 <= i < n ==> AppendedAt(short, k, states, steps, setup, i)
    requires Replays(steps, short, k, n, oracle)
    requires short <= proof && k + 2 * n <= |short| && cs == Replay(proof, k, |proof|, oracle)
    ensures forall i :: 0 <= i < n ==>
      2 * i < |cs| && i < |states| && CanRound(states[i], setup) &&
      proof[k + 2 * i] == FirstMessageOf(states[i], setup) &&
      proof[k + 2 * i + 1] == SecondMessageOf(states[i], setup, cs[2 * i])
  {
    forall i | 0 <= i < n
      ensures 2 * i < |cs| && i < |states| && CanRound(states[i], setup)
      ensures proof[k + 2 * i] == FirstMessageOf(states[i], setup)
      ensures proof[k + 2 * i + 1] == SecondMessageOf(states[i], setup, cs[2 * i])
    {
      AppendsRoundAt(states, setup, steps, n, short, proof, k, oracle, cs, i);
    }
  }

  /** Messages appended on the states of a chain from s, round by round, are the round messages of the run from s. */
  lemma {:induction false} ChainMessages(states: seq<ProverState>, setup: Setup, n: nat, proof: seq<Message>, k: nat, cs: seq<NonZero>, s: ProverState)
    requires Chain(states, setup, cs, n) && states[0] == s && Ready(s, setup, n) && k + 2 * n <= |proof|
    requires forall i :: 0 <= i < n ==>
      CanRound(states[i], setup) && proof[k + 2 * i] == FirstMessageOf(states[i], setup) &&
      proof[k + 2 * i + 1] == SecondMessageOf(states[i], setup, cs[2 * i])
    ensures forall i :: 0 <= i < n ==> RoundMessagesAt(proof, k, s, setup, n, cs, i)
  {
    forall i | 0 <= i < n
      ensures RoundMessagesAt(proof, k, s, setup, n, cs, i)
    {
      ChainStateAfter(states, setup, cs, n, i);
    }
  }

  /** ProveComputes, from what the round loop guarantees and the final append. */
  lemma {:induction false} RunComputes(rounds: RoundResult, k: nat, proof: seq<Message>, s: ProverState, setup: Setup, n: nat, oracle: ChallengeOracle)
    requires Ready(s, setup, n) && |rounds.builder.proof| == k + 2 * n
    requires forall i :: 0 <= i < n ==> AppendedAt(rounds.builder.proof, k, rounds.states, rounds.steps, setup, i)
    requires Leads(rounds.states, setup, rounds.steps, n) && Replays(rounds.steps, rounds.builder.proof, k, n, oracle)
    requires rounds.states[0] == s && rounds.states[n] == rounds.state && rounds.state.Valid() && rounds.state.Len() == 1
    requires proof == rounds.builder.proof +
      [ScalarProduct(ComputeScalarProductMessage(rounds.state, setup, oracle(rounds.builder.proof, FoldScalarsChallenge)))]
    ensures var cs := Replay(proof, k, |proof|, oracle);
      |cs| == 2 * n + 1 &&
      (forall i :: 0 <= i < n ==> RoundMessagesAt(proof, k, s, setup, n, cs, i)) &&
      proof[|proof| - 1] == ScalarProduct(ComputeScalarProductMessage(StateAfter(s, setup, n, cs, n), setup, cs[2 * n]))
  {
    var short := rounds.builder.proof;
    var cs := Replay(proof, k, |proof|, oracle);
    assert short <= proof;
    LeadsChain(rounds.states, setup, rounds.steps, n, short, proof, k, oracle, cs);
    AppendsRounds(rounds.states, setup, rounds.steps, n, short, proof, k, oracle, cs);
    ChainMessages(rounds.states, setup, n, proof, k, cs, s);
    ChainStateAfter(rounds.states, setup, cs, n, n);
    ReplayAt(proof, k, |proof|, oracle, 2 * n);
  }

  /** With no rounds the driver draws gamma and appends one scalar-product message on the initial state. */
  lemma {:induction false} ZeroRounds(b: ProofBuilder, s: ProverState, setup: Setup, oracle: ChallengeOracle)
    requires Ready(s, setup, 0)
    ensures InnerProductProve(b, s, setup, 0, oracle).proof ==
      b.proof + [ScalarProduct(ComputeScalarProductMessage(s, setup, oracle(b.proof, FoldScalarsChallenge)))]
  {
  }
}
