# Dory inner-product prover, modelled in Dafny

This project models the prover side of the extended Dory inner-product
argument: the Dory-Reduce rounds and the final Scalar-Product step of
sections 3.3 and 4.3 of the Dory paper (eprint 2020/1274). Three pieces make
up the model.

- **The driver `inner_product_prove`** (`inner_product.dfy`, module
  `InnerProduct`). It threads a proof builder and a prover state through
  `num_rounds` rounds. Each round computes the first message, appends it and
  draws beta, then combines. It then computes the second message, appends it
  and draws alpha, then folds. After the rounds it draws gamma, computes the
  scalar-product message and appends it. It returns the builder produced by
  that last append.
  - The source's `Iterator::fold` over `0..num_rounds` becomes structural
    recursion on the number of rounds left. `Rounds` and `RoundThenRest` are
    mutually recursive; `RoundThenRest` is one pass of the loop body.
  - Besides the builder, the model returns the list of calls the driver made
    (`Step`). Each step records which operation ran, at which vector length
    and with which challenge. This list is what lets the order of calls and
    the flow of challenges be stated.
  - The round loop also returns the states it passed through: the state each
    round started from, then the final one. Its contract ties them to the
    calls: round i appended the first message of state i, then the second
    message of state i combined with that round's beta, and state i + 1 is
    state i combined with that beta and folded with that round's alpha.
  - `StateAfter` is an independent reference for the state after j rounds:
    it applies combine and fold pairwise to a list of challenges
    [beta_0, alpha_0, beta_1, alpha_1, ...]. `ProveComputes` states the whole
    proof in its terms, with the challenges a verifier recomputes from the
    proof itself.
- **The prover-state contract** (`state.dfy`, module `State`). The five
  operations follow the formulas in the doc comments of the `ProverState`
  trait:
  - the first message: D_1L, D_1R, D_2L, D_2R, E_1beta, E_2beta;
  - combine: v1 + beta Gamma1 and v2 + beta^-1 Gamma2;
  - the second message: C+, C-, E_1+-, E_2+-;
  - fold: alpha v_L + v_R and alpha^-1 v_L + v_R;
  - the scalar-product message: E1 = v1 + gamma s1 H2 and E2 = v2 + gamma^-1 s2 H1.

  Each operation is a pure function on a `ProverState` value. The panics the
  trait documents become `requires` clauses:
  - the reduce operations need length at least 2, split into equal halves;
  - the scalar-product step needs length 1.

  The lemmas state what makes each message useful to a verifier. They give
  the pairings of the next state in terms of the old pairings, the message,
  the challenge and the public setup.
- **The proof-builder contract** (`builder.dfy`, module `Builder`). The
  builder is one accumulated value that is both the transcript and the
  proof. It is modelled as the ordered log of appended messages.
  - Challenges are derived from that log by a deterministic derivation the
    concrete builder supplies (`ChallengeOracle`). It is a parameter with one
    derivation per drawing method.
  - The first and second append draw their challenge after appending.
    `challenge_fold_scalars` draws without appending. The scalar-product
    append draws nothing.

The groups G1, G2, GT and the scalar field all collapse to the prime field
Z/7 (`field.dfy`, module `Field`), and the bilinear pairing becomes
multiplication. `Vectors` defines the pairing sum <a, b>, halves and folds,
and proves bilinearity. Challenges have type `NonZero`, so every inverse the
formulas use exists. `scenario.dfy` works through one concrete session, a
single round from length 2, and states every intermediate value.

The setup is read as a precomputed table. It maps each vector length to its
generators Gamma1 and Gamma2 of that length. The half-length generators
Gamma1' and Gamma2' of a round at length L are the entries for L / 2.

E1 uses H2 and E2 uses H1, as the doc comment of
`compute_scalar_product_message` writes them (src/state.rs:89-90). With the
source's types that formula adds gamma s1 H2, an element of G2, to v1, an
element of G1. Only the collapse of all groups to Z/7 makes it expressible;
the Dory paper's E1 uses H1 and its E2 uses H2.

## Model

| member | source | states |
|---|---|---|
| Field.Inv | src/state.rs:43 | the inverse beta^-1 the formulas use: Mul(a, Inv(a)) == 1 on both sides, for every non-zero challenge |
| Builder.AppendFirstReduceMessage | src/builder.rs:21-26 | the proof log grows by exactly the first reduce message; the challenge is drawn from the log after that append |
| Builder.AppendSecondReduceMessage | src/builder.rs:27-32 | the proof log grows by exactly the second reduce message; the challenge is drawn from the log after that append |
| Builder.ChallengeFoldScalars | src/builder.rs:33-35 | the builder is returned unchanged (no message appended); gamma is drawn from the log as it stands |
| Builder.AppendScalarProductMessage | src/builder.rs:36-41 | the proof log grows by exactly the scalar-product message; no challenge is returned |
| State.ReduceCombine | src/state.rs:40-54 | requires length at least 2; entry i of v1 becomes v1[i] + beta Gamma1[i] and entry i of v2 becomes v2[i] + beta^-1 Gamma2[i]; the length, s1 and s2 are unchanged |
| State.ReduceFold | src/state.rs:71-86 | requires an even length of at least 2; the four vectors get length L/2 with v1'[i] = alpha v1[i] + v1[i + L/2], v2'[i] = alpha^-1 v2[i] + v2[i + L/2], and likewise s1' with alpha and s2' with alpha^-1 |
| State.CombineCrossTerms | src/state.rs:24-54 | after combining with beta, <v1, s2> grows by beta E_1beta and <s1, v2> by beta^-1 E_2beta of the first message; <v1, v2> becomes C + beta^-1 <v1, Gamma2> + beta <Gamma1, v2> + <Gamma1, Gamma2> |
| State.FoldPairingExpand | src/state.rs:71-76 | the pairing of two folded vectors expanded by bilinearity into the four half pairings |
| State.FoldPairing | src/state.rs:71-76 | <alpha xL + xR, alpha^-1 yL + yR> = <x, y> + alpha <xL, yR> + alpha^-1 <xR, yL> |
| State.FoldCrossTerms | src/state.rs:55-86 | after folding with alpha, <v1, v2>, <v1, s2> and <s1, v2> each become their old value plus alpha times the "+" term and alpha^-1 times the "-" term of the second message (C, E_1, E_2) |
| State.FoldedCommitments | src/state.rs:24-86 | after combine with beta and fold with alpha, <v1', Gamma2'> and <Gamma1', v2'> are determined by D_1L, D_1R, D_2L, D_2R of the first message, the challenges and pairings of setup generators |
| State.ScalarProductExpansion | src/state.rs:87-100 | at length 1, e(E1, E2) = <v1, v2> + gamma^-1 H1 <v1, s2> + gamma H2 <s1, v2> + H1 H2 <s1, s2> |
| InnerProduct.Round | src/inner_product.rs:18-23 | one pass of the loop body on s: the log grows by exactly the first message of s, then the second message of s combined with beta, where beta is the challenge recomputed for the first of them and alpha the one recomputed for the second; the new state is s combined with beta, then folded with alpha, and is ready for the remaining rounds; the four calls are append-first, combine, append-second, fold at the length of s |
| InnerProduct.Rounds | src/inner_product.rs:17-24 | from a consistent state of length 2^n: the final state has length 1; the calls are n rounds at lengths 2^n down to 2; the log grows by 2n messages, alternating first and second, and keeps its prefix; every beta and alpha is the challenge recomputed for its message; round i appended the first message of state i and the second message of state i combined with its beta; state i + 1 is state i combined with that beta and folded with that alpha; the states run from s to the final state |
| InnerProduct.RoundThenRest | src/inner_product.rs:17-24 | the same guarantees as Rounds for n > 0, from one pass of the loop body followed by the remaining n - 1 rounds |
| InnerProduct.RoundThenRestRan | src/inner_product.rs:17-24 | one pass of the loop body that meets Round's guarantees, followed by n - 1 rounds that meet Rounds' guarantees on the builder and state it left, meets Rounds' guarantees for n rounds |
| InnerProduct.RoundThenRestStates | src/inner_product.rs:17-24 | after one pass and then n - 1 rounds, round i of all n appended the messages of state i and led to state i + 1, and the states run from s to the final state |
| InnerProduct.Prove | src/inner_product.rs:17-26 | the whole run makes 4n + 2 calls and appends exactly 2n + 1 messages to the given builder, keeping what it held |
| InnerProduct.InnerProductProve | src/inner_product.rs:7-27 | the returned builder extends the given one by 2n + 1 messages and its last message is a scalar-product message |
| InnerProduct.ProveComputes | src/inner_product.rs:7-27 | with cs the 2n + 1 challenges a verifier recomputes from the returned proof: for each i < n, message 2i after the given log is the first message of StateAfter(s, cs, i), and message 2i + 1 is the second message of that state combined with cs[2i]; the last message is the scalar-product message of StateAfter(s, cs, n) with gamma = cs[2n] |
| InnerProduct.StateAfterRec | src/inner_product.rs:17-24 | after j of m rounds from a state ready for m, the reference state is ready for the remaining m - j: consistent, of length 2^(m-j), with generators for every length left |
| InnerProduct.AfterRoundReady | src/inner_product.rs:18-23 | a state ready for m > 0 rounds can run one, and after combine and fold with any beta and alpha it is ready for m - 1 |
| InnerProduct.StateAfterCons | src/inner_product.rs:17-24 | j > 0 rounds with challenges [beta, alpha] + rest are one round with beta and alpha, then j - 1 rounds with rest |
| InnerProduct.StateAfterPrefix | src/inner_product.rs:17-24 | the state after j rounds depends only on the first 2j challenges |
| InnerProduct.ChainStateAfter | src/inner_product.rs:17-24 | when each state is the previous one after a round with the next pair of challenges, state j is StateAfter(first state, cs, j) |
| InnerProduct.ScheduleRounds | src/inner_product.rs:17-24 | the calls of n rounds are 4n, and round i runs at length 2^(n-i) in the fixed order, combining with the beta its append drew and folding with the alpha its append drew |
| InnerProduct.AlternatesAt | src/inner_product.rs:18-22 | the 2n messages appended by the rounds alternate first, second, first, second, ... |
| InnerProduct.ChallengeForPrefix | src/builder.rs:21-35 | the challenge recomputed for a message depends only on the log up to that message, so appending later messages does not change it |
| InnerProduct.ReplaysAt | src/inner_product.rs:18-22 | in round i the beta drawn by the first append and the alpha drawn by the second are the challenges recomputed for messages 2i and 2i + 1 of the round log |
| InnerProduct.ReplaysDrawn | src/inner_product.rs:18-23 | the challenges drawn over n rounds are exactly those recomputed, in order, for the 2n reduce messages |
| InnerProduct.RunReplays | src/inner_product.rs:17-26 | n rounds whose challenges replay, then gamma drawn from the log they left and one scalar-product append, draw exactly the challenges recomputed for all 2n + 1 messages |
| InnerProduct.ProveSchedule | src/inner_product.rs:17-26 | a run makes exactly 4n + 2 calls: the n rounds in order at lengths 2^n ... 2, then the gamma draw, then the scalar-product step at length 1 recorded with that gamma |
| InnerProduct.ProveMessages | src/inner_product.rs:17-26 | the proof is the given log followed by n first/second pairs in alternation and one final scalar-product message, 2n + 1 in all |
| InnerProduct.ProveReplay | src/inner_product.rs:18-26 | the 2n + 1 challenges the prover drew (beta and alpha per round, then gamma) are exactly those recomputed from the returned proof alone |
| InnerProduct.ZeroRounds | src/inner_product.rs:17-26 | with no rounds the proof is the given log plus the scalar-product message computed on the initial state with gamma drawn from that log |
| Scenario.ExampleFirstMessage | src/state.rs:24-39 | on v1 = [2, 3], v2 = [4, 5], s1 = s2 = [1, 1] with unit generators: D = (2, 3, 4, 5), E_1beta = E_2beta = 2 |
| Scenario.ExampleCombine | src/state.rs:40-54 | combining that state with beta = 2 gives v1 = [4, 5], v2 = [1, 2] |
| Scenario.ExampleCombineBetaOne | src/state.rs:40-54 | combining that state with beta = 1 adds the generators unscaled: v1 = [3, 4], v2 = [5, 6] |
| Scenario.ExampleSecondMessage | src/state.rs:55-70 | the second message of the combined state is (1, 5, 4, 5, 2, 1) |
| Scenario.ExampleFold | src/state.rs:71-86 | folding with alpha = 3 gives v1 = [3], v2 = [0], s1 = [4], s2 = [6] |
| Scenario.ExampleScalarProduct | src/state.rs:87-100 | with gamma = 5 the scalar-product message is E1 = 2, E2 = 4 |
| Scenario.ExampleRound | src/inner_product.rs:17-24 | the one round of the example appends the two messages, draws beta = 2 and alpha = 3 and leaves the folded state |
| Scenario.ExampleProof | src/inner_product.rs:7-27 | the example's proof is exactly [first message, second message, scalar-product message] |

## Left out

- Elliptic-curve groups, the pairing and field inversion are replaced by Z/7 with multiplication as the pairing, so no cryptographic property is modelled.
- Transcript hashing is not modelled. Challenge derivation is an arbitrary deterministic function of the message log and of which builder method draws; its binding and unpredictability are not modelled.
- Setup generation is not modelled. The setup is a given table from length to generators, plus H1 and H2.
- Proof serialisation and verifier-side checking are absent from the source and from the model.
- src/lib.rs only declares modules and re-exports them.
- src/messages.rs is not part of this model. Messages are plain records of field elements, and the three challenge wrapper types are all `NonZero`.
- State.ComputeFirstReduceMessage, State.ComputeSecondReduceMessage and State.ComputeScalarProductMessage carry no `ensures` of their own. Their formulas are their bodies, and what they mean is stated by CombineCrossTerms, FoldCrossTerms, FoldedCommitments, ScalarProductExpansion and the scenario lemmas.
- State.ReduceFold, State.ComputeFirstReduceMessage and State.ComputeSecondReduceMessage require an even length as well as a length of at least 2. The source documents only the latter, but its halves are of equal length only for even lengths, and the driver only ever uses lengths 2^k.
- `compute_second_reduce_message` and `reduce_fold` take the setup as an argument, but their formulas do not use it, so the model drops it.
- Ownership is not modelled. The source distinguishes reading `&self` from consuming `self`; every operation here is a pure function on values, so "the message computations leave the state unchanged" holds by construction.
- The `Step` trace and the list of states passed through are produced by the modelled driver itself; the source keeps no such record. The trace alone is not evidence of what was computed: what ties the calls to the state and the messages is the contract of Rounds and ProveComputes.
- InnerProduct.Prove and InnerProduct.InnerProductProve state only counts and the kind of the last message in their own contracts; the contents of the proof are stated by ProveComputes, the order of calls by ProveSchedule, and the challenges by ProveReplay.
- InnerProduct.ProveSchedule: the betas, alphas and gamma it names are those recorded in the trace; that the state is combined, folded and finished with them is stated by Rounds and ProveComputes, not by ProveSchedule.
