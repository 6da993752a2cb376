/**
 * The values exchanged between the prover and the (virtual) verifier. In the
 * toy algebra every group element, target-group element and scalar is an
 * element of Z/7.
 */
module Messages {
  import opened Field

  /** D_1L, D_1R, D_2L, D_2R, E_1beta, E_2beta of the first Dory-Reduce message. */
  datatype FirstReduceMessage = FirstReduceMessage(
    d1L: Elem, d1R: Elem, d2L: Elem, d2R: Elem, e1Beta: Elem, e2Beta: Elem)

  /** C_+, C_-, E_1+, E_1-, E_2+, E_2- of the second Dory-Reduce message. */
  datatype SecondReduceMessage = SecondReduceMessage(
    cPlus: Elem, cMinus: Elem, e1Plus: Elem, e1Minus: Elem, e2Plus: Elem, e2Minus: Elem)

  /** E_1, E_2 of the final Scalar-Product message. */
  datatype ScalarProductMessage = ScalarProductMessage(e1: Elem, e2: Elem)
}
