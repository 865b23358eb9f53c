/** Arithmetic facts about `real` shared by the frontend modules. */
module Reals {

  /** A quotient of non-zero numbers is non-zero. */
  lemma QuotientNonZero(a: real, b: real)
    requires a != 0.0 && b != 0.0
    ensures a / b != 0.0
  {
  }

  /** Dividing by a non-zero number and multiplying back gives the number. */
  lemma QuotientTimes(a: real, b: real)
    requires b != 0.0
    ensures (a / b) * b == a
  {
  }
}
