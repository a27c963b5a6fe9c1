/**
 The host math library the pricer draws on, and the two normal-distribution
 primitives built from it.

 `exp`, `log`, `sqrt` and `erf` have no definition here: they are fields of a
 `MathLib` value that every pricing function takes as a parameter, so every
 result holds for any library. The subset type `Lib` asks of a library only what
 is needed for the pricer's divisions to be defined; each further fact a proof
 relies on (erf is odd, exp is positive, ...) is a named predicate that the
 lemmas needing it list in their `requires`.
 */
module Transcendental {

  datatype MathLib = MathLib(
    exp: real -> real,
    log: real -> real,
    sqrt: real -> real,
    erf: real -> real,
    pi: real)

  /** Square roots of positive numbers are positive, so `x / sqrt(y)` is defined for `y > 0`. */
  ghost predicate SqrtPositive(m: MathLib) {
    forall x :: x > 0.0 ==> m.sqrt(x) > 0.0
  }

  /** The libraries the pricer can run on: every division it performs is by a non-zero number. */
  type Lib = m: MathLib | SqrtPositive(m) && m.pi > 0.0
    witness MathLib(x => 1.0, x => 0.0, x => 1.0, x => 0.0, 3.0)

  /** erf(-x) = -erf(x). */
  ghost predicate ErfOdd(m: MathLib) {
    forall x :: m.erf(-x) == -m.erf(x)
  }

  /** exp(x) > 0. */
  ghost predicate ExpPositive(m: MathLib) {
    forall x :: m.exp(x) > 0.0
  }

  /** -1 <= erf(x) <= 1. */
  ghost predicate ErfBounded(m: MathLib) {
    forall x :: -1.0 <= m.erf(x) <= 1.0
  }

  /** sqrt(x) * sqrt(x) = x for x > 0. */
  ghost predicate SqrtSquares(m: MathLib) {
    forall x :: x > 0.0 ==> m.sqrt(x) * m.sqrt(x) == x
  }

  /** Standard normal density, exp(-x^2/2) / sqrt(2 pi); positive whenever exp is. */
  function Pdf(m: Lib, x: real): (p: real)
    ensures ExpPositive(m) ==> p > 0.0
  {
    m.exp(-0.5 * x * x) / m.sqrt(2.0 * m.pi)
  }

  /** Standard normal distribution function, (1 + erf(x / sqrt 2)) / 2. */
  function Cdf(m: Lib, x: real): real {
    0.5 * (1.0 + m.erf(x / m.sqrt(2.0)))
  }

  /** The distribution function is a probability whenever erf stays in [-1, 1]. */
  lemma CdfIsProbability(m: Lib, x: real)
    requires ErfBounded(m)
    ensures 0.0 <= Cdf(m, x) <= 1.0
  {
  }

  /** The reflection identity of the normal distribution, from the oddness of erf. */
  lemma CdfReflection(m: Lib, x: real)
    requires ErfOdd(m)
    ensures Cdf(m, -x) == 1.0 - Cdf(m, x)
  {
  }
}
