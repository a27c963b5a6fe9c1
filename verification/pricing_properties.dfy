/**
 Relations between the call and put formulas of `Pricing`, and identities the
 Greeks satisfy. Each lemma names, in its `requires`, the facts about the math
 library it relies on.
 */
module PricingProperties {
  import opened Transcendental
  import opened Pricing

  /** The greeks of any option string other than "call" are the put greeks. */
  lemma NonCallGreeksArePutGreeks(m: Lib, S: real, K: real, T: real, r: real, sigma: real, q: real,
                                  option: string)
    requires option != "call"
    ensures BsGreeks(m, S, K, T, r, sigma, q, option) == BsGreeks(m, S, K, T, r, sigma, q, "put")
  {
  }

  /** Gamma and vega do not depend on the option string. */
  lemma GammaVegaTypeIndependent(m: Lib, S: real, K: real, T: real, r: real, sigma: real, q: real,
                                 o1: string, o2: string)
    requires Admissible(S, K, T, sigma)
    ensures BsGreeks(m, S, K, T, r, sigma, q, o1).value.gamma
            == BsGreeks(m, S, K, T, r, sigma, q, o2).value.gamma
    ensures BsGreeks(m, S, K, T, r, sigma, q, o1).value.vega
            == BsGreeks(m, S, K, T, r, sigma, q, o2).value.vega
  {
  }

  /** Put-call parity: C - P = S e^(-qT) - K e^(-rT). */
  lemma PutCallParity(m: Lib, S: real, K: real, T: real, r: real, sigma: real, q: real)
    requires ErfOdd(m)
    requires Admissible(S, K, T, sigma)
    ensures BsPrice(m, S, K, T, r, sigma, q, "call").value - BsPrice(m, S, K, T, r, sigma, q, "put").value
            == S * m.exp(-q * T) - K * m.exp(-r * T)
  {
    CallPriceForm(m, S, K, T, r, sigma, q);
    PutPriceForm(m, S, K, T, r, sigma, q);
    CdfReflection(m, D1D2(m, S, K, T, r, sigma, q).value.d1);
    CdfReflection(m, D1D2(m, S, K, T, r, sigma, q).value.d2);
    ReflectedPriceDifference(S * m.exp(-q * T), K * m.exp(-r * T),
                             Cdf(m, D1D2(m, S, K, T, r, sigma, q).value.d1),
                             Cdf(m, D1D2(m, S, K, T, r, sigma, q).value.d2),
                             Cdf(m, -D1D2(m, S, K, T, r, sigma, q).value.d1),
                             Cdf(m, -D1D2(m, S, K, T, r, sigma, q).value.d2));
  }

  /** The call price: S e^(-qT) Phi(d1) - K e^(-rT) Phi(d2). */
  lemma CallPriceForm(m: Lib, S: real, K: real, T: real, r: real, sigma: real, q: real)
    requires Admissible(S, K, T, sigma)
    ensures BsPrice(m, S, K, T, r, sigma, q, "call").value
            == S * m.exp(-q * T) * Cdf(m, D1D2(m, S, K, T, r, sigma, q).value.d1)
               - K * m.exp(-r * T) * Cdf(m, D1D2(m, S, K, T, r, sigma, q).value.d2)
  {
  }

  /** The put price: K e^(-rT) Phi(-d2) - S e^(-qT) Phi(-d1). */
  lemma PutPriceForm(m: Lib, S: real, K: real, T: real, r: real, sigma: real, q: real)
    requires Admissible(S, K, T, sigma)
    ensures BsPrice(m, S, K, T, r, sigma, q, "put").value
            == K * m.exp(-r * T) * Cdf(m, -D1D2(m, S, K, T, r, sigma, q).value.d2)
               - S * m.exp(-q * T) * Cdf(m, -D1D2(m, S, K, T, r, sigma, q).value.d1)
  {
  }

  /**
   The algebra behind put-call parity: with the reflected probabilities
   n1 = 1 - c1 and n2 = 1 - c2, the call price minus the put price is a - b.
   */
  lemma ReflectedPriceDifference(a: real, b: real, c1: real, c2: real, n1: real, n2: real)
    requires n1 == 1.0 - c1 && n2 == 1.0 - c2
    ensures (a * c1 - b * c2) - (b * n2 - a * n1) == a - b
  {
  }

  /** Call delta - put delta = e^(-qT). */
  lemma DeltaParity(m: Lib, S: real, K: real, T: real, r: real, sigma: real, q: real)
    requires Admissible(S, K, T, sigma)
    ensures BsGreeks(m, S, K, T, r, sigma, q, "call").value.delta
            - BsGreeks(m, S, K, T, r, sigma, q, "put").value.delta
            == m.exp(-q * T)
  {
  }

  /** Call rho - put rho = K T e^(-rT). */
  lemma RhoParity(m: Lib, S: real, K: real, T: real, r: real, sigma: real, q: real)
    requires ErfOdd(m)
    requires Admissible(S, K, T, sigma)
    ensures BsGreeks(m, S, K, T, r, sigma, q, "call").value.rho
            - BsGreeks(m, S, K, T, r, sigma, q, "put").value.rho
            == K * T * m.exp(-r * T)
  {
    var d := D1D2(m, S, K, T, r, sigma, q).value;
    CdfReflection(m, d.d2);
  }

  /** Call theta - put theta = q S e^(-qT) - r K e^(-rT). */
  lemma ThetaParity(m: Lib, S: real, K: real, T: real, r: real, sigma: real, q: real)
    requires ErfOdd(m)
    requires Admissible(S, K, T, sigma)
    ensures BsGreeks(m, S, K, T, r, sigma, q, "call").value.theta
            - BsGreeks(m, S, K, T, r, sigma, q, "put").value.theta
            == q * S * m.exp(-q * T) - r * K * m.exp(-r * T)
  {
    CallThetaForm(m, S, K, T, r, sigma, q);
    PutThetaForm(m, S, K, T, r, sigma, q);
    CdfReflection(m, D1D2(m, S, K, T, r, sigma, q).value.d1);
    CdfReflection(m, D1D2(m, S, K, T, r, sigma, q).value.d2);
    ReflectedDifference(ThetaDecay(m, S, T, sigma, q, D1D2(m, S, K, T, r, sigma, q).value.d1),
                        q * S * m.exp(-q * T), r * K * m.exp(-r * T),
                        Cdf(m, D1D2(m, S, K, T, r, sigma, q).value.d1), Cdf(m, D1D2(m, S, K, T, r, sigma, q).value.d2),
                        Cdf(m, -D1D2(m, S, K, T, r, sigma, q).value.d1), Cdf(m, -D1D2(m, S, K, T, r, sigma, q).value.d2));
  }

  /** Call theta: the decay term, less r K e^(-rT) Phi(d2), plus q S e^(-qT) Phi(d1). */
  lemma CallThetaForm(m: Lib, S: real, K: real, T: real, r: real, sigma: real, q: real)
    requires Admissible(S, K, T, sigma)
    ensures BsGreeks(m, S, K, T, r, sigma, q, "call").value.theta
            == ThetaDecay(m, S, T, sigma, q, D1D2(m, S, K, T, r, sigma, q).value.d1)
               - r * K * m.exp(-r * T) * Cdf(m, D1D2(m, S, K, T, r, sigma, q).value.d2)
               + q * S * m.exp(-q * T) * Cdf(m, D1D2(m, S, K, T, r, sigma, q).value.d1)
  {
  }

  /** Put theta: the decay term, plus r K e^(-rT) Phi(-d2), less q S e^(-qT) Phi(-d1). */
  lemma PutThetaForm(m: Lib, S: real, K: real, T: real, r: real, sigma: real, q: real)
    requires Admissible(S, K, T, sigma)
    ensures BsGreeks(m, S, K, T, r, sigma, q, "put").value.theta
            == ThetaDecay(m, S, T, sigma, q, D1D2(m, S, K, T, r, sigma, q).value.d1)
               + r * K * m.exp(-r * T) * Cdf(m, -D1D2(m, S, K, T, r, sigma, q).value.d2)
               - q * S * m.exp(-q * T) * Cdf(m, -D1D2(m, S, K, T, r, sigma, q).value.d1)
  {
  }

  /**
   The algebra behind theta parity: with the reflected probabilities n1 = 1 - c1
   and n2 = 1 - c2, the call terms minus the put terms leave a - b.
   */
  lemma ReflectedDifference(base: real, a: real, b: real, c1: real, c2: real, n1: real, n2: real)
    requires n1 == 1.0 - c1 && n2 == 1.0 - c2
    ensures (base - b * c2 + a * c1) - (base + b * n2 - a * n1) == a - b
  {
  }

  /** The time-decay term that call and put theta share. */
  function ThetaDecay(m: Lib, S: real, T: real, sigma: real, q: real, d1: real): real
    requires T > 0.0
  {
    -S * m.exp(-q * T) * Pdf(m, d1) * sigma / (2.0 * m.sqrt(T))
  }

  /** Gamma and vega are positive for every admissible input and either option. */
  lemma GammaVegaPositive(m: Lib, S: real, K: real, T: real, r: real, sigma: real, q: real,
                          option: string)
    requires ExpPositive(m)
    requires Admissible(S, K, T, sigma)
    ensures BsGreeks(m, S, K, T, r, sigma, q, option).value.gamma > 0.0
    ensures BsGreeks(m, S, K, T, r, sigma, q, option).value.vega > 0.0
  {
  }

  /** Vega = S^2 sigma T gamma, the link between the two type-independent Greeks. */
  lemma VegaGammaRelation(m: Lib, S: real, K: real, T: real, r: real, sigma: real, q: real,
                          option: string)
    requires SqrtSquares(m)
    requires Admissible(S, K, T, sigma)
    ensures BsGreeks(m, S, K, T, r, sigma, q, option).value.vega
            == S * S * sigma * T * BsGreeks(m, S, K, T, r, sigma, q, option).value.gamma
  {
  }

  /** The textbook form of d2: d2 sigma sqrt(T) = ln(S/K) + (r - q - sigma^2/2) T. */
  lemma D2Form(m: Lib, S: real, K: real, T: real, r: real, sigma: real, q: real)
    requires SqrtSquares(m)
    requires Admissible(S, K, T, sigma)
    ensures D1D2(m, S, K, T, r, sigma, q).value.d2 * (sigma * m.sqrt(T))
            == m.log(S / K) + (r - q - 0.5 * sigma * sigma) * T
  {
  }

  /** At the money with r = q = 0 the call delta is Phi(sigma sqrt(T) / 2). */
  lemma AtTheMoneyCallDelta(m: Lib, S: real, T: real, sigma: real)
    requires SqrtSquares(m) && m.log(1.0) == 0.0 && m.exp(0.0) == 1.0
    requires Admissible(S, S, T, sigma)
    ensures BsGreeks(m, S, S, T, 0.0, sigma, 0.0, "call").value.delta
            == Cdf(m, 0.5 * sigma * m.sqrt(T))
  {
    assert S / S == 1.0;
    var d1 := D1D2(m, S, S, T, 0.0, sigma, 0.0).value.d1;
    HalfVolatility(d1, sigma, m.sqrt(T), T);
    assert d1 == 0.5 * sigma * m.sqrt(T);
    assert m.exp(-0.0 * T) == 1.0;
  }

  /** If d1 (sigma s) = sigma^2 T / 2 and s^2 = T > 0, then d1 = sigma s / 2. */
  lemma HalfVolatility(d1: real, sigma: real, s: real, T: real)
    requires sigma > 0.0 && s > 0.0 && s * s == T
    requires d1 * (sigma * s) == (0.0 - 0.0 + 0.5 * sigma * sigma) * T
    ensures d1 == 0.5 * sigma * s
  {
  }
}
