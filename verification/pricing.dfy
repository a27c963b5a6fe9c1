/**
 Closed-form Black-Scholes-Merton pricing of European options with a continuous
 dividend yield: the shared validation gate `D1D2`, the price `BsPrice` and the
 five sensitivities `BsGreeks`, all over an abstract math library.

 Arithmetic is exact over `real`. The option type is the string the caller passes,
 compared against "call" and "put".
 */
module Pricing {
  import opened Transcendental

  /** The two ways a pricing call is refused. */
  datatype Error =
    | NonPositiveInput   // some of S, K, T, sigma is not > 0
    | UnknownOption      // the option string is neither "call" nor "put"

  /** A value, or the error that stopped its computation. */
  datatype Result<+T> = Success(value: T) | Failure(error: Error) {
    predicate IsFailure() {
      Failure?
    }

    function PropagateFailure<U>(): Result<U>
      requires Failure?
    {
      Failure(error)
    }

    function Extract(): T
      requires Success?
    {
      value
    }
  }

  /** The pair (d1, d2) of the Black-Scholes formula. */
  datatype Ds = Ds(d1: real, d2: real)

  /** The five sensitivities; vega is per unit of sigma and theta per year. */
  datatype Greeks = Greeks(delta: real, gamma: real, vega: real, theta: real, rho: real)

  /** What the validation gate accepts. */
  predicate Admissible(S: real, K: real, T: real, sigma: real) {
    S > 0.0 && K > 0.0 && T > 0.0 && sigma > 0.0
  }

  /**
   The single validation gate: rejects unless S, K, T and sigma are all positive,
   and otherwise returns d1 and d2. d1 is the log-moneyness plus drift, scaled by
   sigma * sqrt(T); d2 lies sigma * sqrt(T) below it.
   */
  function D1D2(m: Lib, S: real, K: real, T: real, r: real, sigma: real, q: real): (res: Result<Ds>)
    ensures res.Success? <==> S > 0.0 && K > 0.0 && T > 0.0 && sigma > 0.0
    ensures res.Failure? ==> res.error == NonPositiveInput
    ensures res.Success? ==> res.value.d1 - res.value.d2 == sigma * m.sqrt(T) > 0.0
    ensures res.Success? ==>
              res.value.d1 * (sigma * m.sqrt(T)) == m.log(S / K) + (r - q + 0.5 * sigma * sigma) * T
  {
    if S <= 0.0 || K <= 0.0 || T <= 0.0 || sigma <= 0.0 then
      Failure(NonPositiveInput)
    else
      var vsqrtT := sigma * m.sqrt(T);
      var d1 := (m.log(S / K) + (r - q + 0.5 * sigma * sigma) * T) / vsqrtT;
      Success(Ds(d1, d1 - vsqrtT))
  }

  /**
   The option price. The gate runs first, so non-positive inputs are reported as
   such even when the option string is also wrong.
   */
  function BsPrice(m: Lib, S: real, K: real, T: real, r: real, sigma: real, q: real, option: string)
    : (res: Result<real>)
    ensures res.Success? <==> Admissible(S, K, T, sigma) && (option == "call" || option == "put")
    ensures res.Failure? ==>
              res.error == (if Admissible(S, K, T, sigma) then UnknownOption else NonPositiveInput)
  {
    var d :- D1D2(m, S, K, T, r, sigma, q);
    var discR := m.exp(-r * T);
    var discQ := m.exp(-q * T);
    if option == "call" then
      Success(S * discQ * Cdf(m, d.d1) - K * discR * Cdf(m, d.d2))
    else if option == "put" then
      Success(K * discR * Cdf(m, -d.d2) - S * discQ * Cdf(m, -d.d1))
    else
      Failure(UnknownOption)
  }

  /**
   The Greeks. Shares the gate with `BsPrice` but never rejects an option string:
   anything other than "call" takes the put formulas.
   */
  function BsGreeks(m: Lib, S: real, K: real, T: real, r: real, sigma: real, q: real, option: string)
    : (res: Result<Greeks>)
    ensures res.Success? <==> Admissible(S, K, T, sigma)
    ensures res.Failure? ==> res.error == NonPositiveInput
  {
    var d :- D1D2(m, S, K, T, r, sigma, q);
    var discR := m.exp(-r * T);
    var discQ := m.exp(-q * T);
    var pdf := Pdf(m, d.d1);
    var gamma := discQ * pdf / (S * sigma * m.sqrt(T));
    var vega := S * discQ * pdf * m.sqrt(T);
    if option == "call" then
      var delta := discQ * Cdf(m, d.d1);
      var theta := -S * discQ * pdf * sigma / (2.0 * m.sqrt(T))
                   - r * K * discR * Cdf(m, d.d2)
                   + q * S * discQ * Cdf(m, d.d1);
      var rho := K * T * discR * Cdf(m, d.d2);
      Success(Greeks(delta, gamma, vega, theta, rho))
    else
      var delta := discQ * (Cdf(m, d.d1) - 1.0);
      var theta := -S * discQ * pdf * sigma / (2.0 * m.sqrt(T))
                   + r * K * discR * Cdf(m, -d.d2)
                   - q * S * discQ * Cdf(m, -d.d1);
      var rho := -K * T * discR * Cdf(m, -d.d2);
      Success(Greeks(delta, gamma, vega, theta, rho))
  }
}
