# Black-Scholes option pricing and implied volatility, in Dafny

This project models the numerical core of a small Black-Scholes-Merton option
pricer (`Model.py`):

- `_phi` and `_Phi`, the standard normal density and distribution function,
  built from the host's `exp`, `sqrt`, `erf` and `pi`;
- `_d1_d2`, the single validation gate: it rejects the inputs unless spot S,
  strike K, expiry T and volatility sigma are all positive, and otherwise
  computes d1 and d2;
- `bs_price`, the call or put price with a continuous dividend yield q;
- `bs_greeks`, the `Greeks` record (delta, gamma, vega, theta, rho);
- `implied_vol`, which inverts the price in sigma. It runs a bounded Newton
  iteration whose iterate is clamped into [1e-6, 5.0]. A flat vega
  (below 1e-12) or an exhausted budget hands over to 200 bisection steps on
  [1e-6, 5.0].

Arithmetic is exact over `real`. The transcendental functions `exp`, `log`,
`sqrt` and `erf`, and the constant `pi`, are fields of a `MathLib` value passed
to every function, so nothing depends on how they are computed. The subset type
`Lib` asks only that `sqrt` is positive on positive numbers and that `pi > 0`;
without this, the pricer's divisions would not be defined. Any other fact a
lemma needs is listed in that lemma's `requires`:
`ErfOdd` (erf(-x) = -erf(x)), `ErfBounded` (-1 <= erf(x) <= 1), `ExpPositive`,
`SqrtSquares` (sqrt(x)^2 = x), and
for one lemma, log(1) = 0 and exp(0) = 1. The reflection Phi(-x) = 1 - Phi(x) is
proved from `ErfOdd`; it is not assumed.

Python's `ValueError` becomes `Result.Failure` with one of two errors:

- `NonPositiveInput`: some of S, K, T, sigma is not positive;
- `UnknownOption`: the option string is neither "call" nor "put".

The solver's two phases (`NewtonPhase` and `BisectionPhase`, joined by
`SolveWith`) take the price and vega curves (volatility to result) as function
parameters. They make two requirements of those curves:

- `RefusesUniformly`: at every positive volatility, the price curve either
  always succeeds or always fails with the same error;
- `VegaAvailable`: wherever the price succeeds, the vega curve succeeds too.

`ImpliedVolatility` runs the phases on the Black-Scholes curves, and
`BlackScholesCurvesQualify` proves that those curves meet both requirements.
Ghost out-parameters record how a solve ran:

- the trace of Newton iterates, each the clamped Newton step from the one before;
- the path of bisection brackets, each the half of the one before that its
  midpoint price selects;
- `NewtonEnd`, why the Newton phase stopped: it was refused, it converged, it
  stalled on a flat vega, or it took all its steps;
- `Exit`, which phase produced the result;
- the number of price and vega evaluations.

The trace and the path fix every volatility the solver prices: a bisection hit
comes within the first 200 brackets, an exhausted bisection returns the midpoint
of the 201st, and the price evaluations are exactly one per trace entry plus one
per bracket whose midpoint was priced. So the contracts determine which phase
returns, what it returns, and how many evaluations it took.

Some behaviour of the code is worth spelling out:

- The option type is the caller's string, compared with "call" and "put"
  (Model.py:23-28, Model.py:43). So `BsPrice` can fail with `UnknownOption`.
  `BsGreeks` never fails on the option: any string other than "call" gets the
  put Greeks.
- A seed above 5.0 can come back unclamped. Newton starts at max(1e-6, seed) and
  returns that iterate when it already prices within tol (Model.py:61-66); the
  clamp into [1e-6, 5.0] applies only to later iterates (Model.py:70).
  `ImpliedVolatility` therefore states that a result is either that first
  iterate or lies in [1e-6, 5.0].
- The floor max(1e-12, sigma) on a Newton result (Model.py:66) never changes
  anything, because every Newton iterate is at least 1e-6. The contract states
  this.

## Model

| member | source | states |
|---|---|---|
| Transcendental.CdfReflection | Model.py:8-9 | if erf is odd, Phi(-x) = 1 - Phi(x) for every x |
| Transcendental.Pdf | Model.py:5-6 | the standard normal density; it is positive everywhere if exp is positive |
| Transcendental.CdfIsProbability | Model.py:8-9 | if erf stays in [-1, 1], the standard normal distribution function Phi(x) lies in [0, 1] for every x |
| Pricing.D1D2 | Model.py:11-17 | succeeds exactly when S, K, T and sigma are all > 0, and fails with NonPositiveInput otherwise; on success d1 - d2 = sigma sqrt(T) > 0 and d1 sigma sqrt(T) = ln(S/K) + (r - q + sigma^2/2) T |
| Pricing.BsPrice | Model.py:19-28 | succeeds exactly when the gate accepts and the option is "call" or "put"; non-positive inputs are reported as NonPositiveInput even when the option string is also wrong, and UnknownOption only for admissible inputs |
| Pricing.BsGreeks | Model.py:38-57 | succeeds exactly when the gate accepts, whatever the option string, and otherwise fails with NonPositiveInput, so it refuses the same numeric inputs as BsPrice |
| PricingProperties.NonCallGreeksArePutGreeks | Model.py:43-54 | any option string other than "call" yields exactly the "put" Greeks |
| PricingProperties.GammaVegaTypeIndependent | Model.py:55-56 | gamma and vega are the same for any two option strings |
| PricingProperties.PutCallParity | Model.py:23-26 | if erf is odd, call price - put price = S e^(-qT) - K e^(-rT) |
| PricingProperties.DeltaParity | Model.py:43-50 | call delta - put delta = e^(-qT) |
| PricingProperties.RhoParity | Model.py:43-54 | if erf is odd, call rho - put rho = K T e^(-rT) |
| PricingProperties.ThetaParity | Model.py:43-53 | if erf is odd, call theta - put theta = q S e^(-qT) - r K e^(-rT) |
| PricingProperties.GammaVegaPositive | Model.py:42-56 | if exp is positive, gamma and vega are positive for every admissible input and option |
| PricingProperties.VegaGammaRelation | Model.py:55-56 | if sqrt squares back, vega = S^2 sigma T gamma |
| PricingProperties.D2Form | Model.py:14-16 | if sqrt squares back, d2 sigma sqrt(T) = ln(S/K) + (r - q - sigma^2/2) T |
| PricingProperties.AtTheMoneyCallDelta | Model.py:39-44 | with S = K and r = q = 0 (and log 1 = 0, exp 0 = 1), call delta = Phi(sigma sqrt(T) / 2) |
| ImpliedVol.NewtonUpdate | Model.py:70 | the updated iterate lies in [1e-6, 5.0] and equals the raw Newton step sigma - diff/vega whenever that step is in range |
| ImpliedVol.NewtonUpdateIsNearest | Model.py:70 | the updated iterate is no farther from the raw Newton step than any other volatility in [1e-6, 5.0] |
| ImpliedVol.BisectStep | Model.py:78-81 | the new bracket is one half of the old one, of half the width, and it is the lower half exactly when the midpoint price exceeds the target |
| ImpliedVol.BisectStepKeepsStraddle | Model.py:73-81 | if the price is at or below the target at lo and above it at hi, the same holds for the halved bracket |
| ImpliedVol.BisectionPathShrinks | Model.py:72-81 | every bracket of a bisection path lies in [1e-6, 5.0] with lo < hi, and the j-th has width (5.0 - 1e-6)/2^j |
| ImpliedVol.BisectionPathKeepsStraddle | Model.py:72-81 | if [1e-6, 5.0] straddles the target, so does every bracket of a bisection path, for any price curve |
| ImpliedVol.BlackScholesCurvesQualify | Model.py:19-28 | at every positive volatility, Black-Scholes pricing fails exactly for non-priceable inputs, always with the same error, and vega is available wherever a price is |
| ImpliedVol.NewtonPhase | Model.py:61-70 | the ghost trace lists every iterate priced, in order: the first is max(1e-6, seed), and each later one is the clamped Newton step from its predecessor, at which the price succeeded, missed tol, and had vega >= 1e-12 (`NewtonTrace`); a converged or stalled result is the last iterate of the trace, which prices strictly within tol (converged) or misses tol with vega below 1e-12 (stalled); a spent budget means the trace holds exactly max_iter iterates, the last of which also missed tol with a usable vega; it fails only on refused inputs, at the first iterate; one price evaluation per iterate, at most max_iter |
| ImpliedVol.BisectionPhase | Model.py:72-82 | the ghost path lists every bracket visited, in order: the first is [1e-6, 5.0], and each later one is the `BisectStep` of its predecessor, whose midpoint priced but missed tol (`BisectionPath`); an early return is the midpoint of the last bracket, strictly inside (1e-6, 5.0) and priced within tol; running out of steps means 200 halvings with no midpoint within tol, and the last bracket is returned; fails exactly on refused inputs, at the first midpoint; 1 to 200 price evaluations |
| ImpliedVol.SolveWith | Model.py:59-82 | over any uniformly refusing price curve, the solve fails exactly when the curve refuses; the Newton iterates follow `NewtonTrace` and, when bisection runs, the brackets follow `BisectionPath`; the result comes from Newton exactly when Newton converged, and is then the last Newton iterate; bisection runs only after Newton stalled at its last iterate or took all max_iter steps without reaching tol; a bisection hit is the midpoint of the last bracket of a path of at most 200 brackets; a success is at least 1e-6 and is either max(1e-6, seed) or at most 5.0, and lies in (1e-6, 5.0) when bisection produced it; an exhausted bisection returns the midpoint of a bracket of width (5.0 - 1e-6)/2^200 that straddles the target if [1e-6, 5.0] did; the price evaluations are exactly one per Newton iterate plus one per priced bisection midpoint, hence at most max_iter + 200; the vega evaluations are one per Newton iterate that missed tol, hence at most max_iter |
| ImpliedVol.ImpliedVolatility | Model.py:59-82 | the same guarantees for the Black-Scholes price and vega as functions of sigma: fails exactly when S, K or T is not positive (NonPositiveInput) or the option is not "call"/"put" (UnknownOption), never because Newton stalled or ran out of steps; the Newton iterates follow `NewtonTrace` and the bisection brackets follow `BisectionPath` on the Black-Scholes curves, with the same bound of 200 brackets on a bisection hit and the same exact evaluation counts; a stall happens only at a volatility whose Black-Scholes price misses the target by at least tol and whose vega is below 1e-12 |

## Left out

- Console input and output (`_f`, `_option`, `main`, Model.py:85-131) are not modelled: they are interactive retry loops around the three calls above.
- The values of `exp`, `log`, `sqrt`, `erf` and `pi` are not modelled. They come from the host math library and are parameters here, constrained only as described above.
- IEEE-754 behaviour is not modelled: rounding, overflow, underflow, infinities and NaN. A NaN input would pass the `v <= 0` gate in Python; no `real` is NaN.
- Accuracy and convergence are not modelled: how close the returned volatility is to the true implied volatility, or how fast Newton converges. These depend on floating point and on the shape of the real price curve.
- The price is not proved increasing in sigma. That would need derivatives of the uninterpreted functions. The bisection guarantee is therefore stated conditionally: if the full range straddles the target, the final bracket does.
- The `float(seed)` coercion in Model.py:61 is not modelled: the seed is already a `real`.
