/**
 Implied volatility: the sigma at which `BsPrice` reproduces a target price,
 found by a bounded Newton iteration whose iterate is clamped into
 [MinVol, MaxVol], falling back to a fixed number of bisection steps over that
 same interval.

 The two phases are written over any price curve `price` and vega curve `vega`
 (volatility to result); `ImpliedVolatility` runs them on the Black-Scholes
 curves of module `Pricing` and passes their errors on unchanged, so it is
 refused exactly when pricing is.
 */
module ImpliedVol {
  import opened Transcendental
  import opened Pricing

  const MinVol: real := 0.000001             // lower end of the volatility range, 1e-6
  const MaxVol: real := 5.0                  // upper end of the volatility range
  const FlatVega: real := 0.000000000001     // a vega below this (1e-12) ends the Newton phase
  const ResultFloor: real := 0.000000000001  // floor (1e-12) applied to a Newton result
  const BisectionSteps: nat := 200
  const DefaultSeed: real := 0.2
  const DefaultTol: real := 0.00000001       // 1e-8
  const DefaultMaxIter: int := 100

  function Max(a: real, b: real): real {
    if a >= b then a else b
  }

  function Min(a: real, b: real): real {
    if a <= b then a else b
  }

  function Abs(x: real): real {
    if x < 0.0 then -x else x
  }

  /** The number of Newton steps a budget of `maxIter` allows. */
  function Budget(maxIter: int): nat {
    if maxIter > 0 then maxIter else 0
  }

  /** 2^n. */
  function Pow2(n: nat): real {
    if n == 0 then 1.0 else 2.0 * Pow2(n - 1)
  }

  /** One Newton update: the raw step sigma - diff / vega, clamped into [MinVol, MaxVol]. */
  function NewtonUpdate(sigma: real, diff: real, vega: real): (next: real)
    requires vega >= FlatVega
    ensures MinVol <= next <= MaxVol
    ensures MinVol <= sigma - diff / vega <= MaxVol ==> next == sigma - diff / vega
  {
    Min(MaxVol, Max(MinVol, sigma - diff / vega))
  }

  /** Of all volatilities in range, the Newton update is the one nearest the raw step. */
  lemma NewtonUpdateIsNearest(sigma: real, diff: real, vega: real, other: real)
    requires vega >= FlatVega
    requires MinVol <= other <= MaxVol
    ensures Abs(NewtonUpdate(sigma, diff, vega) - (sigma - diff / vega))
            <= Abs(other - (sigma - diff / vega))
  {
  }

  /** A bisection interval. */
  datatype Bracket = Bracket(lo: real, hi: real) {
    function Mid(): real {
      0.5 * (lo + hi)
    }

    function Width(): real {
      hi - lo
    }
  }

  /**
   One bisection step, given the price `pmid` at the midpoint: keep the lower
   half when the midpoint is priced above the target, otherwise the upper half.
   */
  function BisectStep(b: Bracket, pmid: real, target: real): (next: Bracket)
    requires b.lo < b.hi
    ensures b.lo <= next.lo < next.hi <= b.hi
    ensures next.Width() == b.Width() / 2.0
    ensures next.lo == b.lo || next.hi == b.hi
    ensures next.hi == b.Mid() <==> pmid > target
  {
    if pmid > target then Bracket(b.lo, b.Mid()) else Bracket(b.Mid(), b.hi)
  }

  /** Pricing succeeds at both ends of `b`, at or below the target at `lo` and above it at `hi`. */
  predicate Straddles(price: real -> Result<real>, b: Bracket, target: real) {
    && price(b.lo).Success? && price(b.hi).Success?
    && price(b.lo).value <= target < price(b.hi).value
  }

  /** Whatever the price curve, a bisection step keeps a straddling bracket straddling. */
  lemma BisectStepKeepsStraddle(price: real -> Result<real>, b: Bracket, target: real)
    requires b.lo < b.hi
    requires Straddles(price, b, target)
    requires price(b.Mid()).Success?
    ensures Straddles(price, BisectStep(b, price(b.Mid()).value, target), target)
  {
  }

  /** Pricing at `sigma` succeeds and lands strictly within `tol` of `target`. */
  predicate Hits(price: real -> Result<real>, target: real, tol: real, sigma: real) {
    price(sigma).Success? && Abs(price(sigma).value - target) < tol
  }

  /**
   At every positive volatility the price curve fails exactly when `accepts` is
   false, and then always with `refusal`.
   */
  ghost predicate RefusesUniformly(price: real -> Result<real>, accepts: bool, refusal: Error) {
    && (forall s :: s > 0.0 ==> price(s).Success? == accepts)
    && (forall s :: s > 0.0 && !accepts ==> price(s) == Failure(refusal))
  }

  /** Vega is available at every positive volatility when the inputs are accepted. */
  ghost predicate VegaAvailable(vega: real -> Result<real>, accepts: bool) {
    forall s :: s > 0.0 && accepts ==> vega(s).Success?
  }

  /**
   The Newton phase goes on past `sigma`: the price there succeeds but misses
   `tol`, and the vega there is usable.
   */
  predicate Continues(price: real -> Result<real>, vega: real -> Result<real>,
                      target: real, tol: real, sigma: real) {
    && price(sigma).Success? && !Hits(price, target, tol, sigma)
    && vega(sigma).Success? && vega(sigma).value >= FlatVega
  }

  /** The iterate the Newton phase moves to from `sigma` when it goes on past it. */
  function NextIterate(price: real -> Result<real>, vega: real -> Result<real>,
                       target: real, tol: real, sigma: real): real
    requires Continues(price, vega, target, tol, sigma)
  {
    NewtonUpdate(sigma, price(sigma).value - target, vega(sigma).value)
  }

  /**
   `trace` lists the iterates the Newton phase priced, in order: the first is
   max(MinVol, seed), and each later one is the clamped Newton step from its
   predecessor, past which the phase went on.
   */
  ghost predicate NewtonTrace(price: real -> Result<real>, vega: real -> Result<real>,
                              target: real, tol: real, seed: real, trace: seq<real>) {
    && (|trace| > 0 ==> trace[0] == Max(MinVol, seed))
    && forall j :: 0 <= j < |trace| - 1 ==>
         && Continues(price, vega, target, tol, trace[j])
         && trace[j + 1] == NextIterate(price, vega, target, tol, trace[j])
  }

  /** How the Newton phase ended. */
  datatype NewtonEnd =
    | NewtonRefused(error: Error)   // pricing rejected the inputs
    | Converged(sigma: real)        // this iterate priced within tolerance
    | Stalled(sigma: real)          // this iterate missed tolerance and its vega was below FlatVega
    | Spent                         // all Budget(maxIter) steps were taken

  /**
   The Newton phase: at most `maxIter` steps from max(MinVol, seed), each
   pricing the iterate and, unless it is within `tol`, moving it by the clamped
   Newton step. A flat vega or an exhausted budget hands over to bisection.
   */
  method NewtonPhase(price: real -> Result<real>, vega: real -> Result<real>,
                     ghost accepts: bool, ghost refusal: Error,
                     target: real, seed: real, tol: real, maxIter: int)
    returns (outcome: NewtonEnd, ghost trace: seq<real>, ghost priceCalls: nat, ghost vegaCalls: nat)
    requires RefusesUniformly(price, accepts, refusal)
    requires VegaAvailable(vega, accepts)
    ensures NewtonTrace(price, vega, target, tol, seed, trace)
    ensures priceCalls == |trace| <= Budget(maxIter)
    ensures outcome.NewtonRefused? ==> |trace| == 1
    ensures outcome.Converged? || outcome.Stalled? ==> |trace| > 0 && outcome.sigma == trace[|trace| - 1]
    ensures outcome.Spent? ==>
              && |trace| == Budget(maxIter)
              && (|trace| > 0 ==> Continues(price, vega, target, tol, trace[|trace| - 1]))
    ensures outcome.NewtonRefused? <==> maxIter > 0 && !accepts
    ensures outcome.NewtonRefused? ==> outcome.error == refusal
    ensures outcome.Converged? ==>
              && MinVol <= outcome.sigma
              && (outcome.sigma == Max(MinVol, seed) || outcome.sigma <= MaxVol)
              && Hits(price, target, tol, outcome.sigma)
    ensures outcome.Stalled? ==>
              && maxIter > 0 && accepts
              && MinVol <= outcome.sigma
              && (outcome.sigma == Max(MinVol, seed) || outcome.sigma <= MaxVol)
              && price(outcome.sigma).Success? && !Hits(price, target, tol, outcome.sigma)
              && vega(outcome.sigma).Success? && vega(outcome.sigma).value < FlatVega
    ensures outcome.Spent? ==> vegaCalls == Budget(maxIter)
    ensures vegaCalls == if outcome.Stalled? || outcome.Spent? then |trace| else |trace| - 1
    ensures priceCalls == 0 <==> maxIter <= 0
    ensures vegaCalls <= priceCalls
  {
    trace, priceCalls, vegaCalls := [], 0, 0;
    var sigma := Max(MinVol, seed);
    var i := 0;
    while i < maxIter
      invariant 0 <= i <= Budget(maxIter)
      invariant priceCalls == vegaCalls == i == |trace|
      invariant MinVol <= sigma
      invariant sigma == Max(MinVol, seed) || sigma <= MaxVol
      invariant i > 0 ==> accepts
      invariant NewtonTrace(price, vega, target, tol, seed, trace)
      invariant i == 0 ==> sigma == Max(MinVol, seed)
      invariant i > 0 ==>
                  && Continues(price, vega, target, tol, trace[i - 1])
                  && sigma == NextIterate(price, vega, target, tol, trace[i - 1])
    {
      var p := price(sigma);
      trace, priceCalls := trace + [sigma], priceCalls + 1;
      if p.Failure? {
        return NewtonRefused(p.error), trace, priceCalls, vegaCalls;
      }
      var diff := p.value - target;
      if Abs(diff) < tol {
        return Converged(sigma), trace, priceCalls, vegaCalls;
      }
      var v := vega(sigma).value;
      vegaCalls := vegaCalls + 1;
      if v < FlatVega {
        return Stalled(sigma), trace, priceCalls, vegaCalls;
      }
      sigma := NewtonUpdate(sigma, diff, v);
      i := i + 1;
    }
    outcome := Spent;
  }

  /**
   `path` lists the brackets the bisection phase visited, in order: the first is
   [MinVol, MaxVol], and each later one is the half of its predecessor that the
   predecessor's midpoint price selects, after that price missed `tol`.
   */
  ghost predicate BisectionPath(price: real -> Result<real>, target: real, tol: real, path: seq<Bracket>) {
    && |path| > 0 && path[0] == Bracket(MinVol, MaxVol)
    && forall j :: 0 <= j < |path| - 1 ==>
         && path[j].lo < path[j].hi
         && price(path[j].Mid()).Success? && !Hits(price, target, tol, path[j].Mid())
         && path[j + 1] == BisectStep(path[j], price(path[j].Mid()).value, target)
  }

  /** A bisection path goes on with the step its last bracket's midpoint price selects. */
  lemma BisectionPathExtends(price: real -> Result<real>, target: real, tol: real, path: seq<Bracket>)
    requires BisectionPath(price, target, tol, path)
    requires path[|path| - 1].lo < path[|path| - 1].hi
    requires price(path[|path| - 1].Mid()).Success? && !Hits(price, target, tol, path[|path| - 1].Mid())
    ensures BisectionPath(price, target, tol,
                          path + [BisectStep(path[|path| - 1], price(path[|path| - 1].Mid()).value, target)])
  {
  }

  /** Every bracket of a bisection path lies in [MinVol, MaxVol], the j-th of width (MaxVol - MinVol) / 2^j. */
  lemma {:induction false} BisectionPathShrinks(price: real -> Result<real>, target: real, tol: real,
                                                path: seq<Bracket>, j: nat)
    requires BisectionPath(price, target, tol, path)
    requires j < |path|
    ensures MinVol <= path[j].lo < path[j].hi <= MaxVol
    ensures path[j].Width() * Pow2(j) == MaxVol - MinVol
  {
    if j > 0 {
      BisectionPathShrinks(price, target, tol, path, j - 1);
      var w := path[j - 1].Width();
      assert path[j].Width() == w / 2.0;
      assert path[j].Width() * Pow2(j) == (w / 2.0) * (2.0 * Pow2(j - 1));
    }
  }

  /** If [MinVol, MaxVol] straddles the target, so does every bracket of a bisection path. */
  lemma {:induction false} BisectionPathKeepsStraddle(price: real -> Result<real>, target: real, tol: real,
                                                      path: seq<Bracket>, j: nat)
    requires BisectionPath(price, target, tol, path)
    requires j < |path|
    requires Straddles(price, Bracket(MinVol, MaxVol), target)
    ensures Straddles(price, path[j], target)
  {
    if j > 0 {
      BisectionPathKeepsStraddle(price, target, tol, path, j - 1);
      BisectStepKeepsStraddle(price, path[j - 1], target);
    }
  }

  /** How the bisection phase ended. */
  datatype BisectionEnd =
    | BisectionRefused(error: Error)   // pricing rejected the inputs
    | MidpointHit(mid: real)           // this midpoint priced within tolerance
    | StepsSpent(final: Bracket)       // every step used; `final` is the last bracket

  /**
   The bisection phase: BisectionSteps halvings of [MinVol, MaxVol], returning
   early at a midpoint that prices within `tol`.
   */
  method BisectionPhase(price: real -> Result<real>, ghost accepts: bool, ghost refusal: Error,
                        target: real, tol: real)
    returns (outcome: BisectionEnd, ghost path: seq<Bracket>, ghost priceCalls: nat)
    requires RefusesUniformly(price, accepts, refusal)
    ensures BisectionPath(price, target, tol, path) && |path| <= BisectionSteps + 1
    ensures outcome.BisectionRefused? ==> |path| == 1
    ensures outcome.MidpointHit? ==> |path| <= BisectionSteps && outcome.mid == path[|path| - 1].Mid()
    ensures outcome.StepsSpent? ==> |path| == BisectionSteps + 1 && outcome.final == path[|path| - 1]
    ensures priceCalls == if outcome.StepsSpent? then |path| - 1 else |path|
    ensures outcome.BisectionRefused? <==> !accepts
    ensures outcome.BisectionRefused? ==> outcome.error == refusal
    ensures outcome.MidpointHit? ==> MinVol < outcome.mid < MaxVol && Hits(price, target, tol, outcome.mid)
    ensures outcome.StepsSpent? ==>
              && MinVol <= outcome.final.lo < outcome.final.hi <= MaxVol
              && outcome.final.Width() * Pow2(BisectionSteps) == MaxVol - MinVol
              && (Straddles(price, Bracket(MinVol, MaxVol), target) ==> Straddles(price, outcome.final, target))
    ensures 1 <= priceCalls <= BisectionSteps
  {
    var b := Bracket(MinVol, MaxVol);
    var k := 0;
    path, priceCalls := [b], 0;
    while k < BisectionSteps
      invariant 0 <= k <= BisectionSteps
      invariant priceCalls == k
      invariant |path| == k + 1 && path[k] == b
      invariant BisectionPath(price, target, tol, path)
      invariant k > 0 ==> accepts
      invariant MinVol <= b.lo < b.hi <= MaxVol
    {
      var mid := b.Mid();
      var pmid := price(mid);
      priceCalls := priceCalls + 1;
      if pmid.Failure? {
        return BisectionRefused(pmid.error), path, priceCalls;
      }
      if Abs(pmid.value - target) < tol {
        return MidpointHit(mid), path, priceCalls;
      }
      BisectionPathExtends(price, target, tol, path);
      b := BisectStep(b, pmid.value, target);
      path := path + [b];
      k := k + 1;
    }
    outcome := StepsSpent(b);
    BisectionPathShrinks(price, target, tol, path, k);
    if Straddles(price, Bracket(MinVol, MaxVol), target) {
      BisectionPathKeepsStraddle(price, target, tol, path, k);
    }
  }

  /** How a solve ended. */
  datatype Exit =
    | Refused                          // pricing rejected the inputs
    | NewtonHit                        // a Newton iterate priced within tolerance
    | BisectionHit                     // a bisection midpoint priced within tolerance
    | BisectionSpent(final: Bracket)   // all bisection steps used; the midpoint of `final` returned

  /**
   The whole solve over abstract curves: the Newton phase, then, unless it
   converged or refused, the bisection phase. `newton` and `exit` record how
   each phase ended, `trace` the Newton iterates and `path` the bisection
   brackets visited, `priceCalls` and `vegaCalls` how much pricing was done.
   */
  method SolveWith(price: real -> Result<real>, vega: real -> Result<real>,
                   ghost accepts: bool, ghost refusal: Error,
                   target: real, seed: real, tol: real, maxIter: int)
    returns (res: Result<real>, ghost newton: NewtonEnd, ghost trace: seq<real>,
             ghost path: seq<Bracket>, ghost exit: Exit, ghost priceCalls: nat, ghost vegaCalls: nat)
    requires RefusesUniformly(price, accepts, refusal)
    requires VegaAvailable(vega, accepts)
    ensures NewtonTrace(price, vega, target, tol, seed, trace) && |trace| <= Budget(maxIter)
    ensures newton.Converged? || newton.Stalled? ==> |trace| > 0 && newton.sigma == trace[|trace| - 1]
    ensures newton.Spent? ==>
              && |trace| == Budget(maxIter)
              && (|trace| > 0 ==> Continues(price, vega, target, tol, trace[|trace| - 1]))
    ensures newton.NewtonRefused? || newton.Converged? ==> path == []
    ensures newton.Stalled? || newton.Spent? ==> BisectionPath(price, target, tol, path)
    ensures exit.BisectionHit? ==>
              res.Success? && 0 < |path| <= BisectionSteps && res.value == path[|path| - 1].Mid()
    ensures exit.BisectionSpent? ==> |path| == BisectionSteps + 1 && exit.final == path[|path| - 1]
    ensures newton.NewtonRefused? ==> exit.Refused?
    ensures exit.NewtonHit? <==> newton.Converged?
    ensures exit.NewtonHit? ==> res.Success? && newton == Converged(res.value)
    ensures exit.BisectionHit? || exit.BisectionSpent? ==> newton.Stalled? || newton.Spent?
    ensures newton.Stalled? ==>
              && price(newton.sigma).Success? && !Hits(price, target, tol, newton.sigma)
              && vega(newton.sigma).Success? && vega(newton.sigma).value < FlatVega
    ensures res.Failure? <==> !accepts
    ensures res.Failure? ==> res.error == refusal
    ensures exit.Refused? <==> res.Failure?
    ensures res.Success? ==> ResultFloor <= MinVol <= res.value
    ensures res.Success? ==> res.value == Max(MinVol, seed) || res.value <= MaxVol
    ensures exit.NewtonHit? || exit.BisectionHit? ==> Hits(price, target, tol, res.value)
    ensures exit.BisectionHit? || exit.BisectionSpent? ==> MinVol < res.value < MaxVol
    ensures exit.BisectionSpent? ==>
              && MinVol <= exit.final.lo < exit.final.hi <= MaxVol
              && exit.final.Width() * Pow2(BisectionSteps) == MaxVol - MinVol
              && res.value == exit.final.Mid()
              && (Straddles(price, Bracket(MinVol, MaxVol), target) ==> Straddles(price, exit.final, target))
    ensures newton.Spent? ==> vegaCalls == Budget(maxIter) <= priceCalls
    ensures priceCalls == |trace| + if exit.BisectionSpent? then |path| - 1 else |path|
    ensures vegaCalls == if newton.Stalled? || newton.Spent? then |trace| else |trace| - 1
    ensures priceCalls <= Budget(maxIter) + BisectionSteps
    ensures vegaCalls <= Budget(maxIter)
  {
    var newtonEnd;
    newtonEnd, trace, priceCalls, vegaCalls := NewtonPhase(price, vega, accepts, refusal, target, seed, tol, maxIter);
    newton, path := newtonEnd, [];
    match newtonEnd {
      case NewtonRefused(e) =>
        return Failure(e), newton, trace, path, Refused, priceCalls, vegaCalls;
      case Converged(sigma) =>
        return Success(Max(ResultFloor, sigma)), newton, trace, path, NewtonHit, priceCalls, vegaCalls;
      case _ =>
    }
    var bisection;
    ghost var bisectionCalls;
    bisection, path, bisectionCalls := BisectionPhase(price, accepts, refusal, target, tol);
    priceCalls := priceCalls + bisectionCalls;
    match bisection {
      case BisectionRefused(e) =>
        res, exit := Failure(e), Refused;
      case MidpointHit(mid) =>
        res, exit := Success(mid), BisectionHit;
      case StepsSpent(final) =>
        res, exit := Success(final.Mid()), BisectionSpent(final);
    }
  }

  /** The Black-Scholes price as a function of volatility, the other inputs fixed. */
  function PriceCurve(m: Lib, S: real, K: real, T: real, r: real, q: real, option: string)
    : real -> Result<real>
  {
    sigma => BsPrice(m, S, K, T, r, sigma, q, option)
  }

  /** The Black-Scholes vega as a function of volatility, the other inputs fixed. */
  function VegaCurve(m: Lib, S: real, K: real, T: real, r: real, q: real, option: string)
    : real -> Result<real>
  {
    sigma => match BsGreeks(m, S, K, T, r, sigma, q, option)
             case Success(g) => Success(g.vega)
             case Failure(e) => Failure(e)
  }

  /** The inputs under which pricing succeeds at every positive volatility. */
  predicate Priceable(S: real, K: real, T: real, option: string) {
    S > 0.0 && K > 0.0 && T > 0.0 && (option == "call" || option == "put")
  }

  /** The error pricing reports, at any positive volatility, for inputs that are not priceable. */
  function Refusal(S: real, K: real, T: real): Error {
    if S > 0.0 && K > 0.0 && T > 0.0 then UnknownOption else NonPositiveInput
  }

  /** The Black-Scholes curves meet what the solver asks of its curves. */
  lemma BlackScholesCurvesQualify(m: Lib, S: real, K: real, T: real, r: real, q: real, option: string)
    ensures RefusesUniformly(PriceCurve(m, S, K, T, r, q, option), Priceable(S, K, T, option), Refusal(S, K, T))
    ensures VegaAvailable(VegaCurve(m, S, K, T, r, q, option), Priceable(S, K, T, option))
  {
  }

  /**
   Implied volatility: the volatility at which the option prices at `target`,
   starting Newton from `seed` (DefaultSeed when the caller has none), with
   tolerance `tol` (DefaultTol) and a Newton budget of `maxIter` (DefaultMaxIter).
   */
  method ImpliedVolatility(m: Lib, target: real, S: real, K: real, T: real, r: real, q: real,
                           option: string, seed: real := DefaultSeed, tol: real := DefaultTol,
                           maxIter: int := DefaultMaxIter)
    returns (res: Result<real>, ghost newton: NewtonEnd, ghost trace: seq<real>,
             ghost path: seq<Bracket>, ghost exit: Exit, ghost priceCalls: nat, ghost vegaCalls: nat)
    ensures res.Failure? <==> !Priceable(S, K, T, option)
    ensures res.Failure? ==>
              res.error == (if S > 0.0 && K > 0.0 && T > 0.0 then UnknownOption else NonPositiveInput)
    ensures exit.Refused? <==> res.Failure?
    ensures res.Success? ==> ResultFloor <= MinVol <= res.value
    ensures res.Success? ==> res.value == Max(MinVol, seed) || res.value <= MaxVol
    ensures exit.NewtonHit? || exit.BisectionHit? ==>
              var p := BsPrice(m, S, K, T, r, res.value, q, option);
              p.Success? && Abs(p.value - target) < tol
    ensures exit.BisectionHit? || exit.BisectionSpent? ==> MinVol < res.value < MaxVol
    ensures exit.BisectionSpent? ==>
              && MinVol <= exit.final.lo < exit.final.hi <= MaxVol
              && exit.final.Width() * Pow2(BisectionSteps) == MaxVol - MinVol
              && res.value == exit.final.Mid()
              && (Straddles(PriceCurve(m, S, K, T, r, q, option), Bracket(MinVol, MaxVol), target) ==>
                    Straddles(PriceCurve(m, S, K, T, r, q, option), exit.final, target))
    ensures newton.NewtonRefused? ==> exit.Refused?
    ensures exit.NewtonHit? <==> newton.Converged?
    ensures exit.NewtonHit? ==> res.Success? && newton == Converged(res.value)
    ensures exit.BisectionHit? || exit.BisectionSpent? ==> newton.Stalled? || newton.Spent?
    ensures newton.Stalled? ==>
              var p := BsPrice(m, S, K, T, r, newton.sigma, q, option);
              var g := BsGreeks(m, S, K, T, r, newton.sigma, q, option);
              && p.Success? && Abs(p.value - target) >= tol
              && g.Success? && g.value.vega < FlatVega
    ensures NewtonTrace(PriceCurve(m, S, K, T, r, q, option), VegaCurve(m, S, K, T, r, q, option),
                        target, tol, seed, trace)
    ensures |trace| <= Budget(maxIter)
    ensures newton.Converged? || newton.Stalled? ==> |trace| > 0 && newton.sigma == trace[|trace| - 1]
    ensures newton.Spent? ==>
              && |trace| == Budget(maxIter)
              && (|trace| > 0 ==>
                    Continues(PriceCurve(m, S, K, T, r, q, option), VegaCurve(m, S, K, T, r, q, option),
                              target, tol, trace[|trace| - 1]))
    ensures newton.NewtonRefused? || newton.Converged? ==> path == []
    ensures newton.Stalled? || newton.Spent? ==> BisectionPath(PriceCurve(m, S, K, T, r, q, option), target, tol, path)
    ensures exit.BisectionHit? ==>
              res.Success? && 0 < |path| <= BisectionSteps && res.value == path[|path| - 1].Mid()
    ensures exit.BisectionSpent? ==> |path| == BisectionSteps + 1 && exit.final == path[|path| - 1]
    ensures newton.Spent? ==> vegaCalls == Budget(maxIter) <= priceCalls
    ensures priceCalls == |trace| + if exit.BisectionSpent? then |path| - 1 else |path|
    ensures vegaCalls == if newton.Stalled? || newton.Spent? then |trace| else |trace| - 1
    ensures priceCalls <= Budget(maxIter) + BisectionSteps
    ensures vegaCalls <= Budget(maxIter)
  {
    BlackScholesCurvesQualify(m, S, K, T, r, q, option);
    res, newton, trace, path, exit, priceCalls, vegaCalls :=
      SolveWith(PriceCurve(m, S, K, T, r, q, option), VegaCurve(m, S, K, T, r, q, option),
                Priceable(S, K, T, option), Refusal(S, K, T), target, seed, tol, maxIter);
  }
}
