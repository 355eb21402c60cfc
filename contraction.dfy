/**
 * `check_contraction`: the largest Jacobian norm over sampled points,
 * compared with `L_bound`. The Jacobian is built and compiled once; each
 * sample evaluates it and takes either the largest absolute row sum
 * (`"linf"`) or the largest singular value (any other norm). An evaluation
 * error sets the maximum to infinity and stops sampling.
 */
module Contraction {
  import opened Py
  import opened SymPy
  import opened Sampling

  const Tolerance: real := 1.0 / 1000000000.0

  /** The outcome of one sample: a norm, or an exception. */
  datatype Trial = Norm(value: NonNegReal) | Error

  /** `sum(abs(row))` */
  function AbsSum(row: seq<real>): (r: real)
    ensures r >= 0.0
  {
    if row == [] then 0.0
    else AbsSum(row[..|row| - 1]) + (if row[|row| - 1] < 0.0 then -row[|row| - 1] else row[|row| - 1])
  }

  /** `np.max(np.sum(np.abs(J), axis=1))`; `np.max` of no rows raises. */
  function MaxRowSum(m: Matrix): (r: Option<NonNegReal>)
    ensures r.Some? <==> m != []
    ensures r.Some? ==> forall i :: 0 <= i < |m| ==> AbsSum(m[i]) <= r.value
    ensures r.Some? ==> exists i :: 0 <= i < |m| && AbsSum(m[i]) == r.value
  {
    if m == [] then None
    else
      var last := AbsSum(m[|m| - 1]);
      match MaxRowSum(m[..|m| - 1])
      case None => Some(last)
      case Some(prev) => Some(if last > prev then last else prev)
  }

  /** The norm of one sample. */
  function Outcome(e: Engine, jf: Expr, norm: Value, vec: seq<real>): Trial
  {
    match e.matrixAt(jf, vec)
    case Err(_) => Error
    case Ok(j) =>
      if norm == Str("linf") then
        (match MaxRowSum(j)
         case None => Error
         case Some(v) => Norm(v))
      else
        (match e.largestSingular(j)
         case Err(_) => Error
         case Ok(v) => Norm(v))
  }

  /**
   * The running maximum after the samples `outs`: it starts at 0, takes the
   * larger value at each norm, and an error makes it infinite, after which
   * no further sample is taken.
   */
  function MaxNorm(outs: seq<Trial>): (m: Fl)
    ensures m.Finite? || m.PosInf?
    ensures m.Finite? ==> m.r >= 0.0
  {
    if outs == [] then Finite(0.0)
    else
      var prev := MaxNorm(outs[..|outs| - 1]);
      if prev.PosInf? then prev
      else
        match outs[|outs| - 1]
        case Error => PosInf
        case Norm(v) => PyMax(prev, Finite(v))
  }

  /** After finite norms, an error makes the maximum infinite and a norm moves it by `PyMax`. */
  lemma MaxNormExtend(outs: seq<Trial>, t: nat)
    requires t < |outs| && MaxNorm(outs[..t]).Finite?
    ensures outs[t].Error? ==> MaxNorm(outs[..t + 1]).PosInf?
    ensures outs[t].Norm? ==> MaxNorm(outs[..t + 1]) == PyMax(MaxNorm(outs[..t]), Finite(outs[t].value))
  {
    assert outs[..t + 1][..t] == outs[..t];
  }

  /** Everything `check_contraction` computes before its loop. */
  datatype Setup = Setup(
    names: seq<string>,
    jf: Expr,
    bound: Fl,
    norm: Value,
    trials: int,
    bounds: seq<(real, real)>)

  predicate WellFormed(s: Setup)
  {
    |s.bounds| == |s.names|
  }

  /** `[sympify(e, locals=env) for e in items]`; the first failure raises. */
  function SympifyAll(e: Engine, items: seq<Value>, env: map<string, Expr>): (r: Result<seq<Expr>>)
    ensures r.Ok? ==> |r.value| == |items|
  {
    if items == [] then Ok([])
    else
      var first :- e.sympify(items[0], env);
      var rest :- SympifyAll(e, items[1..], env);
      Ok([first] + rest)
  }

  /** `[env[n] for n in names]`: the state symbols, in order, as the Jacobian's variables. */
  function StateVector(names: seq<string>, env: map<string, Expr>): (x: seq<Expr>)
    requires forall i :: 0 <= i < |names| ==> names[i] in env
    ensures |x| == |names| && forall i :: 0 <= i < |names| ==> x[i] == env[names[i]]
  {
    if names == [] then [] else StateVector(names[..|names| - 1], env) + [env[names[|names| - 1]]]
  }

  /** Parse `F_next`, build and compile the Jacobian once; the sampling intervals default to [-2, 2]. */
  function Prepare(e: Engine, stateSymbols: Value, fNext: Value, bound: Fl, norm: Value, trials: int, ranges: Value): (r: Result<Setup>)
    ensures r.Ok? ==> WellFormed(r.value)
    ensures r.Ok? ==> r.value.bound == bound && r.value.norm == norm && r.value.trials == trials
    ensures r.Ok? && !Truthy(ranges) ==> forall i :: 0 <= i < |r.value.bounds| ==> r.value.bounds[i] == (-2.0, 2.0)
  {
    var names :- Names(stateSymbols);
    var env := SymbolTable(names, false, true);
    var fItems :- Iterate(fNext);
    var fExprs :- SympifyAll(e, fItems, env);
    var jf :- e.jacobian(fExprs, StateVector(names, env));
    var bounds :- Sampling.Prepare(names, ranges, -2.0, 2.0, trials);
    Ok(Setup(names, jf, bound, norm, trials, bounds))
  }

  /** The outcome of every sample `range(int(numeric_trials))` would draw. */
  function Outcomes(e: Engine, s: Setup, rand: nat -> Unit): (outs: seq<Trial>)
    requires WellFormed(s)
    ensures |outs| == if s.trials > 0 then s.trials else 0
  {
    var n := if s.trials > 0 then s.trials else 0;
    seq(n, t requires 0 <= t => Outcome(e, s.jf, s.norm, Draw(s.bounds, rand, t * |s.names|)))
  }

  /** `passed` iff `max_norm <= L_bound + 1e-9`. */
  predicate Passed(maxNorm: Fl, bound: Fl)
  {
    FlLe(maxNorm, FlAdd(bound, Tolerance))
  }

  /** The report; `samples` is the requested count whether or not the loop stopped early. */
  function Report(s: Setup, maxNorm: Fl): map<string, Value>
  {
    map[
      "max_norm" := Float(maxNorm),
      "samples" := Int(s.trials),
      "passed" := Bool(Passed(maxNorm, s.bound)),
      "norm" := s.norm,
      "L_bound" := Float(s.bound)]
  }

  /** `check_contraction` as a whole. */
  function ContractionReport(e: Engine, stateSymbols: Value, fNext: Value, bound: Fl, norm: Value, trials: int, ranges: Value, rand: nat -> Unit)
    : Result<map<string, Value>>
  {
    var s :- Prepare(e, stateSymbols, fNext, bound, norm, trials, ranges);
    Ok(Report(s, MaxNorm(Outcomes(e, s, rand))))
  }

  /** Once the maximum is infinite it stays infinite. */
  lemma {:induction false} InfinityAbsorbs(outs: seq<Trial>, k: nat)
    requires k <= |outs|
    requires MaxNorm(outs[..k]).PosInf?
    ensures MaxNorm(outs).PosInf?
    decreases |outs| - k
  {
    if k < |outs| {
      assert outs[..k + 1][..k] == outs[..k];
      InfinityAbsorbs(outs, k + 1);
    } else {
      assert outs[..k] == outs;
    }
  }

  /** The sampling loop, with `break` on the first error. */
  method SampleLoop(e: Engine, s: Setup, rand: nat -> Unit) returns (maxNorm: Fl)
    requires WellFormed(s)
    ensures maxNorm == MaxNorm(Outcomes(e, s, rand))
  {
    ghost var outs := Outcomes(e, s, rand);
    maxNorm := Finite(0.0);
    var n := if s.trials > 0 then s.trials else 0;
    var t := 0;
    while t < n
      invariant 0 <= t <= n == |outs|
      invariant maxNorm == MaxNorm(outs[..t]) && maxNorm.Finite?
    {
      var vec := Draw(s.bounds, rand, t * |s.names|);
      var trial := Outcome(e, s.jf, s.norm, vec);
      assert outs[t] == trial;
      MaxNormExtend(outs, t);
      if trial.Error? {
        maxNorm := PosInf;
        InfinityAbsorbs(outs, t + 1);
        return;
      }
      maxNorm := PyMax(maxNorm, Finite(trial.value));
      t := t + 1;
    }
    assert outs[..t] == outs;
  }

  /** `check_contraction`: set up, then sample. */
  method CheckContraction(e: Engine, stateSymbols: Value, fNext: Value, bound: Fl, norm: Value, trials: int, ranges: Value, rand: nat -> Unit)
    returns (r: Result<map<string, Value>>)
    ensures r == ContractionReport(e, stateSymbols, fNext, bound, norm, trials, ranges, rand)
  {
    var setup := Prepare(e, stateSymbols, fNext, bound, norm, trials, ranges);
    if setup.Err? {
      return Err(setup.exc);
    }
    var maxNorm := SampleLoop(e, setup.value, rand);
    return Ok(Report(setup.value, maxNorm));
  }

  /** The maximum never decreases from one sample to the next. */
  lemma {:induction false} MaxNormMonotone(outs: seq<Trial>, k: nat)
    requires k <= |outs|
    ensures FlLe(MaxNorm(outs[..k]), MaxNorm(outs))
    decreases |outs| - k
  {
    if k < |outs| {
      assert outs[..k + 1][..k] == outs[..k];
      MaxNormMonotone(outs, k + 1);
    } else {
      assert outs[..k] == outs;
    }
  }

  /** Without errors the maximum is the largest norm seen (0 when there are none). */
  lemma {:induction false} MaxNormIsMaximum(outs: seq<Trial>)
    requires forall i :: 0 <= i < |outs| ==> outs[i].Norm?
    ensures MaxNorm(outs).Finite?
    ensures forall i :: 0 <= i < |outs| ==> outs[i].value <= MaxNorm(outs).r
    ensures outs == [] || exists i :: 0 <= i < |outs| && outs[i].value == MaxNorm(outs).r
  {
    if outs != [] {
      var init := outs[..|outs| - 1];
      MaxNormIsMaximum(init);
      assert forall i :: 0 <= i < |init| ==> init[i] == outs[i];
      if init != [] && MaxNorm(outs) == MaxNorm(init) {
        var i :| 0 <= i < |init| && init[i].value == MaxNorm(init).r;
        assert outs[i].value == MaxNorm(outs).r;
      }
    }
  }

  /** An error makes the maximum infinite, so the claim fails for every finite bound. */
  lemma ErrorFails(outs: seq<Trial>, i: nat, bound: real)
    requires i < |outs| && outs[i].Error?
    ensures MaxNorm(outs).PosInf?
    ensures !Passed(MaxNorm(outs), Finite(bound))
  {
    assert outs[..i + 1][..i] == outs[..i];
    assert MaxNorm(outs[..i + 1]).PosInf?;
    InfinityAbsorbs(outs, i + 1);
  }

  /** With an infinite bound even an error passes: infinity is at most infinity. */
  lemma InfiniteBoundAlwaysPasses(maxNorm: Fl)
    requires maxNorm.Finite? || maxNorm.PosInf?
    ensures Passed(maxNorm, PosInf)
  {
  }

  /**
   * Without errors, `passed` iff every norm is at most `L_bound + 1e-9` and
   * that bound is not negative (the maximum starts at 0).
   */
  lemma PassedIffAllWithinBound(outs: seq<Trial>, bound: real)
    requires forall i :: 0 <= i < |outs| ==> outs[i].Norm?
    ensures Passed(MaxNorm(outs), Finite(bound)) <==>
      0.0 <= bound + Tolerance && forall i :: 0 <= i < |outs| ==> outs[i].value <= bound + Tolerance
  {
    MaxNormIsMaximum(outs);
  }
}
