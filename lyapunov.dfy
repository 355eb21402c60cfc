/**
 * `prove_lyapunov`: compute `dV = simplify(V(F(x)) - V(x))` and check its
 * sign at sampled points. A point where the optional unsafe-condition guard
 * is false, or where evaluating the guard raises, is skipped. Every other
 * point adds one trial record and updates `passed`.
 */
module Lyapunov {
  import opened Py
  import opened SymPy
  import opened Sampling

  /** The outcome of one sample. */
  datatype Trial =
    | Skip
    | Sample(dV: Fl, ok: bool)
    | Failed(msg: string)

  /** 10^-9 and 10^-6, the two tolerances. */
  const LooseTolerance: real := 1.0 / 1000000000.0
  const StrictMargin: real := 1.0 / 1000000.0

  /** With target `"<= 0"` a value passes when at most 1e-9; with any other target it must be below -1e-6. */
  predicate Accepts(target: Value, v: Fl)
  {
    if target == Str("<= 0") then FlLe(v, Finite(LooseTolerance))
    else FlLt(v, Finite(-StrictMargin))
  }

  /** One sample: the guard first, then `float(dV.subs(point))`. */
  function Outcome(e: Engine, guard: Option<Expr>, dV: Expr, target: Value, point: map<string, real>): (t: Trial)
    ensures guard.None? ==> !t.Skip?
    ensures t.Sample? ==> t.ok == Accepts(target, t.dV)
  {
    if guard.Some? && e.truthAt(guard.value, point) != Ok(true) then Skip
    else
      match e.valueAt(dV, point)
      case Err(x) => Failed(Message(x))
      case Ok(v) => Sample(v, Accepts(target, v))
  }

  /** The record a trial appends; a skipped sample appends nothing. */
  function Record(t: Trial): Value
    requires !t.Skip?
  {
    match t
    case Sample(v, ok) => Dict(map["dV" := Float(v), "ok" := Bool(ok)])
    case Failed(msg) => Dict(map["error" := Str(msg)])
  }

  /** The trial records and `passed` after the samples `outs`, in order. */
  function Run(outs: seq<Trial>): (r: (seq<Value>, bool))
    ensures |r.0| <= |outs|
  {
    if outs == [] then ([], true)
    else
      var prev := Run(outs[..|outs| - 1]);
      var last := outs[|outs| - 1];
      match last
      case Skip => prev
      case Sample(_, ok) => (prev.0 + [Record(last)], prev.1 && ok)
      case Failed(_) => (prev.0 + [Record(last)], false)
  }

  /** Running one more trial of `outs` adds its record unless it was skipped. */
  lemma RunExtend(outs: seq<Trial>, t: nat)
    requires t < |outs|
    ensures outs[t].Skip? ==> Run(outs[..t + 1]) == Run(outs[..t])
    ensures !outs[t].Skip? ==>
      Run(outs[..t + 1]) == (Run(outs[..t]).0 + [Record(outs[t])], Run(outs[..t]).1 && outs[t].Sample? && outs[t].ok)
  {
    assert outs[..t + 1][..t] == outs[..t];
  }

  /** The number of samples that were not skipped. */
  function Taken(outs: seq<Trial>): nat
  {
    if outs == [] then 0
    else Taken(outs[..|outs| - 1]) + (if outs[|outs| - 1].Skip? then 0 else 1)
  }

  /** Everything `_prove_lyapunov_impl` computes before its loop. */
  datatype Setup = Setup(
    names: seq<string>,
    dV: Expr,
    guard: Option<Expr>,
    target: Value,
    trials: int,
    bounds: seq<(real, real)>)

  predicate WellFormed(s: Setup)
  {
    |s.bounds| == |s.names|
  }

  /** `[sympify(e, locals=env) for e in items]`; the first failure raises. */
  function SympifyAll(e: Engine, items: seq<Value>, env: map<string, Expr>): (r: Result<seq<Expr>>)
    ensures r.Ok? ==> |r.value| == |items|
  {
    if items == [] then Ok([])
    else
      var first :- e.sympify(items[0], env);
      var rest :- SympifyAll(e, items[1..], env);
      Ok([first] + rest)
  }

  /** `{sym_map[s]: F_exprs[i] for i, s in enumerate(state_symbols)}`: a later duplicate overwrites. */
  function Substitution(names: seq<string>, exprs: seq<Expr>): (m: map<Expr, Expr>)
    requires |exprs| >= |names|
    ensures m.Keys == set s | s in names :: Symbol(s, false, true)
  {
    if names == [] then map[]
    else
      var n := |names| - 1;
      Substitution(names[..n], exprs)[Symbol(names[n], false, true) := exprs[n]]
  }

  /**
   * The wrapper's lookups and defaults (`target` `"<= 0"`, `numeric_trials`
   * 400, `unsafe_condition` and `ranges` absent) and the implementation's
   * symbolic setup, in the order the source performs them.
   */
  function Prepare(e: Engine, claim: map<string, Value>): (r: Result<Setup>)
    ensures "state_symbols" !in claim ==> r == Err(KeyError("state_symbols"))
    ensures "state_symbols" in claim && "F_next" !in claim ==> r == Err(KeyError("F_next"))
    ensures "state_symbols" in claim && "F_next" in claim && "V" !in claim ==> r == Err(KeyError("V"))
    ensures r.Ok? ==> WellFormed(r.value)
    ensures r.Ok? ==> r.value.target == Get(claim, "target", Str("<= 0"))
    ensures r.Ok? ==> r.value.guard.Some? == Truthy(Get(claim, "unsafe_condition", Null))
    ensures r.Ok? ==> ToInt(Get(claim, "numeric_trials", Int(400))) == Ok(r.value.trials)
    ensures r.Ok? && !Truthy(Get(claim, "ranges", Null)) ==>
      forall i :: 0 <= i < |r.value.bounds| ==> r.value.bounds[i] == (-2.0, 2.0)
  {
    var ss :- Lookup(claim, "state_symbols");
    var fNext :- Lookup(claim, "F_next");
    var vText :- Lookup(claim, "V");
    var unsafe := Get(claim, "unsafe_condition", Null);
    var target := Get(claim, "target", Str("<= 0"));
    var trials := Get(claim, "numeric_trials", Int(400));
    var ranges := Get(claim, "ranges", Null);
    var names :- Names(ss);
    var env := SymbolTable(names, false, true);
    var fItems :- Iterate(fNext);
    var fExprs :- SympifyAll(e, fItems, env);
    var v :- e.sympify(vText, env);
    var subst :- if |fExprs| < |names| then Err(IndexError("list index out of range")) else Ok(Substitution(names, fExprs));
    var composed :- e.substitute(v, subst);
    var diff :- e.minus(composed, v);
    var dV :- e.simplify(diff);
    var guard :- if Truthy(unsafe) then (var u :- e.sympify(unsafe, env); Ok(Some(u))) else Ok(None);
    var n :- ToInt(trials);
    var bounds :- Sampling.Prepare(names, ranges, -2.0, 2.0, n);
    Ok(Setup(names, dV, guard, target, n, bounds))
  }

  /** The outcome of every sample `range(int(numeric_trials))` draws. */
  function Outcomes(e: Engine, s: Setup, rand: nat -> Unit): (outs: seq<Trial>)
    requires WellFormed(s)
    ensures |outs| == if s.trials > 0 then s.trials else 0
  {
    var n := if s.trials > 0 then s.trials else 0;
    seq(n, t requires 0 <= t => Outcome(e, s.guard, s.dV, s.target, Point(s.names, s.bounds, rand, t)))
  }

  /** The report: the `symbolic` ΔV text, the target, the trial records and `passed`. */
  function Report(e: Engine, s: Setup, run: (seq<Value>, bool)): map<string, Value>
  {
    map[
      "symbolic" := Str(e.show(s.dV)),
      "target" := s.target,
      "trials" := List(run.0),
      "passed" := Bool(run.1)]
  }

  /** `prove_lyapunov` as a whole. */
  function LyapunovReport(e: Engine, claim: map<string, Value>, rand: nat -> Unit): (r: Result<map<string, Value>>)
    ensures r.Ok? <==> Prepare(e, claim).Ok?
    ensures r.Ok? ==> r.value.Keys == {"symbolic", "target", "trials", "passed"}
    ensures r.Ok? ==> r.value["passed"] == Bool(Run(Outcomes(e, Prepare(e, claim).value, rand)).1)
  {
    var s :- Prepare(e, claim);
    Ok(Report(e, s, Run(Outcomes(e, s, rand))))
  }

  /** The sampling loop: `continue` on a skipped sample, otherwise append a record and update `passed`. */
  method SampleLoop(e: Engine, s: Setup, rand: nat -> Unit) returns (trials: seq<Value>, passed: bool)
    requires WellFormed(s)
    ensures (trials, passed) == Run(Outcomes(e, s, rand))
  {
    ghost var outs := Outcomes(e, s, rand);
    trials, passed := [], true;
    var n := if s.trials > 0 then s.trials else 0;
    var t := 0;
    while t < n
      invariant 0 <= t <= n == |outs|
      invariant (trials, passed) == Run(outs[..t])
    {
      var point := Point(s.names, s.bounds, rand, t);
      var trial := Outcome(e, s.guard, s.dV, s.target, point);
      assert outs[t] == trial;
      RunExtend(outs, t);
      if trial.Skip? {
        t := t + 1;
        continue;
      }
      trials := trials + [Record(trial)];
      passed := passed && trial.Sample? && trial.ok;
      t := t + 1;
    }
    assert outs[..t] == outs;
  }

  /** `prove_lyapunov`: set up, then sample. */
  method ProveLyapunov(e: Engine, claim: map<string, Value>, rand: nat -> Unit) returns (r: Result<map<string, Value>>)
    ensures r == LyapunovReport(e, claim, rand)
  {
    var setup := Prepare(e, claim);
    if setup.Err? {
      return Err(setup.exc);
    }
    var trials, passed := SampleLoop(e, setup.value, rand);
    return Ok(Report(e, setup.value, (trials, passed)));
  }

  /** `passed` is the conjunction of `ok` over the evaluated samples, and false after any error. */
  lemma {:induction false} PassedIffAllOk(outs: seq<Trial>)
    ensures Run(outs).1 <==> forall i :: 0 <= i < |outs| ==> outs[i].Skip? || (outs[i].Sample? && outs[i].ok)
  {
    if outs != [] {
      var init := outs[..|outs| - 1];
      PassedIffAllOk(init);
      assert forall i :: 0 <= i < |init| ==> init[i] == outs[i];
    }
  }

  /** When every sample is skipped there are no records and `passed` stays true. */
  lemma AllSkippedPasses(outs: seq<Trial>)
    requires forall i :: 0 <= i < |outs| ==> outs[i].Skip?
    ensures Run(outs) == ([], true)
  {
    PassedIffAllOk(outs);
    RecordsCountTaken(outs);
    assert Taken(outs) == 0 by {
      TakenZero(outs);
    }
  }

  lemma {:induction false} TakenZero(outs: seq<Trial>)
    requires forall i :: 0 <= i < |outs| ==> outs[i].Skip?
    ensures Taken(outs) == 0
  {
    if outs != [] {
      TakenZero(outs[..|outs| - 1]);
    }
  }

  /** One record per sample that was not skipped. */
  lemma {:induction false} RecordsCountTaken(outs: seq<Trial>)
    ensures |Run(outs).0| == Taken(outs) <= |outs|
  {
    if outs != [] {
      RecordsCountTaken(outs[..|outs| - 1]);
    }
  }

  /**
   * The `symbolic` text never affects the outcome: two engines that evaluate
   * points alike but print expressions differently give the same trial
   * records and the same `passed`.
   */
  lemma SymbolicIsDiagnostic(e: Engine, e': Engine, s: Setup, rand: nat -> Unit)
    requires WellFormed(s)
    requires e'.truthAt == e.truthAt && e'.valueAt == e.valueAt
    ensures var run, run' := Run(Outcomes(e, s, rand)), Run(Outcomes(e', s, rand));
      && Report(e', s, run')["passed"] == Report(e, s, run)["passed"]
      && Report(e', s, run')["trials"] == Report(e, s, run)["trials"]
  {
    var a, b := Outcomes(e', s, rand), Outcomes(e, s, rand);
    forall i | 0 <= i < |a|
      ensures a[i] == b[i]
    {
    }
    assert a == b;
  }
}
