/**
 * `run_claim`: dispatch a claim to its strategy by type and reduce the
 * strategy's report to a status. A strategy that raises makes `run_claim`
 * raise; an unknown type gives an inconclusive result.
 */
module Registry {
  import opened Py
  import opened SymPy
  import opened Sampling
  import opened Claims
  import Algebra
  import Induction
  import Lyapunov
  import Gate
  import Contraction

  /** `"proved" if cond else "rejected"` */
  function Verdict(cond: bool): (status: string)
    ensures status == Proved <==> cond
    ensures status in {Proved, Rejected}
  {
    if cond then Proved else Rejected
  }

  /** The Lyapunov reduction as written: it reads `symbolic_ok`, `ok` and `proved`. */
  function LyapunovStatus(rep: map<string, Value>): string
  {
    Verdict(Truthy(Get(rep, "symbolic_ok", Null)) || Truthy(Get(rep, "ok", Null)) || Truthy(Get(rep, "proved", Null)))
  }

  /** The induction strategy with the dispatcher's defaults: `n_symbol` "n", `base_from` and `base_to` 1. */
  function InductionCall(e: Engine, d: map<string, Value>): Result<map<string, Value>>
  {
    var pred :- Lookup(d, "predicate");
    var nSymbol := Get(d, "n_symbol", Str("n"));
    var baseFrom :- ToInt(Get(d, "base_from", Int(1)));
    var baseTo :- ToInt(Get(d, "base_to", Int(1)));
    Induction.InductionReport(e, pred, nSymbol, baseFrom, baseTo, Get(d, "assumptions", Null))
  }

  /** The gate strategy with `numeric_trials` defaulting to 300. */
  function GateCall(e: Engine, d: map<string, Value>, rand: nat -> Unit): Result<map<string, Value>>
  {
    var symbols :- Lookup(d, "symbols");
    var cc :- Lookup(d, "continue_condition");
    var hc :- Lookup(d, "halt_condition");
    var trials :- ToInt(Get(d, "numeric_trials", Int(300)));
    Gate.GateReport(e, symbols, cc, hc, trials, Get(d, "ranges", Null), rand)
  }

  /** The contraction strategy with `norm` defaulting to "l2" and `numeric_trials` to 300. */
  function ContractionCall(e: Engine, d: map<string, Value>, rand: nat -> Unit): Result<map<string, Value>>
  {
    var ss :- Lookup(d, "state_symbols");
    var fNext :- Lookup(d, "F_next");
    var boundText :- Lookup(d, "L_bound");
    var bound :- ToFloat(boundText);
    var trials :- ToInt(Get(d, "numeric_trials", Int(300)));
    Contraction.ContractionReport(e, ss, fNext, bound, Get(d, "norm", Str("l2")), trials, Get(d, "ranges", Null), rand)
  }

  /** `run_claim`; `rand` is the generator's stream as this claim finds it. */
  function RunClaim(spec: ClaimSpec, e: Engine, rand: nat -> Unit): (r: Result<ClaimResult>)
    ensures r.Ok? ==> r.value.id == spec.id && r.value.kind == spec.kind
    ensures r.Ok? ==> r.value.status in {Proved, Rejected, Inconclusive}
    ensures r.Ok? && r.value.status == Inconclusive ==> r.value.details == map["error" := Str("Unknown claim type")]
    ensures spec.kind !in {"identity", "induction", "lyapunov", "gate", "contraction"} ==>
      r == Ok(ClaimResult(spec.id, spec.kind, Inconclusive, map["error" := Str("Unknown claim type")]))
  {
    var d := spec.data;
    if spec.kind == "identity" then
      var rep :- Algebra.ProveIdentity(e, d);
      Ok(ClaimResult(spec.id, spec.kind, Verdict(Truthy(Get(rep, "symbolic_equal", Null))), rep))
    else if spec.kind == "induction" then
      var rep :- InductionCall(e, d);
      Ok(ClaimResult(spec.id, spec.kind, Verdict(Truthy(Get(rep, "proved", Null))), rep))
    else if spec.kind == "lyapunov" then
      var rep :- Lyapunov.LyapunovReport(e, d, rand);
      Ok(ClaimResult(spec.id, spec.kind, LyapunovStatus(rep), rep))
    else if spec.kind == "gate" then
      var rep :- GateCall(e, d, rand);
      Ok(ClaimResult(spec.id, spec.kind, Verdict(Truthy(Get(rep, "passed", Null))), rep))
    else if spec.kind == "contraction" then
      var rep :- ContractionCall(e, d, rand);
      Ok(ClaimResult(spec.id, spec.kind, Verdict(Truthy(Get(rep, "passed", Null))), rep))
    else
      Ok(ClaimResult(spec.id, spec.kind, Inconclusive, map["error" := Str("Unknown claim type")]))
  }

  /** An identity claim is proved exactly when the simplified residual is 0; its details are the strategy's report. */
  lemma IdentityStatus(spec: ClaimSpec, e: Engine, rand: nat -> Unit)
    requires spec.kind == "identity"
    ensures RunClaim(spec, e, rand).Ok? <==> Algebra.Sides(e, spec.data).Ok?
    ensures RunClaim(spec, e, rand).Ok? ==>
      var (_, _, res) := Algebra.Sides(e, spec.data).value;
      && RunClaim(spec, e, rand).value.details == Algebra.ProveIdentity(e, spec.data).value
      && (RunClaim(spec, e, rand).value.status == Proved <==> e.isZero(res))
  {
  }

  /** Induction defaults: with none of the optional keys, the strategy sees `n`, 1, 1 and no assumptions. */
  lemma InductionDefaults(spec: ClaimSpec, e: Engine, rand: nat -> Unit)
    requires spec.kind == "induction" && "predicate" in spec.data
    requires "n_symbol" !in spec.data && "base_from" !in spec.data && "base_to" !in spec.data && "assumptions" !in spec.data
    ensures var rep := Induction.InductionReport(e, spec.data["predicate"], Str("n"), 1, 1, Null);
      && (RunClaim(spec, e, rand).Ok? <==> rep.Ok?)
      && (rep.Ok? ==>
            && RunClaim(spec, e, rand).value.details == rep.value
            && (RunClaim(spec, e, rand).value.status == Proved <==> rep.value["proved"] == Bool(true)))
  {
    var d := spec.data;
    assert Get(d, "n_symbol", Str("n")) == Str("n") && Get(d, "assumptions", Null) == Null;
    assert ToInt(Get(d, "base_from", Int(1))) == Ok(1) && ToInt(Get(d, "base_to", Int(1))) == Ok(1);
    assert InductionCall(e, d) == Induction.InductionReport(e, d["predicate"], Str("n"), 1, 1, Null);
  }

  /** A report without `symbolic_ok`, `ok` and `proved` is rejected by the Lyapunov reduction. */
  lemma RejectedWithoutReadKeys(rep: map<string, Value>)
    requires "symbolic_ok" !in rep && "ok" !in rep && "proved" !in rep
    ensures LyapunovStatus(rep) == Rejected
  {
  }

  /** Every Lyapunov claim that returns is rejected: the report sets only `passed`, never the keys the dispatcher reads. */
  lemma LyapunovAlwaysRejected(spec: ClaimSpec, e: Engine, rand: nat -> Unit)
    requires spec.kind == "lyapunov"
    ensures RunClaim(spec, e, rand).Ok? ==> RunClaim(spec, e, rand).value.status == Rejected
  {
    LyapunovDispatch(spec, e, rand);
    var rep := Lyapunov.LyapunovReport(e, spec.data, rand);
    if rep.Ok? {
      RejectedWithoutReadKeys(rep.value);
    }
  }

  /** A Lyapunov claim's result is its report, reduced by the Lyapunov reduction. */
  lemma LyapunovDispatch(spec: ClaimSpec, e: Engine, rand: nat -> Unit)
    requires spec.kind == "lyapunov"
    ensures var rep := Lyapunov.LyapunovReport(e, spec.data, rand);
      RunClaim(spec, e, rand) == if rep.Ok? then Ok(ClaimResult(spec.id, spec.kind, LyapunovStatus(rep.value), rep.value)) else Err(rep.exc)
  {
  }

  /** The status a Lyapunov report evidently should get: `passed`. */
  function LyapunovStatusCorrected(rep: map<string, Value>): (status: string)
    ensures status == Proved <==> "passed" in rep && Truthy(rep["passed"])
  {
    Verdict(Truthy(Get(rep, "passed", Null)))
  }

  /** `run_claim` with the Lyapunov reduction reading `passed`; every other type is unchanged. */
  function RunClaimCorrected(spec: ClaimSpec, e: Engine, rand: nat -> Unit): (r: Result<ClaimResult>)
    ensures spec.kind != "lyapunov" ==> r == RunClaim(spec, e, rand)
    ensures r.Ok? ==> r.value.id == spec.id && r.value.kind == spec.kind
  {
    if spec.kind == "lyapunov" then
      var rep :- Lyapunov.LyapunovReport(e, spec.data, rand);
      Ok(ClaimResult(spec.id, spec.kind, LyapunovStatusCorrected(rep), rep))
    else RunClaim(spec, e, rand)
  }

  /** With the correction, a Lyapunov claim is proved iff every sample that was evaluated met the target. */
  lemma {:induction false} LyapunovCorrectedProvedIffAllOk(spec: ClaimSpec, e: Engine, rand: nat -> Unit)
    requires spec.kind == "lyapunov"
    requires Lyapunov.Prepare(e, spec.data).Ok?
    ensures var s := Lyapunov.Prepare(e, spec.data).value;
      var outs := Lyapunov.Outcomes(e, s, rand);
      && RunClaimCorrected(spec, e, rand).Ok?
      && (RunClaimCorrected(spec, e, rand).value.status == Proved <==>
           forall i :: 0 <= i < |outs| ==> outs[i].Skip? || (outs[i].Sample? && outs[i].ok))
  {
    var s := Lyapunov.Prepare(e, spec.data).value;
    Lyapunov.PassedIffAllOk(Lyapunov.Outcomes(e, s, rand));
  }

  /** Gate and contraction claims are proved iff their report's `passed` is true. */
  lemma PassedDecides(spec: ClaimSpec, e: Engine, rand: nat -> Unit)
    requires spec.kind == "gate" || spec.kind == "contraction"
    requires RunClaim(spec, e, rand).Ok?
    ensures var res := RunClaim(spec, e, rand).value;
      "passed" in res.details && (res.status == Proved <==> res.details["passed"] == Bool(true))
  {
  }

  /** Gate defaults: 300 trials and no ranges. */
  lemma GateDefaults(spec: ClaimSpec, e: Engine, rand: nat -> Unit)
    requires spec.kind == "gate"
    requires "symbols" in spec.data && "continue_condition" in spec.data && "halt_condition" in spec.data
    requires "numeric_trials" !in spec.data && "ranges" !in spec.data
    ensures var d := spec.data;
      var rep := Gate.GateReport(e, d["symbols"], d["continue_condition"], d["halt_condition"], 300, Null, rand);
      && (RunClaim(spec, e, rand).Ok? <==> rep.Ok?)
      && (rep.Ok? ==> RunClaim(spec, e, rand).value.details == rep.value)
  {
    var d := spec.data;
    assert Get(d, "ranges", Null) == Null && ToInt(Get(d, "numeric_trials", Int(300))) == Ok(300);
    assert GateCall(e, d, rand) == Gate.GateReport(e, d["symbols"], d["continue_condition"], d["halt_condition"], 300, Null, rand);
    GateDispatch(spec, e, rand);
  }

  /** A gate claim's result is the gate call's report, reduced by its `passed`. */
  lemma GateDispatch(spec: ClaimSpec, e: Engine, rand: nat -> Unit)
    requires spec.kind == "gate"
    ensures var rep := GateCall(e, spec.data, rand);
      RunClaim(spec, e, rand) == if rep.Ok? then Ok(ClaimResult(spec.id, spec.kind, Verdict(Truthy(Get(rep.value, "passed", Null))), rep.value)) else Err(rep.exc)
  {
  }

  /** A contraction claim's result is the contraction call's report, reduced by its `passed`. */
  lemma ContractionDispatch(spec: ClaimSpec, e: Engine, rand: nat -> Unit)
    requires spec.kind == "contraction"
    ensures var rep := ContractionCall(e, spec.data, rand);
      RunClaim(spec, e, rand) == if rep.Ok? then Ok(ClaimResult(spec.id, spec.kind, Verdict(Truthy(Get(rep.value, "passed", Null))), rep.value)) else Err(rep.exc)
  {
  }

  /** Contraction defaults: norm "l2", 300 trials and no ranges. */
  lemma ContractionDefaults(spec: ClaimSpec, e: Engine, rand: nat -> Unit)
    requires spec.kind == "contraction"
    requires "state_symbols" in spec.data && "F_next" in spec.data && "L_bound" in spec.data
    requires ToFloat(spec.data["L_bound"]).Ok?
    requires "numeric_trials" !in spec.data && "ranges" !in spec.data && "norm" !in spec.data
    ensures var d := spec.data;
      var rep := Contraction.ContractionReport(e, d["state_symbols"], d["F_next"], ToFloat(d["L_bound"]).value, Str("l2"), 300, Null, rand);
      && (RunClaim(spec, e, rand).Ok? <==> rep.Ok?)
      && (rep.Ok? ==> RunClaim(spec, e, rand).value.details == rep.value)
  {
    var d := spec.data;
    assert Get(d, "ranges", Null) == Null && Get(d, "norm", Str("l2")) == Str("l2");
    assert ToInt(Get(d, "numeric_trials", Int(300))) == Ok(300);
    assert ContractionCall(e, d, rand)
        == Contraction.ContractionReport(e, d["state_symbols"], d["F_next"], ToFloat(d["L_bound"]).value, Str("l2"), 300, Null, rand);
    ContractionDispatch(spec, e, rand);
  }

  /**
   * A bound written `1e-3`, which a YAML 1.1 loader leaves as a string since
   * its float form needs a point, is read by `float()` as 0.001: the claim
   * runs with that bound and is not made inconclusive by the conversion.
   */
  lemma ScientificBound(spec: ClaimSpec, e: Engine, rand: nat -> Unit)
    requires spec.kind == "contraction"
    requires "state_symbols" in spec.data && "F_next" in spec.data && "L_bound" in spec.data && spec.data["L_bound"] == Str("1e-3")
    requires "numeric_trials" !in spec.data && "ranges" !in spec.data && "norm" !in spec.data
    ensures var d := spec.data;
      var rep := Contraction.ContractionReport(e, d["state_symbols"], d["F_next"], Finite(0.001), Str("l2"), 300, Null, rand);
      && (RunClaim(spec, e, rand).Ok? <==> rep.Ok?)
      && (rep.Ok? ==> RunClaim(spec, e, rand).value.details == rep.value)
  {
    ScientificText();
    ContractionDefaults(spec, e, rand);
  }

  /** A missing required field raises out of `run_claim` with a KeyError naming it. */
  lemma MissingFieldRaises(spec: ClaimSpec, e: Engine, rand: nat -> Unit)
    ensures spec.kind == "induction" && "predicate" !in spec.data ==> RunClaim(spec, e, rand) == Err(KeyError("predicate"))
    ensures spec.kind == "gate" && "symbols" !in spec.data ==> RunClaim(spec, e, rand) == Err(KeyError("symbols"))
    ensures spec.kind == "gate" && "symbols" in spec.data && "continue_condition" !in spec.data ==>
      RunClaim(spec, e, rand) == Err(KeyError("continue_condition"))
    ensures spec.kind == "gate" && "symbols" in spec.data && "continue_condition" in spec.data && "halt_condition" !in spec.data ==>
      RunClaim(spec, e, rand) == Err(KeyError("halt_condition"))
    ensures spec.kind == "contraction" && "state_symbols" !in spec.data ==> RunClaim(spec, e, rand) == Err(KeyError("state_symbols"))
    ensures spec.kind == "contraction" && "state_symbols" in spec.data && "F_next" !in spec.data ==>
      RunClaim(spec, e, rand) == Err(KeyError("F_next"))
    ensures spec.kind == "contraction" && "state_symbols" in spec.data && "F_next" in spec.data && "L_bound" !in spec.data ==>
      RunClaim(spec, e, rand) == Err(KeyError("L_bound"))
    ensures spec.kind == "lyapunov" && "state_symbols" !in spec.data ==> RunClaim(spec, e, rand) == Err(KeyError("state_symbols"))
    ensures spec.kind == "lyapunov" && "state_symbols" in spec.data && "F_next" !in spec.data ==>
      RunClaim(spec, e, rand) == Err(KeyError("F_next"))
    ensures spec.kind == "lyapunov" && "state_symbols" in spec.data && "F_next" in spec.data && "V" !in spec.data ==>
      RunClaim(spec, e, rand) == Err(KeyError("V"))
    ensures spec.kind == "identity" && "state_symbols" !in spec.data ==> RunClaim(spec, e, rand) == Err(KeyError("state_symbols"))
  {
  }
}
