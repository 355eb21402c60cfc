/**
 * `verify_gate`: sample points and check that the continue and halt
 * conditions are never both true (a conflict) and never both false (a miss).
 * A trial whose evaluation raises is recorded with its error text and counts
 * as neither.
 */
module Gate {
  import opened Py
  import opened SymPy
  import opened Sampling

  /** The outcome of one trial: the two truth values, or the text of the exception. */
  datatype Trial = Eval(cv: bool, hv: bool) | Error(msg: string)

  /** A trial is a conflict when both conditions hold. */
  predicate Conflict(t: Trial)
  {
    t.Eval? && t.cv && t.hv
  }

  /** A trial is a miss when neither condition holds. */
  predicate Miss(t: Trial)
  {
    t.Eval? && !t.cv && !t.hv
  }

  /** The per-trial record appended to `report["trials"]`. */
  function Record(t: Trial): (v: Value)
    ensures v.Dict?
    ensures t.Eval? ==> v.entries.Keys == {"continue", "halt", "ok"} && v.entries["ok"] == Bool(!Conflict(t))
    ensures t.Error? ==> v.entries == map["error" := Str(t.msg)]
  {
    match t
    case Eval(cv, hv) => Dict(map["continue" := Bool(cv), "halt" := Bool(hv), "ok" := Bool(!(cv && hv))])
    case Error(msg) => Dict(map["error" := Str(msg)])
  }

  /** Evaluate `C` and then `H` at a point; the first exception ends the trial. */
  function Outcome(e: Engine, c: Expr, h: Expr, point: map<string, real>): Trial
  {
    match e.truthAt(c, point)
    case Err(x) => Error(Message(x))
    case Ok(cv) =>
      match e.truthAt(h, point)
      case Err(x) => Error(Message(x))
      case Ok(hv) => Eval(cv, hv)
  }

  /** The counters and records after a run of trials. */
  datatype Tally = Tally(conflicts: nat, misses: nat, records: seq<Value>)

  /** The effect of one more trial on the counters: at most one counter moves, and an error moves neither. */
  function Step(acc: Tally, t: Trial): (r: Tally)
    ensures r.conflicts + r.misses <= acc.conflicts + acc.misses + 1
    ensures t.Error? ==> r.conflicts == acc.conflicts && r.misses == acc.misses
    ensures r.records == acc.records + [Record(t)]
  {
    Tally(
      acc.conflicts + (if Conflict(t) then 1 else 0),
      acc.misses + (if Miss(t) then 1 else 0),
      acc.records + [Record(t)])
  }

  /** The counters after the trials `outs`, in order. */
  function Count(outs: seq<Trial>): (r: Tally)
    ensures |r.records| == |outs|
  {
    if outs == [] then Tally(0, 0, [])
    else Step(Count(outs[..|outs| - 1]), outs[|outs| - 1])
  }

  /** Counting one more trial of `outs` is one more `Step`. */
  lemma CountExtend(outs: seq<Trial>, t: nat)
    requires t < |outs|
    ensures Count(outs[..t + 1]) == Step(Count(outs[..t]), outs[t])
  {
    assert outs[..t + 1][..t] == outs[..t];
  }

  /** The number of trials that did not raise. */
  function Evaluated(outs: seq<Trial>): nat
  {
    if outs == [] then 0
    else Evaluated(outs[..|outs| - 1]) + (if outs[|outs| - 1].Eval? then 1 else 0)
  }

  /** The report built from the counters: `passed` iff no conflict and no miss. */
  function Report(tally: Tally): map<string, Value>
  {
    map[
      "conflicts" := Int(tally.conflicts),
      "misses" := Int(tally.misses),
      "trials" := List(tally.records),
      "passed" := Bool(tally.conflicts == 0 && tally.misses == 0)]
  }

  /** What `verify_gate` needs before it samples: the symbols, the two parsed conditions and the intervals. */
  datatype Setup = Setup(names: seq<string>, c: Expr, h: Expr, bounds: seq<(real, real)>, trials: int)

  predicate WellFormed(s: Setup)
  {
    |s.bounds| == |s.names|
  }

  /** Parse both conditions over real symbols; the sampling intervals default to [-3, 3]. */
  function Prepare(e: Engine, symbols: Value, continueCondition: Value, haltCondition: Value, trials: int, ranges: Value): (r: Result<Setup>)
    ensures r.Ok? ==> WellFormed(r.value) && r.value.trials == trials
    ensures r.Ok? && !Truthy(ranges) ==> forall i :: 0 <= i < |r.value.bounds| ==> r.value.bounds[i] == (-3.0, 3.0)
  {
    var names :- Names(symbols);
    var env := SymbolTable(names, false, true);
    var c :- e.sympify(continueCondition, env);
    var h :- e.sympify(haltCondition, env);
    var bounds :- Sampling.Prepare(names, ranges, -3.0, 3.0, trials);
    Ok(Setup(names, c, h, bounds, trials))
  }

  /** The outcome of every trial `range(trials)` runs. */
  function Outcomes(e: Engine, s: Setup, rand: nat -> Unit): (outs: seq<Trial>)
    requires WellFormed(s)
    ensures |outs| == if s.trials > 0 then s.trials else 0
  {
    var n := if s.trials > 0 then s.trials else 0;
    seq(n, t requires 0 <= t => Outcome(e, s.c, s.h, Point(s.names, s.bounds, rand, t)))
  }

  /** `verify_gate` as a whole. */
  function GateReport(e: Engine, symbols: Value, continueCondition: Value, haltCondition: Value, trials: int, ranges: Value, rand: nat -> Unit): Result<map<string, Value>>
  {
    var s :- Prepare(e, symbols, continueCondition, haltCondition, trials, ranges);
    Ok(Report(Count(Outcomes(e, s, rand))))
  }

  /** The sampling loop: the counters are incremented and the records appended trial by trial. */
  method SampleLoop(e: Engine, s: Setup, rand: nat -> Unit) returns (report: map<string, Value>)
    requires WellFormed(s)
    ensures report == Report(Count(Outcomes(e, s, rand)))
  {
    ghost var outs := Outcomes(e, s, rand);
    var conflicts, misses, trials := 0, 0, [];
    var n := if s.trials > 0 then s.trials else 0;
    var t := 0;
    while t < n
      invariant 0 <= t <= n == |outs|
      invariant Tally(conflicts, misses, trials) == Count(outs[..t])
    {
      var point := Point(s.names, s.bounds, rand, t);
      var trial := Outcome(e, s.c, s.h, point);
      assert outs[t] == trial;
      CountExtend(outs, t);
      if Conflict(trial) {
        conflicts := conflicts + 1;
      }
      if Miss(trial) {
        misses := misses + 1;
      }
      trials := trials + [Record(trial)];
      t := t + 1;
    }
    assert outs[..t] == outs;
    report := Report(Tally(conflicts, misses, trials));
  }

  /** `verify_gate`: parse, then sample. */
  method VerifyGate(e: Engine, symbols: Value, continueCondition: Value, haltCondition: Value, trials: int, ranges: Value, rand: nat -> Unit)
    returns (r: Result<map<string, Value>>)
    ensures r == GateReport(e, symbols, continueCondition, haltCondition, trials, ranges, rand)
  {
    var setup := Prepare(e, symbols, continueCondition, haltCondition, trials, ranges);
    if setup.Err? {
      return Err(setup.exc);
    }
    var report := SampleLoop(e, setup.value, rand);
    return Ok(report);
  }

  /** Every trial appends exactly one record, and record `i` describes trial `i`. */
  lemma {:induction false} RecordsMatchTrials(outs: seq<Trial>)
    ensures |Count(outs).records| == |outs|
    ensures forall i :: 0 <= i < |outs| ==> Count(outs).records[i] == Record(outs[i])
  {
    if outs != [] {
      var init := outs[..|outs| - 1];
      RecordsMatchTrials(init);
      assert forall i :: 0 <= i < |init| ==> init[i] == outs[i];
    }
  }

  /** The counters never exceed the number of trials that evaluated. */
  lemma {:induction false} CountersBounded(outs: seq<Trial>)
    ensures Count(outs).conflicts + Count(outs).misses <= Evaluated(outs) <= |outs|
  {
    if outs != [] {
      CountersBounded(outs[..|outs| - 1]);
    }
  }

  /** `passed` holds iff every trial either raised or had exactly one condition true. */
  lemma {:induction false} PassedIffExclusive(outs: seq<Trial>)
    ensures Report(Count(outs))["passed"] == Bool(true) <==>
      forall i :: 0 <= i < |outs| ==> !Conflict(outs[i]) && !Miss(outs[i])
  {
    if outs != [] {
      var init := outs[..|outs| - 1];
      PassedIffExclusive(init);
      assert forall i :: 0 <= i < |init| ==> init[i] == outs[i];
    }
  }

  /** A run in which every trial raises passes: nothing was counted. */
  lemma AllErrorsPass(outs: seq<Trial>)
    requires forall i :: 0 <= i < |outs| ==> outs[i].Error?
    ensures Report(Count(outs))["passed"] == Bool(true)
  {
    PassedIffExclusive(outs);
  }
}
