/**
 * `prove_induction`: check the predicate at each base case `n` from
 * `base_from` to `base_to`, then check `P(k + 1)` symbolically for an
 * integer `k >= base_from`. The claim is proved when every base case holds
 * and the step holds.
 */
module Induction {
  import opened Py
  import opened SymPy

  /** The facts of the base-case context: integer(n) and n >= base_from, then the user's facts about n. */
  function BaseContext(n: Expr, baseFrom: int, facts: seq<Fact>): seq<Fact>
  {
    [IsInteger(n), AtLeast(n, baseFrom)] + facts
  }

  /** The fact a user assumption adds: only "positive", "nonzero" and "real" mean anything. */
  function FactFor(a: Value, n: Expr): Option<Fact>
  {
    if a == Str("positive") then Some(IsPositive(n))
    else if a == Str("nonzero") then Some(IsNonzero(n))
    else if a == Str("real") then Some(IsReal(n))
    else None
  }

  /** The facts the listed assumptions add, in order. */
  function FactsFor(items: seq<Value>, n: Expr): (facts: seq<Fact>)
    ensures |facts| <= |items|
    ensures forall f :: f in facts ==> f in {IsPositive(n), IsNonzero(n), IsReal(n)}
    ensures forall i :: 0 <= i < |items| && FactFor(items[i], n).Some? ==> FactFor(items[i], n).value in facts
    ensures forall f :: f in facts ==> exists i :: 0 <= i < |items| && FactFor(items[i], n) == Some(f)
  {
    if items == [] then []
    else
      var rest := FactsFor(items[..|items| - 1], n);
      match FactFor(items[|items| - 1], n)
      case Some(f) => rest + [f]
      case None => rest
  }

  /** The user facts: `assumptions[n_symbol]` when `assumptions` is truthy and holds that key. */
  function UserFacts(assumptions: Value, nSymbol: string, n: Expr): (r: Result<seq<Fact>>)
    ensures !Truthy(assumptions) ==> r == Ok([])
    ensures Truthy(assumptions) && In(nSymbol, assumptions) == Ok(false) ==> r == Ok([])
    ensures r.Ok? ==> forall f :: f in r.value ==> f in {IsPositive(n), IsNonzero(n), IsReal(n)}
    ensures r.Ok? && Truthy(assumptions) && In(nSymbol, assumptions) == Ok(true) ==>
      && Index(assumptions, nSymbol).Ok? && Iterate(Index(assumptions, nSymbol).value).Ok?
      && var items := Iterate(Index(assumptions, nSymbol).value).value;
        && (IsPositive(n) in r.value <==> Str("positive") in items)
        && (IsNonzero(n) in r.value <==> Str("nonzero") in items)
        && (IsReal(n) in r.value <==> Str("real") in items)
  {
    if !Truthy(assumptions) then Ok([])
    else
      var present :- In(nSymbol, assumptions);
      if !present then Ok([])
      else
        var listed :- Index(assumptions, nSymbol);
        var items :- Iterate(listed);
        Ok(FactsFor(items, n))
  }

  /** One base case: `Pn.subs({n: k})` decided under the context; an exception is recorded. */
  datatype BaseCheck = Checked(k: int, ok: bool, shown: string) | Raised(k: int, msg: string)

  function CheckBase(e: Engine, pn: Expr, n: Expr, context: seq<Fact>, k: int): (c: BaseCheck)
    ensures c.k == k
  {
    match e.substitute(pn, map[n := Integer(k)])
    case Err(x) => Raised(k, Message(x))
    case Ok(v) =>
      match e.decide(v, context)
      case Err(x) => Raised(k, Message(x))
      case Ok(ok) => Checked(k, ok, e.show(v))
  }

  function BaseRecord(c: BaseCheck): (r: Value)
    ensures r.Dict? && "n" in r.entries && r.entries["n"] == Int(c.k)
  {
    match c
    case Checked(k, ok, shown) => Dict(map["n" := Int(k), "ok" := Bool(ok), "expr" := Str(shown)])
    case Raised(k, msg) => Dict(map["n" := Int(k), "error" := Str(msg)])
  }

  predicate Holds(c: BaseCheck)
  {
    c.Checked? && c.ok
  }

  /** The checks for `n = from, ..., from + count - 1`. */
  function BaseChecks(e: Engine, pn: Expr, n: Expr, context: seq<Fact>, from: int, count: nat): (cs: seq<BaseCheck>)
    ensures |cs| == count
    ensures forall i :: 0 <= i < count ==> cs[i] == CheckBase(e, pn, n, context, from + i)
  {
    if count == 0 then []
    else BaseChecks(e, pn, n, context, from, count - 1) + [CheckBase(e, pn, n, context, from + count - 1)]
  }

  /** `ok_all`: true when every check holds (and so for no checks). */
  function AllHold(cs: seq<BaseCheck>): bool
  {
    if cs == [] then true
    else AllHold(cs[..|cs| - 1]) && Holds(cs[|cs| - 1])
  }

  function Records(cs: seq<BaseCheck>): (rs: seq<Value>)
    ensures |rs| == |cs|
    ensures forall i :: 0 <= i < |cs| ==> rs[i] == BaseRecord(cs[i])
  {
    if cs == [] then [] else Records(cs[..|cs| - 1]) + [BaseRecord(cs[|cs| - 1])]
  }

  /** One more check extends `ok_all` by a conjunct and the records by one record. */
  lemma Extend(cs: seq<BaseCheck>, c: BaseCheck)
    ensures AllHold(cs + [c]) == (AllHold(cs) && Holds(c))
    ensures Records(cs + [c]) == Records(cs) + [BaseRecord(c)]
  {
    assert (cs + [c])[..|cs|] == cs;
  }

  /** The number of integers in `range(from, to + 1)`. */
  function RangeCount(from: int, to: int): nat
  {
    if to < from then 0 else to - from + 1
  }

  /** The step: `P(k + 1)` decided under integer(k) and k >= base_from only. */
  function StepContext(k: Expr, baseFrom: int): seq<Fact>
  {
    [IsInteger(k), AtLeast(k, baseFrom)]
  }

  function StepRecord(e: Engine, pk1: Expr, baseFrom: int): (v: Value)
    ensures v.Dict?
  {
    match e.decide(pk1, StepContext(Symbol("k", true, false), baseFrom))
    case Ok(holds) => Dict(map["ok" := Bool(holds), "Pk1" := Str(e.show(pk1))])
    case Err(x) => Dict(map["error" := Str(Message(x))])
  }

  /** `bool(report.get("inductive_step", {}).get("ok", False))` */
  predicate StepHolds(step: Value)
  {
    step.Dict? && Truthy(Get(step.entries, "ok", Bool(false)))
  }

  /** What `prove_induction` computes before the base loop. */
  datatype Setup = Setup(n: Expr, context: seq<Fact>, pn: Expr)

  /** The head of the message for a symbol name that is not a string. */
  const SymbolNamePrefix := "expected a string symbol name, not '"

  /** The symbol, the assumption context and the parsed predicate; the parse raises. */
  function Prepare(e: Engine, pred: Value, nSymbol: Value, baseFrom: int, assumptions: Value): (r: Result<Setup>)
    ensures r.Ok? ==> nSymbol.Str? && r.value.n == Symbol(nSymbol.s, true, false)
    ensures r.Ok? ==> |r.value.context| >= 2 && r.value.context[..2] == [IsInteger(r.value.n), AtLeast(r.value.n, baseFrom)]
  {
    if !nSymbol.Str? then Err(TypeError(SymbolNamePrefix + TypeName(nSymbol) + "'"))
    else
      var n := Symbol(nSymbol.s, true, false);
      var facts :- UserFacts(assumptions, nSymbol.s, n);
      var pn :- e.sympify(pred, map[nSymbol.s := n]);
      Ok(Setup(n, BaseContext(n, baseFrom, facts), pn))
  }

  /** The final report, from the base records, `ok_all` and the step record. */
  function Report(e: Engine, nSymbol: string, baseFrom: int, baseTo: int, s: Setup, records: seq<Value>, baseOk: bool, step: Value)
    : (r: map<string, Value>)
    ensures {"base_checks", "inductive_step", "base_ok", "proved"} <= r.Keys
    ensures r["base_checks"] == List(records) && r["inductive_step"] == step
    ensures r["base_ok"] == Bool(baseOk) && r["proved"] == Bool(baseOk && StepHolds(step))
  {
    map[
      "base_checks" := List(records),
      "inductive_step" := step,
      "predicate" := Str(e.show(s.pn)),
      "n_symbol" := Str(nSymbol),
      "base_from" := Int(baseFrom),
      "base_to" := Int(baseTo),
      "base_ok" := Bool(baseOk),
      "proved" := Bool(baseOk && StepHolds(step))]
  }

  /** `P(k + 1)`: the predicate parsed with `n_symbol` standing for `k + 1`, `k` an integer symbol. */
  function NextPredicate(e: Engine, pred: Value, nSymbol: string): Result<Expr>
  {
    e.sympify(pred, map[nSymbol := Plus(Symbol("k", true, false), 1)])
  }

  /** `prove_induction` as a whole. */
  function InductionReport(e: Engine, pred: Value, nSymbol: Value, baseFrom: int, baseTo: int, assumptions: Value)
    : (r: Result<map<string, Value>>)
    ensures r.Ok? <==> Prepare(e, pred, nSymbol, baseFrom, assumptions).Ok? && NextPredicate(e, pred, nSymbol.s).Ok?
    ensures r.Ok? ==> {"base_checks", "inductive_step", "base_ok", "proved"} <= r.value.Keys
    ensures r.Ok? ==> r.value["proved"] == Bool(r.value["base_ok"] == Bool(true) && StepHolds(r.value["inductive_step"]))
    ensures r.Ok? ==> r.value["inductive_step"] == StepRecord(e, NextPredicate(e, pred, nSymbol.s).value, baseFrom)
  {
    var s :- Prepare(e, pred, nSymbol, baseFrom, assumptions);
    var cs := BaseChecks(e, s.pn, s.n, s.context, baseFrom, RangeCount(baseFrom, baseTo));
    var pk1 :- NextPredicate(e, pred, nSymbol.s);
    Ok(Report(e, nSymbol.s, baseFrom, baseTo, s, Records(cs), AllHold(cs), StepRecord(e, pk1, baseFrom)))
  }

  /** The base-case loop, accumulating `ok_all` and the records. */
  method BaseLoop(e: Engine, s: Setup, baseFrom: int, baseTo: int) returns (okAll: bool, records: seq<Value>)
    ensures var cs := BaseChecks(e, s.pn, s.n, s.context, baseFrom, RangeCount(baseFrom, baseTo));
      okAll == AllHold(cs) && records == Records(cs)
  {
    okAll, records := true, [];
    ghost var all := BaseChecks(e, s.pn, s.n, s.context, baseFrom, RangeCount(baseFrom, baseTo));
    // `for k in range(base_from, base_to + 1)`, counted by `j = k - base_from`
    for j := 0 to RangeCount(baseFrom, baseTo)
      invariant okAll == AllHold(all[..j]) && records == Records(all[..j])
    {
      var c := CheckBase(e, s.pn, s.n, s.context, baseFrom + j);
      // a raised check records its error and clears `ok_all`
      records := records + [BaseRecord(c)];
      okAll := okAll && Holds(c);
      assert c == all[j];
      Extend(all[..j], c);
      TakeOneMore(all, j);
    }
    assert all[..|all|] == all;
  }

  /** `prove_induction`: set up, loop over the base cases, then the step. */
  method ProveInduction(e: Engine, pred: Value, nSymbol: Value, baseFrom: int, baseTo: int, assumptions: Value)
    returns (r: Result<map<string, Value>>)
    ensures r == InductionReport(e, pred, nSymbol, baseFrom, baseTo, assumptions)
  {
    var setup := Prepare(e, pred, nSymbol, baseFrom, assumptions);
    if setup.Err? {
      return Err(setup.exc);
    }
    var s := setup.value;
    var okAll, records := BaseLoop(e, s, baseFrom, baseTo);
    var pk1 := NextPredicate(e, pred, nSymbol.s);
    if pk1.Err? {
      return Err(pk1.exc);
    }
    var step := StepRecord(e, pk1.value, baseFrom);
    return Ok(Report(e, nSymbol.s, baseFrom, baseTo, s, records, okAll, step));
  }

  /** One base record per integer from `base_from` to `base_to`, in increasing order. */
  lemma OneRecordPerBaseCase(e: Engine, s: Setup, baseFrom: int, baseTo: int)
    ensures var rs := Records(BaseChecks(e, s.pn, s.n, s.context, baseFrom, RangeCount(baseFrom, baseTo)));
      && |rs| == RangeCount(baseFrom, baseTo)
      && forall i :: 0 <= i < |rs| ==> rs[i].Dict? && rs[i].entries["n"] == Int(baseFrom + i)
  {
    var cs := BaseChecks(e, s.pn, s.n, s.context, baseFrom, RangeCount(baseFrom, baseTo));
    forall i | 0 <= i < |cs|
      ensures Records(cs)[i].Dict? && Records(cs)[i].entries["n"] == Int(baseFrom + i)
    {
      assert Records(cs)[i] == BaseRecord(cs[i]) && cs[i].k == baseFrom + i;
    }
  }

  /** `ok_all` is the conjunction of the base checks; a raised check counts as false. */
  lemma {:induction false} AllHoldIffEvery(cs: seq<BaseCheck>)
    ensures AllHold(cs) <==> forall i :: 0 <= i < |cs| ==> Holds(cs[i])
  {
    if cs != [] {
      var init := cs[..|cs| - 1];
      AllHoldIffEvery(init);
      assert forall i :: 0 <= i < |init| ==> init[i] == cs[i];
    }
  }

  /** An empty base range (`base_from > base_to`) gives `base_ok` true without checking anything. */
  lemma EmptyRangeIsVacuous(e: Engine, pred: Value, nSymbol: Value, baseFrom: int, baseTo: int, assumptions: Value)
    requires baseFrom > baseTo
    requires InductionReport(e, pred, nSymbol, baseFrom, baseTo, assumptions).Ok?
    ensures var rep := InductionReport(e, pred, nSymbol, baseFrom, baseTo, assumptions).value;
      rep["base_ok"] == Bool(true) && rep["base_checks"] == List([])
  {
  }

  /** The step record never depends on the user's assumptions: it is decided under integer(k) and k >= base_from alone. */
  lemma StepIgnoresAssumptions(e: Engine, pred: Value, nSymbol: Value, baseFrom: int, baseTo: int, a1: Value, a2: Value)
    requires InductionReport(e, pred, nSymbol, baseFrom, baseTo, a1).Ok?
    requires InductionReport(e, pred, nSymbol, baseFrom, baseTo, a2).Ok?
    ensures InductionReport(e, pred, nSymbol, baseFrom, baseTo, a1).value["inductive_step"]
         == InductionReport(e, pred, nSymbol, baseFrom, baseTo, a2).value["inductive_step"]
  {
  }

  /**
   * With an empty base range and a step that holds, the claim is proved
   * although the predicate was never checked at `base_from`, whatever the
   * engine would have said there.
   */
  lemma VacuousBaseProves(e: Engine, pred: Value, nSymbol: Value, baseFrom: int, baseTo: int, assumptions: Value)
    requires baseFrom > baseTo
    requires InductionReport(e, pred, nSymbol, baseFrom, baseTo, assumptions).Ok?
    requires StepHolds(InductionReport(e, pred, nSymbol, baseFrom, baseTo, assumptions).value["inductive_step"])
    ensures InductionReport(e, pred, nSymbol, baseFrom, baseTo, assumptions).value["proved"] == Bool(true)
  {
    EmptyRangeIsVacuous(e, pred, nSymbol, baseFrom, baseTo, assumptions);
  }

  /**
   * A verdict that requires the base case at `base_from` itself to have been
   * checked: `proved` then implies the predicate held at `base_from`.
   */
  function ProvedWithBase(cs: seq<BaseCheck>, step: Value): (proved: bool)
    ensures proved ==> cs != [] && Holds(cs[0]) && StepHolds(step)
    ensures proved ==> forall i :: 0 <= i < |cs| ==> Holds(cs[i])
  {
    AllHoldIffEvery(cs);
    cs != [] && AllHold(cs) && StepHolds(step)
  }

  /** With the base case required, a non-empty range proves exactly what the source proves, and an empty one proves nothing. */
  lemma ProvedWithBaseAgrees(e: Engine, s: Setup, baseFrom: int, baseTo: int, step: Value)
    ensures var cs := BaseChecks(e, s.pn, s.n, s.context, baseFrom, RangeCount(baseFrom, baseTo));
      && (baseFrom <= baseTo ==> ProvedWithBase(cs, step) == (AllHold(cs) && StepHolds(step)))
      && (baseFrom > baseTo ==> !ProvedWithBase(cs, step))
      && (baseFrom <= baseTo && ProvedWithBase(cs, step) ==> Holds(CheckBase(e, s.pn, s.n, s.context, baseFrom)))
  {
  }

  /** A step that raises leaves no "ok", so the claim is not proved. */
  lemma StepErrorNotProved(e: Engine, pred: Value, nSymbol: Value, baseFrom: int, baseTo: int, assumptions: Value)
    requires nSymbol.Str?
    requires var pk1 := e.sympify(pred, map[nSymbol.s := Plus(Symbol("k", true, false), 1)]);
      pk1.Ok? && e.decide(pk1.value, StepContext(Symbol("k", true, false), baseFrom)).Err?
    requires InductionReport(e, pred, nSymbol, baseFrom, baseTo, assumptions).Ok?
    ensures InductionReport(e, pred, nSymbol, baseFrom, baseTo, assumptions).value["proved"] == Bool(false)
  {
  }

  /** Only "positive", "nonzero" and "real" listed under `n_symbol` add facts; everything else is ignored. */
  lemma {:induction false} OnlyKnownAssumptionsCount(items: seq<Value>, n: Expr)
    requires forall i :: 0 <= i < |items| ==> items[i] !in {Str("positive"), Str("nonzero"), Str("real")}
    ensures FactsFor(items, n) == []
  {
    if items != [] {
      OnlyKnownAssumptionsCount(items[..|items| - 1], n);
    }
  }
}
