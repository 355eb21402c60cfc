/**
 * `prove_identity`: an identity `lhs == rhs` over the current-step symbols
 * (`state_symbols` + `input_symbols`) and, for each state symbol `s` with an
 * `F_next` entry, a name `s_next` bound to that entry. The claim is proved
 * when `simplify(lhs - rhs)` is 0. Nothing is caught: a missing key or a
 * parse failure propagates to the caller.
 */
module Algebra {
  import opened Py
  import opened SymPy

  /** The head of the message for adding values of mismatched types. */
  const PlusOperandPrefix := "unsupported operand type(s) for +: '"

  /**
   * What `a + b` raises when the operands do not add: a string or a list on
   * the left refuses the right operand by its type; any other left operand
   * gets the message naming both types.
   */
  function ConcatMessage(a: Value, b: Value): string
  {
    if a.Str? || a.List? then
      "can only concatenate " + TypeName(a) + " (not \"" + TypeName(b) + "\") to " + TypeName(a)
    else PlusOperandPrefix + TypeName(a) + "' and '" + TypeName(b) + "'"
  }

  /**
   * `ss + us` on the two YAML values: two lists or two strings concatenate
   * and two numbers add. Otherwise a string or a list on the left refuses
   * the right operand by its type, and any other left operand names both
   * types.
   */
  function Concat(a: Value, b: Value): (r: Result<Value>)
    ensures r.Ok? <==> (a.List? && b.List?) || (a.Str? && b.Str?) || (IsNumber(a) && IsNumber(b))
    ensures r.Ok? && a.List? ==> r.value == List(a.items + b.items)
    ensures r.Ok? && a.Str? ==> r.value == Str(a.s + b.s)
    ensures r.Ok? && IsNumber(a) ==> r.value == NumberSum(a, b)
    ensures r.Err? ==> r == Err(TypeError(ConcatMessage(a, b)))
  {
    if a.List? && b.List? then Ok(List(a.items + b.items))
    else if a.Str? && b.Str? then Ok(Str(a.s + b.s))
    else if IsNumber(a) && IsNumber(b) then Ok(NumberSum(a, b))
    else Err(TypeError(ConcatMessage(a, b)))
  }

  /** `sym_env`: one plain symbol per name in `ss + us`. */
  function CurrentEnv(ss: Value, us: Value): (r: Result<map<string, Expr>>)
    ensures Concat(ss, us).Err? ==> r == Err(Concat(ss, us).exc)
    ensures r.Ok? ==> Concat(ss, us).Ok? && Names(Concat(ss, us).value).Ok?
    ensures r.Ok? ==> r.value.Keys == set s | s in Names(Concat(ss, us).value).value
  {
    var all :- Concat(ss, us);
    var names :- Names(all);
    Ok(SymbolTable(names, false, false))
  }

  /** `s` has an `F_next` entry: `s in fnext` is true. */
  predicate HasNext(s: string, fnext: Value)
  {
    In(s, fnext) == Ok(true)
  }

  /**
   * `subs_next_env`: the loop over the state symbols, in order, binding
   * `s + "_next"` to the parsed `fnext[s]` whenever `s in fnext`.
   */
  function NextEnv(e: Engine, ss: seq<string>, fnext: Value, env: map<string, Expr>): (r: Result<map<string, Expr>>)
    ensures r.Ok? ==> forall name :: name in r.value <==> exists s :: s in ss && name == s + "_next" && HasNext(s, fnext)
  {
    if ss == [] then Ok(map[])
    else
      var present :- In(ss[0], fnext);
      var first :-
        if present then
          (var text :- Index(fnext, ss[0]);
           var parsed :- e.sympify(text, env);
           Ok(map[ss[0] + "_next" := parsed]))
        else Ok(map[]);
      var rest :- NextEnv(e, ss[1..], fnext, env);
      assert forall name :: name in first <==> (present && name == ss[0] + "_next");
      assert forall s :: s in ss <==> s == ss[0] || s in ss[1..];
      Ok(first + rest)
  }

  /** The environment both sides are parsed in: `{**sym_env, **subs_next_env}`. */
  function ParseEnv(e: Engine, claim: map<string, Value>): (r: Result<map<string, Expr>>)
    ensures "state_symbols" !in claim ==> r == Err(KeyError("state_symbols"))
  {
    var ss :- Lookup(claim, "state_symbols");
    var us := Get(claim, "input_symbols", List([]));
    var fnext := Get(claim, "F_next", Dict(map[]));
    var env :- CurrentEnv(ss, us);
    var stateNames :- Names(ss);
    var next :- NextEnv(e, stateNames, fnext, env);
    Ok(env + next)
  }

  /** `(lhs, rhs, simplify(lhs - rhs))`, in the order the source evaluates them. */
  function Sides(e: Engine, claim: map<string, Value>): Result<(Expr, Expr, Expr)>
  {
    var env :- ParseEnv(e, claim);
    var lhsText :- Lookup(claim, "lhs");
    var lhs :- e.sympify(lhsText, env);
    var rhsText :- Lookup(claim, "rhs");
    var rhs :- e.sympify(rhsText, env);
    var diff :- e.minus(lhs, rhs);
    var res :- e.simplify(diff);
    Ok((lhs, rhs, res))
  }

  /** The report dictionary for a residual that is (or is not) zero. */
  function Report(ok: bool, residual: string, lhs: string, rhs: string): (m: map<string, Value>)
    ensures m.Keys == {"verdict", "symbolic_equal", "residual", "lhs", "rhs"}
    ensures m["symbolic_equal"] == Bool(ok)
    ensures m["residual"] == Str(residual) && m["lhs"] == Str(lhs) && m["rhs"] == Str(rhs)
    ensures m["verdict"] == Str("proved") || m["verdict"] == Str("falsified")
    ensures m["verdict"] == Str("proved") <==> m["symbolic_equal"] == Bool(true)
  {
    map[
      "verdict" := Str(if ok then "proved" else "falsified"),
      "symbolic_equal" := Bool(ok),
      "residual" := Str(residual),
      "lhs" := Str(lhs),
      "rhs" := Str(rhs)]
  }

  /** The identity report: `symbolic_equal` and `verdict` follow whether the simplified residual is 0. */
  function ProveIdentity(e: Engine, claim: map<string, Value>): (r: Result<map<string, Value>>)
    ensures r.Ok? <==> Sides(e, claim).Ok?
    ensures "state_symbols" !in claim ==> r == Err(KeyError("state_symbols"))
    ensures ParseEnv(e, claim).Ok? && "lhs" !in claim ==> r == Err(KeyError("lhs"))
    ensures r.Ok? ==> var (lhs, rhs, res) := Sides(e, claim).value;
      r.value == Report(e.isZero(res), e.show(res), e.show(lhs), e.show(rhs))
  {
    var (lhs, rhs, res) :- Sides(e, claim);
    Ok(Report(e.isZero(res), e.show(res), e.show(lhs), e.show(rhs)))
  }

  lemma SuffixCancel(a: string, b: string, suffix: string)
    requires a + suffix == b + suffix
    ensures a == b
  {
    assert a == (a + suffix)[..|a|];
    assert b == (b + suffix)[..|b|];
  }

  /**
   * The parse environment holds exactly the current-step names and the
   * `_next` names of state symbols with an `F_next` entry; an input symbol
   * that is not also a state symbol never gets a `_next` name.
   */
  lemma {:induction false} ParseEnvNames(e: Engine, claim: map<string, Value>, name: string)
    requires ParseEnv(e, claim).Ok?
    ensures var ss := claim["state_symbols"];
      var us := Get(claim, "input_symbols", List([]));
      var fnext := Get(claim, "F_next", Dict(map[]));
      && Names(ss).Ok?
      && (name in ParseEnv(e, claim).value <==>
            (name in Names(Concat(ss, us).value).value
             || exists s :: s in Names(ss).value && name == s + "_next" && HasNext(s, fnext)))
  {
  }

  /**
   * Two numbers add, and iterating the sum for the symbol table raises
   * TypeError naming the sum's type: a float when either is one, an int
   * otherwise.
   */
  lemma NumbersNotIterable(ss: Value, us: Value)
    requires IsNumber(ss) && IsNumber(us)
    ensures CurrentEnv(ss, us)
      == Err(TypeError("'" + (if ss.Float? || us.Float? then "float" else "int") + "' object is not iterable"))
  {
    var sum := NumberSum(ss, us);
    assert Concat(ss, us) == Ok(sum);
    assert TypeName(sum) == if ss.Float? || us.Float? then "float" else "int";
  }

  /** A string and then a list do not concatenate; the message names the string's type as the one refusing. */
  lemma StrPlusList(s: string, items: seq<Value>)
    ensures Concat(Str(s), List(items)) == Err(TypeError("can only concatenate str (not \"list\") to str"))
  {
    assert ConcatMessage(Str(s), List(items)) == "can only concatenate str (not \"list\") to str";
  }

  /** A list and then a string do not concatenate; the message names the list's type as the one refusing. */
  lemma ListPlusStr(s: string, items: seq<Value>)
    ensures Concat(List(items), Str(s)) == Err(TypeError("can only concatenate list (not \"str\") to list"))
  {
    assert ConcatMessage(List(items), Str(s)) == "can only concatenate list (not \"str\") to list";
  }

  /** An input symbol that is not a state symbol is never given a `_next` binding. */
  lemma InputHasNoNext(e: Engine, claim: map<string, Value>, u: string)
    requires ParseEnv(e, claim).Ok?
    requires u !in Names(claim["state_symbols"]).value
    requires u + "_next" !in Names(Concat(claim["state_symbols"], Get(claim, "input_symbols", List([]))).value).value
    ensures u + "_next" !in ParseEnv(e, claim).value
  {
    ParseEnvNames(e, claim, u + "_next");
    var ss := claim["state_symbols"];
    if exists s :: s in Names(ss).value && u + "_next" == s + "_next" && HasNext(s, Get(claim, "F_next", Dict(map[]))) {
      var s :| s in Names(ss).value && u + "_next" == s + "_next" && HasNext(s, Get(claim, "F_next", Dict(map[])));
      SuffixCancel(u, s, "_next");
    }
  }

  /** With no `input_symbols` and no `F_next`, the environment is exactly the state symbols. */
  lemma DefaultsGiveStateSymbolsOnly(e: Engine, claim: map<string, Value>)
    requires "state_symbols" in claim && claim["state_symbols"].List?
    requires "input_symbols" !in claim && "F_next" !in claim
    requires ParseEnv(e, claim).Ok?
    ensures ParseEnv(e, claim).value.Keys == set s | s in Names(claim["state_symbols"]).value
  {
    var ss := claim["state_symbols"];
    assert Get(claim, "input_symbols", List([])) == List([]);
    assert Get(claim, "F_next", Dict(map[])) == Dict(map[]);
    assert Concat(ss, List([])) == Ok(ss) by {
      assert ss.items + [] == ss.items;
    }
    forall name | name in ParseEnv(e, claim).value
      ensures name in Names(ss).value
    {
      ParseEnvNames(e, claim, name);
      NothingHasNext(Names(ss).value, name);
    }
    forall name | name in Names(ss).value
      ensures name in ParseEnv(e, claim).value
    {
      ParseEnvNames(e, claim, name);
    }
  }

  /** An empty `F_next` gives no symbol a `_next` binding. */
  lemma NothingHasNext(names: seq<string>, name: string)
    ensures !exists s :: s in names && name == s + "_next" && HasNext(s, Dict(map[]))
  {
    forall s | s in names
      ensures !HasNext(s, Dict(map[]))
    {
      assert In(s, Dict(map[])) == Ok(false);
    }
  }
}
