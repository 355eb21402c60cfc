/**
 * The second revision of the math-engine wrapper: an eight-pattern
 * blacklist read from the module configuration, `validate_expression`,
 * and the input checks of `evaluate_expression` and `solve_equation`,
 * which all run before the cache or any SymPy implementation is consulted.
 */
module MathV2 {
  import opened Text
  import opened Py
  import opened Guard
  import MathV3

  /** `MathEngineConfig` of this revision (no rate limiting). */
  datatype MathEngineConfig = MathEngineConfig(
    timeoutSeconds: int,
    cacheSize: int,
    maxExpressionLength: int,
    enableValidation: bool,
    logLevel: string)

  const DefaultConfig := MathEngineConfig(30, 128, 10000, true, "INFO")

  /** The blacklist of `_validate_expression`, in the order it is searched: two more calls than the third revision. */
  const Patterns: seq<Pattern> :=
    [Literal("__import__"), Call("eval"), Call("exec"), Call("compile"), Call("open"),
     Call("file"), Call("input"), Dunder]

  /**
   * The third revision's blacklist is this one without `file\s*\(` and
   * `input\s*\(`, so whatever passes here passes there too.
   */
  lemma StricterThanV3(enabled: bool, maxLen: int, s: string)
    ensures Validation(Patterns, enabled, maxLen, s).Ok? ==> Validation(MathV3.Patterns, enabled, maxLen, s).Ok?
  {
    forall p | p in MathV3.Patterns
      ensures p in Patterns
    {
    }
  }

  /** `Profile (x)`: an expression that names no dangerous call but contains `file (`. */
  const ProfileCall := "Pro" + "file" + " (" + "x)"

  /** `Profile (x)` contains `file (`, so the `file\s*\(` pattern matches it. */
  lemma ProfileMatchesFile()
    ensures Matches(Call("file"), ProfileCall)
  {
    CallWithSpaceCaught("Pro", "file", "x)");
  }

  /** `Profile (x)` contains `file (`, so this blacklist rejects it although it names no dangerous call. */
  lemma ProfileRejected()
    ensures Validation(Patterns, true, DefaultConfig.maxExpressionLength, ProfileCall).Err?
  {
    ProfileMatchesFile();
    assert Patterns[5] == Call("file");
  }

  /**
   * `evaluate_expression`: a missing, empty or non-string expression raises
   * ValueError, then the blacklist runs; only an expression that passes
   * both reaches `eval`, which stands for the cache and the canonical or
   * fallback SymPy evaluation.
   */
  function Evaluate(cfg: MathEngineConfig, expr: Value, eval: string -> Result<string>): (r: Result<string>)
    ensures !IsText(expr) ==> r == Err(ValueError(EmptyExpression))
    ensures r.Ok? ==>
      && IsText(expr)
      && Validation(Patterns, cfg.enableValidation, cfg.maxExpressionLength, expr.s).Ok?
      && r == eval(expr.s)
  {
    if !IsText(expr) then Err(ValueError(EmptyExpression))
    else
      var _ :- Validation(Patterns, cfg.enableValidation, cfg.maxExpressionLength, expr.s);
      eval(expr.s)
  }

  /** A rejected expression never reaches the evaluator: the outcome is the same whatever `eval` would do. */
  lemma RejectedBeforeEvaluation(cfg: MathEngineConfig, expr: Value, eval1: string -> Result<string>, eval2: string -> Result<string>)
    requires !IsText(expr) || Validation(Patterns, cfg.enableValidation, cfg.maxExpressionLength, expr.s).Err?
    ensures Evaluate(cfg, expr, eval1) == Evaluate(cfg, expr, eval2)
    ensures Evaluate(cfg, expr, eval1).Err?
  {
  }

  /** `solve_equation`: the equation, then the symbol, are checked; then the equation alone is validated. */
  function Solve(cfg: MathEngineConfig, equation: Value, symbol: Value,
                 solve: (string, string) -> Result<seq<string>>): (r: Result<seq<string>>)
    ensures !IsText(equation) ==> r == Err(ValueError(EmptyEquation))
    ensures IsText(equation) && !IsText(symbol) ==> r == Err(ValueError(EmptySymbol))
    ensures r.Ok? ==>
      && IsText(equation) && IsText(symbol)
      && Validation(Patterns, cfg.enableValidation, cfg.maxExpressionLength, equation.s).Ok?
      && r == solve(equation.s, symbol.s)
  {
    if !IsText(equation) then Err(ValueError(EmptyEquation))
    else if !IsText(symbol) then Err(ValueError(EmptySymbol))
    else
      var _ :- Validation(Patterns, cfg.enableValidation, cfg.maxExpressionLength, equation.s);
      solve(equation.s, symbol.s)
  }

  /** The symbol is never run through the blacklist: a `__dunder__` symbol reaches the solver. */
  lemma SymbolNotValidated(cfg: MathEngineConfig, equation: string, symbol: string,
                           solve: (string, string) -> Result<seq<string>>)
    requires equation != [] && symbol != []
    requires Validation(Patterns, cfg.enableValidation, cfg.maxExpressionLength, equation).Ok?
    ensures Solve(cfg, Str(equation), Str(symbol), solve) == solve(equation, symbol)
  {
  }
}
