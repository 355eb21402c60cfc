/**
 * The third revision of the math-engine wrapper: a sliding-window rate
 * limiter, a six-pattern blacklist, and the order in which
 * `evaluate_expression` and `solve_equation` check their inputs, consume a
 * rate slot and validate before handing the expression to SymPy.
 */
module MathV3 {
  import opened Text
  import opened Py
  import opened Guard

  datatype Simplification = NoSimplification | Basic | Full | Aggressive

  /** `MathEngineConfig`. */
  datatype MathEngineConfig = MathEngineConfig(
    timeoutSeconds: int,
    cacheSize: int,
    maxExpressionLength: int,
    enableValidation: bool,
    enableRateLimiting: bool,
    rateLimitMaxCalls: int,
    rateLimitTimeWindow: int,
    logLevel: string,
    defaultSimplification: Simplification)

  const DefaultConfig := MathEngineConfig(30, 128, 10000, true, true, 100, 60, "INFO", Full)

  /** The blacklist of `_validate_expression`, in the order it is searched. */
  const Patterns: seq<Pattern> :=
    [Literal("__import__"), Call("eval"), Call("exec"), Call("compile"), Call("open"), Dunder]

  /** The limiter's queue after the eviction loop: timestamps are dropped from the front while they are older than `cutoff`. */
  function Evicted(calls: seq<real>, cutoff: real): (r: seq<real>)
    ensures |r| <= |calls|
    ensures r != [] ==> r[0] >= cutoff
    ensures calls != [] && calls[0] >= cutoff ==> r == calls
  {
    if calls != [] && calls[0] < cutoff then Evicted(calls[1..], cutoff) else calls
  }

  /** Eviction removes a prefix, and only timestamps older than the cutoff. */
  lemma {:induction false} EvictedSuffix(calls: seq<real>, cutoff: real)
    ensures var r := Evicted(calls, cutoff);
      && r == calls[|calls| - |r|..]
      && forall i :: 0 <= i < |calls| - |r| ==> calls[i] < cutoff
  {
    if calls != [] && calls[0] < cutoff {
      EvictedSuffix(calls[1..], cutoff);
      var r := Evicted(calls, cutoff);
      assert calls[1..][|calls| - 1 - |r|..] == calls[|calls| - |r|..];
    }
  }

  predicate Sorted(xs: seq<real>)
  {
    forall i, j :: 0 <= i < j < |xs| ==> xs[i] <= xs[j]
  }

  /**
   * With a clock that never goes back (the queue sorted, nothing later than
   * `now`), every timestamp kept after eviction lies in the window
   * `[now - window, now]`, and appending `now` keeps the queue sorted.
   */
  lemma EvictedWithinWindow(calls: seq<real>, now: real, window: real)
    requires Sorted(calls) && forall i :: 0 <= i < |calls| ==> calls[i] <= now
    ensures var r := Evicted(calls, now - window);
      forall i :: 0 <= i < |r| ==> now - window <= r[i] <= now
    ensures Sorted(Evicted(calls, now - window) + [now])
  {
    var cutoff := now - window;
    var r := Evicted(calls, cutoff);
    EvictedSuffix(calls, cutoff);
    var d := |calls| - |r|;
    assert r == calls[d..];
    forall i | 0 <= i < |r|
      ensures cutoff <= r[i] <= now
    {
      assert r[i] == calls[d + i];
      if i > 0 {
        assert r[0] == calls[d] <= calls[d + i];
      }
    }
    EvictedSnocSorted(calls, r, d, now);
  }

  /** A suffix of a sorted queue, followed by a time no earlier than any of it, is sorted. */
  lemma EvictedSnocSorted(calls: seq<real>, r: seq<real>, d: nat, now: real)
    requires Sorted(calls) && forall i :: 0 <= i < |calls| ==> calls[i] <= now
    requires d <= |calls| && r == calls[d..]
    ensures Sorted(r + [now])
  {
    var s := r + [now];
    forall i, j | 0 <= i < j < |s|
      ensures s[i] <= s[j]
    {
      assert s[i] == r[i] == calls[d + i];
      if j < |r| {
        assert s[j] == r[j] == calls[d + j];
      }
    }
  }

  /** The largest queue length a limiter allowing `maxCalls` calls can reach. */
  function Cap(maxCalls: int): (n: nat)
    ensures maxCalls >= 0 ==> n == maxCalls
    ensures maxCalls < 0 ==> n == 0
  {
    if maxCalls < 0 then 0 else maxCalls
  }

  /** `RateLimiter`: the timestamps of recent allowed calls, oldest first. */
  class RateLimiter {
    var maxCalls: int
    var timeWindow: int
    var calls: seq<real>

    /** The queue never holds more than `maxCalls` timestamps. */
    predicate Valid()
      reads this
    {
      |calls| <= Cap(maxCalls)
    }

    constructor (maxCalls: int, timeWindow: int)
      ensures this.maxCalls == maxCalls && this.timeWindow == timeWindow
      ensures calls == [] && Valid()
    {
      this.maxCalls := maxCalls;
      this.timeWindow := timeWindow;
      calls := [];
    }

    /**
     * `allow`, with the clock reading `now` as a parameter: evict every
     * timestamp older than `now - time_window` (one exactly at the boundary
     * stays), then admit the call iff fewer than `max_calls` remain.
     */
    method Allow(now: real) returns (allowed: bool)
      requires Valid()
      modifies this
      ensures Valid()
      ensures maxCalls == old(maxCalls) && timeWindow == old(timeWindow)
      ensures allowed <==> |Evicted(old(calls), now - old(timeWindow) as real)| < maxCalls
      ensures calls == Evicted(old(calls), now - old(timeWindow) as real) + (if allowed then [now] else [])
    {
      var cutoff := now - timeWindow as real;
      while calls != [] && calls[0] < cutoff
        invariant Evicted(calls, cutoff) == Evicted(old(calls), cutoff)
        invariant |calls| <= |old(calls)|
        invariant maxCalls == old(maxCalls) && timeWindow == old(timeWindow)
        decreases |calls|
      {
        calls := calls[1..];
      }
      if |calls| < maxCalls {
        calls := calls + [now];
        return true;
      }
      return false;
    }

    /** `reset`: forget every recorded call. */
    method Reset()
      modifies this
      ensures calls == [] && Valid()
      ensures maxCalls == old(maxCalls) && timeWindow == old(timeWindow)
    {
      calls := [];
    }
  }

  /** The level names `getattr(logging, name)` resolves to a level. */
  predicate KnownLevel(name: string)
  {
    name in {"CRITICAL", "FATAL", "ERROR", "WARNING", "WARN", "INFO", "DEBUG", "NOTSET"}
  }

  /** What `getattr(logging, name)` gives: a level number, one of the two other upper-case attributes of the module, or nothing. */
  datatype LoggingAttr = LevelNumber(n: int) | FormatText(s: string) | StyleTable | NoAttr

  /** `logging.BASIC_FORMAT` */
  const BasicFormat := "%(levelname)s:%(name)s:%(message)s"

  /** The upper-case attributes of the `logging` module. */
  function LoggingAttribute(name: string): LoggingAttr
  {
    if name == "CRITICAL" || name == "FATAL" then LevelNumber(50)
    else if name == "ERROR" then LevelNumber(40)
    else if name == "WARNING" || name == "WARN" then LevelNumber(30)
    else if name == "INFO" then LevelNumber(20)
    else if name == "DEBUG" then LevelNumber(10)
    else if name == "NOTSET" then LevelNumber(0)
    else if name == "BASIC_FORMAT" then FormatText(BasicFormat)
    else if name == "_STYLES" then StyleTable
    else NoAttr
  }

  function UnknownLevel(level: string): Exc
  {
    AttributeError("module 'logging' has no attribute '" + Upper(level) + "'")
  }

  /**
   * `logger.setLevel(getattr(logging, level.upper()))`: a missing attribute
   * raises AttributeError; `setLevel` takes a level number, refuses the
   * format string with ValueError (it names no level) and the style table with
   * TypeError, whose message is given without its ": <repr of the table>" tail.
   */
  function SetLevel(level: string): (r: Result<int>)
    ensures r.Ok? <==> KnownLevel(Upper(level))
    ensures r.Ok? ==> r.value in {0, 10, 20, 30, 40, 50}
    ensures Upper(level) == "BASIC_FORMAT" ==> r == Err(ValueError("Unknown level: '" + BasicFormat + "'"))
    ensures Upper(level) == "_STYLES" ==> r.Err? && r.exc.TypeError?
    ensures r == Err(UnknownLevel(level)) <==>
      !KnownLevel(Upper(level)) && Upper(level) != "BASIC_FORMAT" && Upper(level) != "_STYLES"
  {
    match LoggingAttribute(Upper(level))
    case LevelNumber(n) => Ok(n)
    case FormatText(s) => Err(ValueError("Unknown level: '" + s + "'"))
    case StyleTable => Err(TypeError("Level not an integer or a valid string"))
    case NoAttr => Err(UnknownLevel(level))
  }

  function RateLimitError(): Exc
  {
    OtherError("RateLimitError", "Rate limit exceeded. Try again later.")
  }

  /**
   * What `evaluate_expression` returns once the limiter's answer is known
   * (`refused` is true when rate limiting is on and `allow` said no).
   * `eval` stands for the cached, canonical or fallback SymPy evaluation.
   */
  function Evaluation(cfg: MathEngineConfig, refused: bool, expr: Value, eval: string -> Result<string>): (r: Result<string>)
    ensures !IsText(expr) ==> r == Err(ValueError(EmptyExpression))
    ensures IsText(expr) && refused ==> r == Err(RateLimitError())
    ensures r.Ok? ==>
      && IsText(expr) && !refused
      && Validation(Patterns, cfg.enableValidation, cfg.maxExpressionLength, expr.s).Ok?
      && r == eval(expr.s)
    ensures IsText(expr) && !refused && Validation(Patterns, cfg.enableValidation, cfg.maxExpressionLength, expr.s).Err? ==>
      r == Err(Validation(Patterns, cfg.enableValidation, cfg.maxExpressionLength, expr.s).exc)
  {
    if !IsText(expr) then Err(ValueError(EmptyExpression))
    else if refused then Err(RateLimitError())
    else
      var _ :- Validation(Patterns, cfg.enableValidation, cfg.maxExpressionLength, expr.s);
      eval(expr.s)
  }

  /** What `solve_equation` returns once the limiter's answer is known; only the equation is validated, never the symbol. */
  function Solution(cfg: MathEngineConfig, refused: bool, equation: Value, symbol: Value,
                    solve: (string, string) -> Result<seq<string>>): (r: Result<seq<string>>)
    ensures !IsText(equation) ==> r == Err(ValueError(EmptyEquation))
    ensures IsText(equation) && !IsText(symbol) ==> r == Err(ValueError(EmptySymbol))
    ensures IsText(equation) && IsText(symbol) && refused ==> r == Err(RateLimitError())
    ensures r.Ok? ==>
      && IsText(equation) && IsText(symbol) && !refused
      && Validation(Patterns, cfg.enableValidation, cfg.maxExpressionLength, equation.s).Ok?
      && r == solve(equation.s, symbol.s)
  {
    if !IsText(equation) then Err(ValueError(EmptyEquation))
    else if !IsText(symbol) then Err(ValueError(EmptySymbol))
    else if refused then Err(RateLimitError())
    else
      var _ :- Validation(Patterns, cfg.enableValidation, cfg.maxExpressionLength, equation.s);
      solve(equation.s, symbol.s)
  }

  /** `allow` says no: after eviction the queue already holds `max_calls` timestamps or more. */
  predicate Refuses(calls: seq<real>, maxCalls: int, timeWindow: int, now: real)
  {
    |Evicted(calls, now - timeWindow as real)| >= maxCalls
  }

  /** The limiter's queue after one call that reached the rate check. */
  function Consumed(calls: seq<real>, maxCalls: int, timeWindow: int, now: real): (r: seq<real>)
    ensures |r| <= |calls| + 1
    ensures Refuses(calls, maxCalls, timeWindow, now) ==> r == Evicted(calls, now - timeWindow as real)
    ensures !Refuses(calls, maxCalls, timeWindow, now) ==> r == Evicted(calls, now - timeWindow as real) + [now]
  {
    var kept := Evicted(calls, now - timeWindow as real);
    if |kept| < maxCalls then kept + [now] else kept
  }

  /** The module's globals `_config` and `_rate_limiter`. */
  class MathEngine {
    var config: MathEngineConfig
    var limiter: RateLimiter

    predicate Valid()
      reads this, limiter
    {
      limiter.Valid()
    }

    /** The state at import time: the default configuration and a limiter built from it. */
    constructor ()
      ensures config == DefaultConfig && Valid() && fresh(limiter)
      ensures limiter.maxCalls == 100 && limiter.timeWindow == 60 && limiter.calls == []
    {
      config := DefaultConfig;
      limiter := new RateLimiter(100, 60);
    }

    /**
     * `configure`: the new configuration is installed first; then the log
     * level is set (a name that is not a level raises as `SetLevel` says,
     * leaving the old limiter in place); then a fresh, empty limiter is built
     * from the new settings. Clearing the caches is not modelled.
     */
    method Configure(c: MathEngineConfig) returns (r: Result<()>)
      requires Valid()
      modifies this
      ensures config == c && Valid()
      ensures r.Ok? <==> KnownLevel(Upper(c.logLevel))
      ensures r.Ok? ==>
        && fresh(limiter) && limiter.calls == []
        && limiter.maxCalls == c.rateLimitMaxCalls && limiter.timeWindow == c.rateLimitTimeWindow
      ensures r.Err? ==> r == Err(SetLevel(c.logLevel).exc) && limiter == old(limiter)
    {
      config := c;
      var level := SetLevel(c.logLevel);
      if level.Err? {
        return Err(level.exc);
      }
      limiter := new RateLimiter(c.rateLimitMaxCalls, c.rateLimitTimeWindow);
      return Ok(());
    }

    /**
     * `configure` with the log level checked before anything is assigned:
     * an unknown level leaves configuration and limiter both as they were.
     */
    method ConfigureCorrected(c: MathEngineConfig) returns (r: Result<()>)
      requires Valid()
      modifies this
      ensures Valid()
      ensures r.Ok? <==> KnownLevel(Upper(c.logLevel))
      ensures r.Ok? ==>
        && config == c && fresh(limiter) && limiter.calls == []
        && limiter.maxCalls == c.rateLimitMaxCalls && limiter.timeWindow == c.rateLimitTimeWindow
      ensures r.Err? ==> r == Err(SetLevel(c.logLevel).exc) && config == old(config) && limiter == old(limiter)
    {
      var level := SetLevel(c.logLevel);
      if level.Err? {
        return Err(level.exc);
      }
      config := c;
      limiter := new RateLimiter(c.rateLimitMaxCalls, c.rateLimitTimeWindow);
      return Ok(());
    }

    /**
     * `evaluate_expression`: a missing, empty or non-string expression is
     * refused before the limiter is touched; otherwise, with rate limiting
     * on, a slot is taken (or refused) before the blacklist runs, so an
     * expression the blacklist rejects still uses up a slot.
     */
    method EvaluateExpression(expr: Value, now: real, eval: string -> Result<string>) returns (r: Result<string>)
      requires Valid()
      modifies limiter
      ensures Valid() && limiter == old(limiter)
      ensures limiter.maxCalls == old(limiter.maxCalls) && limiter.timeWindow == old(limiter.timeWindow)
      ensures limiter.calls ==
        if IsText(expr) && config.enableRateLimiting
        then Consumed(old(limiter.calls), limiter.maxCalls, limiter.timeWindow, now)
        else old(limiter.calls)
      ensures r == Evaluation(config, config.enableRateLimiting && Refuses(old(limiter.calls), limiter.maxCalls, limiter.timeWindow, now), expr, eval)
    {
      if !IsText(expr) {
        return Err(ValueError(EmptyExpression));
      }
      if config.enableRateLimiting {
        var allowed := limiter.Allow(now);
        if !allowed {
          return Err(RateLimitError());
        }
      }
      var v := Validate(Patterns, config.enableValidation, config.maxExpressionLength, expr.s);
      if v.Err? {
        return Err(v.exc);
      }
      r := eval(expr.s);
    }

    /**
     * `solve_equation`: the equation, then the symbol, are checked before
     * the limiter; then the rate slot; then the blacklist, on the equation
     * only.
     */
    method SolveEquation(equation: Value, symbol: Value, now: real,
                         solve: (string, string) -> Result<seq<string>>) returns (r: Result<seq<string>>)
      requires Valid()
      modifies limiter
      ensures Valid() && limiter == old(limiter)
      ensures limiter.maxCalls == old(limiter.maxCalls) && limiter.timeWindow == old(limiter.timeWindow)
      ensures limiter.calls ==
        if IsText(equation) && IsText(symbol) && config.enableRateLimiting
        then Consumed(old(limiter.calls), limiter.maxCalls, limiter.timeWindow, now)
        else old(limiter.calls)
      ensures r == Solution(config, config.enableRateLimiting && Refuses(old(limiter.calls), limiter.maxCalls, limiter.timeWindow, now),
                            equation, symbol, solve)
    {
      if !IsText(equation) {
        return Err(ValueError(EmptyEquation));
      }
      if !IsText(symbol) {
        return Err(ValueError(EmptySymbol));
      }
      if config.enableRateLimiting {
        var allowed := limiter.Allow(now);
        if !allowed {
          return Err(RateLimitError());
        }
      }
      var v := Validate(Patterns, config.enableValidation, config.maxExpressionLength, equation.s);
      if v.Err? {
        return Err(v.exc);
      }
      r := solve(equation.s, symbol.s);
    }
  }

  /** A limiter that allows nothing refuses every call, whatever its queue. */
  lemma ZeroLimitRefuses(calls: seq<real>, timeWindow: int, now: real)
    ensures Consumed(calls, 0, timeWindow, now) == Evicted(calls, now - timeWindow as real)
  {
  }

  /**
   * Once a call is admitted the queue holds at most `max_calls` entries,
   * and a full window (every kept timestamp still inside it) refuses the
   * next call.
   */
  lemma {:induction false} FullWindowRefuses(calls: seq<real>, maxCalls: int, timeWindow: int, now: real)
    requires |calls| == maxCalls && (calls != [] ==> calls[0] >= now - timeWindow as real)
    ensures Consumed(calls, maxCalls, timeWindow, now) == calls
  {
    if calls != [] {
      assert Evicted(calls, now - timeWindow as real) == calls;
    }
  }

  /** A dangerous expression, refused by the blacklist, has still taken a rate slot when the limiter admitted it. */
  lemma DangerousStillConsumes(cfg: MathEngineConfig, calls: seq<real>, maxCalls: int, timeWindow: int,
                               now: real, w: string, eval: string -> Result<string>)
    requires cfg.enableValidation && cfg.enableRateLimiting
    requires w != [] && forall m :: 0 <= m < |w| ==> IsWordChar(w[m])
    requires |Evicted(calls, now - timeWindow as real)| < maxCalls
    ensures |Consumed(calls, maxCalls, timeWindow, now)| == |Evicted(calls, now - timeWindow as real)| + 1
    ensures Evaluation(cfg, false, Str("__" + w + "__"), eval).Err?
  {
    var s := "__" + w + "__";
    assert OccursAt(s, "__" + w + "__", 0);
    DunderCaught(s, 0, w);
    assert Dunder in Patterns;
  }
}
