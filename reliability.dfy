/**
 * The bridge's reliability tracker: a bounded window of recent run
 * outcomes, its rolling success rate, and the "latest run passed" check.
 */
module Reliability {
  import opened Py

  /** `ReliabilityConfig`. */
  datatype ReliabilityConfig = ReliabilityConfig(window: int, logPath: string)

  const DefaultConfig := ReliabilityConfig(200, "reports/reliability_log.jsonl")

  /** The number of successes among the outcomes. */
  function Successes(hits: seq<bool>): (n: nat)
    ensures n <= |hits|
    ensures n == 0 <==> forall i :: 0 <= i < |hits| ==> !hits[i]
    ensures n == |hits| <==> forall i :: 0 <= i < |hits| ==> hits[i]
  {
    if hits == [] then 0 else Successes(hits[..|hits| - 1]) + (if hits[|hits| - 1] then 1 else 0)
  }

  /** `rolling()`: 0.0 with no outcomes, otherwise the fraction of successes. */
  function Rolling(hits: seq<bool>): (r: real)
    ensures 0.0 <= r <= 1.0
    ensures hits == [] ==> r == 0.0
    ensures r == 0.0 <==> forall i :: 0 <= i < |hits| ==> !hits[i]
    ensures r == 1.0 <==> hits != [] && forall i :: 0 <= i < |hits| ==> hits[i]
  {
    if hits == [] then 0.0
    else
      FractionBounds(Successes(hits), |hits|);
      Fraction(Successes(hits), |hits|)
  }

  /** True, true, false gives two thirds. */
  lemma RollingTwoThirds()
    ensures Rolling([true, true, false]) == 2.0 / 3.0
  {
    assert [true, true, false][..2] == [true, true];
    assert [true, true][..1] == [true];
    assert [true][..0] == [];
  }

  /** `deque.append` with `maxlen`: the outcome goes on the end and only the last `window` outcomes are kept. */
  function Retained(hits: seq<bool>, window: nat): (r: seq<bool>)
    ensures |r| == if |hits| <= window then |hits| else window
    ensures r == hits[|hits| - |r|..]
  {
    if |hits| <= window then hits else hits[|hits| - window..]
  }

  /**
   * While the window is not yet full, a success never lowers the rolling
   * rate and a failure never raises it.
   */
  lemma {:induction false} RecordMovesRate(hits: seq<bool>, success: bool, window: nat)
    requires |hits| < window
    ensures success ==> Rolling(Retained(hits + [success], window)) >= Rolling(hits)
    ensures !success ==> Rolling(Retained(hits + [success], window)) <= Rolling(hits)
  {
    var next := hits + [success];
    assert Retained(next, window) == next;
    if hits != [] {
      var k, n := Successes(hits), |hits|;
      SuccessesSnoc(hits, success);
      RollingOf(hits);
      RollingOf(next);
      if success {
        RateUp(k, n);
      } else {
        RateDown(k, n);
      }
    }
  }

  /** One more outcome adds one success exactly when it is a success. */
  lemma SuccessesSnoc(hits: seq<bool>, success: bool)
    ensures Successes(hits + [success]) == Successes(hits) + if success then 1 else 0
  {
    assert (hits + [success])[..|hits|] == hits;
  }

  /** A non-empty window's rate is its fraction of successes. */
  lemma RollingOf(hits: seq<bool>)
    requires hits != []
    ensures Rolling(hits) == Fraction(Successes(hits), |hits|)
  {
  }

  /** One more success out of one more run: k/n <= (k+1)/(n+1). */
  lemma RateUp(k: nat, n: nat)
    requires 0 < n && k <= n
    ensures Fraction(k, n) <= Fraction(k + 1, n + 1)
  {
    var s, m := k as real, n as real;
    assert s * (m + 1.0) <= (s + 1.0) * m;
    DivMonotone(s, m, s + 1.0, m + 1.0);
  }

  /** One more failure: k/(n+1) <= k/n. */
  lemma RateDown(k: nat, n: nat)
    requires 0 < n && k <= n
    ensures Fraction(k, n + 1) <= Fraction(k, n)
  {
    var s, m := k as real, n as real;
    assert s * m <= s * (m + 1.0);
    DivMonotone(s, m + 1.0, s, m);
  }

  /** a/b <= c/d for positive b and d when a·d <= c·b. */
  lemma DivMonotone(a: real, b: real, c: real, d: real)
    requires b > 0.0 && d > 0.0 && a * d <= c * b
    ensures a / b <= c / d
  {
    var x := a / b;
    var y := c / d;
    assert a == x * b && c == y * d;
    assert x * (b * d) <= y * (b * d);
  }

  /** `ReliabilityTracker`: the retained outcomes, oldest first. */
  class ReliabilityTracker {
    var window: nat
    var logPath: string
    var hits: seq<bool>

    predicate Valid()
      reads this
    {
      |hits| <= window
    }

    constructor (window: nat, logPath: string)
      ensures this.window == window && this.logPath == logPath
      ensures hits == [] && Valid()
    {
      this.window := window;
      this.logPath := logPath;
      hits := [];
    }

    /**
     * `record`: append `bool(success)`, dropping the oldest outcome once
     * `window` are held, and return the rolling rate afterwards. The JSONL
     * log line is not modelled.
     */
    method Record(success: Value) returns (rate: real)
      requires Valid()
      modifies this
      ensures Valid() && window == old(window) && logPath == old(logPath)
      ensures hits == Retained(old(hits) + [Truthy(success)], window)
      ensures rate == Rolling(hits)
    {
      hits := hits + [Truthy(success)];
      if |hits| > window {
        hits := hits[1..];
      }
      rate := Rolling(hits);
    }

    /** `passed()`: the latest retained outcome (an empty tracker gives the falsy empty deque). */
    function Passed(): (p: bool)
      reads this
      ensures p <==> hits != [] && hits[|hits| - 1]
    {
      hits != [] && hits[|hits| - 1]
    }
  }

  /**
   * The constructor: `config or ReliabilityConfig()` (a config object is
   * always truthy, so only None is replaced), then `deque(maxlen=window)`,
   * which raises ValueError for a negative window. The directory creation
   * is not modelled.
   */
  method NewTracker(config: Option<ReliabilityConfig>) returns (r: Result<ReliabilityTracker>)
    ensures var cfg := if config.Some? then config.value else DefaultConfig;
      && (r.Ok? <==> cfg.window >= 0)
      && (r.Err? ==> r == Err(ValueError("maxlen must be non-negative")))
      && (r.Ok? ==> fresh(r.value) && r.value.Valid() && r.value.hits == []
                    && r.value.window == cfg.window && r.value.logPath == cfg.logPath)
  {
    var cfg := if config.Some? then config.value else DefaultConfig;
    if cfg.window < 0 {
      return Err(ValueError("maxlen must be non-negative"));
    }
    var t := new ReliabilityTracker(cfg.window, cfg.logPath);
    return Ok(t);
  }

  /** One log record as written: the JSON text followed by a backslash and an `n`, not a line break. */
  function LogLineAsWritten(json: string): string
  {
    json + "\\n"
  }

  /** One log record as a JSON-lines file needs it: the JSON text and a line break. */
  function LogLine(json: string): string
  {
    json + "\n"
  }

  /** As written, appending records never adds a line break, so the whole log stays one line. */
  lemma AsWrittenLogHasNoLineBreak(log: string, json: string)
    requires '\n' !in log && '\n' !in json
    ensures '\n' !in log + LogLineAsWritten(json)
  {
  }

  /** With a real line break every record ends its own line: one more line break per record. */
  lemma {:induction false} LogLineEndsLine(log: string, json: string)
    requires '\n' !in json
    ensures multiset(log + LogLine(json))['\n'] == multiset(log)['\n'] + 1
    ensures (log + LogLine(json))[|log + LogLine(json)| - 1] == '\n'
  {
    assert log + LogLine(json) == log + json + ['\n'];
    assert multiset(log + json + ['\n']) == multiset(log) + multiset(json) + multiset{'\n'};
  }
}
