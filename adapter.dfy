/**
 * The original ProofLab adapter's reliability score for an Uncertainty
 * Resolution Protocol (URP) result, and the result `urp` returns when no
 * AI bridge is available. Rounding to three places is not modelled: the
 * score is the exact value before rounding.
 */
module Adapter {
  import opened Py

  const Verdicts: set<string> := {"supported", "refuted", "inconclusive"}

  /** `1.0 if v in {...} else 0.0`; testing a list or a dict for set membership raises. */
  function VerdictOk(v: Value): (r: Result<real>)
    ensures r.Ok? <==> !(v.List? || v.Dict?)
    ensures r.Ok? ==> (r.value == 1.0 <==> v.Str? && v.s in Verdicts) && (r.value == 0.0 || r.value == 1.0)
  {
    match v
    case List(_) => Err(TypeError("unhashable type: 'list'"))
    case Dict(_) => Err(TypeError("unhashable type: 'dict'"))
    case Str(s) => Ok(if s in Verdicts then 1.0 else 0.0)
    case _ => Ok(0.0)
  }

  /** `x or default` */
  function Or(x: Value, default: Value): Value
  {
    if Truthy(x) then x else default
  }

  function Min5(n: nat): (m: nat)
    ensures m <= 5 && (n < 5 ==> m == n) && (n >= 5 ==> m == 5)
  {
    if n < 5 then n else 5
  }

  /** `max(0.0, min(x, 1.0))` on reals. */
  function Clamp01(x: real): (c: real)
    ensures 0.0 <= c <= 1.0
    ensures 0.0 <= x <= 1.0 ==> c == x
  {
    if x < 0.0 then 0.0 else if x > 1.0 then 1.0 else x
  }

  /** The weighted mix before the final clamp. */
  function Mix(verdictOk: real, evidence: nat, gaps: nat, conf: real): real
  {
    0.2 * verdictOk + 0.5 * (Min5(evidence) as real) / 5.0 + 0.2 * (1.0 - (Min5(gaps) as real) / 5.0) + 0.1 * conf
  }

  /**
   * `_score_reliability`: the verdict term, capped evidence and gap
   * counts, and the clamped confidence, mixed with weights 0.2, 0.5, 0.2
   * and 0.1 and clamped to [0, 1]. A missing or falsy entry counts as empty
   * or 0. An entry of the wrong kind raises as Python does.
   */
  function ScoreReliability(urp: map<string, Value>): (r: Result<real>)
    ensures r.Ok? ==> 0.0 <= r.value <= 1.0
  {
    var verdictOk :- VerdictOk(Get(urp, "verdict", Null));
    var evidence := Or(Get(urp, "evidence", Null), List([]));
    var gaps := Or(Get(urp, "gaps", Null), List([]));
    var confidence :- ToFloat(Or(Get(urp, "confidence", Null), Float(Finite(0.0))));
    var ne :- Len(evidence);
    var ng :- Len(gaps);
    ClampBounds(confidence, 0.0, 1.0);
    var conf := PyMax(Finite(0.0), PyMin(confidence, Finite(1.0))).r;
    Ok(Clamp01(Mix(verdictOk, ne, ng, conf)))
  }

  /** The mix of in-range terms already lies in [0, 1]: the final clamp never changes it. */
  lemma MixInRange(verdictOk: real, evidence: nat, gaps: nat, conf: real)
    requires verdictOk == 0.0 || verdictOk == 1.0
    requires 0.0 <= conf <= 1.0
    ensures 0.0 <= Mix(verdictOk, evidence, gaps, conf) <= 1.0
  {
  }

  /** A well-formed URP result: a string verdict, lists of evidence and gaps, a numeric confidence. */
  predicate WellTyped(urp: map<string, Value>)
  {
    && "verdict" in urp && urp["verdict"].Str?
    && "evidence" in urp && urp["evidence"].List?
    && "gaps" in urp && urp["gaps"].List?
    && "confidence" in urp && urp["confidence"].Float? && urp["confidence"].x.Finite?
  }

  /** The score of a well-formed result, term by term. */
  lemma {:induction false} WellTypedScore(urp: map<string, Value>)
    requires WellTyped(urp)
    ensures var c := urp["confidence"].x.r;
      ScoreReliability(urp) ==
        Ok(Mix(if urp["verdict"].s in Verdicts then 1.0 else 0.0, |urp["evidence"].items|, |urp["gaps"].items|, Clamp01(c)))
  {
    var c := urp["confidence"].x.r;
    var conf0 := Or(urp["confidence"], Float(Finite(0.0)));
    assert ToFloat(conf0) == Ok(Finite(c));
    assert Or(urp["evidence"], List([])) == List(urp["evidence"].items);
    assert Or(urp["gaps"], List([])) == List(urp["gaps"].items);
    assert PyMax(Finite(0.0), PyMin(Finite(c), Finite(1.0))).r == Clamp01(c);
    MixInRange(if urp["verdict"].s in Verdicts then 1.0 else 0.0, |urp["evidence"].items|, |urp["gaps"].items|, Clamp01(c));
  }

  /** The full score needs a valid verdict, at least five pieces of evidence, no gaps and confidence of at least 1. */
  lemma MaximumScore(urp: map<string, Value>)
    requires WellTyped(urp)
    ensures ScoreReliability(urp) == Ok(1.0) <==>
      && urp["verdict"].s in Verdicts
      && |urp["evidence"].items| >= 5
      && urp["gaps"].items == []
      && urp["confidence"].x.r >= 1.0
  {
    WellTypedScore(urp);
  }

  /** The verdict term is worth exactly 0.2: only the three recognised verdicts earn it. */
  lemma VerdictWorthPointTwo(urp: map<string, Value>, good: string, bad: string)
    requires WellTyped(urp)
    requires good in Verdicts && bad !in Verdicts
    ensures ScoreReliability(urp["verdict" := Str(good)]).value == ScoreReliability(urp["verdict" := Str(bad)]).value + 0.2
  {
    WellTypedScore(urp["verdict" := Str(good)]);
    WellTypedScore(urp["verdict" := Str(bad)]);
  }

  /** Evidence beyond five items, and gaps beyond five, change nothing. */
  lemma CountsCappedAtFive(urp: map<string, Value>, xs: seq<Value>)
    requires WellTyped(urp) && |xs| >= 5
    ensures ScoreReliability(urp["evidence" := List(xs)]) == ScoreReliability(urp["evidence" := List(xs[..5])])
    ensures ScoreReliability(urp["gaps" := List(xs)]) == ScoreReliability(urp["gaps" := List(xs[..5])])
  {
    WellTypedScore(urp["evidence" := List(xs)]);
    WellTypedScore(urp["evidence" := List(xs[..5])]);
    WellTypedScore(urp["gaps" := List(xs)]);
    WellTypedScore(urp["gaps" := List(xs[..5])]);
  }

  /** Confidence is clamped: anything at or above 1 scores as 1, anything at or below 0 as 0. */
  lemma ConfidenceClamped(urp: map<string, Value>, c: real)
    requires WellTyped(urp)
    ensures c >= 1.0 ==> ScoreReliability(urp["confidence" := Float(Finite(c))]) == ScoreReliability(urp["confidence" := Float(Finite(1.0))])
    ensures c <= 0.0 ==> ScoreReliability(urp["confidence" := Float(Finite(c))]) == ScoreReliability(urp["confidence" := Float(Finite(0.0))])
  {
    WellTypedScore(urp["confidence" := Float(Finite(c))]);
    WellTypedScore(urp["confidence" := Float(Finite(1.0))]);
    WellTypedScore(urp["confidence" := Float(Finite(0.0))]);
  }

  /** The score reads the verdict, and the evidence, gaps and confidence after `or` has replaced falsy values. */
  lemma ScoreReads(u1: map<string, Value>, u2: map<string, Value>)
    requires Get(u1, "verdict", Null) == Get(u2, "verdict", Null)
    requires Or(Get(u1, "evidence", Null), List([])) == Or(Get(u2, "evidence", Null), List([]))
    requires Or(Get(u1, "gaps", Null), List([])) == Or(Get(u2, "gaps", Null), List([]))
    requires Or(Get(u1, "confidence", Null), Float(Finite(0.0))) == Or(Get(u2, "confidence", Null), Float(Finite(0.0)))
    ensures ScoreReliability(u1) == ScoreReliability(u2)
  {
  }

  /** A missing entry and a None entry score like an empty list or a zero confidence. */
  lemma MissingIsEmpty(urp: map<string, Value>)
    ensures ScoreReliability(urp - {"evidence"}) == ScoreReliability(urp["evidence" := Null]) == ScoreReliability(urp["evidence" := List([])])
    ensures ScoreReliability(urp - {"gaps"}) == ScoreReliability(urp["gaps" := Null]) == ScoreReliability(urp["gaps" := List([])])
    ensures ScoreReliability(urp - {"confidence"}) == ScoreReliability(urp["confidence" := Null]) == ScoreReliability(urp["confidence" := Float(Finite(0.0))])
  {
    ScoreReads(urp - {"evidence"}, urp["evidence" := Null]);
    ScoreReads(urp["evidence" := List([])], urp["evidence" := Null]);
    ScoreReads(urp - {"gaps"}, urp["gaps" := Null]);
    ScoreReads(urp["gaps" := List([])], urp["gaps" := Null]);
    ScoreReads(urp - {"confidence"}, urp["confidence" := Null]);
    ScoreReads(urp["confidence" := Float(Finite(0.0))], urp["confidence" := Null]);
  }

  /** The result `urp` returns when the AI bridge is missing (without its score). */
  function FallbackResult(assumptions: seq<string>): (r: map<string, Value>)
    ensures WellTyped(r)
  {
    map[
      "verdict" := Str("inconclusive"),
      "evidence" := List([]),
      "gaps" := List([Str("AI bridge unavailable")]),
      "next_tests" := List([Str("Enable fb_api_client and re-run URP.")]),
      "assumptions_used" := List(seq(|assumptions|, i requires 0 <= i < |assumptions| => Str(assumptions[i]))),
      "risk_level" := Str("medium"),
      "confidence" := Float(Finite(0.0))]
  }

  /** The fallback scores 0.2 for its verdict plus 0.16 for one gap out of five: 0.36. */
  lemma FallbackScore(assumptions: seq<string>)
    ensures ScoreReliability(FallbackResult(assumptions)) == Ok(0.36)
  {
    var r := FallbackResult(assumptions);
    WellTypedScore(r);
    assert r["verdict"].s in Verdicts;
    assert |r["evidence"].items| == 0 && |r["gaps"].items| == 1;
  }

  /** `urp` without a bridge: the fallback result with its reliability score added. */
  function UrpFallback(assumptions: seq<string>): (r: map<string, Value>)
    ensures r.Keys == FallbackResult(assumptions).Keys + {"reliability_score"}
    ensures r["reliability_score"] == Float(Finite(0.36))
    ensures r["assumptions_used"] == List(seq(|assumptions|, i requires 0 <= i < |assumptions| => Str(assumptions[i])))
  {
    FallbackScore(assumptions);
    var base := FallbackResult(assumptions);
    base["reliability_score" := Float(Finite(ScoreReliability(base).value))]
  }
}
