/**
 * Resonance detection: a signal is a resonance exactly when it is one of
 * a fixed set of strings, compared exactly (no trimming, no case folding).
 */
module Resonance {
  import opened Py

  /** `RESONANCE_SIGNALS`. */
  const ResonanceSignals: set<string> := {"0+", "♡0+"}

  /** `detect_resonance`. */
  function DetectResonance(signal: string): (b: bool)
    ensures b <==> signal == "0+" || signal == "♡0+"
  {
    signal in ResonanceSignals
  }

  /** Near misses are not resonances: the comparison neither trims nor changes sign. */
  lemma NearMissesRejected()
    ensures !DetectResonance("0-") && !DetectResonance(" 0+") && !DetectResonance("0+ ")
    ensures !DetectResonance("♡0-") && !DetectResonance("")
  {
    assert "0-" != "0+" && "0-" != "♡0+";
    assert " 0+" != "0+" && " 0+" != "♡0+";
    assert "0+ " != "0+" && "0+ " != "♡0+";
    assert "♡0-" != "♡0+" && "♡0-" != "0+";
  }

  /** The head of the message for a signal that is not a string. */
  const SignalTypePrefix := "Expected str for signal, got "

  /** `detect_resonance_with_validation`: a non-string raises TypeError; a string gets the plain answer. */
  function DetectResonanceWithValidation(signal: Value): (r: Result<bool>)
    ensures !signal.Str? ==> r == Err(TypeError(SignalTypePrefix + TypeName(signal)))
    ensures signal.Str? ==> r == Ok(DetectResonance(signal.s))
  {
    if !signal.Str? then Err(TypeError(SignalTypePrefix + TypeName(signal)))
    else Ok(signal.s in ResonanceSignals)
  }

  /** `ResonanceDetector`: an immutable set of signals. */
  datatype ResonanceDetector = ResonanceDetector(signals: set<string>)

  /** The constructor: None gives the two default signals, a list gives the set of its elements. */
  function NewDetector(signals: Option<seq<string>>): (d: ResonanceDetector)
    ensures signals.None? ==> d.signals == ResonanceSignals
    ensures signals.Some? ==> forall s :: s in d.signals <==> s in signals.value
  {
    if signals.None? then ResonanceDetector({"0+", "♡0+"})
    else ResonanceDetector(set s | s in signals.value)
  }

  /** `detect`. */
  function Detect(d: ResonanceDetector, signal: string): (b: bool)
    ensures b <==> signal in d.signals
  {
    signal in d.signals
  }

  /**
   * `add_signal`: a new detector built from the old signals plus one more
   * (the list round trip through `frozenset` gives back the same set); the
   * receiver, a value, is untouched.
   */
  function AddSignal(d: ResonanceDetector, signal: string): (e: ResonanceDetector)
    ensures e.signals == d.signals + {signal}
    ensures Detect(e, signal)
    ensures forall s :: Detect(d, s) ==> Detect(e, s)
    ensures forall s :: s != signal ==> (Detect(e, s) <==> Detect(d, s))
  {
    ResonanceDetector(d.signals + {signal})
  }

  /** The default detector answers exactly as `detect_resonance`. */
  lemma DefaultAgrees(signal: string)
    ensures Detect(NewDetector(None), signal) == DetectResonance(signal)
  {
  }

  /** A detector built from its own list recognises only those signals, not the defaults. */
  lemma CustomIgnoresDefaults()
    ensures Detect(NewDetector(Some(["custom+", "special+"])), "custom+")
    ensures !Detect(NewDetector(Some(["custom+", "special+"])), "0+")
  {
    var d := NewDetector(Some(["custom+", "special+"]));
    assert "custom+" in ["custom+", "special+"];
    assert "0+" != "custom+" && "0+" != "special+";
    assert "0+" !in ["custom+", "special+"];
  }
}
