/**
 * The seed-driven engine core: exactly the seed "0+" produces the triad
 * output. The original is a function that prints progress lines; the
 * improved version returns a result record, and its legacy wrapper prints
 * the same lines and returns the same output.
 */
module EngineCore {
  import opened Py

  const Triad := "spiral-encoded triad [∆⊛♡]"
  const InvalidSeedMessage := "No output. Seed invalid or silent."
  const LoadingLine := "Loading silent substrate..."
  const SeedLines := ["Seeding polarity alignment... [✓]", "Generating first vector field... [✓]",
                      "Detecting harmonic resonance... [✓]"]

  /**
   * The original `run_engine`: the loading line is printed whatever the
   * seed; then exactly the seed "0+" prints three more lines and returns
   * the triad. The printed lines are returned alongside the result.
   */
  function RunEngine(seed: string): (r: (seq<string>, string))
    ensures |r.0| >= 1 && r.0[0] == LoadingLine
    ensures seed == "0+" ==> r == ([LoadingLine] + SeedLines, Triad)
    ensures seed != "0+" ==> r == ([LoadingLine], InvalidSeedMessage)
  {
    if seed == "0+" then ([LoadingLine] + SeedLines, Triad) else ([LoadingLine], InvalidSeedMessage)
  }

  /** `SeedType`. */
  datatype SeedType = ZeroPositive

  function SeedValue(t: SeedType): string
  {
    match t
    case ZeroPositive => "0+"
  }

  /** `_validate_seed`: the enum member whose value is the seed, if any. */
  function ValidateSeed(seed: string): (t: Option<SeedType>)
    ensures t.Some? <==> seed == "0+"
    ensures t.Some? ==> SeedValue(t.value) == seed
  {
    if seed == "0+" then Some(ZeroPositive) else None
  }

  /** `EngineResult`; metadata values are all strings here. */
  datatype EngineResult = EngineResult(success: bool, output: string, metadata: Option<map<string, string>>)

  /** `_process_seed` with the `OUTPUTS` table. */
  function ProcessSeed(t: SeedType): (out: string)
    ensures out == Triad
  {
    match t
    case ZeroPositive => Triad
  }

  /**
   * `MathEngineCore.run_engine`: an invalid seed fails with the invalid
   * message and an error in the metadata; a valid one succeeds with the
   * triad and the seed's type.
   */
  function CoreRunEngine(seed: string): (r: EngineResult)
    ensures r.success <==> seed == "0+"
    ensures !r.success ==>
      r == EngineResult(false, InvalidSeedMessage, Some(map["seed" := seed, "error" := "Invalid seed type"]))
    ensures r.success ==>
      r == EngineResult(true, Triad, Some(map["seed" := seed, "seed_type" := "0+"]))
  {
    match ValidateSeed(seed)
    case None => EngineResult(false, InvalidSeedMessage, Some(map["seed" := seed, "error" := "Invalid seed type"]))
    case Some(t) => EngineResult(true, ProcessSeed(t), Some(map["seed" := seed, "seed_type" := SeedValue(t)]))
  }

  /** The legacy wrapper of the improved module: the same printed lines and the result's output. */
  function LegacyRunEngine(seed: string): (r: (seq<string>, string))
    ensures r.1 == CoreRunEngine(seed).output
  {
    var result := CoreRunEngine(seed);
    var lines := if result.success && seed == "0+" then [LoadingLine] + SeedLines else [LoadingLine];
    (lines, result.output)
  }

  /** The improved module's legacy wrapper prints and returns exactly what the original function does. */
  lemma LegacyMatchesOriginal(seed: string)
    ensures LegacyRunEngine(seed) == RunEngine(seed)
  {
  }

  /** The comparison is exact: a padded seed is invalid. */
  lemma PaddedSeedInvalid()
    ensures RunEngine(" 0+").1 == InvalidSeedMessage && !CoreRunEngine("0+ ").success
  {
    assert " 0+" != "0+";
    assert "0+ " != "0+";
  }
}
