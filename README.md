# Foundations proof pipeline: a verified Dafny model

This project models the claim-verification pipeline of the Foundations repository and the small components around it. It proves properties of that model with Dafny.

## The pipeline

The dispatcher `run_claim` sends each claim to one of five strategies and reduces the strategy's report to a status: `proved`, `rejected` or `inconclusive`. The strategies are:

- algebraic identity;
- induction;
- Lyapunov;
- gate;
- contraction.

The runners turn per-claim exceptions into results and compute the process exit code. The two report modules aggregate results into statistics and format them.

## Around the pipeline

- the adapters' reliability scores and the proof-result validator;
- the roadmap's checkers and theorems;
- the file organiser's naming rules, its claim-to-status map and its routing rules;
- the docx intake's normaliser, identity splitter and claim ids;
- the Johnson claim filter;
- the cassette engine's validation, encryption flag and sealing;
- the math-engine blacklists and rate limiter;
- the reliability tracker;
- the fermion-parity qubit, the resonance detector and the seed engine core.

## How the model is built

Each source file becomes one module, and the model follows each file's style:

- Code that updates state step by step becomes methods with loops or classes. Examples are the strategy trial loops, the rate limiter, the roadmap, the reliability tracker and the parity qubit. Each method is proved equal to a recursive specification function, or its new state is stated outright.
- Code that only computes becomes functions.
- Lemmas prove the promised properties about the specification functions.

Python values are modelled in `Py`:

- dynamic values: None, bool, int, float, str, list and dict;
- exceptions;
- `Result`, which stands for code that may raise.

Strategy reports and claim data are dictionaries over these values. The dispatcher's key lookups are therefore modelled exactly as written.

Some parts cannot be verified and become parameters instead:

- SymPy parsing and simplification, numpy norms and the Jacobian: an oracle record (`SymPy.Engine`).
- `random.uniform`: a stream of unit draws.
- The clock, hash functions, encryption and JSON encoding: function parameters.

The sampling strategies are specified over explicit per-trial outcomes. These are, for example:

- for the gate: an error, or the two evaluated predicates;
- for Lyapunov: a skipped sample, a value of ΔV, or an error.

Tolerances and scores are exact reals.

## Model

| member | source | states |
|---|---|---|
| Claims.CountStatus | prooflab/fbprooflab/reports.py:30-32 | the number of results with a status is at most the number of results, and 0 exactly when no result has that status |
| Claims.CountKind | prooflab/fbprooflab/reports.py:36-39 | the number of results of a type is at most the number of results, and 0 exactly when none has that type |
| Claims.CountKindStatus | prooflab/fbprooflab/reports.py:40 | the results of one type and one status are never more than those of that type or of that status |
| Claims.StatusCountsBound | prooflab/fbprooflab/reports.py:30-32 | proved + rejected + inconclusive never exceeds the number of results, and equals it when every status is one of the three |
| Claims.KindStatusCountsSum | prooflab/fbprooflab/reports.py:36-40 | within one type, the three status counts add up to the number of results of that type |
| Claims.SumKindsOne | prooflab/fbprooflab/reports.py:35-40 | over a list of distinct types, one result is counted once when its type is listed and not at all otherwise |
| Claims.SumKindsAppend | prooflab/fbprooflab/reports.py:35-40 | per-type counting is additive over appending one result |
| Claims.KindTotalsSum | prooflab/fbprooflab/reports.py:35-40 | the per-type totals over distinct types covering every result add up to the number of results |
| Algebra.CurrentEnv | prooflab/fbprooflab/strategies/algebra.py:10 | the current-step environment binds exactly the names of `state_symbols + input_symbols`; a concatenation or name error propagates |
| Algebra.Concat | prooflab/fbprooflab/strategies/algebra.py:10 | `ss + us` succeeds exactly for two lists, two strings or two numbers; lists and strings concatenate, numbers add, and any other pair raises TypeError with Python's message for `+` |
| Py.NumberSum | prooflab/fbprooflab/strategies/algebra.py:10 | `+` on two numbers is a float when either is a float and an int otherwise, and for two ints their sum |
| Algebra.NumbersNotIterable | prooflab/fbprooflab/strategies/algebra.py:10 | two numbers add, and iterating the sum raises "'int' object is not iterable", or 'float' when either operand is a float |
| Algebra.StrPlusList | prooflab/fbprooflab/strategies/algebra.py:10 | a string plus a list raises `can only concatenate str (not "list") to str` |
| Algebra.ListPlusStr | prooflab/fbprooflab/strategies/algebra.py:10 | a list plus a string raises `can only concatenate list (not "str") to list` |
| Algebra.NextEnv | prooflab/fbprooflab/strategies/algebra.py:12-16 | a name is bound exactly when it is `s + "_next"` for a state symbol `s` that has an `F_next` entry |
| Algebra.ParseEnv | prooflab/fbprooflab/strategies/algebra.py:5-20 | a claim without `state_symbols` raises KeyError("state_symbols") |
| Algebra.Report | prooflab/fbprooflab/strategies/algebra.py:22-30 | the report has exactly the five keys, `symbolic_equal` is the zero test, and the verdict is "proved" exactly when `symbolic_equal` is true, "falsified" otherwise |
| Algebra.ProveIdentity | prooflab/fbprooflab/strategies/algebra.py:3-30 | the identity succeeds exactly when both sides parse; missing `state_symbols` or `lhs` raise KeyError naming the field; on success the report is built from the simplified residual |
| Algebra.ParseEnvNames | prooflab/fbprooflab/strategies/algebra.py:10-20 | every name of the parse environment is a current-step name or the `_next` name of a state symbol with an `F_next` entry, and conversely |
| Algebra.InputHasNoNext | prooflab/fbprooflab/strategies/algebra.py:14-16 | an input symbol that is not a state symbol never gets a `_next` binding |
| Algebra.DefaultsGiveStateSymbolsOnly | prooflab/fbprooflab/strategies/algebra.py:6-7 | with no `input_symbols` and no `F_next` the environment is exactly the state symbols |
| Induction.FactsFor | prooflab/fbprooflab/strategies/induction.py:12-18 | each listed "positive", "nonzero" or "real" adds its fact about `n`, every fact added comes from such an entry, and there is at most one fact per entry |
| Induction.UserFacts | prooflab/fbprooflab/strategies/induction.py:11-18 | falsy assumptions, or assumptions without `n_symbol`, add no fact; otherwise `Q.positive(n)`, `Q.nonzero(n)` and `Q.real(n)` are added exactly when "positive", "nonzero" and "real" are listed under `n_symbol` |
| Induction.CheckBase | prooflab/fbprooflab/strategies/induction.py:24-31 | the check of one base case records the `n` it was made for |
| Induction.BaseChecks | prooflab/fbprooflab/strategies/induction.py:23 | one check per integer of the range, check `i` being the one for `base_from + i` |
| Induction.Records | prooflab/fbprooflab/strategies/induction.py:27-31 | one `base_checks` record per check, in order |
| Induction.StepRecord | prooflab/fbprooflab/strategies/induction.py:33-40 | the inductive-step record is a dictionary (`ok` and `Pk1`, or `error`) |
| Induction.Prepare | prooflab/fbprooflab/strategies/induction.py:9-19 | `n` is an integer symbol named `n_symbol`, and the context starts with integer(n) and n >= base_from |
| Induction.InductionReport | prooflab/fbprooflab/strategies/induction.py:6-42 | the report holds `base_checks`, `inductive_step`, `base_ok` and `proved`, and `proved` is `base_ok` and the step's `ok` |
| Induction.Report | prooflab/fbprooflab/strategies/induction.py:32-41 | the report holds `base_checks`, `inductive_step`, `base_ok` and `proved`, with the records, the step record, `ok_all`, and `proved` as `base_ok` and the step's `ok` |
| Induction.BaseLoop | prooflab/fbprooflab/strategies/induction.py:21-32 | the loop's `ok_all` is the conjunction of the base checks and its records are theirs, in order |
| Induction.ProveInduction | prooflab/fbprooflab/strategies/induction.py:6-42 | the method's report equals the functional report |
| Induction.OneRecordPerBaseCase | prooflab/fbprooflab/strategies/induction.py:23-31 | one record per integer from `base_from` to `base_to`, record `i` carrying `n = base_from + i` |
| Induction.AllHoldIffEvery | prooflab/fbprooflab/strategies/induction.py:28-30 | `ok_all` holds iff every base check held; a raised check counts as false |
| Induction.EmptyRangeIsVacuous | prooflab/fbprooflab/strategies/induction.py:22-32 | an empty base range gives no records and `base_ok` true |
| Induction.StepIgnoresAssumptions | prooflab/fbprooflab/strategies/induction.py:33-40 | the step record is the same whatever the user's assumptions |
| Induction.VacuousBaseProves | prooflab/fbprooflab/strategies/induction.py:41 | with an empty base range and a step that holds, the claim is proved although no base case was checked |
| Induction.ProvedWithBase | prooflab/fbprooflab/strategies/induction.py:41 | the corrected verdict implies a non-empty range, every base check holding, the one at `base_from` included, and the step holding |
| Induction.ProvedWithBaseAgrees | prooflab/fbprooflab/strategies/induction.py:41 | on a non-empty range the corrected verdict equals the source's; on an empty one it never proves |
| Induction.StepErrorNotProved | prooflab/fbprooflab/strategies/induction.py:35-41 | a step that raises leaves `proved` false |
| Induction.OnlyKnownAssumptionsCount | prooflab/fbprooflab/strategies/induction.py:12-18 | assumptions other than "positive", "nonzero" and "real" add nothing |
| Sampling.Uniform | prooflab/fbprooflab/strategies/gate.py:22 | a draw of `uniform(lo, hi)` lies between the two bounds, in either order |
| Sampling.Bounds | prooflab/fbprooflab/strategies/gate.py:20-21 | falsy `ranges`, or ranges without the symbol, give the default interval |
| Sampling.Ends | prooflab/fbprooflab/strategies/gate.py:22 | the ends are an interval exactly when both are finite numbers; a non-number end raises TypeError from `hi - lo`, naming hi's type, then lo's |
| Sampling.RangePair | prooflab/fbprooflab/strategies/gate.py:21-22 | a range pair of fewer than two items raises the unpacking ValueError with the count it got, more than two the too-many one; two items give `Ends`' interval or its TypeError |
| Sampling.AllBounds | prooflab/fbprooflab/strategies/gate.py:19-21 | one interval per symbol, in order; it succeeds exactly when every symbol's lookup succeeds, and each interval is that lookup's |
| Sampling.Prepare | prooflab/fbprooflab/strategies/gate.py:17-22 | one interval per symbol; with no trials nothing is looked up and it always succeeds; otherwise it is the lookup of every symbol |
| Sampling.Draw | prooflab/fbprooflab/strategies/gate.py:22 | one value per interval, each inside its interval |
| Sampling.Coordinates | prooflab/fbprooflab/strategies/gate.py:18-22 | the point binds exactly the listed symbols, each to the value drawn for one of its occurrences |
| Sampling.Point | prooflab/fbprooflab/strategies/gate.py:18-22 | the point of one trial binds exactly the listed symbols |
| Sampling.PointInRange | prooflab/fbprooflab/strategies/gate.py:18-22 | every coordinate of a trial's point lies in its symbol's interval |
| Sampling.DefaultRange | prooflab/fbprooflab/strategies/gate.py:20 | without `ranges` the lookup succeeds and every coordinate lies in the default interval |
| Lyapunov.Outcome | prooflab/fbprooflab/strategies/lyapunov.py:29-41 | without an unsafe condition no sample is skipped; an evaluated sample is ok exactly when its value meets the target |
| Lyapunov.Run | prooflab/fbprooflab/strategies/lyapunov.py:23-42 | at most one trial record per sample |
| Lyapunov.SympifyAll | prooflab/fbprooflab/strategies/lyapunov.py:16 | one parsed expression per item |
| Lyapunov.Substitution | prooflab/fbprooflab/strategies/lyapunov.py:18 | the substitution binds exactly the real symbols of the state symbols |
| Lyapunov.Prepare | prooflab/fbprooflab/strategies/lyapunov.py:45-56 | missing `state_symbols`, `F_next` or `V` raise KeyError naming them, in that order; the target defaults to "<= 0", `numeric_trials` to 400, a guard exists iff `unsafe_condition` is truthy, and without `ranges` every interval is [-2, 2] |
| Lyapunov.Outcomes | prooflab/fbprooflab/strategies/lyapunov.py:23 | one outcome per trial of `range(int(numeric_trials))` |
| Lyapunov.LyapunovReport | prooflab/fbprooflab/strategies/lyapunov.py:6-56 | the report exists exactly when set-up succeeds, has exactly the keys `symbolic`, `target`, `trials` and `passed`, and `passed` is the sampling run's |
| Lyapunov.Report | prooflab/fbprooflab/strategies/lyapunov.py:21-43 | carried by `Lyapunov.LyapunovReport` and `Lyapunov.SymbolicIsDiagnostic`: exactly the four keys, with `passed` from the sampling run and the symbolic text never affecting it |
| Lyapunov.SampleLoop | prooflab/fbprooflab/strategies/lyapunov.py:23-42 | the loop's records and `passed` equal the functional run over the same samples |
| Lyapunov.ProveLyapunov | prooflab/fbprooflab/strategies/lyapunov.py:45-56 | the method's result equals the functional report |
| Lyapunov.PassedIffAllOk | prooflab/fbprooflab/strategies/lyapunov.py:39-42 | `passed` holds iff every sample was skipped or evaluated and met the target |
| Lyapunov.AllSkippedPasses | prooflab/fbprooflab/strategies/lyapunov.py:29-34 | when every sample is skipped there are no records and `passed` stays true |
| Lyapunov.RecordsCountTaken | prooflab/fbprooflab/strategies/lyapunov.py:38-41 | one record per sample that was not skipped |
| Lyapunov.SymbolicIsDiagnostic | prooflab/fbprooflab/strategies/lyapunov.py:21 | two engines that evaluate points alike give the same `passed` and trial records however they print `dV` |
| Gate.Record | prooflab/fbprooflab/strategies/gate.py:29-31 | an evaluated trial records `continue`, `halt` and `ok` = not both; a raised one records only `error` |
| Gate.Step | prooflab/fbprooflab/strategies/gate.py:24-31 | one trial moves at most one counter, an error moves none, and exactly one record is appended |
| Gate.Count | prooflab/fbprooflab/strategies/gate.py:17-31 | one record per trial |
| Gate.Prepare | prooflab/fbprooflab/strategies/gate.py:11-13 | the set-up keeps the trial count, and without `ranges` every interval is [-3, 3] |
| Gate.Outcomes | prooflab/fbprooflab/strategies/gate.py:17 | one outcome per trial of `range(numeric_trials)` |
| Gate.SampleLoop | prooflab/fbprooflab/strategies/gate.py:15-32 | the loop's report equals the report of the functional count over the same trials |
| Gate.VerifyGate | prooflab/fbprooflab/strategies/gate.py:6-33 | the method's result equals the functional report |
| Gate.GateReport | prooflab/fbprooflab/strategies/gate.py:6-33 | carried by `Gate.PassedIffExclusive`, `Gate.CountersBounded` and `Gate.RecordsMatchTrials`: `passed` exactly when every trial raised or had exactly one condition true, one record per trial |
| Gate.RecordsMatchTrials | prooflab/fbprooflab/strategies/gate.py:29-31 | record `i` describes trial `i` |
| Gate.CountersBounded | prooflab/fbprooflab/strategies/gate.py:27-28 | conflicts + misses never exceed the trials that evaluated |
| Gate.PassedIffExclusive | prooflab/fbprooflab/strategies/gate.py:32 | `passed` iff every trial raised or had exactly one of the two conditions true |
| Gate.AllErrorsPass | prooflab/fbprooflab/strategies/gate.py:30-32 | a run in which every trial raises passes |
| Contraction.AbsSum | prooflab/fbprooflab/strategies/contraction.py:31 | the absolute row sum is non-negative |
| Contraction.MaxRowSum | prooflab/fbprooflab/strategies/contraction.py:31 | defined exactly for a non-empty matrix; it bounds every row's absolute sum and equals one of them |
| Contraction.MaxNorm | prooflab/fbprooflab/strategies/contraction.py:19-37 | the running maximum is finite and non-negative, or infinite |
| Contraction.SympifyAll | prooflab/fbprooflab/strategies/contraction.py:14 | one parsed expression per item |
| Contraction.Prepare | prooflab/fbprooflab/strategies/contraction.py:13-17 | the set-up keeps bound, norm and trial count, and without `ranges` every interval is [-2, 2] |
| Contraction.Outcomes | prooflab/fbprooflab/strategies/contraction.py:20 | one outcome per trial of `range(int(numeric_trials))` |
| Contraction.InfinityAbsorbs | prooflab/fbprooflab/strategies/contraction.py:36-37 | once the maximum is infinite it stays infinite |
| Contraction.SampleLoop | prooflab/fbprooflab/strategies/contraction.py:19-37 | the loop's maximum equals the functional maximum over the same samples |
| Contraction.CheckContraction | prooflab/fbprooflab/strategies/contraction.py:7-40 | the method's result equals the functional report |
| Contraction.ContractionReport | prooflab/fbprooflab/strategies/contraction.py:7-40 | carried by `Contraction.PassedIffAllWithinBound` and `Contraction.MaxNormIsMaximum`: `passed` exactly when every sampled norm is within `L_bound` + 1e-9 |
| Contraction.MaxNormMonotone | prooflab/fbprooflab/strategies/contraction.py:35 | the maximum never decreases from one sample to the next |
| Contraction.MaxNormIsMaximum | prooflab/fbprooflab/strategies/contraction.py:19-35 | without errors the maximum is finite, bounds every norm and equals one of them (or is 0 with no samples) |
| Contraction.ErrorFails | prooflab/fbprooflab/strategies/contraction.py:36-39 | an error makes the maximum infinite, so the claim fails for every finite bound |
| Contraction.InfiniteBoundAlwaysPasses | prooflab/fbprooflab/strategies/contraction.py:39 | an infinite `L_bound` passes whatever happened |
| Contraction.PassedIffAllWithinBound | prooflab/fbprooflab/strategies/contraction.py:19-39 | without errors, `passed` iff every norm is at most `L_bound + 1e-9` and that bound is not negative |
| Registry.Verdict | prooflab/fbprooflab/registry.py:32 | the status is "proved" exactly when the condition holds, "rejected" otherwise |
| Registry.RunClaim | prooflab/fbprooflab/registry.py:26-76 | the result keeps the claim's id and type; its status is proved, rejected or inconclusive; an unknown type is inconclusive with the error detail "Unknown claim type" |
| Registry.IdentityStatus | prooflab/fbprooflab/registry.py:30-33 | an identity claim returns exactly when both sides parse, and is proved exactly when the simplified residual is 0, with the strategy's report as details |
| Registry.InductionDefaults | prooflab/fbprooflab/registry.py:35-44 | with none of the optional keys the strategy is called with `n`, 1, 1 and no assumptions |
| Registry.RejectedWithoutReadKeys | prooflab/fbprooflab/registry.py:49 | a report without `symbolic_ok`, `ok` and `proved` is rejected |
| Registry.LyapunovAlwaysRejected | prooflab/fbprooflab/registry.py:46-50 | every Lyapunov claim that returns is rejected, whatever its samples |
| Registry.LyapunovDispatch | prooflab/fbprooflab/registry.py:46-50 | a Lyapunov claim's details are the strategy's report, reduced by the three-key test |
| Registry.LyapunovStatusCorrected | prooflab/fbprooflab/registry.py:49 | the corrected status is "proved" exactly when the report's `passed` is truthy |
| Registry.RunClaimCorrected | prooflab/fbprooflab/registry.py:26-76 | the corrected dispatcher agrees with `run_claim` on every other type and keeps id and type |
| Registry.LyapunovCorrectedProvedIffAllOk | prooflab/fbprooflab/registry.py:46-50 | with the correction a Lyapunov claim is proved iff every evaluated sample met the target |
| Registry.PassedDecides | prooflab/fbprooflab/registry.py:60-72 | gate and contraction claims are proved iff their report's `passed` is true |
| Registry.GateDispatch | prooflab/fbprooflab/registry.py:52-61 | a gate claim's result is the gate call's report, or its exception, with the status decided by the report's `passed` |
| Registry.ContractionDispatch | prooflab/fbprooflab/registry.py:63-73 | a contraction claim's result is the contraction call's report, or its exception, with the status decided by the report's `passed` |
| Registry.GateCall | prooflab/fbprooflab/registry.py:53-59 | carried by `Registry.GateDefaults` and `Registry.MissingFieldRaises`: the three required fields, then `numeric_trials` defaulting to 300 and `ranges` to None |
| Registry.ContractionCall | prooflab/fbprooflab/registry.py:64-71 | carried by `Registry.ContractionDefaults`, `Registry.ScientificBound` and `Registry.MissingFieldRaises`: the three required fields, then `norm` defaulting to "l2", `numeric_trials` to 300 and `ranges` to None; `L_bound` is read by `float()` |
| Registry.ScientificBound | prooflab/fbprooflab/registry.py:67 | a contraction claim whose `L_bound` is the string "1e-3" runs the strategy with the bound 0.001 |
| Py.ScientificText | prooflab/fbprooflab/registry.py:67 | `float("1e-3")` is 0.001 |
| Py.ExponentLiteral | prooflab/fbprooflab/registry.py:67 | `float()` reads digits, `e` or `E` and an `int()` literal as the digits scaled by ten to that exponent |
| Py.ScaleSigned | prooflab/fbprooflab/registry.py:67 | scaling by a negative exponent divides by the power of ten, by a non-negative one multiplies |
| Py.SignedDigits | prooflab/fbprooflab/registry.py:67-68 | an optional sign and digits read as the digits' value, negated after a minus |
| Py.UnderscoreIgnored | prooflab/fbprooflab/registry.py:68 | an underscore between two digit groups is accepted and leaves the value of the digits written together |
| Py.IntTextIsFloatText | prooflab/fbprooflab/registry.py:67-68 | every string `int()` reads, `float()` reads as the same number |
| Py.IntLiteralPlain | prooflab/fbprooflab/registry.py:68 | `int()` reads only signs, digits and underscores, so no point and no exponent |
| Registry.InductionCall | prooflab/fbprooflab/registry.py:36-42 | carried by `Registry.InductionDefaults` and `Registry.MissingFieldRaises`: `predicate` required, `n_symbol` "n", `base_from` and `base_to` 1, no assumptions by default |
| Registry.LyapunovStatus | prooflab/fbprooflab/registry.py:49 | carried by `Registry.RejectedWithoutReadKeys` and `Registry.LyapunovAlwaysRejected`: the status reads `symbolic_ok`, `ok` and `proved`, none of which the Lyapunov report sets |
| Registry.GateDefaults | prooflab/fbprooflab/registry.py:52-61 | a gate claim without `numeric_trials` and `ranges` runs 300 trials with no ranges |
| Registry.ContractionDefaults | prooflab/fbprooflab/registry.py:63-73 | a contraction claim without `norm`, `numeric_trials` and `ranges` uses "l2", 300 trials and no ranges |
| Registry.MissingFieldRaises | prooflab/fbprooflab/registry.py:37-67 | a missing required field raises KeyError naming the first one missing, in the order `run_claim` and the Lyapunov wrapper read them, for every claim type (also prooflab/fbprooflab/strategies/lyapunov.py:48-50) |
| Runner.Settle | prooflab/run_proofs_improved.py:50-62 | a claim that returns keeps its own result; one that raises gets an inconclusive result with the exception text under `error` |
| Runner.Outcome | prooflab/run_proofs_improved.py:50-62 | the settled result keeps the claim's id and type, and its status is one of the three |
| Runner.Collect | prooflab/run_proofs_improved.py:50-62 | one settled result per named claim, in the order given |
| Runner.RunClaimsSequential | prooflab/run_proofs_improved.py:46-64 | the loop's results are the settled results of every claim, in input order |
| Runner.SequentialMatchesClaims | prooflab/run_proofs_improved.py:46-64 | the sequential results line up with the claims: same length, and result `i` has claim `i`'s id and type |
| Runner.RunClaimsParallel | prooflab/run_proofs_improved.py:16-43 | as written, one result per claim, sorted by id, each inconclusive with the `future.get` AttributeError text, and together a permutation of the failures in completion order |
| Runner.Failures | prooflab/run_proofs_improved.py:31-39 | one failed result per claim in completion order, keeping that claim's id and type |
| Runner.LookupPermutes | prooflab/run_proofs_improved.py:25-42 | looking up a permutation of the same indices gives a permutation of the same entries |
| Runner.CollectPermutes | prooflab/run_proofs_improved.py:25-42 | reordering the claims' completion only reorders the collected results |
| Runner.RunClaimsParallelCorrected | prooflab/run_proofs_improved.py:16-43 | with `future.result()` the results are sorted by id and are a permutation of the sequential results |
| Runner.NotProved | prooflab/run_proofs_improved.py:113 | the failed count is at most the number of results, and 0 exactly when every result is proved |
| Runner.ExitCode | prooflab/run_proofs_improved.py:67-129 | an interrupt exits 130, a raised error 1, an empty claim file 0, and a finished run 0 exactly when every claim is proved; no other code occurs |
| Runner.ParallelAlwaysFails | prooflab/run_proofs_improved.py:28 | as written, a parallel run over at least one claim always exits with 1 (also prooflab/run_proofs_improved.py:113-116) |
| Reports.Bump | prooflab/fbprooflab/reports.py:38-40 | the counter dictionary holds "total" and the three statuses: bumping succeeds exactly for those four keys and raises KeyError(status) otherwise; a known status leaves the total alone and adds one to the status counters, the status "total" adds one more to the total |
| Reports.GroupByType | prooflab/fbprooflab/reports.py:35-40 | the grouping loop computes the functional grouping, including its exception |
| Reports.ErrorPersists | prooflab/fbprooflab/reports.py:36-40 | once the grouping has raised, it raises the same exception over any longer list |
| Reports.CalculateStats | prooflab/fbprooflab/reports.py:24-50 | the method computes the functional statistics, including the exception of the grouping |
| Reports.ByTypeRaisesOnUnknownStatus | prooflab/fbprooflab/reports.py:38-40 | the grouping succeeds exactly when every status is one of the three or "total", and otherwise raises KeyError for the first other status |
| Reports.ByTypeCounts | prooflab/fbprooflab/reports.py:35-40 | a type has an entry exactly when some result has it; the entry holds the type's status counts, and its total is the type's number of results plus the number of them whose status is "total" |
| Reports.ByTypeTotalsSum | prooflab/fbprooflab/reports.py:35-40 | the per-type result counts add up to the number of results, and when every status is one of the three the stored totals do too |
| Reports.StatisticsConsistent | prooflab/fbprooflab/reports.py:24-50 | total is the number of results; proved + rejected + inconclusive never exceeds it and equals it exactly when every status is one of the three; the rate exists exactly for a non-empty list, lies in [0, 100] and is 100 exactly when all are proved |
| Reports.Percentage | prooflab/fbprooflab/reports.py:47 | `part / whole * 100` lies in [0, 100] and is 100 exactly for the whole |
| Reports.StatsDict | prooflab/fbprooflab/reports.py:27-50 | the four counts are always present; `success_rate` and `by_type` only for a non-empty list |
| Reports.SummaryNeedsResults | prooflab/fbprooflab/reports.py:110-118 | the summary can be written exactly when there are results; with none it raises KeyError("success_rate") |
| Reports.StatusEmoji | prooflab/fbprooflab/reports.py:175-182 | the check mark exactly for proved, the cross exactly for rejected, and the question mark for inconclusive and every unknown status |
| Reports.EscapeDetailPerChar | prooflab/fbprooflab/reports.py:192 | the two replacements act character by character: a bar becomes an escaped bar, a newline a space |
| Reports.FormatDetailValue | prooflab/fbprooflab/reports.py:184-199 | booleans become "Yes" or "No" with their mark; a string loses every newline and has every bar escaped, is unchanged apart from escaping when at most 200 long, and strings, lists and dicts never exceed 203 characters |
| Reports.ResultToDict | prooflab/fbprooflab/reports.py:201-208 | exactly the four keys, each holding the matching field (also prooflab/fbprooflab/reports_improved.py:394-401) |
| Reports.ResultToDictInjective | prooflab/fbprooflab/reports.py:201-208 | distinct results give distinct dictionaries |
| Reports.Statistics | prooflab/fbprooflab/reports.py:24-50 | carried by `Reports.StatisticsConsistent` and `Reports.ByTypeRaisesOnUnknownStatus`: the counts are the numbers of results of each status, and a status outside the four counter keys raises KeyError |
| Reports.EscapeDetail | prooflab/fbprooflab/reports.py:192 | carried by `Reports.EscapeDetailPerChar`: a bar becomes an escaped bar and a newline a space, character by character |
| ReportsImproved.NewReportConfig | prooflab/fbprooflab/reports_improved.py:45-62 | a configuration is accepted exactly when `max_detail_length` >= 1, `json_indent` >= 0 and the sort key is id, type or status; otherwise the first failing check's ValueError is raised, in source order |
| ReportsImproved.DefaultConfigValid | prooflab/fbprooflab/reports_improved.py:48-53 | the default configuration is accepted |
| ReportsImproved.Incr | prooflab/fbprooflab/reports_improved.py:95-96 | a `defaultdict(int)` increment adds the key if missing, raises its count by one, and leaves every other key alone |
| ReportsImproved.TallyLoop | prooflab/fbprooflab/reports_improved.py:93-96 | the grouping loop computes the functional tally |
| ReportsImproved.TallyAt | prooflab/fbprooflab/reports_improved.py:93-96 | a type has an entry exactly when some result has it; its "total" counts its results (plus any whose status is itself "total"), and each status counter is the type's count of that status |
| ReportsImproved.WithRates | prooflab/fbprooflab/reports_improved.py:98-104 | every type keeps its counters and gains `success_rate`, the rate of its proved count over its total |
| ReportsImproved.CalculateStatistics | prooflab/fbprooflab/reports_improved.py:76-113 | the method computes the functional statistics |
| ReportsImproved.StatisticsCounts | prooflab/fbprooflab/reports_improved.py:76-113 | total is the number of results, each status count is the exact count, their sum reaches the total exactly when every status is known, and the types are exactly those present |
| ReportsImproved.TypeCountsSum | prooflab/fbprooflab/reports_improved.py:93-96 | within a type, when every status is known, the three status counters add up to its total |
| ReportsImproved.TallyStatus | prooflab/fbprooflab/reports_improved.py:96 | a type's counter for a status other than "total" is that type's count of the status |
| ReportsImproved.TallyTotal | prooflab/fbprooflab/reports_improved.py:95-96 | a type's "total" counter is its number of results plus those whose status is "total" |
| Claims.NoTotalStatus | prooflab/fbprooflab/reports_improved.py:31-35 | when every status is one of the three, no result has the status "total" |
| ReportsImproved.TypeTotalsSum | prooflab/fbprooflab/reports_improved.py:93-96 | the types' totals add up to the overall total |
| ReportsImproved.StatusEmoji | prooflab/fbprooflab/reports_improved.py:134-148 | the stored proved mark exactly for proved, the rejected mark exactly for rejected, and the inconclusive mark for inconclusive and every unknown status |
| ReportsImproved.EscapeMarkdownPerChar | prooflab/fbprooflab/reports_improved.py:172-175 | the three replacements act character by character: bar and star get a backslash, a newline becomes a space |
| ReportsImproved.FormatDetailValue | prooflab/fbprooflab/reports_improved.py:150-180 | booleans map to their stored Yes/No text, ints to their decimal text; strings lose every newline and have every bar and star escaped, are unchanged apart from escaping when within `max_length`, and non-numbers never exceed `max_length + 3` |
| ReportsImproved.FirstMissing | prooflab/fbprooflab/reports_improved.py:202-204 | no index exactly when every item has the required attributes; otherwise the first item lacking them |
| ReportsImproved.Present | prooflab/fbprooflab/reports_improved.py:202-204 | once every item is present, the list of their results in order |
| ReportsImproved.ValidateAndSort | prooflab/fbprooflab/reports_improved.py:193-215 | a non-list raises "Results must be a list"; the first item missing attributes raises naming its index; otherwise the output is a permutation of the input, sorted by id, by type then id, or by status then id as configured |
| ReportsImproved.ReportGenerator.constructor | prooflab/fbprooflab/reports_improved.py:186-191 | the generator holds the results and configuration with an empty statistics cache |
| ReportsImproved.ReportGenerator.Stats | prooflab/fbprooflab/reports_improved.py:217-222 | the statistics returned are those of the held results, and the cache holds them afterwards |
| ReportsImproved.NewReportGenerator | prooflab/fbprooflab/reports_improved.py:186-191 | construction succeeds exactly when validation does, raising the same error otherwise, holds the validated and sorted results, and takes the default configuration when none is given |
| ReportsImproved.FromResults | prooflab/fbprooflab/reports_improved.py:76-113 | carried by `ReportsImproved.StatisticsCounts` and `ReportsImproved.TypeTotalsSum`: each status count is exact and the type totals add up to the total |
| ReportsImproved.EscapeMarkdown | prooflab/fbprooflab/reports_improved.py:172-175 | carried by `ReportsImproved.EscapeMarkdownPerChar`: bar and star get a backslash and a newline becomes a space, character by character |
| ReportsImproved.SortKey | prooflab/fbprooflab/reports_improved.py:207 | carried by `ReportsImproved.ValidateAndSort`: the configured key, or "id" without a configuration |
| Ordering.SortBy | prooflab/fbprooflab/reports_improved.py:207-213 | `sorted(..., key=...)` returns an ordered permutation of its input |
| Ordering.InsertStable | prooflab/fbprooflab/reports_improved.py:207-213 | inserting an element into a sorted list puts it after every element with the same key |
| Ordering.SortByStable | prooflab/fbprooflab/reports_improved.py:207-213 | the sort is stable: the elements with the same key keep their input order (also prooflab/run_proofs_improved.py:41-43) |
| Config.NewConfig | prooflab/fbprooflab/config.py:11-21 | the three paths are kept and every other field takes its default: not verbose, not parallel, no worker limit, level "INFO" |
| Config.FromArgs | prooflab/fbprooflab/config.py:23-37 | every parsed field is carried over unchanged except the log level, which keeps its length and holds no lower-case ASCII letter |
| Config.UpperIdempotent | prooflab/fbprooflab/config.py:36 | upper-casing an upper-cased level changes nothing |
| Config.AcceptedLevelUnchanged | prooflab/fbprooflab/config.py:36 | a level the parser accepts passes through `from_args` unchanged (also prooflab/fbprooflab/config.py:90-95) |
| Config.ParserDefaultsAreDataclassDefaults | prooflab/fbprooflab/config.py:61-95 | parsing `--claims` alone gives the dataclass defaults |
| Config.SuffixOfEnding | prooflab/fbprooflab/config.py:119 | a name ending in a one-dot extension, with something before it, has that extension as its lower-cased suffix |
| Config.SuffixEnding | prooflab/fbprooflab/config.py:119 | a non-empty suffix, lower-cased, is the lower-cased end of the name |
| Config.YamlSuffixIff | prooflab/fbprooflab/config.py:119 | the suffix test holds exactly when the name ends with `.yaml` or `.yml` in any letter case and the ending is not the whole final component |
| Config.Validate | prooflab/fbprooflab/config.py:113-123 | validation passes exactly when the file exists, its suffix is a YAML one and any worker limit is positive; the checks raise FileNotFoundError, then ValueError for the suffix, then ValueError for `max_workers`, in that order |
| Config.DefaultsValidate | prooflab/fbprooflab/config.py:18-21 | with the defaults only the file's existence and its suffix can fail validation (also prooflab/fbprooflab/config.py:113-123) |
| Adapter.VerdictOk | prooflab/fbprooflab/prooflab_adapter.py:30 | the verdict term is defined unless the verdict is a list or dict (unhashable), and is 1.0 exactly for one of the three recognised verdicts, 0.0 otherwise |
| Adapter.Min5 | prooflab/fbprooflab/prooflab_adapter.py:35 | `min(n, 5)`: n below 5, 5 from there on |
| Adapter.Clamp01 | prooflab/fbprooflab/prooflab_adapter.py:35-36 | the clamp lies in [0, 1] and leaves a value already there unchanged |
| Adapter.ScoreReliability | prooflab/fbprooflab/prooflab_adapter.py:24-36 | a score that is computed lies in [0, 1] |
| Adapter.MixInRange | prooflab/fbprooflab/prooflab_adapter.py:35-36 | with a 0/1 verdict term and a clamped confidence the weighted mix already lies in [0, 1], so the outer clamp never changes it |
| Adapter.WellTypedScore | prooflab/fbprooflab/prooflab_adapter.py:30-36 | for a well-formed result the score is the weighted mix of the verdict term, the evidence and gap counts and the clamped confidence |
| Adapter.MaximumScore | prooflab/fbprooflab/prooflab_adapter.py:30-36 | the score is 1 exactly when the verdict is recognised, there are at least five pieces of evidence, no gaps and confidence at least 1 |
| Adapter.VerdictWorthPointTwo | prooflab/fbprooflab/prooflab_adapter.py:30-35 | a recognised verdict scores exactly 0.2 more than an unrecognised one |
| Adapter.CountsCappedAtFive | prooflab/fbprooflab/prooflab_adapter.py:35 | evidence or gaps beyond five items change nothing |
| Adapter.ConfidenceClamped | prooflab/fbprooflab/prooflab_adapter.py:33-35 | confidence at or above 1 scores as 1, at or below 0 as 0 |
| Adapter.ScoreReads | prooflab/fbprooflab/prooflab_adapter.py:30-33 | the score depends only on the verdict and on the evidence, gaps and confidence after `or` has replaced falsy values |
| Adapter.MissingIsEmpty | prooflab/fbprooflab/prooflab_adapter.py:31-33 | a missing entry and a None entry score like an empty list or a zero confidence |
| Adapter.FallbackResult | prooflab/fbprooflab/prooflab_adapter.py:55-64 | the fallback result is well formed |
| Adapter.FallbackScore | prooflab/fbprooflab/prooflab_adapter.py:55-65 | the fallback scores 0.36: 0.2 for its verdict plus 0.16 for one gap out of five |
| Adapter.UrpFallback | prooflab/fbprooflab/prooflab_adapter.py:55-67 | without a bridge, `urp` returns the fallback keys plus a reliability score of 0.36, and copies the assumptions |
| AdapterImproved.DefaultReportDir | prooflab/fbprooflab/prooflab_adapter_improved.py:38 | the report directory is `PFB_REPORTS_DIR` when the environment sets it, otherwise the built-in one |
| AdapterImproved.NormalizePath | prooflab/fbprooflab/prooflab_adapter_improved.py:114-126 | None becomes the report directory, a string its path, and a path stays as it is |
| AdapterImproved.NormalizePathIdempotent | prooflab/fbprooflab/prooflab_adapter_improved.py:114-126 | normalising a normalised path changes nothing |
| AdapterImproved.TruncateForLogging | prooflab/fbprooflab/prooflab_adapter_improved.py:129-140 | text within the limit is kept whole; longer text is its first `max_length` characters and "..."; the result never exceeds the limit by more than 3 |
| AdapterImproved.LoggedPromptBounded | prooflab/fbprooflab/prooflab_adapter_improved.py:39 | a logged prompt is at most 103 characters and starts with the prompt's first characters (also prooflab/fbprooflab/prooflab_adapter_improved.py:233) |
| AdapterImproved.RuleError | prooflab/fbprooflab/prooflab_adapter_improved.py:166-170 | one type rule contributes at most one error, and none exactly when its field is present with the expected type |
| AdapterImproved.TypeErrors | prooflab/fbprooflab/prooflab_adapter_improved.py:157-170 | at most one error per rule, and none exactly when every rule passes |
| AdapterImproved.TypeErrorsOfRules | prooflab/fbprooflab/prooflab_adapter_improved.py:157-170 | the rules' errors are those of assumptions, outline and conclusion, in that order |
| AdapterImproved.ErrorsEmptyIff | prooflab/fbprooflab/prooflab_adapter_improved.py:163-186 | no error is collected exactly when assumptions and outline are non-empty lists and the conclusion is a string that is not blank |
| AdapterImproved.AtMostOneErrorPerField | prooflab/fbprooflab/prooflab_adapter_improved.py:166-184 | at most three errors: a missing or mistyped field is never also reported empty |
| AdapterImproved.SameCheckedFields | prooflab/fbprooflab/prooflab_adapter_improved.py:157-184 | results that agree on the three checked fields collect the same errors |
| AdapterImproved.ClaimNeverChecked | prooflab/fbprooflab/prooflab_adapter_improved.py:157-184 | adding, changing or removing `claim` leaves the collected errors alone |
| AdapterImproved.ValidationError | prooflab/fbprooflab/prooflab_adapter_improved.py:143-187 | nothing is raised exactly for a well-formed result; whatever is raised is a ValueError, and a None or empty result raises the "cannot be None or empty" error |
| AdapterImproved.CheckRules | prooflab/fbprooflab/prooflab_adapter_improved.py:166-170 | the loop over the type rules collects exactly the rules' errors |
| AdapterImproved.ValidateProofResult | prooflab/fbprooflab/prooflab_adapter_improved.py:143-187 | the method raises exactly what the functional validation raises |
| AdapterImproved.Attempt | prooflab/fbprooflab/prooflab_adapter_improved.py:240-247 | a successful attempt returns what the service returned, and with output validation on that result is well formed |
| AdapterImproved.RunProofSpec | prooflab/fbprooflab/prooflab_adapter_improved.py:222-225 | with input validation on, a blank prompt raises "Prompt cannot be empty or whitespace only" before any call |
| AdapterImproved.RunProof | prooflab/fbprooflab/prooflab_adapter_improved.py:190-260 | the method's outcome equals the functional outcome |
| AdapterImproved.AttemptsUseOnlyCalls | prooflab/fbprooflab/prooflab_adapter_improved.py:231 | two services that agree on the remaining calls give the same outcome |
| AdapterImproved.AtMostRetriesPlusOneCalls | prooflab/fbprooflab/prooflab_adapter_improved.py:231 | the outcome depends only on calls 0 to `max_retries` |
| AdapterImproved.ValueErrorNotRetried | prooflab/fbprooflab/prooflab_adapter_improved.py:249-251 | a ValueError, from the service or from the structure check, is raised at once |
| AdapterImproved.AllFailRaisesLast | prooflab/fbprooflab/prooflab_adapter_improved.py:252-260 | when every attempt fails with an error other than ValueError, the last attempt's error is raised |
| AdapterImproved.SuccessIsWellFormed | prooflab/fbprooflab/prooflab_adapter_improved.py:240-247 | a returned result came from some call and, with output validation on, is well formed |
| AdapterImproved.NoAttemptsUnknownError | prooflab/fbprooflab/prooflab_adapter_improved.py:231-260 | with a negative `max_retries` no call is made and "Unknown error occurred" is raised |
| AdapterImproved.Repeat | prooflab/fbprooflab/prooflab_adapter_improved.py:285 | `"=" * width` has `max(width, 0)` characters, all the given one |
| AdapterImproved.ItemLines | prooflab/fbprooflab/prooflab_adapter_improved.py:301-302 | one line per item, line `i` reading `"  {i+1}. {item}"` |
| AdapterImproved.SectionLines | prooflab/fbprooflab/prooflab_adapter_improved.py:296-304 | only a list section can raise (a truthy value that cannot be iterated) |
| AdapterImproved.SectionShape | prooflab/fbprooflab/prooflab_adapter_improved.py:297-304 | a falsy section gives no lines; a truthy one a blank line, its title, then indented lines only |
| AdapterImproved.SectionErrorPersists | prooflab/fbprooflab/prooflab_adapter_improved.py:296-304 | an error in one section ends the rendering with that error |
| AdapterImproved.OutputLines | prooflab/fbprooflab/prooflab_adapter_improved.py:282-283 | a None or empty result raises "Result cannot be None or empty" |
| AdapterImproved.AppendItems | prooflab/fbprooflab/prooflab_adapter_improved.py:301-302 | the numbering loop appends exactly the numbered item lines |
| AdapterImproved.AppendSection | prooflab/fbprooflab/prooflab_adapter_improved.py:297-304 | one turn of the section loop appends that section's lines, or raises its error |
| AdapterImproved.AppendSections | prooflab/fbprooflab/prooflab_adapter_improved.py:296-304 | the section loop appends every section's lines, or raises at the first error |
| AdapterImproved.FormatProofOutput | prooflab/fbprooflab/prooflab_adapter_improved.py:263-315 | the method returns the newline-join of the functional lines, or raises the same error |
| AdapterImproved.Framed | prooflab/fbprooflab/prooflab_adapter_improved.py:285-314 | the rendering opens with a separator, "PROOF RESULT" and a separator, and closes with a separator |
| AdapterImproved.ListNumberedFromOne | prooflab/fbprooflab/prooflab_adapter_improved.py:301-302 | a list section's `i`-th item line is numbered `i + 1` |
| AdapterImproved.SectionTitles | prooflab/fbprooflab/prooflab_adapter_improved.py:296-299 | the title lines among the sections' lines are exactly the titles of the sections whose value is truthy |
| AdapterImproved.MetadataHasNoTitle | prooflab/fbprooflab/prooflab_adapter_improved.py:307-312 | the metadata lines hold no title line |
| AdapterImproved.TitlesDistinct | prooflab/fbprooflab/prooflab_adapter_improved.py:289-294 | the four titles differ |
| AdapterImproved.TitleShownIffTruthy | prooflab/fbprooflab/prooflab_adapter_improved.py:296-299 | a section's title appears in the rendering exactly when the section's value is truthy |
| Organize.FilledKeepsAndAdds | prooflab/organize_files.py:14-27 | filling from defaults adds exactly the missing keys, never overwrites a given entry, and a second fill changes nothing |
| Organize.Defaults | prooflab/organize_files.py:14-28 | carried by `Organize.DefaultsKeepGivenSettings`, `Organize.DefaultsOfNothing` and `Organize.DefaultsIdempotent`: given settings are kept, every default key is present, and a second application changes nothing |
| Organize.SetDefault | prooflab/organize_files.py:16-18 | `setdefault` adds the key when missing, with the default, and keeps every existing entry |
| Organize.SetDefaultFilled | prooflab/organize_files.py:16-27 | one more `setdefault` is filling from one more default |
| Organize.EnsureDefaults | prooflab/organize_files.py:14-28 | the method, one `setdefault` at a time, computes the functional defaults |
| Organize.DefaultsKeepGivenSettings | prooflab/organize_files.py:14-28 | given rules whose sub-dicts are dicts are accepted; every given entry, top-level or inside naming and routing, is kept, and every default key is present afterwards |
| Organize.DefaultsOfNothing | prooflab/organize_files.py:15 | `ensure_defaults(None)` gives the defaults alone |
| Organize.DictDefaultsIdempotent | prooflab/organize_files.py:14-28 | filling the defaults of a dict of rules a second time changes nothing |
| Organize.DefaultsIdempotent | prooflab/organize_files.py:14-28 | `ensure_defaults` applied to its own result changes nothing |
| Organize.Delete | prooflab/organize_files.py:39 | deleting a substring never lengthens the text |
| Organize.DeleteAll | prooflab/organize_files.py:39 | removal is replacement by the empty string, never lengthens the text and adds no character |
| Organize.DeleteCharRemoves | prooflab/organize_files.py:39 | deleting a single character removes every occurrence of it |
| Organize.DeleteEach | prooflab/organize_files.py:38-39 | the strip loop adds no character |
| Organize.DeleteEachRemoves | prooflab/organize_files.py:38-39 | no single-character entry of the strip list survives the strip loop |
| Organize.CollapseRuns | prooflab/organize_files.py:42 | collapsing keeps the same set of characters, leaves no doubled underscore, and keeps the first character |
| Organize.TrimLeft | prooflab/organize_files.py:42 | `lstrip("_")` adds no character, leaves none at the front, and keeps a text free of doubled underscores free of them |
| Organize.TrimRight | prooflab/organize_files.py:42 | `rstrip("_")` adds no character, leaves none at the end, keeps the first character, and keeps a text free of doubled underscores free of them |
| Organize.Trim | prooflab/organize_files.py:42 | `strip("_")` leaves none at either end and keeps a text free of doubled underscores free of them |
| Organize.StripEntries | prooflab/organize_files.py:38-39 | the strip entries are the texts of the items when every item is a string; the first item that is not a string raises TypeError |
| Organize.StripErrorPersists | prooflab/organize_files.py:38-39 | once an entry raises, the strip loop raises the same error however many entries follow |
| Organize.NamingOf | prooflab/organize_files.py:36-43 | the naming rules are read as Python reads them: a missing "naming" key raises KeyError; the replacement is the given string; list `strip_chars` entries are its strings; the collapse flag is the truthiness of the given value; `max_len` is `int(...)` of the given value; a string `strip_chars` strips each of its characters |
| Organize.MaxLenFromString | prooflab/organize_files.py:43 | a `max_len` given as a text of digits is accepted and read as its decimal value |
| Organize.DefaultNaming | prooflab/organize_files.py:14-28 | under the default rules names are normalised with "_", the eight bracket and separator characters, collapsing on and a limit of 120 (also prooflab/organize_files.py:36-43) |
| Paths.Name | prooflab/organize_files.py:35 | the last component of a path holds no "/" |
| Paths.Suffix | prooflab/organize_files.py:35 | the suffix is empty or starts with its only dot, ends the name and is shorter than it |
| Paths.Stem | prooflab/organize_files.py:35 | the stem followed by the suffix gives the name back, and a name with a suffix has a non-empty stem (also prooflab/intake_docx.py:89) |
| Organize.NormalizeName | prooflab/organize_files.py:34-44 | the method reads the Python rule values itself: it succeeds exactly when the rules can be read and then gives the normalised name, and otherwise raises the same exception as reading them |
| Organize.NormalizedName | prooflab/organize_files.py:34-44 | carried by `Organize.NormalizedKeepsExtension` and the `Organize.CleanStem*` lemmas: the lower-cased extension ends the name, the stem is cut to `max_len`, no stripped character or space is left, and underscores never pair up when collapsing is on |
| Organize.NormalizedKeepsExtension | prooflab/organize_files.py:35-44 | the lower-cased extension ends the new name, and only the stem is cut to `max_len` |
| Organize.CleanStemStripped | prooflab/organize_files.py:38-39 | no single-character entry of the strip list is left in the stem |
| Organize.CleanStemNoSpaces | prooflab/organize_files.py:36-37 | with a replacement free of spaces and hyphens, the stem has none left |
| Organize.CleanStemCollapsed | prooflab/organize_files.py:40-42 | with collapsing on, underscores never come in pairs and never open or close the stem |
| Organize.MatchedLabels | prooflab/organize_files.py:49-52 | the labels of matching rules, each once, and exactly those |
| Organize.SubjectLabels | prooflab/organize_files.py:47-53 | the labels are sorted, distinct, and exactly those of the rules with a token found in the lower-cased text |
| Organize.DetectSubjects | prooflab/organize_files.py:53 | no matching label gives "" |
| Organize.DetectSubjectsIn | prooflab/organize_files.py:46-53 | carried by `Organize.DetectSubjectsAgree`, `Organize.CollectLabelsRaisesFirst`, `Organize.RuleLabel` and `Organize.JoinLabels`: the rules and their tokens and labels are read as loaded, with each of their exceptions |
| Organize.EmptyTokenMatchesEverything | prooflab/organize_files.py:51 | a null or empty token is found in every text, so its rule always matches |
| Organize.TokenText | prooflab/organize_files.py:51 | a falsy token reads as "", a string token as its lower-cased text, and any other truthy token raises AttributeError for its missing `lower` |
| Organize.AnyTokenScan | prooflab/organize_files.py:51 | the token scan answers true exactly when some token is found and every token before it reads as text, false exactly when every token reads as text and none is found, and otherwise raises a bad token's AttributeError |
| Organize.RuleLabel | prooflab/organize_files.py:49-52 | a rule that is not a dictionary raises AttributeError for its missing `get`; a matching rule adds a hashable label, and a list or dictionary label raises TypeError |
| Organize.CollectedLabels | prooflab/organize_files.py:48-52 | the collected labels are distinct and are exactly those some rule adds |
| Organize.CollectLabelsRaisesFirst | prooflab/organize_files.py:48-52 | the loop over the rules raises exactly when some rule raises, and then with the first such rule's exception |
| Organize.JoinLabels | prooflab/organize_files.py:53 | joining raises TypeError exactly when some label is not a string, and no labels give "" |
| Organize.CollectTypedLabels | prooflab/organize_files.py:48-52 | typed rules read as values collect exactly the typed matching labels, in the same order |
| Organize.DetectSubjectsAgree | prooflab/organize_files.py:46-53 | on well-formed rules (dictionaries with string or null tokens and string labels) the detection over loaded values never raises and gives the typed detection's answer |
| Organize.Rank | prooflab/organize_files.py:114-116 | ranks lie between -1 and 2 |
| Organize.Absorb | prooflab/organize_files.py:121-123 | carried by `Organize.LoadedStatuses` and `Organize.LoadedWarning`: one record of the results loop stores the status under a truthy string id, skips a falsy id, and raises for a record without `get` or an unhashable id |
| Organize.IdToStatus | prooflab/organize_files.py:118-125 | carried by `Organize.LoadedStatuses` and `Organize.LoadedWarning`: the results loop, stopped by the first exception with what was stored so far |
| Organize.LoadResults | prooflab/organize_files.py:118-125 | the loop over a parsed results file: a list is read record by record, a non-empty dictionary raises AttributeError at its first key, a non-iterable value raises TypeError (carried by `Organize.BuildIdToStatus`) |
| Organize.BuildIdToStatus | prooflab/organize_files.py:118-125 | the loop with its early exit computes the functional claim-to-status map and the caught exception |
| Organize.IdToStatusStops | prooflab/organize_files.py:119-125 | once a record has raised, the later records change nothing |
| Organize.LoadedStatuses | prooflab/organize_files.py:121-123 | with no exception, a claim has a status exactly when some record carries its id as a non-empty string, and the status is that of the LAST such record, "inconclusive" when it gives none |
| Organize.LoadedWarning | prooflab/organize_files.py:119-125 | with an exception, the map is the one built from the records before the first record that raised, and that record's exception is the warning |
| Organize.StatusOf | prooflab/organize_files.py:131 | carried by `Organize.BestRanksHighest`, `Organize.BestFromAClaim` and `Organize.BestIsEarliest`: a claim without a result counts as "inconclusive" |
| Organize.Step | prooflab/organize_files.py:132-134 | carried by `Organize.BestRanksHighest` and `Organize.BestIsEarliest`: an entry replaces the stored status when nothing is stored or it ranks strictly higher |
| Organize.BestOf | prooflab/organize_files.py:127-134 | carried by `Organize.BestOfKeys`, `Organize.BestRanksHighest`, `Organize.BestFromAClaim` and `Organize.BestIsEarliest` |
| Organize.RankIgnoresCase | prooflab/organize_files.py:116 | the rank ignores ASCII letter case, and only the three known statuses rank at 0 or above |
| Organize.BestOfKeys | prooflab/organize_files.py:130-134 | every document of the claims map, and no other, gets a best status |
| Organize.DocBest | prooflab/organize_files.py:127-134 | the loop computes the functional best statuses |
| Organize.BestRanksHighest | prooflab/organize_files.py:133-134 | a document's best status ranks at least as high as each of its claims' statuses |
| Organize.BestFromAClaim | prooflab/organize_files.py:131-134 | a document's best status is the status of one of its claims |
| Organize.BestIsEarliest | prooflab/organize_files.py:133 | with string statuses, ties keep the earlier claim: no claim before the chosen one ranks as high |
| Organize.RouteOf | prooflab/organize_files.py:148-173 | the raw status recorded is never empty ("unknown" stands in) |
| Organize.RouteAgreesWithRank | prooflab/organize_files.py:74-80 | the confirmed bucket is exactly rank 2, the speculative bucket exactly rank 0, and everything else needs work (also prooflab/organize_files.py:114-116, prooflab/organize_files.py:148-149) |
| Organize.UnmappedNeedsWork | prooflab/organize_files.py:148-149 | a document with no claim in the claims map needs work, with raw status "unknown" |
| Organize.CandidateInjective | prooflab/organize_files.py:159-161 | different counters give different candidate names |
| Organize.Candidate | prooflab/organize_files.py:159-161 | carried by `Organize.CandidateInjective` and `Organize.Destination`: different counters give different names, and the copy takes the smallest free one |
| Organize.Destination | prooflab/organize_files.py:153-163 | a dry run or a move keeps the new name; a copy never lands on an existing name, keeps the name when it is free, and otherwise takes the smallest counter whose candidate is free |
| Roadmap.ScoreReliability | prooflab/fb_prooflab_081425_improved.py:36-46 | this copy of `_score_reliability` gives exactly the adapter's score, so it too lies in [0, 1] |
| Roadmap.PriorityValue | prooflab/fb_prooflab_081425_improved.py:114-119 | a priority's value lies between 1 and 4 |
| Roadmap.EnumsInjective | prooflab/fb_prooflab_081425_improved.py:114-127 | distinct members have distinct values, names and serialised forms |
| Roadmap.NewChecker | prooflab/fb_prooflab_081425_improved.py:130-142 | the given fields are kept and a None dependency list becomes `[]` |
| Roadmap.NewTheorem | prooflab/fb_prooflab_081425_improved.py:156-169 | the given fields are kept and a None related-checker list becomes `[]` |
| Roadmap.RecordDefaults | prooflab/fb_prooflab_081425_improved.py:135-165 | a checker or theorem built from its required fields alone is MEDIUM, PLANNED, with empty lists and no effort or strategy |
| Roadmap.CheckerToDict | prooflab/fb_prooflab_081425_improved.py:144-153 | exactly six keys, the priority by name, the status by value, and a missing effort as None |
| Roadmap.TheoremToDict | prooflab/fb_prooflab_081425_improved.py:171-181 | exactly seven keys, the priority by name, the status by value, and a missing strategy as None |
| Roadmap.CheckerFromData | prooflab/fb_prooflab_081425_improved.py:234-242 | a loaded checker keeps its name, is PLANNED, and takes MEDIUM when the entry gives no priority |
| Roadmap.TheoremFromData | prooflab/fb_prooflab_081425_improved.py:273-282 | a loaded theorem keeps its name, is PLANNED, and takes MEDIUM when the entry gives no priority |
| Roadmap.CheckersData | prooflab/fb_prooflab_081425_improved.py:210-232 | the built-in checker table has three entries |
| Roadmap.TheoremsData | prooflab/fb_prooflab_081425_improved.py:246-271 | the built-in theorem table has three entries |
| Roadmap.FirstIndex | prooflab/fb_prooflab_081425_improved.py:297-310 | no index exactly when the name is absent; otherwise the first position holding it |
| Roadmap.FirstIndexUnique | prooflab/fb_prooflab_081425_improved.py:297-310 | only the first position holding a name can be its first index |
| Roadmap.Filter | prooflab/fb_prooflab_081425_improved.py:317-328 | the kept items are exactly the accepted items of the list, never more than the list |
| Roadmap.FilterAppend | prooflab/fb_prooflab_081425_improved.py:317-328 | filtering distributes over concatenation, so kept items keep their order |
| Roadmap.PriorityIcon | prooflab/fb_prooflab_081425_improved.py:442-450 | "[UNK]" exactly for an argument that is not a priority |
| Roadmap.StatusIcon | prooflab/fb_prooflab_081425_improved.py:452-461 | "[UNK]" exactly for an argument that is not a status |
| Roadmap.IconsDistinct | prooflab/fb_prooflab_081425_improved.py:442-461 | every member has its own icon |
| Roadmap.Roadmap.constructor | prooflab/fb_prooflab_081425_improved.py:189-206 | the roadmap starts with the three built-in checkers and three built-in theorems, in table order |
| Roadmap.Roadmap.LoadCheckers | prooflab/fb_prooflab_081425_improved.py:234-242 | one checker per table entry is appended, in table order, after the checkers already there; the theorems are unchanged |
| Roadmap.Roadmap.LoadTheorems | prooflab/fb_prooflab_081425_improved.py:273-282 | one theorem per table entry is appended, in table order, after the theorems already there; the checkers are unchanged |
| Roadmap.Roadmap.AddChecker | prooflab/fb_prooflab_081425_improved.py:284-287 | the checker is appended at the end; the theorems are unchanged |
| Roadmap.Roadmap.AddTheorem | prooflab/fb_prooflab_081425_improved.py:289-292 | the theorem is appended at the end; the checkers are unchanged |
| Roadmap.Roadmap.UpdateStatus | prooflab/fb_prooflab_081425_improved.py:294-313 | found exactly when some checker or theorem has the name; the first checker with it is updated, failing that the first theorem, and nothing changes when none has it |
| Roadmap.Roadmap.ByPriority | prooflab/fb_prooflab_081425_improved.py:315-323 | the selection holds exactly the checkers and theorems of that priority |
| Roadmap.Roadmap.ByStatus | prooflab/fb_prooflab_081425_improved.py:325-333 | the selection holds exactly the checkers and theorems with that status |
| Roadmap.AddedCheckerSelectedLast | prooflab/fb_prooflab_081425_improved.py:284-317 | an added checker comes last in its priority's selection, after the ones already there |
| Roadmap.UpdatedCheckerSelected | prooflab/fb_prooflab_081425_improved.py:294-327 | an updated checker is in the new status's selection |
| Roadmap.InitialCriticalItems | prooflab/fb_prooflab_081425_improved.py:210-232 | exactly one built-in checker is CRITICAL |
| Roadmap.PriorityName | prooflab/fb_prooflab_081425_improved.py:114-118 | carried by `Roadmap.EnumsInjective` and `Roadmap.CheckerToDict`: distinct priorities have distinct names, and the name is what `to_dict` writes |
| Roadmap.StatusValue | prooflab/fb_prooflab_081425_improved.py:122-127 | carried by `Roadmap.EnumsInjective` and `Roadmap.CheckerToDict`: distinct statuses have distinct values, and the value is what `to_dict` writes |
| Intake.ReplaceAllRemoves | prooflab/intake_docx.py:11-12 | no key of the symbol table survives the replacement loop |
| Intake.ReplaceAllAbsent | prooflab/intake_docx.py:11-12 | a text holding no key comes through the replacement loop unchanged |
| Intake.CollapseSpec | prooflab/intake_docx.py:13 | collapsing whitespace runs leaves only single plain spaces and introduces no other character |
| Intake.Norm | prooflab/intake_docx.py:6-13 | the loop that rebinds the text once per table entry, then collapses and strips, computes the normal form |
| Intake.NormRemovesSymbols | prooflab/intake_docx.py:6-13 | no listed Unicode symbol is left in a normalised text |
| Intake.NormNormalized | prooflab/intake_docx.py:6-13 | a normalised text is single-spaced and has no whitespace at either end |
| Intake.NormIdempotent | prooflab/intake_docx.py:6-13 | normalising twice gives the same text as normalising once |
| Intake.SymbolsTable | prooflab/intake_docx.py:7-10 | the replacement table maps single characters to ASCII text, and none of its keys is whitespace |
| Intake.AnyIn | prooflab/intake_docx.py:16 | true exactly when some token occurs in the text |
| Intake.SplitHasTwo | prooflab/intake_docx.py:19-23 | a text containing "=" splits into at least two pieces, so the length guard never fires |
| Intake.SplitIdentityAtLast | prooflab/intake_docx.py:18-28 | the sides are the stripped text before and after the LAST "=", and there is no identity when either is empty |
| Intake.SplitIdentitySides | prooflab/intake_docx.py:18-28 | a split identity has two non-empty sides and no "=" on its right-hand side |
| Intake.IdentityLooksMath | prooflab/intake_docx.py:15-28 | every text that splits into an identity also passes the math filter, so the filter drops no identity |
| Intake.TokensMatch | prooflab/intake_docx.py:31 | the regular-expression scan finds exactly the whole-word identifiers starting with a letter |
| Intake.DedupOfDistinct | prooflab/intake_docx.py:31 | deduplicating a list without repeats gives it back unchanged |
| Intake.GuessSymbolsSpec | prooflab/intake_docx.py:30-33 | at most twelve distinct names, each a whole-word identifier that is not a function name; with fewer than twelve, every such identifier is included |
| Intake.NormAllNormalized | prooflab/intake_docx.py:44-50 | every normalised text is in normal form |
| Intake.CandidatesSpec | prooflab/intake_docx.py:44-52 | every candidate line is normalised, looks like math and carries its tag |
| Intake.KeepMath | prooflab/intake_docx.py:43-52 | each loop keeps exactly the normalised texts that look like math, in order, after the lines already gathered |
| Intake.ExtractFromDocx | prooflab/intake_docx.py:35-55 | the paragraph candidates come first, then the table-cell candidates |
| Intake.ExtractedLines | prooflab/intake_docx.py:35-55 | every returned line is normalised and looks like math |
| Intake.CidInjective | prooflab/intake_docx.py:89-91 | distinct base names or counter values never produce the same claim id |
| Intake.AddConsistent | prooflab/intake_docx.py:89-101 | adding a claim numbered by the next count of its base keeps the ids distinct and the id map in step with the claims |
| Intake.GatherConsistent | prooflab/intake_docx.py:81-103 | every state the claim loop reaches from a consistent state is consistent |
| Intake.GatherConcat | prooflab/intake_docx.py:81-103 | processing two runs of lines one after the other equals processing them together |
| Intake.CollectDoc | prooflab/intake_docx.py:83-103 | the inner loop over one document's lines carries the claim state forward exactly as the whole-run definition does |
| Intake.CollectClaims | prooflab/intake_docx.py:81-103 | claim ids are pairwise distinct, and every claim's id is mapped to its document |
| Intake.YqReadsBackWithoutBackslash | prooflab/intake_docx.py:108 | text without backslashes reads back unchanged from a YAML double-quoted scalar |
| Intake.YqMangledBackslash | prooflab/intake_docx.py:108-114 | a LaTeX command such as "\\alpha" reads back as a bell character followed by "lpha" |
| Intake.YqFixedReadsBack | prooflab/intake_docx.py:108 | with backslashes escaped as well, every text reads back unchanged |
| Intake.YqFixedAgrees | prooflab/intake_docx.py:108 | on text without backslashes the corrected quoting equals the original |
| Intake.NormOf | prooflab/intake_docx.py:6-13 | carried by `Intake.NormRemovesSymbols`, `Intake.NormNormalized` and `Intake.NormIdempotent`: no listed symbol is left, the text is single-spaced and stripped, and normalising twice changes nothing |
| Intake.Collapse | prooflab/intake_docx.py:13 | carried by `Intake.CollapseSpec`: only single plain spaces remain and no other character is introduced |
| Intake.ReplaceAll | prooflab/intake_docx.py:11-12 | carried by `Intake.ReplaceAllRemoves` and `Intake.ReplaceAllAbsent`: no key survives, and a text holding no key is unchanged |
| Intake.LooksMath | prooflab/intake_docx.py:15-16 | carried by `Intake.AnyIn` and `Intake.IdentityLooksMath`: true exactly when one of the eight tokens occurs |
| Intake.SplitIdentity | prooflab/intake_docx.py:18-28 | carried by `Intake.SplitIdentityAtLast` and `Intake.SplitIdentitySides`: the stripped sides of the last "=", or none when either side is empty |
| Intake.Tokens | prooflab/intake_docx.py:31 | carried by `Intake.TokensMatch`: exactly the whole-word identifiers that start with a letter |
| Intake.GuessSymbols | prooflab/intake_docx.py:30-33 | carried by `Intake.GuessSymbolsSpec`: at most twelve distinct non-function identifiers, all of them when there are fewer |
| Intake.Base | prooflab/intake_docx.py:89 | carried by `Intake.CidInjective`: the document stem with spaces replaced by underscores, from which claim ids are built |
| Intake.Cid | prooflab/intake_docx.py:91 | carried by `Intake.CidInjective`: distinct bases or counters never give the same id |
| Intake.Yq | prooflab/intake_docx.py:108 | carried by `Intake.YqReadsBackWithoutBackslash` and `Intake.YqMangledBackslash`: text without backslashes reads back unchanged, a backslash command does not |
| Intake.YamlEscape | prooflab/intake_docx.py:108 | the escape sequences of a double-quoted scalar in section 5.7 of YAML 1.2, used by the read-back lemmas of `Intake.Yq` |
| Intake.Gather | prooflab/intake_docx.py:81-103 | carried by `Intake.GatherConsistent`, `Intake.GatherConcat` and `Intake.CollectClaims`: ids stay distinct and mapped to their documents |
| Johnson.Span | johnson_filter.py:15 | the length of the longest prefix whose characters all satisfy the class |
| Johnson.MatchLen | johnson_filter.py:15 | the length of the pattern's match at the start of the text, the alternatives tried left to right; 0 when nothing matches |
| Johnson.FindAllTokens | johnson_filter.py:15 | every match is a whole token of the pattern and occurs in the text |
| Johnson.FindAllNone | johnson_filter.py:15 | a text without letters, underscores, backslashes or Greek letters has no symbols |
| Johnson.NonStop | johnson_filter.py:16-17 | the matches whose lower-cased form is not a stop-word, in order |
| Johnson.FindSymbolsSpec | johnson_filter.py:13-17 | no repeats; a string is reported exactly when the pattern matches it and it is no stop-word in any letter case |
| Johnson.KeywordsIn | johnson_filter.py:22-24 | the loop collects exactly the keywords occurring in the lower-cased text, in keyword order |
| Johnson.FindOps | johnson_filter.py:19-25 | `dict.fromkeys` removes nothing: the result is the keyword loop's output |
| Johnson.OpsInMembers | johnson_filter.py:22-24 | a keyword is reported exactly when it occurs in the lower-cased text |
| Johnson.OpsInDistinct | johnson_filter.py:22-25 | distinct keywords are reported at most once each |
| Johnson.OpsInOrdered | johnson_filter.py:22-25 | the reported keywords keep the keyword-table order |
| Johnson.FindOpsSpec | johnson_filter.py:6-25 | each keyword occurring in the lower-cased claim is reported once, in order; "<=" always brings "<" and "=", and ">=" brings ">" and "=" |
| Johnson.EqualityOps | johnson_filter.py:35 | an equality keyword is reported exactly when one occurs in the lower-cased claim |
| Johnson.AnalyzeClaim | johnson_filter.py:27-51 | the claim is stripped; the ambiguity note appears exactly when no equality keyword occurs; each risk appears, in order, exactly when its trigger occurs and no assumption mentions "domain" (resp. "identity") |
| Johnson.JoinMentions | johnson_filter.py:37-39 | a space-free word occurs in the lower-cased, space-joined assumptions exactly when some single assumption mentions it |
| Johnson.FindSymbols | johnson_filter.py:13-17 | carried by `Johnson.FindSymbolsSpec`: no repeats, and a string is reported exactly when the pattern matches it and it is no stop-word in any letter case |
| Johnson.FindAll | johnson_filter.py:15 | carried by `Johnson.FindAllTokens` and `Johnson.FindAllNone`: every match is a whole token of the pattern found in the text |
| Johnson.OpsIn | johnson_filter.py:22-24 | carried by `Johnson.OpsInMembers`, `Johnson.OpsInDistinct` and `Johnson.OpsInOrdered`: exactly the occurring keywords, once each, in table order |
| Johnson.QuantifierRisk | johnson_filter.py:37 | carried by `Johnson.AnalyzeClaim`: the quantifier risk is reported exactly when "for all" or "∀" occurs and no assumption mentions "domain" |
| Johnson.TrigRisk | johnson_filter.py:39 | carried by `Johnson.AnalyzeClaim`: the trigonometric risk is reported exactly when "sin" and "cos" occur and no assumption mentions "identity" |
| Cassette.MakeConfig | prooflab/cassette_shell_engine_improved.py:31-45 | a configuration is built exactly when the id length lies between 8 and 32, keeping the given fields; otherwise ValueError with the source's message |
| Cassette.DefaultConfigValid | prooflab/cassette_shell_engine_improved.py:31-45 | the default configuration passes its own range check, with encryption on and twelve-character ids |
| Cassette.MakeMetadata | prooflab/cassette_shell_engine_improved.py:47-62 | the CSP tag is never empty: a given tag is kept, an empty one becomes the generated "FB-CSP-HV-" tag; every other field is kept |
| Cassette.CspTagEndsWithId | prooflab/cassette_shell_engine_improved.py:59-62 | the generated tag ends with the first six characters of the cassette id |
| Cassette.ValidateName | prooflab/cassette_shell_engine_improved.py:164-183 | a name is accepted exactly when it is not blank, has at most 255 characters and holds no forbidden character; the blank check comes first, then the length check |
| Cassette.Hex | prooflab/cassette_shell_engine_improved.py:196 | the hex text has two lower-case hex digits per byte |
| Cassette.Engine.constructor | prooflab/cassette_shell_engine_improved.py:98-108 | a missing configuration is replaced by the default one, and there is no key yet |
| Cassette.Engine.SetEncryptionPassword | prooflab/cassette_shell_engine_improved.py:151-161 | a password is accepted exactly when it has at least eight characters; a refused one leaves the key as it was; an accepted one installs the key derived from it |
| Cassette.Engine.CassetteId | prooflab/cassette_shell_engine_improved.py:185-197 | the id is the first `id_length` hex digits of the digest of name, timestamp and nonce |
| Cassette.Engine.CreateCassette | prooflab/cassette_shell_engine_improved.py:199-242 | creation succeeds exactly when the name validates, and a bad name is reported as a creation failure carrying the validation message |
| Cassette.Engine.EncryptContent | prooflab/cassette_shell_engine_improved.py:244-262 | the content is encrypted exactly when encryption is on and a key is set; otherwise it is returned unchanged |
| Cassette.Engine.AddPayload | prooflab/cassette_shell_engine_improved.py:285-325 | accepted exactly when the directory exists and the file name is valid; the stored text is encrypted only as `_encrypt_content` allows |
| Cassette.Engine.AddPayloadCorrected | prooflab/cassette_shell_engine_improved.py:294-314 | an explicit encryption request is honoured whenever a key is set, whatever the configured default |
| Cassette.AddPayloadIgnoresExplicitEncrypt | prooflab/cassette_shell_engine_improved.py:309-314 | on an engine whose configuration disables encryption and that holds a derived key, `add_payload(..., encrypt=True)` as written stores the content in clear, while the corrected call stores its encryption (also prooflab/cassette_shell_engine_improved.py:254) |
| Cassette.SealCassette | prooflab/cassette_shell_engine_improved.py:343-396 | a missing directory fails and writes nothing; otherwise the seal covers the `.json` and `.txt` files, hashing their sorted digests, and `seal.json` is written |
| Cassette.Find | prooflab/cassette_shell_engine_improved.py:410-418 | a found entry has the requested name and lies in the listing; none is found only when no entry has that name |
| Cassette.VerifyIntegrity | prooflab/cassette_shell_engine_improved.py:398-439 | false without a stored hash; otherwise the cassette is sealed again and the result is whether the new hash equals the stored one |
| Cassette.WriteNewFile | prooflab/cassette_shell_engine_improved.py:387-389 | writing a file that does not exist yet lists it last |
| Cassette.SealFileHashed | prooflab/cassette_shell_engine_improved.py:367-387 | `seal.json` itself has a hashed suffix |
| Cassette.StoredAfterWrite | prooflab/cassette_shell_engine_improved.py:387-420 | the seal file just written is the one verification reads its hash from |
| Cassette.SealThenVerify | prooflab/cassette_shell_engine_improved.py:367 | verifying right after a first seal hashes a list one digest longer, so it succeeds only if SHA-256 collides (also prooflab/cassette_shell_engine_improved.py:387-389, prooflab/cassette_shell_engine_improved.py:425-428) |
| Cassette.HashesFixedIgnoreSeal | prooflab/cassette_shell_engine_improved.py:366-371 | with `seal.json` left out of the digest list, writing the seal leaves the covered files as they were |
| Cassette.SealThenVerifyFixed | prooflab/cassette_shell_engine_improved.py:366-371 | with `seal.json` left out, verifying right after sealing reproduces the stored hash whatever the hash function (also prooflab/cassette_shell_engine_improved.py:425-428) |
| Cassette.ValidFilename | prooflab/cassette_shell_engine_improved.py:305 | carried by `Cassette.Engine.AddPayload`: a payload is accepted exactly when its name is non-empty, holds no ".." and is not absolute |
| Cassette.ShouldEncrypt | prooflab/cassette_shell_engine_improved.py:309 | carried by `Cassette.Engine.AddPayload` and `Cassette.Engine.AddPayloadCorrected`: an explicit flag wins, otherwise the configured default |
| Cassette.Hashes | prooflab/cassette_shell_engine_improved.py:362-369 | carried by `Cassette.SealCassette` and `Cassette.SealThenVerify`: the digests of the `.json` and `.txt` files, in listing order |
| Cassette.SealInput | prooflab/cassette_shell_engine_improved.py:375 | carried by `Cassette.SealThenVerify`: the sorted digests joined, so one more digest changes the sealed text |
| Cassette.SealOf | prooflab/cassette_shell_engine_improved.py:343-396 | carried by `Cassette.SealCassette` and `Cassette.VerifyIntegrity`: what sealing returns for a listing |
| Cassette.StoredHash | prooflab/cassette_shell_engine_improved.py:410-420 | carried by `Cassette.VerifyIntegrity` and `Cassette.StoredAfterWrite`: the hash the seal file holds, none when there is no seal or no hash |
| Guard.Source | math/__FBMathEngine__/fb_math_engine_improved_v3.py:307-319 | the message shows a plain word as itself and a call pattern as the name followed by the whitespace-and-parenthesis suffix |
| Guard.ParenAfterSpec | math/__FBMathEngine__/fb_math_engine_improved_v3.py:309-312 | "\\s*\\(" after a position holds exactly when only whitespace lies between it and an opening parenthesis |
| Guard.CallWithSpaceCaught | math/__FBMathEngine__/fb_math_engine_improved_v3.py:309-312 | a lower-case call name followed by a space and `(` matches its call pattern wherever it sits in the text (also math/__FBMathEngine__/fb_math_engine_improved_v2.py:172-177) |
| Guard.DunderCaught | math/__FBMathEngine__/fb_math_engine_improved_v3.py:313 | every `__w__` with `w` a non-empty run of word characters matches the dunder pattern (also math/__FBMathEngine__/fb_math_engine_improved_v2.py:178) |
| Guard.FirstMatch | math/__FBMathEngine__/fb_math_engine_improved_v3.py:316-320 | a reported pattern is in the list and matches; none is reported exactly when no pattern matches |
| Guard.FirstMatchIsEarliest | math/__FBMathEngine__/fb_math_engine_improved_v3.py:316-320 | the pattern reported is the earliest one that matches |
| Guard.MessagesDiffer | math/__FBMathEngine__/fb_math_engine_improved_v3.py:318-327 | the dangerous-pattern message and the length message can never coincide |
| Guard.Validation | math/__FBMathEngine__/fb_math_engine_improved_v3.py:293-327 | disabled validation accepts everything; otherwise the text is accepted exactly when no pattern matches and it is within the length limit; the first matching pattern is the one reported, and the length error arises only once every pattern has passed (also math/__FBMathEngine__/fb_math_engine_improved_v2.py:156-192) |
| Guard.Validate | math/__FBMathEngine__/fb_math_engine_improved_v3.py:303-327 | the pattern loop followed by the length check gives exactly the validation outcome (also math/__FBMathEngine__/fb_math_engine_improved_v2.py:166-192) |
| Guard.IsText | math/__FBMathEngine__/fb_math_engine_improved_v3.py:605 | an input passes the string check exactly when it is a non-empty `str` (also math/__FBMathEngine__/fb_math_engine_improved_v2.py:554) |
| Guard.ValidateExpression | math/__FBMathEngine__/fb_math_engine_improved_v3.py:330-356 | never raises: (True, None) exactly when validation and parsing both succeed; otherwise False with a message, the validation error's own message when validation fails (also math/__FBMathEngine__/fb_math_engine_improved_v2.py:195-221) |
| Guard.Matches | math/__FBMathEngine__/fb_math_engine_improved_v3.py:317 | carried by `Guard.CallWithSpaceCaught`, `Guard.DunderCaught` and `Guard.FirstMatch`: a case-insensitive search for the pattern anywhere in the text |
| MathV3.Evicted | math/__FBMathEngine__/fb_math_engine_improved_v3.py:146-147 | eviction never grows the queue, a non-empty result starts at or after the cutoff, and a queue that already does is left as it is |
| MathV3.EvictedSuffix | math/__FBMathEngine__/fb_math_engine_improved_v3.py:146-147 | eviction removes a prefix, and only timestamps strictly older than the cutoff; one exactly at the boundary stays |
| MathV3.EvictedWithinWindow | math/__FBMathEngine__/fb_math_engine_improved_v3.py:142-150 | with a clock that never runs back, every kept timestamp lies in the window ending now, and appending now keeps the queue sorted |
| MathV3.Cap | math/__FBMathEngine__/fb_math_engine_improved_v3.py:149 | the most calls a limiter can hold: `max_calls`, or none when it is negative |
| MathV3.RateLimiter.constructor | math/__FBMathEngine__/fb_math_engine_improved_v3.py:137-140 | the limits are stored and the queue starts empty |
| MathV3.RateLimiter.Allow | math/__FBMathEngine__/fb_math_engine_improved_v3.py:142-152 | after eviction, the call is allowed exactly when fewer than `max_calls` timestamps remain; an allowed call appends now, a refused one appends nothing; the queue never exceeds `max_calls` |
| MathV3.RateLimiter.Reset | math/__FBMathEngine__/fb_math_engine_improved_v3.py:154-156 | the queue is emptied and the limits are kept |
| MathV3.Evaluation | math/__FBMathEngine__/fb_math_engine_improved_v3.py:602-613 | a missing, empty or non-string expression fails with ValueError first; then a refused rate slot; then the blacklist; only an expression passing all three reaches the evaluator |
| MathV3.Solution | math/__FBMathEngine__/fb_math_engine_improved_v3.py:693-707 | the equation, then the symbol, are checked, then the rate slot, then the blacklist on the equation alone |
| MathV3.Consumed | math/__FBMathEngine__/fb_math_engine_improved_v3.py:609 | a call that reaches the rate check leaves the evicted queue, plus now when admitted (also math/__FBMathEngine__/fb_math_engine_improved_v3.py:703) |
| MathV3.MathEngine.constructor | math/__FBMathEngine__/fb_math_engine_improved_v3.py:96-110 | the default configuration, with a limiter of 100 calls per 60 seconds and an empty queue (also math/__FBMathEngine__/fb_math_engine_improved_v3.py:159-162) |
| MathV3.MathEngine.Configure | math/__FBMathEngine__/fb_math_engine_improved_v3.py:169-190 | the new configuration is installed in every case; a log level name that is not a level raises as `MathV3.SetLevel` says and keeps the old limiter; a level installs a fresh empty limiter with the new limits |
| MathV3.MathEngine.ConfigureCorrected | math/__FBMathEngine__/fb_math_engine_improved_v3.py:169-190 | a log level name that is not a level changes neither the configuration nor the limiter; a level installs both |
| MathV3.MathEngine.EvaluateExpression | math/__FBMathEngine__/fb_math_engine_improved_v3.py:562-650 | the result is the evaluation outcome, and the limiter's queue changes exactly as one rate check does, and only when the input passed its check and rate limiting is on |
| MathV3.MathEngine.SolveEquation | math/__FBMathEngine__/fb_math_engine_improved_v3.py:653-744 | the result is the solving outcome, and the limiter's queue changes only after both inputs passed their checks |
| MathV3.ZeroLimitRefuses | math/__FBMathEngine__/fb_math_engine_improved_v3.py:149-152 | a limiter allowing zero calls refuses every call |
| MathV3.FullWindowRefuses | math/__FBMathEngine__/fb_math_engine_improved_v3.py:146-152 | a queue of `max_calls` timestamps all inside the window refuses the next call and stays as it is |
| MathV3.DangerousStillConsumes | math/__FBMathEngine__/fb_math_engine_improved_v3.py:609-613 | a dangerous expression, refused by the blacklist, has already taken a rate slot when the limiter admitted it |
| MathV3.KnownLevel | math/__FBMathEngine__/fb_math_engine_improved_v3.py:180 | carried by `MathV3.SetLevel`: the eight level names are the ones `setLevel` accepts |
| MathV3.SetLevel | math/__FBMathEngine__/fb_math_engine_improved_v3.py:180 | setting the level succeeds exactly for the eight level names, with a level number; `BASIC_FORMAT` raises ValueError("Unknown level: ..."), `_STYLES` raises TypeError, and every other name raises AttributeError |
| MathV3.Refuses | math/__FBMathEngine__/fb_math_engine_improved_v3.py:146-152 | carried by `MathV3.RateLimiter.Allow`, `MathV3.ZeroLimitRefuses` and `MathV3.FullWindowRefuses`: a call is refused exactly when the evicted queue already holds `max_calls` timestamps |
| MathV2.StricterThanV3 | math/__FBMathEngine__/fb_math_engine_improved_v2.py:170-179 | whatever passes this eight-pattern blacklist passes the six-pattern one of the third revision (also math/__FBMathEngine__/fb_math_engine_improved_v3.py:307-314) |
| MathV2.ProfileMatchesFile | math/__FBMathEngine__/fb_math_engine_improved_v2.py:176 | the `file\\s*\\(` pattern, searched ignoring case, matches "Profile (x)" |
| MathV2.ProfileRejected | math/__FBMathEngine__/fb_math_engine_improved_v2.py:176-185 | with the default configuration, "Profile (x)" is rejected although it names no dangerous call |
| MathV2.Evaluate | math/__FBMathEngine__/fb_math_engine_improved_v2.py:519-565 | a missing, empty or non-string expression raises ValueError, then the blacklist runs; only an expression passing both reaches the evaluator |
| MathV2.RejectedBeforeEvaluation | math/__FBMathEngine__/fb_math_engine_improved_v2.py:554-558 | a rejected expression never reaches the evaluator: the outcome does not depend on it |
| MathV2.Solve | math/__FBMathEngine__/fb_math_engine_improved_v2.py:568-622 | the equation, then the symbol, are checked; then the equation alone is validated, before any solver runs |
| MathV2.SymbolNotValidated | math/__FBMathEngine__/fb_math_engine_improved_v2.py:611-614 | the symbol is never run through the blacklist, so a dunder symbol reaches the solver |
| Reliability.Successes | src/foundations_bridge/reliability.py:37 | the success count is at most the number of outcomes, zero exactly when none succeeded, and full exactly when all did |
| Reliability.Rolling | src/foundations_bridge/reliability.py:34-37 | 0.0 with no outcomes; always within [0, 1]; 0 exactly when no run succeeded and 1 exactly when every retained run did |
| Reliability.RollingTwoThirds | tests/test_reliability.py:7-9 | true, true, false gives two thirds |
| Reliability.Retained | src/foundations_bridge/reliability.py:17-23 | after an append only the last `window` outcomes are kept, newest last |
| Reliability.RecordMovesRate | src/foundations_bridge/reliability.py:23-37 | while the window is not full, a success never lowers the rolling rate and a failure never raises it |
| Reliability.ReliabilityTracker.constructor | src/foundations_bridge/reliability.py:15-17 | the window and log path are stored and no outcome is held |
| Reliability.ReliabilityTracker.Record | src/foundations_bridge/reliability.py:21-32 | `bool(success)` is appended within the window and the rolling rate after the append is returned |
| Reliability.ReliabilityTracker.Passed | src/foundations_bridge/reliability.py:40-41 | true exactly when the latest retained outcome is a success; false when nothing is held |
| Reliability.NewTracker | src/foundations_bridge/reliability.py:9-17 | a missing configuration becomes the default one (window 200); a negative window raises ValueError |
| Reliability.AsWrittenLogHasNoLineBreak | src/foundations_bridge/reliability.py:45 | as written, appending a record never adds a line break to the log |
| Reliability.LogLineEndsLine | src/foundations_bridge/reliability.py:43-45 | with a real line break, each record adds exactly one line break and the log ends with one |
| ParityQubit.FlipParity | math/__FBMathEngine__/Fermion_Parity_Qubit_improved.py:127 | 0 and 1 swap, and any int changes its lowest bit (also math/__FBMathEngine__/Fermion_Parity_Qubit.py:10) |
| ParityQubit.FlipTwice | math/__FBMathEngine__/Fermion_Parity_Qubit_improved.py:127 | flipping twice restores the parity, for every int (also math/__FBMathEngine__/Fermion_Parity_Qubit.py:10) |
| ParityQubit.FermionParityQubit.constructor | math/__FBMathEngine__/Fermion_Parity_Qubit_improved.py:65-67 | the parity is stored and both counters start at 0 |
| ParityQubit.FermionParityQubit.Braid | math/__FBMathEngine__/Fermion_Parity_Qubit_improved.py:99-128 | a non-int raises TypeError, an int other than 1 raises QuasiparticleError, and neither changes anything; an accepted braid flips the parity and counts one braid |
| ParityQubit.FermionParityQubit.Measure | math/__FBMathEngine__/Fermion_Parity_Qubit_improved.py:130-142 | returns the parity, leaves it unchanged and counts one measurement |
| ParityQubit.FermionParityQubit.Reset | math/__FBMathEngine__/Fermion_Parity_Qubit_improved.py:157-171 | a parity other than 0 or 1 raises ParityError and changes nothing; a valid one is set; the counters are never touched |
| ParityQubit.FermionParityQubit.StateVector | math/__FBMathEngine__/Fermion_Parity_Qubit_improved.py:144-155 | [+1] exactly for even parity, [-1] otherwise |
| ParityQubit.FermionParityQubit.Statistics | math/__FBMathEngine__/Fermion_Parity_Qubit_improved.py:173-184 | exactly the three keys, holding the parity and both counters |
| ParityQubit.NewQubit | math/__FBMathEngine__/Fermion_Parity_Qubit_improved.py:49-67 | an initial parity outside {0, 1} raises ParityError; otherwise a valid qubit with both counters at 0 |
| ParityQubit.BraidTwice | math/__FBMathEngine__/Fermion_Parity_Qubit_improved.py:99-128 | two braids restore the parity and count two braids |
| ParityQubit.EqualityIgnoresCounters | math/__FBMathEngine__/Fermion_Parity_Qubit_improved.py:210-222 | a qubit braided twice and measured once still equals a fresh qubit of the same parity, both ways, with the same state vector, although their braid and measurement counters differ |
| LegacyParityQubit.FermionParityQubit.constructor | math/__FBMathEngine__/Fermion_Parity_Qubit.py:4-6 | the parity is stored |
| LegacyParityQubit.FermionParityQubit.Braid | math/__FBMathEngine__/Fermion_Parity_Qubit.py:8-10 | an argument not equal to 1 fails the assertion and changes nothing; otherwise the parity flips |
| LegacyParityQubit.FermionParityQubit.Measure | math/__FBMathEngine__/Fermion_Parity_Qubit.py:12-13 | the parity, 0 or 1 on a valid qubit |
| LegacyParityQubit.FermionParityQubit.StateVector | math/__FBMathEngine__/Fermion_Parity_Qubit.py:15-16 | [+1] exactly for parity 0, [-1] otherwise |
| LegacyParityQubit.NewQubit | math/__FBMathEngine__/Fermion_Parity_Qubit.py:4-6 | an initial parity outside {0, 1} fails the assertion; otherwise a valid qubit |
| LegacyParityQubit.BraidArgumentsCompared | math/__FBMathEngine__/Fermion_Parity_Qubit.py:9 | the two versions accept the same braid arguments except the float 1.0, which only the original accepts (also math/__FBMathEngine__/Fermion_Parity_Qubit_improved.py:113-124) |
| Resonance.DetectResonance | math/__FBMathEngine__/resonance_improved.py:14-49 | true exactly for "0+" and "♡0+" |
| Resonance.NearMissesRejected | math/__FBMathEngine__/resonance_improved.py:35-49 | near misses are rejected: no trimming, no sign change |
| Resonance.DetectResonanceWithValidation | math/__FBMathEngine__/resonance_improved.py:52-79 | a non-string raises TypeError naming its type; a string gets the plain answer |
| Resonance.NewDetector | math/__FBMathEngine__/resonance_improved.py:106-116 | None gives the two default signals; a list gives exactly its elements |
| Resonance.Detect | math/__FBMathEngine__/resonance_improved.py:118-128 | membership in the detector's signal set |
| Resonance.AddSignal | math/__FBMathEngine__/resonance_improved.py:130-150 | the new detector holds the old signals plus the new one; every other answer is unchanged, and the receiver is a value left as it was |
| Resonance.DefaultAgrees | math/__FBMathEngine__/resonance_improved.py:14 | the default detector answers exactly as `detect_resonance` (also math/__FBMathEngine__/resonance_improved.py:114-116) |
| Resonance.CustomIgnoresDefaults | math/__FBMathEngine__/resonance_improved.py:99-128 | a detector built from its own list does not recognise the default signals |
| EngineCore.RunEngine | math/__FBMathEngine__/core.py:3-10 | the loading line is always printed; exactly the seed "0+" prints three more lines and returns the triad; any other seed gets the invalid message |
| EngineCore.ValidateSeed | math/__FBMathEngine__/core_improved.py:76-90 | a seed type is returned exactly for "0+", and its value is the seed |
| EngineCore.ProcessSeed | math/__FBMathEngine__/core_improved.py:92-109 | the valid seed produces the triad |
| EngineCore.CoreRunEngine | math/__FBMathEngine__/core_improved.py:111-152 | success exactly for "0+"; failure gives the invalid message with the seed and an error in the metadata; success gives the triad with the seed and its type |
| EngineCore.LegacyRunEngine | math/__FBMathEngine__/core_improved.py:156-180 | the legacy wrapper returns the result's output |
| EngineCore.LegacyMatchesOriginal | math/__FBMathEngine__/core_improved.py:156-180 | the improved module's legacy wrapper prints and returns exactly what the original does (also math/__FBMathEngine__/core.py:3-10) |
| EngineCore.PaddedSeedInvalid | math/__FBMathEngine__/core.py:5 | the seed comparison is exact: a padded seed is invalid (also math/__FBMathEngine__/core_improved.py:86-90) |
| EngineCore.SeedValue | math/__FBMathEngine__/core_improved.py:17-19 | carried by `EngineCore.ValidateSeed`: the only seed type has the value "0+" |

## Left out

- SymPy, numpy and `lambdify`: they are oracles. Nothing is proved about symbolic algebra, matrix norms or SVD. The model states only how the strategies combine the oracle's answers.
- `random.uniform` and the module-global generator: each sampling run takes an explicit stream of draws. The runner gives each claim its own stream, so the generator state shared between claims is not modelled.
- Floating point: tolerances, rates and scores are exact reals. `round(...)` in success rates and reliability scores is left out, as are NaN propagation details beyond the `Fl` cases, and all of `geometry_improved.py`.
- File, YAML, JSON, docx and network I/O is left out. This covers:
  - `load_claims_from_yaml` and the report writers (`save_report`, `write_summary` and the like);
  - `save_proof_result`, `load_proof_result`, `list_proof_results`, `delete_old_proofs` and `_safe_file_write`;
  - the cassette directory and `meta.json` writes, `_decrypt_content` and `list_cassettes`;
  - the JSON dumps themselves (`json.dump` layouts are function parameters);
  - the `main` functions of `intake_docx.py` and `organize_files.py` beyond their claim, results, claims-map and routing loops (argument parsing, `rglob` order, docx opening, `read_doc_subject`, `file_dt_str`, `copy2`);
  - the YAML text of the intake beyond the quoting of one scalar.
- Encryption and hashing: the Fernet token, PBKDF2 derivation, SHA-256 and `os.urandom` are parameters or an opaque `Key` value. Salt generation is an input.
- Concurrency and timeouts: the process-pool mechanics of `run_claims_parallel` are reduced to the completion order of the futures, given as a permutation. Thread-pool batch helpers, `_run_with_timeout` and the SIGALRM `timeout` are left out.
- Caching, import fallbacks and logging: the `lru_cache` wrappers, `cache_clear`, `use_cache`, `_try_import_canonical`, `_get_sympy` and every logger call are left out. `setup_logging` and `_setup_logging` are left out too.
- Python `str.lower`/`upper`, `\w` and `re.IGNORECASE` are modelled on ASCII letters only. `str.isspace` is modelled on Python's whitespace set.
- Set iteration order (`guess_symbols`, `_find_symbols`): the model keeps the order of first occurrence, and the lemmas state only what holds in any order (membership, no repeats, the cap of twelve).
- `pathlib` normalisation: paths are strings. `Path(x)` keeps the text, and `.name`, `.suffix` and `.stem` are modelled on the last `/`-separated component.
- The roadmap's `display_roadmap` and `export_to_json` are left out (printing and file output). `urp` and `_log_urp_event` are left out (network). Records are values, so Python aliasing of a `Checker` object shared with the caller is not modelled.
- Reliability: the JSONL append is left out, and so are the timestamp and `label`/`meta` fields. `src/foundations_bridge/reliability.py:22` has an escaped docstring that Python rejects as written. The model follows the evident intent of the method body.
- Parity qubits: the constructor and `reset` of the improved class take an `int`. A bool or float argument, which Python's `in (0, 1)` would also accept, is not modelled. The legacy assertion messages and running under `-O` (which disables the assertions) are not modelled.
- `MathV3`: "Profile (x)" passing the six-pattern blacklist is not proved. Only the converse direction, `MathV2.StricterThanV3`, is proved. `get_config`, `_reset_module_state`, the simplification level and `use_cache` are not modelled. The evaluation and solving oracles stand for `_canonical_eval`, `_fallback_*` and the cache alike.
- `EngineCore`: printed lines are returned as a list of strings; logging and `verbose` are left out.
- Organize: `safe_ascii` is a function parameter (Unicode normalisation). The routing copy is reduced to choosing the destination name. Reading and parsing the results file is left out: the results loop starts from the parsed value, and a file that cannot be parsed is not modelled.
- Organize.Absorb: a truthy status that is not a string is stored as None. Python stores the value itself, and `rank` then raises AttributeError in the claims-map loop, which prints a warning and ends that loop early; that path is not modelled. A truthy id that is a number or a boolean is skipped, since no claim id of the claims map (a string) can look it up.
- Organize.JoinLabels: when several labels of mixed types are collected, Python's `sorted` raises TypeError with a message naming the two types it compared, and which pair it compares depends on set iteration order. The model gives the join's message for the first non-string label in rule order, without its "sequence item <n>: " head. The text passed to `detect_subjects` is an optional string, so a text that is neither a string nor falsy is not modelled.
- Py.ToFloat: a decimal or exponent literal beyond the double range reads as its exact real value, where Python gives inf, or 0.0 for an underflow. Rounding to the nearest double is not modelled either.
- MathV3.SetLevel: the TypeError that `setLevel` raises for `_STYLES` is given without the repr of the style table that ends Python's message.
- Sampling.Bounds, Sampling.Ends: a range bound that is an infinite or NaN float raises ValueError in the model, and that ends the strategy. Python passes the bound to `random.uniform` and samples inf or NaN coordinates. Draws are exact reals, so non-finite samples are not modelled.
- Py.Iterate, Py.Names: iterating a dictionary raises TypeError in the model, where Python iterates its keys in insertion order. `Dict` is an unordered map, so insertion order is not kept. A claim that gives a mapping where the source expects a list therefore raises in the model and is read key by key in Python. This affects `AdapterImproved.SectionLines`, `Induction.UserFacts` (a mapping under `assumptions[n_symbol]`), `Gate.Prepare` (`symbols`), `Lyapunov.Prepare` and `Contraction.Prepare` (`F_next`) `Sampling.Bounds` (a mapping as a range pair) and `Organize.DetectSubjectsIn` (a mapping under `subjects` or under a rule's `match`). The organiser's results loop is the exception: a dictionary there is modelled, because every key it yields raises the same AttributeError.
- Adapter: the `urp` network call is left out; only its fallback result is modelled.
- Reports: `_result_to_dict` in `reports_improved.py` is the same projection as in `reports.py`, so it is modelled once, as `Reports.ResultToDict`. Also left out, as file and console output: `_stats_to_dict`, the statistics timestamp, `get_markdown_content`, `generate_report` and the markdown/JSON writers and `print_summary` of both modules.
- Runner: argument parsing, YAML loading and report writing in `main` are left out. `main`'s control flow is modelled over the outcome of those steps: an interrupt, a raised error, an empty claim list, or the list of results.

## Findings

| source | as written | input that shows it | evidently intended | confidence | as-written member | corrected member |
|---|---|---|---|---|---|---|
| prooflab/fbprooflab/registry.py:49 | the Lyapunov status tests `symbolic_ok`, `ok` and `proved`, but the Lyapunov report only sets `passed` | any Lyapunov claim, e.g. V = x² under x_next = x/2, where every sample meets the target | the status is "proved" when the report's `passed` is true | high, not executed | Registry.LyapunovAlwaysRejected | Registry.LyapunovCorrectedProvedIffAllOk |
| prooflab/run_proofs_improved.py:28 | the parallel collector calls `future.get()`, which `concurrent.futures.Future` does not have | any non-empty claim list run with `--parallel` | `future.result()`, so the results are those of the sequential runner, sorted by id | high, not executed | Runner.ParallelAlwaysFails | Runner.RunClaimsParallelCorrected |
| prooflab/fbprooflab/strategies/induction.py:22-41 | an empty base range leaves `base_ok` true, so a step that holds proves the claim with no base case checked | `base_from = 2`, `base_to = 1`, with a predicate whose step holds | at least one base case must be checked before `proved` can be true | medium, not executed | Induction.VacuousBaseProves | Induction.ProvedWithBaseAgrees |
| prooflab/intake_docx.py:108 | `yq` escapes double quotes but not backslashes inside a YAML double-quoted scalar | the side `\alpha` reads back as a bell character followed by `lpha` | backslashes escaped too, so every text reads back unchanged | high, not executed | Intake.YqMangledBackslash | Intake.YqFixedReadsBack |
| prooflab/cassette_shell_engine_improved.py:367 | sealing hashes every `.json` file, including the `seal.json` it then writes, so verifying right after sealing (lines 425-428) hashes one more digest | seal a cassette holding only `meta.json`, then verify it | `seal.json` left out of the digest list, so a fresh seal verifies | high, not executed | Cassette.SealThenVerify | Cassette.SealThenVerifyFixed |
| prooflab/cassette_shell_engine_improved.py:313-314 | `_encrypt_content` (line 254) checks the configuration again, so an explicit `encrypt=True` is ignored when the configuration disables encryption | configuration with encryption off, a key set, `add_payload(..., encrypt=True)` | the explicit flag decides, as the parameter's documentation says | medium, not executed | Cassette.AddPayloadIgnoresExplicitEncrypt | Cassette.Engine.AddPayloadCorrected |
| math/__FBMathEngine__/fb_math_engine_improved_v3.py:177-190 | `configure` installs the new configuration before looking up the log level, so an unknown level raises with the new configuration paired with the old limiter | `configure(MathEngineConfig(log_level="verbose", rate_limit_max_calls=1))` | validate the level first, so a failed call changes nothing | medium, not executed | MathV3.MathEngine.Configure | MathV3.MathEngine.ConfigureCorrected |
| src/foundations_bridge/reliability.py:45 | each log record ends with a backslash and an `n`, not a line break | any two calls to `record` | one record per line, as the `.jsonl` format requires | high, not executed | Reliability.AsWrittenLogHasNoLineBreak | Reliability.LogLineEndsLine |
