/**
 * The improved ProofLab adapter: checking the structure of a proof result,
 * the retry loop around the structured-response call, the text rendering
 * of a result, and two small helpers (log truncation, path defaulting).
 * The structured-response service is a parameter: the outcome of its
 * `k`-th call.
 */
module AdapterImproved {
  import opened Text
  import opened Py

  const MaxPromptLogLength := 100
  const SeparatorWidth := 60

  // ---------------------------------------------------------------------
  // Path defaulting and log truncation
  // ---------------------------------------------------------------------

  /** A file-system path; no normalisation of its text is modelled. */
  datatype Path = Path(text: string)

  /** What `_normalize_path` accepts: None, a string, or a path. */
  datatype PathArg = NoPath | PathText(s: string) | PathObj(p: Path)

  const BuiltInReportDir := "C:\\Users\\DanV\\PFB\\Reports"

  /** The report directory: `PFB_REPORTS_DIR` when the environment sets it, otherwise the built-in one. */
  function DefaultReportDir(env: Option<string>): (p: Path)
    ensures env.None? ==> p.text == BuiltInReportDir
    ensures env.Some? ==> p.text == env.value
  {
    Path(if env.Some? then env.value else BuiltInReportDir)
  }

  /** `_normalize_path`: None becomes the report directory, a string its path, a path itself. */
  function NormalizePath(path: PathArg, env: Option<string>): (p: Path)
    ensures path.NoPath? ==> p == DefaultReportDir(env)
    ensures path.PathText? ==> p.text == path.s
    ensures path.PathObj? ==> p == path.p
  {
    match path
    case NoPath => DefaultReportDir(env)
    case PathText(s) => Path(s)
    case PathObj(p) => p
  }

  /** Normalising a normalised path changes nothing. */
  lemma NormalizePathIdempotent(path: PathArg, env: Option<string>)
    ensures NormalizePath(PathObj(NormalizePath(path, env)), env) == NormalizePath(path, env)
  {
  }

  /** `_truncate_for_logging`: short text is logged whole, long text cut to `maxLength` and marked with "...". */
  function TruncateForLogging(text: string, maxLength: int): (r: string)
    ensures |text| <= maxLength ==> r == text
    ensures 0 <= maxLength < |text| ==> r == text[..maxLength] + "..."
    ensures maxLength >= 0 ==> |r| <= maxLength + 3
  {
    Truncate(text, maxLength)
  }

  /** A logged prompt is at most 103 characters and starts with the prompt's first characters. */
  lemma LoggedPromptBounded(prompt: string)
    ensures |TruncateForLogging(prompt, MaxPromptLogLength)| <= 103
    ensures var r := TruncateForLogging(prompt, MaxPromptLogLength);
      var k := if |prompt| <= 100 then |prompt| else 100;
      r[..k] == prompt[..k]
  {
  }

  // ---------------------------------------------------------------------
  // validate_proof_result
  // ---------------------------------------------------------------------

  /** One type rule: the field, whether it must be a list (otherwise a string), and the message. */
  datatype Rule = Rule(field: string, isList: bool, msg: string)

  const Rules: seq<Rule> := [
    Rule("assumptions", true, "must be a list"),
    Rule("outline", true, "must be a list"),
    Rule("conclusion", false, "must be a string")
  ]

  predicate HasType(v: Value, isList: bool)
  {
    if isList then v.List? else v.Str?
  }

  /** The error one type rule contributes: a missing field, a wrong type, or none. */
  function RuleError(d: map<string, Value>, rule: Rule): (es: seq<string>)
    ensures |es| <= 1
    ensures es == [] <==> rule.field in d && HasType(d[rule.field], rule.isList)
  {
    if rule.field !in d then ["Missing required field: '" + rule.field + "'"]
    else if !HasType(d[rule.field], rule.isList) then
      ["Field '" + rule.field + "' " + rule.msg + ", got " + TypeName(d[rule.field])]
    else []
  }

  /** The errors of the type rules, in rule order. */
  function TypeErrors(d: map<string, Value>, rules: seq<Rule>): (es: seq<string>)
    ensures |es| <= |rules|
    ensures es == [] <==> forall i :: 0 <= i < |rules| ==> RuleError(d, rules[i]) == []
  {
    if rules == [] then []
    else TypeErrors(d, rules[..|rules| - 1]) + RuleError(d, rules[|rules| - 1])
  }

  function EmptyListMessage(field: string): string
  {
    "Field '" + field + "' cannot be an empty list"
  }

  function EmptyListError(d: map<string, Value>, field: string): (es: seq<string>)
  {
    if field in d && d[field].List? && d[field].items == [] then [EmptyListMessage(field)] else []
  }

  /** The message for a blank conclusion. */
  const BlankConclusionMessage := "Field 'conclusion' cannot be empty or whitespace only"

  /** What printing or saving a missing or empty result raises. */
  const EmptyResultMessage := "Result cannot be None or empty"

  function BlankConclusionError(d: map<string, Value>): (es: seq<string>)
  {
    if "conclusion" in d && d["conclusion"].Str? && IsBlank(d["conclusion"].s) then
      [BlankConclusionMessage]
    else []
  }

  /** Every error `validate_proof_result` collects from a non-empty result, in the order it collects them. */
  function Errors(d: map<string, Value>): seq<string>
  {
    TypeErrors(d, Rules) + EmptyListError(d, "assumptions") + EmptyListError(d, "outline") + BlankConclusionError(d)
  }

  /** A result the adapter accepts: non-empty lists of assumptions and outline steps, and a conclusion with text. */
  predicate WellFormedProof(d: map<string, Value>)
  {
    && "assumptions" in d && d["assumptions"].List? && d["assumptions"].items != []
    && "outline" in d && d["outline"].List? && d["outline"].items != []
    && "conclusion" in d && d["conclusion"].Str? && !IsBlank(d["conclusion"].s)
  }

  /** The type rules' errors, field by field. */
  lemma TypeErrorsOfRules(d: map<string, Value>)
    ensures TypeErrors(d, Rules) == RuleError(d, Rules[0]) + RuleError(d, Rules[1]) + RuleError(d, Rules[2])
  {
    var r1 := Rules[..1];
    var r2 := Rules[..2];
    assert r2[..1] == r1;
    assert r1[..0] == [];
    assert Rules[..2] == r2;
    assert TypeErrors(d, r1) == RuleError(d, Rules[0]);
    assert TypeErrors(d, r2) == TypeErrors(d, r1) + RuleError(d, Rules[1]);
  }

  /** No error is collected exactly when the result is well formed. */
  lemma ErrorsEmptyIff(d: map<string, Value>)
    ensures Errors(d) == [] <==> WellFormedProof(d)
  {
    TypeErrorsOfRules(d);
  }

  /** Each of the three fields contributes at most one error: a missing or mistyped field is never also reported empty. */
  lemma AtMostOneErrorPerField(d: map<string, Value>)
    ensures |Errors(d)| <= 3
  {
    TypeErrorsOfRules(d);
    assert RuleError(d, Rules[0]) != [] ==> EmptyListError(d, "assumptions") == [];
    assert RuleError(d, Rules[1]) != [] ==> EmptyListError(d, "outline") == [];
    assert RuleError(d, Rules[2]) != [] ==> BlankConclusionError(d) == [];
  }

  /** Results that agree on the three checked fields collect the same errors. */
  lemma SameCheckedFields(d: map<string, Value>, e: map<string, Value>)
    requires "assumptions" in d <==> "assumptions" in e
    requires "outline" in d <==> "outline" in e
    requires "conclusion" in d <==> "conclusion" in e
    requires "assumptions" in d ==> d["assumptions"] == e["assumptions"]
    requires "outline" in d ==> d["outline"] == e["outline"]
    requires "conclusion" in d ==> d["conclusion"] == e["conclusion"]
    ensures Errors(d) == Errors(e)
  {
    TypeErrorsOfRules(d);
    TypeErrorsOfRules(e);
  }

  /** `claim` is never checked: adding, changing or removing it leaves the collected errors alone. */
  lemma ClaimNeverChecked(d: map<string, Value>, v: Value)
    ensures Errors(d["claim" := v]) == Errors(d)
    ensures Errors(d - {"claim"}) == Errors(d)
  {
    assert "claim" != "assumptions" && "claim" != "outline" && "claim" != "conclusion";
    SameCheckedFields(d["claim" := v], d);
    SameCheckedFields(d - {"claim"}, d);
  }

  const EmptyResult := ValueError("Proof result cannot be None or empty")

  /** What `validate_proof_result` raises, or None when it returns. */
  function ValidationError(result: Option<map<string, Value>>): (r: Option<Exc>)
    ensures r.None? <==> result.Some? && WellFormedProof(result.value)
    ensures r.Some? ==> r.value.ValueError?
    ensures result.None? || result.value == map[] ==> r == Some(EmptyResult)
  {
    if result.None? || result.value == map[] then Some(EmptyResult)
    else
      var es := Errors(result.value);
      ErrorsEmptyIff(result.value);
      if es == [] then None else Some(ValueError("Validation errors:\n  - " + Join("\n  - ", es)))
  }

  /** The loop over the type rules: a missing field or a value of the wrong type adds one error. */
  method CheckRules(d: map<string, Value>) returns (errors: seq<string>)
    ensures errors == TypeErrors(d, Rules)
  {
    errors := [];
    for i := 0 to |Rules|
      invariant errors == TypeErrors(d, Rules[..i])
    {
      var rule := Rules[i];
      if rule.field !in d {
        errors := errors + ["Missing required field: '" + rule.field + "'"];
      } else if !HasType(d[rule.field], rule.isList) {
        errors := errors + ["Field '" + rule.field + "' " + rule.msg + ", got " + TypeName(d[rule.field])];
      }
      assert Rules[..i + 1][..i] == Rules[..i];
    }
    assert Rules[..|Rules|] == Rules;
  }

  /** `validate_proof_result`: the rules' loop, then the emptiness checks, then one combined error. */
  method ValidateProofResult(result: Option<map<string, Value>>) returns (r: Option<Exc>)
    ensures r == ValidationError(result)
  {
    if result.None? || result.value == map[] {
      return Some(EmptyResult);
    }
    var d := result.value;
    var errors := CheckRules(d);
    if "assumptions" in d && d["assumptions"].List? && d["assumptions"].items == [] {
      errors := errors + [EmptyListMessage("assumptions")];
    }
    assert errors == TypeErrors(d, Rules) + EmptyListError(d, "assumptions");
    if "outline" in d && d["outline"].List? && d["outline"].items == [] {
      errors := errors + [EmptyListMessage("outline")];
    }
    assert errors == TypeErrors(d, Rules) + EmptyListError(d, "assumptions") + EmptyListError(d, "outline");
    if "conclusion" in d && d["conclusion"].Str? && IsBlank(d["conclusion"].s) {
      errors := errors + [BlankConclusionMessage];
    }
    assert errors == Errors(d);
    if errors != [] {
      return Some(ValueError("Validation errors:\n  - " + Join("\n  - ", errors)));
    }
    return None;
  }

  // ---------------------------------------------------------------------
  // run_proof
  // ---------------------------------------------------------------------

  /** The schema used when the caller passes none (or an empty one). */
  const ProofSchema: Value := Dict(map[
    "type" := Str("object"),
    "properties" := Dict(map[
      "claim" := Dict(map["type" := Str("string"), "description" := Str("The main claim or statement being proven")]),
      "assumptions" := Dict(map["type" := Str("array"), "items" := Dict(map["type" := Str("string")]),
                                "description" := Str("List of assumptions used in the proof")]),
      "outline" := Dict(map["type" := Str("array"), "items" := Dict(map["type" := Str("string")]),
                            "description" := Str("Step-by-step outline of the proof")]),
      "conclusion" := Dict(map["type" := Str("string"), "description" := Str("The final conclusion of the proof")])]),
    "required" := List([Str("assumptions"), Str("outline"), Str("conclusion")]),
    "additionalProperties" := Bool(false)])

  const PromptError := ValueError("Prompt cannot be empty or whitespace only")
  const UnknownError := OtherError("Exception", "Unknown error occurred")

  /** `schema or PROOF_SCHEMA` */
  function EffectiveSchema(schema: Value): Value
  {
    if Truthy(schema) then schema else ProofSchema
  }

  /** The structured-response service: the outcome of its `k`-th call with a prompt and a schema. */
  type Responder = (nat, string, Value) -> Result<map<string, Value>>

  /** One attempt: call the service, then, if asked, check the result's structure. */
  function Attempt(respond: Responder, prompt: string, schema: Value, validateOutput: bool, k: nat): (r: Result<map<string, Value>>)
    ensures r.Ok? ==> respond(k, prompt, schema) == r
    ensures r.Ok? && validateOutput ==> WellFormedProof(r.value)
  {
    var res := respond(k, prompt, schema);
    if res.Err? then res
    else if validateOutput && ValidationError(Some(res.value)).Some? then Err(ValidationError(Some(res.value)).value)
    else res
  }

  /**
   * Attempts `k` up to (not including) `n`: the first success or ValueError
   * ends the loop; any other error is remembered and the next attempt made.
   * After the last attempt the remembered error is raised.
   */
  function Attempts(respond: Responder, prompt: string, schema: Value, validateOutput: bool, k: nat, n: int, last: Option<Exc>): (r: Result<map<string, Value>>)
    decreases n - k
  {
    if k >= n then Err(if last.Some? then last.value else UnknownError)
    else
      var a := Attempt(respond, prompt, schema, validateOutput, k);
      if a.Ok? || a.exc.ValueError? then a
      else Attempts(respond, prompt, schema, validateOutput, k + 1, n, Some(a.exc))
  }

  /** `run_proof`, as a function of its arguments and the service's outcomes. */
  function RunProofSpec(prompt: string, schema: Value, validateInput: bool, validateOutput: bool, maxRetries: int, respond: Responder): (r: Result<map<string, Value>>)
    ensures validateInput && IsBlank(prompt) ==> r == Err(PromptError)
  {
    if validateInput && IsBlank(prompt) then Err(PromptError)
    else Attempts(respond, prompt, EffectiveSchema(schema), validateOutput, 0, maxRetries + 1, None)
  }

  /** One turn of the retry loop, unfolded. */
  lemma AttemptsStep(respond: Responder, prompt: string, schema: Value, validateOutput: bool, k: nat, n: int, last: Option<Exc>)
    requires k < n
    ensures var res := respond(k, prompt, schema);
      Attempts(respond, prompt, schema, validateOutput, k, n, last) ==
        if res.Err? then
          if res.exc.ValueError? then res else Attempts(respond, prompt, schema, validateOutput, k + 1, n, Some(res.exc))
        else if validateOutput && ValidationError(Some(res.value)).Some? then Err(ValidationError(Some(res.value)).value)
        else res
  {
  }

  /** `run_proof`: validate the prompt, then up to `max_retries + 1` attempts. */
  method RunProof(prompt: string, schema: Value, validateInput: bool, validateOutput: bool, maxRetries: int, respond: Responder)
    returns (r: Result<map<string, Value>>)
    ensures r == RunProofSpec(prompt, schema, validateInput, validateOutput, maxRetries, respond)
  {
    if validateInput && IsBlank(prompt) {
      return Err(PromptError);
    }
    var useSchema := EffectiveSchema(schema);
    var lastException: Option<Exc> := None;
    var attempt: nat := 0;
    while attempt < maxRetries + 1
      invariant Attempts(respond, prompt, useSchema, validateOutput, attempt, maxRetries + 1, lastException)
             == Attempts(respond, prompt, useSchema, validateOutput, 0, maxRetries + 1, None)
      decreases maxRetries + 1 - attempt
    {
      AttemptsStep(respond, prompt, useSchema, validateOutput, attempt, maxRetries + 1, lastException);
      var res := respond(attempt, prompt, useSchema);
      if res.Ok? {
        if validateOutput {
          var v := ValidateProofResult(Some(res.value));
          if v.Some? {
            return Err(v.value);
          }
        }
        return res;
      }
      if res.exc.ValueError? {
        return res;
      }
      lastException := Some(res.exc);
      attempt := attempt + 1;
    }
    return Err(if lastException.Some? then lastException.value else UnknownError);
  }

  /** Only the first `n - k` calls matter: two services that agree on calls `k .. n - 1` give the same outcome. */
  lemma {:induction false} AttemptsUseOnlyCalls(r1: Responder, r2: Responder, prompt: string, schema: Value, validateOutput: bool, k: nat, n: int, last: Option<Exc>)
    requires forall j: nat :: k <= j < n ==> r1(j, prompt, schema) == r2(j, prompt, schema)
    ensures Attempts(r1, prompt, schema, validateOutput, k, n, last) == Attempts(r2, prompt, schema, validateOutput, k, n, last)
    decreases n - k
  {
    if k < n {
      assert r1(k, prompt, schema) == r2(k, prompt, schema);
      var a := Attempt(r1, prompt, schema, validateOutput, k);
      if !(a.Ok? || a.exc.ValueError?) {
        AttemptsUseOnlyCalls(r1, r2, prompt, schema, validateOutput, k + 1, n, Some(a.exc));
      }
    }
  }

  /** At most `max_retries + 1` calls: the outcome depends on calls 0 .. max_retries only. */
  lemma AtMostRetriesPlusOneCalls(prompt: string, schema: Value, validateInput: bool, validateOutput: bool, maxRetries: int, r1: Responder, r2: Responder)
    requires forall j: nat :: j <= maxRetries ==> r1(j, prompt, EffectiveSchema(schema)) == r2(j, prompt, EffectiveSchema(schema))
    ensures RunProofSpec(prompt, schema, validateInput, validateOutput, maxRetries, r1) == RunProofSpec(prompt, schema, validateInput, validateOutput, maxRetries, r2)
  {
    AttemptsUseOnlyCalls(r1, r2, prompt, EffectiveSchema(schema), validateOutput, 0, maxRetries + 1, None);
  }

  /** A ValueError, from the service or from the structure check, is raised at once: later calls do not matter. */
  lemma ValueErrorNotRetried(respond: Responder, prompt: string, schema: Value, validateOutput: bool, k: nat, n: int, last: Option<Exc>)
    requires k < n
    requires Attempt(respond, prompt, schema, validateOutput, k).Err?
    requires Attempt(respond, prompt, schema, validateOutput, k).exc.ValueError?
    ensures Attempts(respond, prompt, schema, validateOutput, k, n, last) == Attempt(respond, prompt, schema, validateOutput, k)
  {
  }

  /** When every attempt fails with an error other than ValueError, the last attempt's error is raised. */
  lemma {:induction false} AllFailRaisesLast(respond: Responder, prompt: string, schema: Value, validateOutput: bool, k: nat, n: int, last: Option<Exc>)
    requires k < n
    requires forall j: nat :: k <= j < n ==> respond(j, prompt, schema).Err? && !respond(j, prompt, schema).exc.ValueError?
    ensures Attempts(respond, prompt, schema, validateOutput, k, n, last) == respond(n - 1, prompt, schema)
    decreases n - k
  {
    var a := Attempt(respond, prompt, schema, validateOutput, k);
    assert a == respond(k, prompt, schema);
    if k + 1 < n {
      AllFailRaisesLast(respond, prompt, schema, validateOutput, k + 1, n, Some(a.exc));
    }
  }

  /** A returned result came from some call and, with output validation on, is well formed. */
  lemma {:induction false} SuccessIsWellFormed(respond: Responder, prompt: string, schema: Value, validateOutput: bool, k: nat, n: int, last: Option<Exc>)
    requires Attempts(respond, prompt, schema, validateOutput, k, n, last).Ok?
    ensures var r := Attempts(respond, prompt, schema, validateOutput, k, n, last);
      (exists j: nat :: k <= j < n && respond(j, prompt, schema) == r) && (validateOutput ==> WellFormedProof(r.value))
    decreases n - k
  {
    var a := Attempt(respond, prompt, schema, validateOutput, k);
    if !(a.Ok? || a.exc.ValueError?) {
      SuccessIsWellFormed(respond, prompt, schema, validateOutput, k + 1, n, Some(a.exc));
    }
  }

  /** With no attempts at all (a negative `max_retries`), the fallback error is raised. */
  lemma NoAttemptsUnknownError(prompt: string, schema: Value, validateInput: bool, validateOutput: bool, maxRetries: int, respond: Responder)
    requires maxRetries < 0 && !(validateInput && IsBlank(prompt))
    ensures RunProofSpec(prompt, schema, validateInput, validateOutput, maxRetries, respond) == Err(UnknownError)
  {
  }

  // ---------------------------------------------------------------------
  // format_proof_output
  // ---------------------------------------------------------------------

  /** One section of the rendering: the field, its title, and whether it is a numbered list. */
  datatype Section = Section(field: string, title: string, isList: bool)

  const Sections: seq<Section> := [
    Section("claim", "Claim", false),
    Section("assumptions", "Assumptions", true),
    Section("outline", "Proof Outline", true),
    Section("conclusion", "Conclusion", false)
  ]

  /** `c * n` for a one-character string. */
  function Repeat(c: char, n: int): (r: string)
    ensures |r| == (if n > 0 then n else 0)
    ensures forall i :: 0 <= i < |r| ==> r[i] == c
    decreases n
  {
    if n <= 0 then [] else Repeat(c, n - 1) + [c]
  }

  /** `str(v)`: a string is itself; any other value is rendered by `show`. */
  function Show(v: Value, show: Value -> string): string
  {
    if v.Str? then v.s else show(v)
  }

  /** The numbered lines of a list section, counting from 1. */
  function ItemLines(items: seq<Value>, show: Value -> string): (ls: seq<string>)
    ensures |ls| == |items|
    ensures forall i :: 0 <= i < |items| ==> ls[i] == "  " + NatToString(i + 1) + ". " + Show(items[i], show)
  {
    if items == [] then []
    else ItemLines(items[..|items| - 1], show) + ["  " + NatToString(|items|) + ". " + Show(items[|items| - 1], show)]
  }

  /** The lines of one section: nothing when the value is falsy; otherwise a blank line, the title and the body. */
  function SectionLines(d: map<string, Value>, sec: Section, show: Value -> string): (r: Result<seq<string>>)
    ensures r.Err? ==> sec.isList
  {
    var v := Get(d, sec.field, Null);
    if !Truthy(v) then Ok([])
    else if sec.isList then
      var items :- Iterate(v);
      Ok(["", sec.title + ":"] + ItemLines(items, show))
    else Ok(["", sec.title + ":", "  " + Show(v, show)])
  }

  /** A section is empty when its value is falsy; otherwise a blank line and its title, then indented lines only. */
  lemma SectionShape(d: map<string, Value>, sec: Section, show: Value -> string)
    requires SectionLines(d, sec, show).Ok?
    ensures var ls := SectionLines(d, sec, show).value;
      && (!Truthy(Get(d, sec.field, Null)) ==> ls == [])
      && (Truthy(Get(d, sec.field, Null)) ==> |ls| >= 2 && ls[..2] == ["", sec.title + ":"])
      && (forall i :: 2 <= i < |ls| ==> StartsWith(ls[i], "  "))
  {
  }

  /** The lines of the given sections, in order; the first error ends the rendering. */
  function SectionsLines(d: map<string, Value>, secs: seq<Section>, show: Value -> string): (r: Result<seq<string>>)
  {
    if secs == [] then Ok([])
    else
      var init :- SectionsLines(d, secs[..|secs| - 1], show);
      var last :- SectionLines(d, secs[|secs| - 1], show);
      Ok(init + last)
  }

  lemma AppendAssoc<T>(a: seq<T>, b: seq<T>, c: seq<T>)
    ensures a + (b + c) == (a + b) + c
  {
  }

  /** One more section, unfolded. */
  lemma SectionsStep(d: map<string, Value>, secs: seq<Section>, s: nat, show: Value -> string)
    requires s < |secs| && SectionsLines(d, secs[..s], show).Ok?
    ensures SectionLines(d, secs[s], show).Ok? ==>
      SectionsLines(d, secs[..s + 1], show) == Ok(SectionsLines(d, secs[..s], show).value + SectionLines(d, secs[s], show).value)
  {
    assert secs[..s + 1][..s] == secs[..s];
  }

  /** An error in one section ends the rendering with that error. */
  lemma {:induction false} SectionErrorPersists(d: map<string, Value>, secs: seq<Section>, s: nat, show: Value -> string)
    requires s < |secs|
    requires SectionsLines(d, secs[..s], show).Ok? && SectionLines(d, secs[s], show).Err?
    ensures SectionsLines(d, secs, show) == Err(SectionLines(d, secs[s], show).exc)
    decreases |secs|
  {
    if s == |secs| - 1 {
      assert secs[..|secs| - 1] == secs[..s];
    } else {
      var init := secs[..|secs| - 1];
      assert init[..s] == secs[..s];
      assert init[s] == secs[s];
      SectionErrorPersists(d, init, s, show);
    }
  }

  function MetadataLines(d: map<string, Value>): Result<seq<string>>
  {
    var na :- Len(Get(d, "assumptions", List([])));
    var no :- Len(Get(d, "outline", List([])));
    Ok(["", "Total Assumptions: " + NatToString(na), "Total Steps: " + NatToString(no)])
  }

  /** The lines `format_proof_output` joins, or the error it raises. */
  function OutputLines(result: Option<map<string, Value>>, width: int, includeMetadata: bool, show: Value -> string): (r: Result<seq<string>>)
    ensures result.None? || result.value == map[] ==> r == Err(ValueError(EmptyResultMessage))
  {
    if result.None? || result.value == map[] then Err(ValueError(EmptyResultMessage))
    else
      var sep := Repeat('=', width);
      var body :- SectionsLines(result.value, Sections, show);
      var meta :- if includeMetadata then MetadataLines(result.value) else Ok([]);
      Ok([sep, "PROOF RESULT", sep] + body + meta + [sep])
  }

  /** The numbering loop of a list section: appends one numbered line per item. */
  method AppendItems(lines0: seq<string>, items: seq<Value>, show: Value -> string) returns (lines: seq<string>)
    ensures lines == lines0 + ItemLines(items, show)
  {
    lines := lines0;
    for i := 0 to |items|
      invariant lines == lines0 + ItemLines(items[..i], show)
    {
      assert items[..i + 1][..i] == items[..i];
      lines := lines + ["  " + NatToString(i + 1) + ". " + Show(items[i], show)];
    }
    assert items[..|items|] == items;
  }

  /** One turn of the loop over the sections: nothing for a falsy value, else a blank line, the title and the body. */
  method AppendSection(lines0: seq<string>, d: map<string, Value>, sec: Section, show: Value -> string) returns (r: Result<seq<string>>)
    ensures SectionLines(d, sec, show).Err? ==> r == Err(SectionLines(d, sec, show).exc)
    ensures SectionLines(d, sec, show).Ok? ==> r == Ok(lines0 + SectionLines(d, sec, show).value)
  {
    var lines := lines0;
    var value := Get(d, sec.field, Null);
    if Truthy(value) {
      lines := lines + ["", sec.title + ":"];
      if sec.isList {
        var items := Iterate(value);
        if items.Err? {
          return Err(items.exc);
        }
        lines := AppendItems(lines, items.value, show);
        assert SectionLines(d, sec, show) == Ok(["", sec.title + ":"] + ItemLines(items.value, show));
        assert lines == lines0 + (["", sec.title + ":"] + ItemLines(items.value, show));
      } else {
        lines := lines + ["  " + Show(value, show)];
        assert SectionLines(d, sec, show) == Ok(["", sec.title + ":", "  " + Show(value, show)]);
        assert lines == lines0 + ["", sec.title + ":", "  " + Show(value, show)];
      }
    } else {
      assert SectionLines(d, sec, show) == Ok([]);
      assert lines == lines0 + [];
    }
    return Ok(lines);
  }

  /** The loop over the sections: appends each section's lines, or stops at the first error. */
  method AppendSections(lines0: seq<string>, d: map<string, Value>, show: Value -> string) returns (r: Result<seq<string>>)
    ensures SectionsLines(d, Sections, show).Err? ==> r == Err(SectionsLines(d, Sections, show).exc)
    ensures SectionsLines(d, Sections, show).Ok? ==> r == Ok(lines0 + SectionsLines(d, Sections, show).value)
  {
    var lines := lines0;
    for s := 0 to |Sections|
      invariant SectionsLines(d, Sections[..s], show).Ok?
      invariant lines == lines0 + SectionsLines(d, Sections[..s], show).value
    {
      SectionsStep(d, Sections, s, show);
      ghost var prev := SectionsLines(d, Sections[..s], show).value;
      var next := AppendSection(lines, d, Sections[s], show);
      if next.Err? {
        SectionErrorPersists(d, Sections, s, show);
        return next;
      }
      lines := next.value;
      AppendAssoc(lines0, prev, SectionLines(d, Sections[s], show).value);
    }
    assert Sections[..|Sections|] == Sections;
    return Ok(lines);
  }

  /** `format_proof_output`, appending to a list of lines and joining them with newlines. */
  method FormatProofOutput(result: Option<map<string, Value>>, width: int, includeMetadata: bool, show: Value -> string)
    returns (r: Result<string>)
    ensures OutputLines(result, width, includeMetadata, show).Err? ==> r == Err(OutputLines(result, width, includeMetadata, show).exc)
    ensures OutputLines(result, width, includeMetadata, show).Ok? ==> r == Ok(Join("\n", OutputLines(result, width, includeMetadata, show).value))
  {
    if result.None? || result.value == map[] {
      return Err(ValueError(EmptyResultMessage));
    }
    var d := result.value;
    var separator := Repeat('=', width);
    var head := [separator, "PROOF RESULT", separator];
    var withSections := AppendSections(head, d, show);
    if withSections.Err? {
      return Err(withSections.exc);
    }
    var lines := withSections.value;
    if includeMetadata {
      var na := Len(Get(d, "assumptions", List([])));
      if na.Err? {
        return Err(na.exc);
      }
      var no := Len(Get(d, "outline", List([])));
      if no.Err? {
        return Err(no.exc);
      }
      lines := lines + ["", "Total Assumptions: " + NatToString(na.value), "Total Steps: " + NatToString(no.value)];
    }
    assert lines == head + SectionsLines(d, Sections, show).value + (if includeMetadata then MetadataLines(d).value else []);
    lines := lines + [separator];
    assert OutputLines(result, width, includeMetadata, show) == Ok(lines);
    return Ok(Join("\n", lines));
  }

  /** The rendering opens with a separator, the heading and a separator, and closes with a separator. */
  lemma Framed(result: Option<map<string, Value>>, width: int, includeMetadata: bool, show: Value -> string)
    requires OutputLines(result, width, includeMetadata, show).Ok?
    ensures var ls := OutputLines(result, width, includeMetadata, show).value;
      var sep := Repeat('=', width);
      |ls| >= 4 && ls[0] == sep && ls[1] == "PROOF RESULT" && ls[2] == sep && ls[|ls| - 1] == sep
  {
  }

  /** A list section's `i`-th line (from 0) is the item numbered `i + 1`. */
  lemma ListNumberedFromOne(d: map<string, Value>, sec: Section, show: Value -> string, i: int)
    requires sec.isList && Truthy(Get(d, sec.field, Null)) && Iterate(Get(d, sec.field, Null)).Ok?
    requires 0 <= i < |Iterate(Get(d, sec.field, Null)).value|
    ensures SectionLines(d, sec, show).Ok?
    ensures SectionLines(d, sec, show).value[i + 2] ==
      "  " + NatToString(i + 1) + ". " + Show(Iterate(Get(d, sec.field, Null)).value[i], show)
  {
  }

  /** A title line: not indented, and ending in a colon. */
  predicate TitleLike(line: string)
  {
    |line| > 0 && line[0] != ' ' && line[|line| - 1] == ':'
  }

  /** The only title line of a section is its own title, present when its value is truthy. */
  lemma SectionTitle(d: map<string, Value>, sec: Section, show: Value -> string, line: string)
    requires SectionLines(d, sec, show).Ok?
    requires TitleLike(line)
    ensures line in SectionLines(d, sec, show).value <==> line == sec.title + ":" && Truthy(Get(d, sec.field, Null))
  {
    var b := SectionLines(d, sec, show).value;
    SectionShape(d, sec, show);
    if line in b {
      var i :| 0 <= i < |b| && b[i] == line;
    }
    if line == sec.title + ":" && Truthy(Get(d, sec.field, Null)) {
      assert b[1] == line;
    }
  }

  /** The title lines among the sections' lines are exactly the titles of the sections whose value is truthy. */
  lemma {:induction false} SectionTitles(d: map<string, Value>, secs: seq<Section>, show: Value -> string, line: string)
    requires SectionsLines(d, secs, show).Ok?
    requires TitleLike(line)
    ensures line in SectionsLines(d, secs, show).value <==>
      exists j :: 0 <= j < |secs| && line == secs[j].title + ":" && Truthy(Get(d, secs[j].field, Null))
  {
    if secs != [] {
      var init := secs[..|secs| - 1];
      var sec := secs[|secs| - 1];
      SectionTitles(d, init, show, line);
      var a := SectionsLines(d, init, show).value;
      var b := SectionLines(d, sec, show).value;
      SectionTitle(d, sec, show, line);
      assert SectionsLines(d, secs, show).value == a + b;
      if exists j :: 0 <= j < |secs| && line == secs[j].title + ":" && Truthy(Get(d, secs[j].field, Null)) {
        var j :| 0 <= j < |secs| && line == secs[j].title + ":" && Truthy(Get(d, secs[j].field, Null));
        if j < |init| {
          assert init[j] == secs[j];
        }
      }
      if line in a {
        var j :| 0 <= j < |init| && line == init[j].title + ":" && Truthy(Get(d, init[j].field, Null));
        assert secs[j] == init[j];
      }
    }
  }

  /** The metadata lines hold no title line: each ends in a digit or is blank. */
  lemma MetadataHasNoTitle(d: map<string, Value>, line: string)
    requires MetadataLines(d).Ok? && TitleLike(line)
    ensures line !in MetadataLines(d).value
  {
    var n1 := NatToString(Len(Get(d, "assumptions", List([]))).value);
    var n2 := NatToString(Len(Get(d, "outline", List([]))).value);
    var l1 := "Total Assumptions: " + n1;
    var l2 := "Total Steps: " + n2;
    assert l1[|l1| - 1] == n1[|n1| - 1];
    assert l2[|l2| - 1] == n2[|n2| - 1];
    assert MetadataLines(d).value == ["", l1, l2];
  }

  /** The four titles differ. */
  lemma TitlesDistinct(j: int, k: int)
    requires 0 <= j < |Sections| && 0 <= k < |Sections|
    requires Sections[k].title + ":" == Sections[j].title + ":"
    ensures k == j
  {
    var tk := Sections[k].title;
    var tj := Sections[j].title;
    assert (tk + ":")[..|tk|] == tk;
    assert (tj + ":")[..|tj|] == tj;
    assert tk == tj;
  }

  /**
   * A section's title line appears in the rendering exactly when the
   * section's value is truthy: falsy or missing sections are omitted.
   */
  lemma TitleShownIffTruthy(result: Option<map<string, Value>>, width: int, includeMetadata: bool, show: Value -> string, j: int)
    requires OutputLines(result, width, includeMetadata, show).Ok?
    requires 0 <= j < |Sections|
    ensures Sections[j].title + ":" in OutputLines(result, width, includeMetadata, show).value
        <==> Truthy(Get(result.value, Sections[j].field, Null))
  {
    var d := result.value;
    var line := Sections[j].title + ":";
    var body := SectionsLines(d, Sections, show).value;
    var meta := if includeMetadata then MetadataLines(d).value else [];
    var sep := Repeat('=', width);
    assert OutputLines(result, width, includeMetadata, show).value == [sep, "PROOF RESULT", sep] + body + meta + [sep];
    assert TitleLike(line);
    if includeMetadata {
      MetadataHasNoTitle(d, line);
    }
    assert line != sep by {
      assert line[0] != '=';
    }
    SectionTitles(d, Sections, show, line);
    if exists k :: 0 <= k < |Sections| && line == Sections[k].title + ":" && Truthy(Get(d, Sections[k].field, Null)) {
      var k :| 0 <= k < |Sections| && line == Sections[k].title + ":" && Truthy(Get(d, Sections[k].field, Null));
      TitlesDistinct(j, k);
    }
  }
}
