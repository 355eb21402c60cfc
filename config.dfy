/**
 * The proof runner's configuration: the dataclass defaults, `from_args`
 * over already-parsed arguments, and `validate`. Whether the claims file
 * exists is a question about the file system; it is a parameter here.
 */
module Config {
  import opened Text
  import opened Py
  import opened Paths

  /** The `Config` dataclass. `maxWorkers` is `Optional[int]`. */
  datatype Config = Config(
    claimsFile: string,
    outJson: string,
    outMd: string,
    verbose: bool,
    parallel: bool,
    maxWorkers: Option<int>,
    logLevel: string)

  /** `Config(claims_file, out_json, out_md)` with every defaulted field left at its default. */
  function NewConfig(claimsFile: string, outJson: string, outMd: string): (c: Config)
    ensures c.claimsFile == claimsFile && c.outJson == outJson && c.outMd == outMd
    ensures !c.verbose && !c.parallel && c.maxWorkers.None? && c.logLevel == "INFO"
  {
    Config(claimsFile, outJson, outMd, false, false, None, "INFO")
  }

  /** What the argument parser hands to `from_args`. */
  datatype ParsedArgs = ParsedArgs(
    claims: string,
    outJson: string,
    outMd: string,
    verbose: bool,
    parallel: bool,
    maxWorkers: Option<int>,
    logLevel: string)

  /** The levels `--log-level` accepts. */
  const LogLevels: set<string> := {"DEBUG", "INFO", "WARNING", "ERROR"}

  /** The parse of `--claims <claims>` alone: every other option takes the parser's default. */
  function DefaultArgs(claims: string): ParsedArgs
  {
    ParsedArgs(claims, "reports/proof_report.json", "reports/proof_report.md", false, false, None, "INFO")
  }

  /** `from_args`: the parsed fields, with the log level upper-cased. */
  function FromArgs(a: ParsedArgs): (c: Config)
    ensures c.claimsFile == a.claims && c.outJson == a.outJson && c.outMd == a.outMd
    ensures c.verbose == a.verbose && c.parallel == a.parallel && c.maxWorkers == a.maxWorkers
    ensures |c.logLevel| == |a.logLevel|
    ensures forall i :: 0 <= i < |c.logLevel| ==> !('a' <= c.logLevel[i] <= 'z')
  {
    Config(a.claims, a.outJson, a.outMd, a.verbose, a.parallel, a.maxWorkers, Upper(a.logLevel))
  }

  /** Upper-casing an already upper-cased level changes nothing. */
  lemma {:induction false} UpperIdempotent(s: string)
    ensures Upper(Upper(s)) == Upper(s)
  {
    var u := Upper(s);
    forall i | 0 <= i < |u|
      ensures Upper(u)[i] == u[i]
    {
    }
  }

  /** A text without lower-case ASCII letters is its own upper-casing. */
  lemma UpperFixesUpperCase(s: string)
    requires forall i :: 0 <= i < |s| ==> !('a' <= s[i] <= 'z')
    ensures Upper(s) == s
  {
  }

  /** A level the parser accepts passes through `from_args` unchanged. */
  lemma AcceptedLevelUnchanged(a: ParsedArgs)
    requires a.logLevel in LogLevels
    ensures FromArgs(a).logLevel == a.logLevel
  {
    var l := a.logLevel;
    if l == "DEBUG" {
      UpperFixesUpperCase("DEBUG");
    } else if l == "INFO" {
      UpperFixesUpperCase("INFO");
    } else if l == "WARNING" {
      UpperFixesUpperCase("WARNING");
    } else {
      assert l == "ERROR";
      UpperFixesUpperCase("ERROR");
    }
  }

  /** The parser's defaults and the dataclass defaults agree. */
  lemma ParserDefaultsAreDataclassDefaults(claims: string)
    ensures FromArgs(DefaultArgs(claims)) == NewConfig(claims, "reports/proof_report.json", "reports/proof_report.md")
  {
    AcceptedLevelUnchanged(DefaultArgs(claims));
  }

  /** A claims file name with a YAML suffix. */
  predicate YamlSuffix(path: string)
  {
    Lower(Suffix(Name(path))) in {".yaml", ".yml"}
  }

  /** An extension with a single dot, at its start, and something after it. */
  predicate OneDotExt(ext: string)
  {
    |ext| >= 2 && ext[0] == '.' && forall j :: 1 <= j < |ext| ==> ext[j] != '.'
  }

  lemma YamlExtensions()
    ensures OneDotExt(".yaml") && OneDotExt(".yml")
  {
  }

  /** A name that ends in a one-dot extension, with something before it, has that extension as its suffix. */
  lemma {:induction false} SuffixOfEnding(name: string, ext: string)
    requires OneDotExt(ext)
    requires |name| > |ext| && Lower(name)[|name| - |ext|..] == ext
    ensures Lower(Suffix(name)) == ext
  {
    var ln := Lower(name);
    var k := |name| - |ext|;
    var tail := ln[k..];
    assert tail == ext;
    assert ln[k] == tail[0] == '.';
    assert LowerChar(name[k]) == '.';
    var i := RFind(name, '.');
    forall j | k < j < |name|
      ensures name[j] != '.'
    {
      assert ln[j] == tail[j - k] && tail[j - k] != '.';
      assert LowerChar(name[j]) == ln[j];
    }
    assert i == k;
    var x := Lower(name[k..]);
    assert forall m :: 0 <= m < |x| ==> x[m] == tail[m];
    assert x == tail;
  }

  /** A non-empty suffix, lower-cased, is the lower-cased end of the name. */
  lemma SuffixEnding(name: string)
    requires Suffix(name) != []
    ensures Lower(name)[|name| - |Suffix(name)|..] == Lower(Suffix(name))
  {
  }

  /**
   * The suffix test read directly off the name: it ends with `.yaml` or
   * `.yml` in any letter case, and something comes before that ending.
   */
  lemma YamlSuffixIff(name: string)
    ensures Lower(Suffix(name)) in {".yaml", ".yml"} <==>
      (|name| > 5 && Lower(name)[|name| - 5..] == ".yaml") || (|name| > 4 && Lower(name)[|name| - 4..] == ".yml")
  {
    YamlSuffixOfEnding(name);
    EndingOfYamlSuffix(name);
  }

  /** A name ending in ".yaml" or ".yml" (in any letter case), with something before it, has a YAML suffix. */
  lemma YamlSuffixOfEnding(name: string)
    ensures (|name| > 5 && Lower(name)[|name| - 5..] == ".yaml") ==> Lower(Suffix(name)) == ".yaml"
    ensures (|name| > 4 && Lower(name)[|name| - 4..] == ".yml") ==> Lower(Suffix(name)) == ".yml"
  {
    YamlExtensions();
    if |name| > 5 && Lower(name)[|name| - 5..] == ".yaml" {
      SuffixOfEnding(name, ".yaml");
    }
    if |name| > 4 && Lower(name)[|name| - 4..] == ".yml" {
      SuffixOfEnding(name, ".yml");
    }
  }

  /** A YAML suffix is the end of the name, so the name ends in it. */
  lemma EndingOfYamlSuffix(name: string)
    ensures Lower(Suffix(name)) == ".yaml" ==> |name| > 5 && Lower(name)[|name| - 5..] == ".yaml"
    ensures Lower(Suffix(name)) == ".yml" ==> |name| > 4 && Lower(name)[|name| - 4..] == ".yml"
  {
    var x := Suffix(name);
    if x != [] {
      SuffixEnding(name);
      assert |Lower(x)| == |x| < |name|;
    }
  }

  /** The head of the message for a claims file without a YAML suffix. */
  const NotYamlPrefix := "Claims file must be YAML format: "

  /** What a worker count below 1 raises. */
  const WorkersMessage := "max_workers must be positive"

  /**
   * `validate`: `None` when it returns, the raised exception otherwise.
   * The existence check runs first, then the suffix, then `max_workers`.
   */
  function Validate(c: Config, fileExists: bool): (r: Option<Exc>)
    ensures r.None? <==> fileExists && YamlSuffix(c.claimsFile) && (c.maxWorkers.None? || c.maxWorkers.value >= 1)
    ensures !fileExists ==> r == Some(FileNotFoundError("Claims file not found: " + c.claimsFile))
    ensures fileExists && !YamlSuffix(c.claimsFile) ==> r == Some(ValueError(NotYamlPrefix + c.claimsFile))
    ensures r.Some? && fileExists && YamlSuffix(c.claimsFile) ==> r == Some(ValueError(WorkersMessage))
  {
    if !fileExists then Some(FileNotFoundError("Claims file not found: " + c.claimsFile))
    else if !YamlSuffix(c.claimsFile) then Some(ValueError(NotYamlPrefix + c.claimsFile))
    else if c.maxWorkers.Some? && c.maxWorkers.value < 1 then Some(ValueError(WorkersMessage))
    else None
  }

  /** With the defaults, only the file's existence and its suffix can fail validation. */
  lemma DefaultsValidate(claims: string, outJson: string, outMd: string, fileExists: bool)
    ensures Validate(NewConfig(claims, outJson, outMd), fileExists).None? <==> fileExists && YamlSuffix(claims)
  {
  }
}
