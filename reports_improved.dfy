/**
 * The improved report generator: a validated configuration, statistics
 * that count any status, a formatter that escapes Markdown and truncates,
 * results validated and sorted by id, by (type, id) or by (status, id),
 * and statistics computed once and then cached.
 */
module ReportsImproved {
  import opened Text
  import opened Py
  import opened Claims
  import opened Ordering

  const DefaultMaxDetailLength := 200
  const DefaultJsonIndent := 2

  /** `ReportConfig` once `__post_init__` has accepted it. */
  datatype ReportConfig = ReportConfig(
    maxDetailLength: int,
    jsonIndent: int,
    includeTimestamps: bool,
    includeDetailedResults: bool,
    includeSummaryTable: bool,
    sortResultsBy: string)

  predicate SortKeyName(k: string)
  {
    k == "id" || k == "type" || k == "status"
  }

  /** What a detail length below 1 raises. */
  const DetailLengthMessage := "max_detail_length must be positive"

  /** What a negative indent raises. */
  const IndentMessage := "json_indent must be non-negative"

  /** What an unknown sort key raises. */
  const SortKeyMessage := "sort_results_by must be 'id', 'type', or 'status'"

  /** The tail of the message for a result missing an attribute. */
  const MissingAttributesSuffix := ": missing required attributes"

  /** `ReportConfig(...)`: the checks of `__post_init__`, in order. */
  function NewReportConfig(maxDetailLength: int, jsonIndent: int, includeTimestamps: bool, includeDetailedResults: bool,
                           includeSummaryTable: bool, sortResultsBy: string): (r: Result<ReportConfig>)
    ensures r.Ok? <==> maxDetailLength >= 1 && jsonIndent >= 0 && SortKeyName(sortResultsBy)
    ensures r.Ok? ==> r.value == ReportConfig(maxDetailLength, jsonIndent, includeTimestamps, includeDetailedResults, includeSummaryTable, sortResultsBy)
    ensures maxDetailLength < 1 ==> r == Err(ValueError(DetailLengthMessage))
    ensures maxDetailLength >= 1 && jsonIndent < 0 ==> r == Err(ValueError(IndentMessage))
    ensures maxDetailLength >= 1 && jsonIndent >= 0 && !SortKeyName(sortResultsBy) ==>
      r == Err(ValueError(SortKeyMessage))
  {
    if maxDetailLength < 1 then Err(ValueError(DetailLengthMessage))
    else if jsonIndent < 0 then Err(ValueError(IndentMessage))
    else if !SortKeyName(sortResultsBy) then Err(ValueError(SortKeyMessage))
    else Ok(ReportConfig(maxDetailLength, jsonIndent, includeTimestamps, includeDetailedResults, includeSummaryTable, sortResultsBy))
  }

  /** The default configuration is accepted. */
  lemma DefaultConfigValid()
    ensures NewReportConfig(DefaultMaxDetailLength, DefaultJsonIndent, true, true, true, "id")
      == Ok(ReportConfig(200, 2, true, true, true, "id"))
  {
  }

  /** A `defaultdict(int)` counter after `+= 1`. */
  function Incr(m: map<string, nat>, key: string): (r: map<string, nat>)
    ensures r.Keys == m.Keys + {key}
    ensures r[key] == (if key in m then m[key] else 0) + 1
    ensures forall k :: k in m && k != key ==> r[k] == m[k]
  {
    m[key := (if key in m then m[key] else 0) + 1]
  }

  /** `by_type` after the counting loop of `from_results` has visited `results`: per type, `total` and one counter per status seen. */
  function Tally(results: seq<ClaimResult>): map<string, map<string, nat>>
  {
    if results == [] then map[]
    else
      var m := Tally(results[..|results| - 1]);
      var r := results[|results| - 1];
      var inner := if r.kind in m then m[r.kind] else map[];
      m[r.kind := Incr(Incr(inner, "total"), r.status)]
  }

  /** The counting loop of `from_results`. */
  method TallyLoop(results: seq<ClaimResult>) returns (byType: map<string, map<string, nat>>)
    ensures byType == Tally(results)
  {
    byType := map[];
    var i := 0;
    while i < |results|
      invariant 0 <= i <= |results|
      invariant byType == Tally(results[..i])
    {
      assert results[..i + 1][..i] == results[..i];
      var r := results[i];
      var inner := if r.kind in byType then byType[r.kind] else map[];
      byType := byType[r.kind := Incr(Incr(inner, "total"), r.status)];
      i := i + 1;
    }
    assert results[..i] == results;
  }

  /** The count a type's counter holds for `key`: 0 when the key was never incremented. */
  function Get0(m: map<string, nat>, key: string): nat
  {
    if key in m then m[key] else 0
  }

  /**
   * Every type present has an entry; its "total" is the number of its
   * results (plus those whose status is itself "total"), and it has a
   * counter for exactly the other statuses seen with that type, holding the
   * number of its results with that status.
   */
  lemma {:induction false} TallyAt(results: seq<ClaimResult>, t: string, s: string)
    ensures t in Tally(results) <==> CountKind(results, t) > 0
    ensures t in Tally(results) ==>
      ("total" in Tally(results)[t] && Tally(results)[t]["total"] == CountKind(results, t) + CountKindStatus(results, t, "total"))
    ensures t in Tally(results) && s != "total" ==>
      ((s in Tally(results)[t] <==> CountKindStatus(results, t, s) > 0)
       && Get0(Tally(results)[t], s) == CountKindStatus(results, t, s))
  {
    if results != [] {
      TallyAt(results[..|results| - 1], t, s);
    }
  }

  /** `ProofStatistics`; each type's entry holds its counters as ints and its `success_rate` as a float. */
  datatype ProofStatistics = ProofStatistics(
    total: nat,
    proved: nat,
    rejected: nat,
    inconclusive: nat,
    successRate: real,
    byType: map<string, map<string, Value>>)

  /** `type_proved / type_total * 100`, or 0 for an empty total. */
  function Rate(proved: nat, total: nat): real
  {
    if total > 0 then proved as real / total as real * 100.0 else 0.0
  }

  /** The second loop of `from_results`: each type gets its `success_rate`. */
  function WithRates(m: map<string, map<string, nat>>): (r: map<string, map<string, Value>>)
    ensures r.Keys == m.Keys
    ensures forall t :: t in m ==> r[t].Keys == m[t].Keys + {"success_rate"}
    ensures forall t :: t in m ==> r[t]["success_rate"] == Float(Finite(Rate(Get0(m[t], Proved), Get0(m[t], "total"))))
    ensures forall t, k :: t in m && k in m[t] && k != "success_rate" ==> r[t][k] == Int(m[t][k])
  {
    map t | t in m :: (map k | k in m[t] :: Int(m[t][k]))["success_rate" := Float(Finite(Rate(Get0(m[t], Proved), Get0(m[t], "total"))))]
  }

  /** `ProofStatistics.from_results`, without the timestamp. */
  function FromResults(results: seq<ClaimResult>): ProofStatistics
  {
    if results == [] then ProofStatistics(0, 0, 0, 0, 0.0, map[])
    else
      var proved := CountStatus(results, Proved);
      ProofStatistics(
        |results|,
        proved,
        CountStatus(results, Rejected),
        CountStatus(results, Inconclusive),
        Rate(proved, |results|),
        WithRates(Tally(results)))
  }

  /** `from_results` as the source writes it: count, then add the rates. */
  method CalculateStatistics(results: seq<ClaimResult>) returns (s: ProofStatistics)
    ensures s == FromResults(results)
  {
    if results == [] {
      return ProofStatistics(0, 0, 0, 0, 0.0, map[]);
    }
    var proved := CountStatus(results, Proved);
    var byType := TallyLoop(results);
    s := ProofStatistics(|results|, proved, CountStatus(results, Rejected), CountStatus(results, Inconclusive),
      Rate(proved, |results|), WithRates(byType));
  }

  /**
   * The status counts are exact matches and the total counts everything:
   * an unrecognised status appears only in `total`. The types are exactly
   * those present, so there are none for an empty list.
   */
  lemma StatisticsCounts(results: seq<ClaimResult>)
    ensures var s := FromResults(results);
      && s.total == |results|
      && s.proved == CountStatus(results, Proved)
      && s.rejected == CountStatus(results, Rejected)
      && s.inconclusive == CountStatus(results, Inconclusive)
      && s.proved + s.rejected + s.inconclusive <= s.total
      && (s.proved + s.rejected + s.inconclusive == s.total <==> forall i :: 0 <= i < |results| ==> KnownStatus(results[i].status))
      && (forall t :: t in s.byType <==> CountKind(results, t) > 0)
  {
    StatusCountsBound(results);
    forall t
      ensures t in FromResults(results).byType <==> CountKind(results, t) > 0
    {
      TallyAt(results, t, "total");
    }
  }

  /** Within a type whose statuses are all one of the three, the status counters add up to the type's total. */
  lemma TypeCountsSum(results: seq<ClaimResult>, t: string)
    requires forall i :: 0 <= i < |results| ==> KnownStatus(results[i].status)
    requires t in Tally(results)
    ensures Get0(Tally(results)[t], Proved) + Get0(Tally(results)[t], Rejected) + Get0(Tally(results)[t], Inconclusive)
      == Get0(Tally(results)[t], "total")
  {
    var m := Tally(results)[t];
    var p := TallyStatus(results, t, Proved);
    var r := TallyStatus(results, t, Rejected);
    var i := TallyStatus(results, t, Inconclusive);
    KindStatusCountsSum(results, t);
    NoTotalStatus(results, t);
    var n := TallyTotal(results, t);
  }

  /** The counter of a status other than "total", as a value. */
  lemma TallyStatus(results: seq<ClaimResult>, t: string, s: string) returns (n: nat)
    requires t in Tally(results) && s != "total"
    ensures n == Get0(Tally(results)[t], s) == CountKindStatus(results, t, s)
  {
    TallyAt(results, t, s);
    n := CountKindStatus(results, t, s);
  }

  /** The "total" counter, as a value. */
  lemma TallyTotal(results: seq<ClaimResult>, t: string) returns (n: nat)
    requires t in Tally(results)
    ensures n == Get0(Tally(results)[t], "total") == CountKind(results, t) + CountKindStatus(results, t, "total")
  {
    TallyAt(results, t, "total");
    n := CountKind(results, t) + CountKindStatus(results, t, "total");
  }

  /** The types' totals add up to the overall total. */
  lemma TypeTotalsSum(results: seq<ClaimResult>, kinds: seq<string>)
    requires Distinct(kinds)
    requires forall t :: t in kinds <==> t in FromResults(results).byType
    ensures SumKinds(results, kinds) == FromResults(results).total
  {
    forall i | 0 <= i < |results|
      ensures results[i].kind in kinds
    {
      TallyAt(results, results[i].kind, "total");
      assert CountKind(results, results[i].kind) > 0;
    }
    KindTotalsSum(results, kinds);
  }

  /** `StatusFormatter.get_status_emoji`: the emoji as the file stores them, each a mis-decoded UTF-8 sequence. */
  function StatusEmoji(status: string): (e: string)
    ensures e in {"\U{E2}\U{153}\U{2026}", "\U{E2}\U{152}", "\U{E2}\U{201C}"}
    ensures !KnownStatus(status) ==> e == "\U{E2}\U{201C}"
    ensures status == Proved <==> e == "\U{E2}\U{153}\U{2026}"
    ensures status == Rejected <==> e == "\U{E2}\U{152}"
  {
    if status == Proved then "\U{E2}\U{153}\U{2026}"
    else if status == Rejected then "\U{E2}\U{152}"
    else "\U{E2}\U{201C}"
  }

  /** How `_escape_markdown` treats one character: `|` and `*` get a backslash, a newline becomes a space. */
  function MarkdownPiece(c: char): string
  {
    if c == '|' then "\\|" else if c == '\n' then " " else if c == '*' then "\\*" else [c]
  }

  /** `_escape_markdown` */
  function EscapeMarkdown(s: string): string
  {
    ReplaceChar(ReplaceChar(ReplaceChar(s, '|', "\\|"), '\n', " "), '*', "\\*")
  }

  /** The three replacements act character by character. */
  lemma {:induction false} EscapeMarkdownPerChar(s: string)
    ensures EscapeMarkdown(s) == FlatMap(s, MarkdownPiece)
    decreases |s|
  {
    if s != [] {
      EscapeMarkdownPerChar(s[1..]);
      var p1 := if s[0] == '|' then "\\|" else [s[0]];
      var r1 := ReplaceChar(s[1..], '|', "\\|");
      assert ReplaceChar(s, '|', "\\|") == p1 + r1;
      ReplaceCharConcat(p1, r1, '\n', " ");
      var p2 := ReplaceChar(p1, '\n', " ");
      var r2 := ReplaceChar(r1, '\n', " ");
      ReplaceCharConcat(p2, r2, '*', "\\*");
      assert ReplaceChar(p2, '*', "\\*") == MarkdownPiece(s[0]) by {
        if s[0] == '|' {
          assert p2 == "\\|";
          assert ReplaceChar("\\|", '*', "\\*") == "\\|";
        } else if s[0] == '\n' {
          assert p2 == " ";
        } else {
          assert p2 == [s[0]];
        }
      }
    }
  }

  /** `StatusFormatter.format_detail_value`; `str` of a float and `json.dumps` are given. */
  function FormatDetailValue(v: Value, maxLength: int, floatRepr: Fl -> string, dumps: Value -> string): (r: string)
    ensures v.Bool? ==> r == (if v.b then "\U{E2}\U{153}\U{2026} Yes" else "\U{E2}\U{152} No")
    ensures v.Int? ==> r == IntToString(v.i)
    ensures v.Str? ==> '\n' !in r && Escaped(r, '|') && Escaped(r, '*')
    ensures v.Str? && |EscapeMarkdown(v.s)| <= maxLength ==> r == EscapeMarkdown(v.s)
    ensures !v.Bool? && !v.Int? && !v.Float? && maxLength >= 0 ==> |r| <= maxLength + 3
  {
    match v
    case Bool(b) => if b then "\U{E2}\U{153}\U{2026} Yes" else "\U{E2}\U{152} No"
    case Int(i) => IntToString(i)
    case Float(x) => floatRepr(x)
    case Str(s) =>
      EscapeMarkdownPerChar(s);
      EscapedFlatMap(s, MarkdownPiece, '|');
      EscapedFlatMap(s, MarkdownPiece, '*');
      EscapedTruncate(EscapeMarkdown(s), maxLength, '|');
      EscapedTruncate(EscapeMarkdown(s), maxLength, '*');
      FlatMapAbsent(s, MarkdownPiece, '\n');
      TruncateAbsent(EscapeMarkdown(s), maxLength, '\n');
      Truncate(EscapeMarkdown(s), maxLength)
    case List(_) => Truncate(dumps(v), maxLength)
    case Dict(_) => Truncate(dumps(v), maxLength)
    case Null => Truncate("None", maxLength)
  }

  /** What `_validate_and_sort_results` receives: something other than a list, or a list whose items may lack `id`, `status` or `type`. */
  datatype Input = NotAList | Items(items: seq<Option<ClaimResult>>)

  function InvalidConfig(msg: string): Exc
  {
    OtherError("InvalidConfigError", msg)
  }

  /** The index of the first item lacking a required attribute. */
  function FirstMissing(items: seq<Option<ClaimResult>>): (r: Option<nat>)
    ensures r.None? <==> forall i :: 0 <= i < |items| ==> items[i].Some?
    ensures r.Some? ==> r.value < |items| && items[r.value].None? && forall j :: 0 <= j < r.value ==> items[j].Some?
  {
    if items == [] then None
    else if items[0].None? then Some(0)
    else
      match FirstMissing(items[1..])
      case None => None
      case Some(i) => Some(i + 1)
  }

  function Present(items: seq<Option<ClaimResult>>): (rs: seq<ClaimResult>)
    requires forall i :: 0 <= i < |items| ==> items[i].Some?
    ensures |rs| == |items| && forall i :: 0 <= i < |items| ==> rs[i] == items[i].value
  {
    seq(|items|, i requires 0 <= i < |items| => items[i].value)
  }

  /** The sort key `sort_results_by` names; an unknown name leaves the order alone. */
  function SortKey(config: Option<ReportConfig>): string
  {
    if config.Some? then config.value.sortResultsBy else "id"
  }

  /** `_validate_and_sort_results` */
  function ValidateAndSort(input: Input, config: Option<ReportConfig>): (r: Result<seq<ClaimResult>>)
    ensures input.NotAList? ==> r == Err(InvalidConfig("Results must be a list"))
    ensures input.Items? && FirstMissing(input.items).Some? ==>
      r == Err(InvalidConfig("Invalid result at index " + NatToString(FirstMissing(input.items).value) + MissingAttributesSuffix))
    ensures r.Ok? <==> input.Items? && FirstMissing(input.items).None?
    ensures r.Ok? ==> multiset(r.value) == multiset(Present(input.items))
    ensures r.Ok? && SortKey(config) == "id" ==> SortedBy(r.value, IdKey)
    ensures r.Ok? && SortKey(config) == "type" ==> SortedBy(r.value, TypeKey)
    ensures r.Ok? && SortKey(config) == "status" ==> SortedBy(r.value, StatusKey)
  {
    if input.NotAList? then Err(InvalidConfig("Results must be a list"))
    else if input.items == [] then Ok([])
    else
      match FirstMissing(input.items)
      case Some(i) => Err(InvalidConfig("Invalid result at index " + NatToString(i) + MissingAttributesSuffix))
      case None =>
        var results := Present(input.items);
        var key := SortKey(config);
        if key == "id" then Ok(SortBy(results, IdKey))
        else if key == "type" then Ok(SortBy(results, TypeKey))
        else if key == "status" then Ok(SortBy(results, StatusKey))
        else Ok(results)
  }

  /** The generator: its validated, sorted results, its configuration and the cached statistics. */
  class ReportGenerator {
    const results: seq<ClaimResult>
    const config: ReportConfig
    var cache: Option<ProofStatistics>

    /** The cache, once filled, holds the statistics of the results. */
    predicate Valid()
      reads this
    {
      cache.Some? ==> cache.value == FromResults(results)
    }

    /** Construction from results already validated and sorted, with an empty cache. */
    constructor(results: seq<ClaimResult>, config: ReportConfig)
      ensures Valid()
      ensures this.results == results && this.config == config && cache == None
    {
      this.results := results;
      this.config := config;
      cache := None;
    }

    /** The `stats` property: computed on first use, then served from the cache. */
    method Stats() returns (s: ProofStatistics)
      requires Valid()
      modifies this
      ensures Valid()
      ensures s == FromResults(results)
      ensures cache == Some(s)
    {
      if cache.None? {
        var computed := CalculateStatistics(results);
        cache := Some(computed);
      }
      s := cache.value;
    }
  }

  /** `ReportGenerator(results, config)`: validation and sorting, then the default configuration when none is given. */
  method NewReportGenerator(input: Input, config: Option<ReportConfig>) returns (r: Result<ReportGenerator>)
    ensures r.Ok? <==> ValidateAndSort(input, config).Ok?
    ensures r.Err? ==> r.exc == ValidateAndSort(input, config).exc
    ensures r.Ok? ==> fresh(r.value) && r.value.Valid() && r.value.cache.None?
    ensures r.Ok? ==> r.value.results == ValidateAndSort(input, config).value
    ensures r.Ok? ==> r.value.config == if config.Some? then config.value else ReportConfig(200, 2, true, true, true, "id")
  {
    var sorted := ValidateAndSort(input, config);
    if sorted.Err? {
      return Err(sorted.exc);
    }
    var g := new ReportGenerator(sorted.value, if config.Some? then config.value else ReportConfig(200, 2, true, true, true, "id"));
    return Ok(g);
  }
}
