/**
 * The original report generator: summary statistics over claim results,
 * the emoji for a status, the display form of a detail value and the
 * dictionary form of a result. Results keep the order they are given in.
 */
module Reports {
  import opened Text
  import opened Py
  import opened Claims

  /** The four counters of one type in `by_type`. */
  datatype Counts = Counts(total: nat, proved: nat, rejected: nat, inconclusive: nat)

  const NoCounts := Counts(0, 0, 0, 0)

  /** A key of the counter dictionary: one of the three statuses, or "total". */
  predicate CounterKey(status: string)
  {
    KnownStatus(status) || status == "total"
  }

  /**
   * `by_type[t][status] += 1`: the dictionary holds the three status counters
   * and "total", so the status "total" bumps the total a second time and any
   * other status raises KeyError.
   */
  function Bump(c: Counts, status: string): (r: Result<Counts>)
    ensures r.Ok? <==> CounterKey(status)
    ensures r.Err? ==> r.exc == KeyError(status)
    ensures KnownStatus(status) ==>
      && r.Ok? && r.value.total == c.total
      && r.value.proved + r.value.rejected + r.value.inconclusive == c.proved + c.rejected + c.inconclusive + 1
    ensures status == "total" ==> r == Ok(c.(total := c.total + 1))
  {
    if status == Proved then Ok(c.(proved := c.proved + 1))
    else if status == Rejected then Ok(c.(rejected := c.rejected + 1))
    else if status == Inconclusive then Ok(c.(inconclusive := c.inconclusive + 1))
    else if status == "total" then Ok(c.(total := c.total + 1))
    else Err(KeyError(status))
  }

  /** A counter key adds one to its own counter and to no other. */
  lemma BumpValue(c: Counts, status: string)
    requires CounterKey(status)
    ensures Bump(c, status).value == Counts(
      c.total + (if status == "total" then 1 else 0),
      c.proved + (if status == Proved then 1 else 0),
      c.rejected + (if status == Rejected then 1 else 0),
      c.inconclusive + (if status == Inconclusive then 1 else 0))
  {
    StatusesDistinct();
  }

  /** The counters of one type after one more result of that type. */
  function Counted(m: map<string, Counts>, r: ClaimResult): Result<Counts>
  {
    var c := if r.kind in m then m[r.kind] else NoCounts;
    Bump(c.(total := c.total + 1), r.status)
  }

  /** `by_type` after the grouping loop has visited `results`. */
  function ByType(results: seq<ClaimResult>): Result<map<string, Counts>>
  {
    if results == [] then Ok(map[])
    else
      var m :- ByType(results[..|results| - 1]);
      var r := results[|results| - 1];
      var c :- Counted(m, r);
      Ok(m[r.kind := c])
  }

  /** The grouping loop of `_calculate_stats`. */
  method GroupByType(results: seq<ClaimResult>) returns (r: Result<map<string, Counts>>)
    ensures r == ByType(results)
  {
    var byType: map<string, Counts> := map[];
    var i := 0;
    while i < |results|
      invariant 0 <= i <= |results|
      invariant ByType(results[..i]) == Ok(byType)
    {
      assert results[..i + 1][..i] == results[..i];
      var c := Counted(byType, results[i]);
      if c.Err? {
        ErrorPersists(results, i + 1);
        return Err(c.exc);
      }
      byType := byType[results[i].kind := c.value];
      i := i + 1;
    }
    assert results[..i] == results;
    return Ok(byType);
  }

  /** Once the grouping has raised, it raises the same exception over any longer list. */
  lemma {:induction false} ErrorPersists(results: seq<ClaimResult>, k: nat)
    requires 0 < k <= |results|
    requires ByType(results[..k]).Err?
    ensures ByType(results) == ByType(results[..k])
    decreases |results| - k
  {
    if k < |results| {
      assert results[..k + 1][..k] == results[..k];
      ErrorPersists(results, k + 1);
    } else {
      assert results[..k] == results;
    }
  }

  /** The statistics; `success_rate` and `by_type` are absent for an empty list. */
  datatype Stats = Stats(
    total: nat,
    proved: nat,
    rejected: nat,
    inconclusive: nat,
    successRate: Option<real>,
    byType: Option<map<string, Counts>>)

  /** What `_calculate_stats` returns or raises, without the timestamp. */
  function Statistics(results: seq<ClaimResult>): Result<Stats>
  {
    if |results| == 0 then Ok(Stats(0, 0, 0, 0, None, None))
    else
      var byType :- ByType(results);
      var proved := CountStatus(results, Proved);
      Ok(Stats(
        |results|,
        proved,
        CountStatus(results, Rejected),
        CountStatus(results, Inconclusive),
        Some(proved as real / |results| as real * 100.0),
        Some(byType)))
  }

  /** `_calculate_stats`. */
  method CalculateStats(results: seq<ClaimResult>) returns (r: Result<Stats>)
    ensures r == Statistics(results)
  {
    var total := |results|;
    if total == 0 {
      return Ok(Stats(0, 0, 0, 0, None, None));
    }
    var proved := CountStatus(results, Proved);
    var rejected := CountStatus(results, Rejected);
    var inconclusive := CountStatus(results, Inconclusive);
    var byType := GroupByType(results);
    if byType.Err? {
      return Err(byType.exc);
    }
    return Ok(Stats(total, proved, rejected, inconclusive, Some(proved as real / total as real * 100.0), Some(byType.value)));
  }

  /** The grouping raises exactly when some status is not a counter key, and then for the first such status. */
  lemma {:induction false} ByTypeRaisesOnUnknownStatus(results: seq<ClaimResult>)
    ensures ByType(results).Ok? <==> forall i :: 0 <= i < |results| ==> CounterKey(results[i].status)
    ensures ByType(results).Err? ==>
      (exists i :: 0 <= i < |results| && !CounterKey(results[i].status)
         && (forall j :: 0 <= j < i ==> CounterKey(results[j].status))
         && ByType(results).exc == KeyError(results[i].status))
  {
    if results != [] {
      var init := results[..|results| - 1];
      ByTypeRaisesOnUnknownStatus(init);
      assert forall j :: 0 <= j < |init| ==> init[j] == results[j];
    }
  }

  /** The counters of type `t` among `results`; a result whose status is "total" counts twice in the total. */
  function TypeCounts(results: seq<ClaimResult>, t: string): Counts
  {
    Counts(CountKind(results, t) + CountKindStatus(results, t, "total"), CountKindStatus(results, t, Proved),
           CountKindStatus(results, t, Rejected), CountKindStatus(results, t, Inconclusive))
  }

  /** `m` has an entry exactly for the types present in `results`, holding that type's totals. */
  ghost predicate Tallies(m: map<string, Counts>, results: seq<ClaimResult>)
  {
    && (forall t :: t in m <==> CountKind(results, t) > 0)
    && (forall t :: t in m ==> m[t] == TypeCounts(results, t))
  }

  /** Each type present gets one entry holding its own totals. */
  lemma {:induction false} ByTypeCounts(results: seq<ClaimResult>)
    requires ByType(results).Ok?
    ensures Tallies(ByType(results).value, results)
  {
    if results != [] {
      ByTypeCounts(results[..|results| - 1]);
      TalliesStep(results, ByType(results[..|results| - 1]).value);
    }
  }

  /** The counters of a type after one more result of that type with the given status. */
  function Step(prev: Counts, status: string): Counts
  {
    Counts(
      prev.total + 1 + (if status == "total" then 1 else 0),
      prev.proved + (if status == Proved then 1 else 0),
      prev.rejected + (if status == Rejected then 1 else 0),
      prev.inconclusive + (if status == Inconclusive then 1 else 0))
  }

  /** The last result adds itself to its own type's totals and to no other type's. */
  lemma TypeCountsSnoc(results: seq<ClaimResult>, u: string)
    requires results != []
    ensures var r := results[|results| - 1];
      var prev := TypeCounts(results[..|results| - 1], u);
      TypeCounts(results, u) == if r.kind != u then prev else Step(prev, r.status)
  {
  }

  /** Counting the last result keeps the tallies: its own type is bumped, every other type keeps its totals. */
  lemma TalliesStep(results: seq<ClaimResult>, m: map<string, Counts>)
    requires results != []
    requires Tallies(m, results[..|results| - 1]) && Counted(m, results[|results| - 1]).Ok?
    ensures Tallies(m[results[|results| - 1].kind := Counted(m, results[|results| - 1]).value], results)
  {
    var r := results[|results| - 1];
    var m' := m[r.kind := Counted(m, r).value];
    forall u
      ensures u in m' <==> CountKind(results, u) > 0
      ensures u in m' ==> m'[u] == TypeCounts(results, u)
    {
      TallyStepAt(results, m, u);
    }
  }

  /** `TalliesStep` for one type `u`. */
  lemma TallyStepAt(results: seq<ClaimResult>, m: map<string, Counts>, u: string)
    requires results != []
    requires var init := results[..|results| - 1];
      && (u in m <==> CountKind(init, u) > 0)
      && (u in m ==> m[u] == TypeCounts(init, u))
      && (results[|results| - 1].kind in m <==> CountKind(init, results[|results| - 1].kind) > 0)
      && (results[|results| - 1].kind in m ==> m[results[|results| - 1].kind] == TypeCounts(init, results[|results| - 1].kind))
    requires Counted(m, results[|results| - 1]).Ok?
    ensures var r := results[|results| - 1];
      var m' := m[r.kind := Counted(m, r).value];
      && (u in m' <==> CountKind(results, u) > 0)
      && (u in m' ==> m'[u] == TypeCounts(results, u))
  {
    TypeCountsSnoc(results, u);
    if u == results[|results| - 1].kind {
      CountedOwn(results, m);
    }
  }

  /** The counters of the last result's own type, once bumped, are that type's counters over the whole list. */
  lemma CountedOwn(results: seq<ClaimResult>, m: map<string, Counts>)
    requires results != []
    requires var init := results[..|results| - 1];
      && (results[|results| - 1].kind in m <==> CountKind(init, results[|results| - 1].kind) > 0)
      && (results[|results| - 1].kind in m ==> m[results[|results| - 1].kind] == TypeCounts(init, results[|results| - 1].kind))
    requires Counted(m, results[|results| - 1]).Ok?
    ensures Counted(m, results[|results| - 1]).value == TypeCounts(results, results[|results| - 1].kind)
  {
    var init := results[..|results| - 1];
    var r := results[|results| - 1];
    var prev := TypeCounts(init, r.kind);
    if r.kind !in m {
      NoKindNoCounts(init, r.kind);
    }
    CountedIsBump(m, r, prev);
    BumpStep(prev, r.status);
    TypeCountsSnoc(results, r.kind);
  }

  /** `Counted` bumps the type's previous counters, or zero counters for a new type. */
  lemma CountedIsBump(m: map<string, Counts>, r: ClaimResult, prev: Counts)
    requires r.kind in m ==> m[r.kind] == prev
    requires r.kind !in m ==> prev == NoCounts
    ensures Counted(m, r) == Bump(prev.(total := prev.total + 1), r.status)
  {
  }

  /** A type with no results has all its counters at zero. */
  lemma NoKindNoCounts(results: seq<ClaimResult>, t: string)
    requires CountKind(results, t) == 0
    ensures TypeCounts(results, t) == NoCounts
  {
    assert CountKindStatus(results, t, "total") <= CountKind(results, t);
  }

  /** Counting one more result of a counter key, as one value. */
  lemma BumpStep(prev: Counts, status: string)
    requires CounterKey(status)
    ensures Bump(prev.(total := prev.total + 1), status).value == Step(prev, status)
  {
    BumpValue(prev.(total := prev.total + 1), status);
  }

  /** The stored totals of the given types. */
  function SumTotals(m: map<string, Counts>, kinds: seq<string>): nat
    requires forall t :: t in kinds ==> t in m
  {
    if kinds == [] then 0 else SumTotals(m, kinds[..|kinds| - 1]) + m[kinds[|kinds| - 1]].total
  }

  /** Stored totals that equal the per-type result counts add up as those counts do. */
  lemma {:induction false} SumTotalsKinds(results: seq<ClaimResult>, m: map<string, Counts>, kinds: seq<string>)
    requires forall t :: t in kinds ==> t in m && m[t].total == CountKind(results, t)
    ensures SumTotals(m, kinds) == SumKinds(results, kinds)
  {
    if kinds != [] {
      SumTotalsKinds(results, m, kinds[..|kinds| - 1]);
    }
  }

  /**
   * Every result belongs to exactly one type present, and when every status is
   * one of the three, the stored type totals add up to the number of results.
   */
  lemma ByTypeTotalsSum(results: seq<ClaimResult>, kinds: seq<string>)
    requires ByType(results).Ok?
    requires Distinct(kinds)
    requires forall t :: t in kinds <==> t in ByType(results).value
    ensures SumKinds(results, kinds) == |results|
    ensures (forall i :: 0 <= i < |results| ==> KnownStatus(results[i].status)) ==>
      SumTotals(ByType(results).value, kinds) == |results|
  {
    var m := ByType(results).value;
    ByTypeCounts(results);
    forall i | 0 <= i < |results|
      ensures results[i].kind in kinds
    {
      assert CountKind(results, results[i].kind) > 0;
    }
    KindTotalsSum(results, kinds);
    if forall i :: 0 <= i < |results| ==> KnownStatus(results[i].status) {
      forall t | t in kinds
        ensures m[t].total == CountKind(results, t)
      {
        NoTotalStatus(results, t);
      }
      SumTotalsKinds(results, m, kinds);
    }
  }

  /**
   * Whenever statistics are produced, total is the number of results and the
   * three counts partition it unless some status is "total"; the rate is a percentage.
   */
  lemma StatisticsConsistent(results: seq<ClaimResult>)
    requires Statistics(results).Ok?
    ensures var s := Statistics(results).value;
      && s.total == |results|
      && s.proved + s.rejected + s.inconclusive <= s.total
      && (s.proved + s.rejected + s.inconclusive == s.total <==> forall i :: 0 <= i < |results| ==> KnownStatus(results[i].status))
      && (s.successRate.Some? <==> results != [])
      && (s.successRate.Some? ==> 0.0 <= s.successRate.value <= 100.0)
      && (s.successRate.Some? ==> (s.successRate.value == 100.0 <==> s.proved == s.total))
  {
    if results != [] {
      ByTypeRaisesOnUnknownStatus(results);
      StatusCountsBound(results);
      Percentage(CountStatus(results, Proved), |results|);
    }
  }

  /** `part / whole * 100` lies in [0, 100] and is 100 exactly for the whole. */
  lemma Percentage(part: nat, whole: nat)
    requires 0 < whole && part <= whole
    ensures 0.0 <= part as real / whole as real * 100.0 <= 100.0
    ensures part as real / whole as real * 100.0 == 100.0 <==> part == whole
  {
    FractionBounds(part, whole);
    assert Fraction(part, whole) == part as real / whole as real;
  }

  /** The statistics dictionary, `timestamp` given; the optional keys appear only for a non-empty list. */
  function StatsDict(s: Stats, timestamp: string): (d: map<string, Value>)
    ensures "success_rate" in d <==> s.successRate.Some? && s.byType.Some?
    ensures "by_type" in d <==> s.successRate.Some? && s.byType.Some?
    ensures {"total", "proved", "rejected", "inconclusive"} <= d.Keys
  {
    var base := map["total" := Int(s.total), "proved" := Int(s.proved), "rejected" := Int(s.rejected), "inconclusive" := Int(s.inconclusive)];
    if s.successRate.None? || s.byType.None? then base
    else
      var byType := map t | t in s.byType.value :: Dict(CountsDict(s.byType.value[t]));
      base["success_rate" := Float(Finite(s.successRate.value))]["by_type" := Dict(byType)]["timestamp" := Str(timestamp)]
  }

  function CountsDict(c: Counts): map<string, Value>
  {
    map["total" := Int(c.total), "proved" := Int(c.proved), "rejected" := Int(c.rejected), "inconclusive" := Int(c.inconclusive)]
  }

  /** The statistics `_write_summary_section` reads, in the order it reads them. */
  function SummaryFields(d: map<string, Value>): Result<seq<Value>>
  {
    var total :- Lookup(d, "total");
    var proved :- Lookup(d, "proved");
    var rate :- Lookup(d, "success_rate");
    var rejected :- Lookup(d, "rejected");
    var inconclusive :- Lookup(d, "inconclusive");
    var byType :- Lookup(d, "by_type");
    Ok([total, proved, rate, rejected, inconclusive, byType])
  }

  /** The summary can be written exactly when there are results; for none it raises KeyError('success_rate'). */
  lemma SummaryNeedsResults(results: seq<ClaimResult>, timestamp: string)
    requires Statistics(results).Ok?
    ensures var f := SummaryFields(StatsDict(Statistics(results).value, timestamp));
      && (f.Ok? <==> results != [])
      && (results == [] ==> f == Err(KeyError("success_rate")))
  {
  }

  /** `_get_status_emoji` */
  function StatusEmoji(status: string): (e: string)
    ensures e in {"\U{2705}", "\U{274C}", "\U{2753}"}
    ensures !KnownStatus(status) ==> e == "\U{2753}"
    ensures status == Proved <==> e == "\U{2705}"
    ensures status == Rejected <==> e == "\U{274C}"
  {
    if status == Proved then "\U{2705}"
    else if status == Rejected then "\U{274C}"
    else "\U{2753}"
  }

  /** How `_format_detail_value` escapes one character of a string: `|` gets a backslash, a newline becomes a space. */
  function DetailPiece(c: char): (p: string)
  {
    if c == '|' then "\\|" else if c == '\n' then " " else [c]
  }

  /** `value.replace('|', '\\|').replace('\n', ' ')` */
  function EscapeDetail(s: string): string
  {
    ReplaceChar(ReplaceChar(s, '|', "\\|"), '\n', " ")
  }

  /** The two replacements act character by character. */
  lemma {:induction false} EscapeDetailPerChar(s: string)
    ensures EscapeDetail(s) == FlatMap(s, DetailPiece)
    decreases |s|
  {
    if s != [] {
      EscapeDetailPerChar(s[1..]);
      var p := if s[0] == '|' then "\\|" else [s[0]];
      assert ReplaceChar(s, '|', "\\|") == p + ReplaceChar(s[1..], '|', "\\|");
      ReplaceCharConcat(p, ReplaceChar(s[1..], '|', "\\|"), '\n', " ");
      assert ReplaceChar(p, '\n', " ") == DetailPiece(s[0]) by {
        if s[0] == '|' {
          assert ReplaceChar("|", '\n', " ") == "|";
        }
      }
    }
  }

  /** `_format_detail_value`; `str` of a float and `json.dumps` are given. */
  function FormatDetailValue(v: Value, floatRepr: Fl -> string, dumps: Value -> string): (r: string)
    ensures v.Bool? ==> r == (if v.b then "\U{2705} Yes" else "\U{274C} No")
    ensures v.Str? ==> '\n' !in r && Escaped(r, '|')
    ensures v.Str? && |EscapeDetail(v.s)| <= 200 ==> r == EscapeDetail(v.s)
    ensures v.Str? || v.List? || v.Dict? ==> |r| <= 203
  {
    match v
    case Bool(b) => if b then "\U{2705} Yes" else "\U{274C} No"
    case Int(i) => IntToString(i)
    case Float(x) => floatRepr(x)
    case Str(s) =>
      EscapeDetailPerChar(s);
      EscapedFlatMap(s, DetailPiece, '|');
      EscapedTruncate(EscapeDetail(s), 200, '|');
      FlatMapAbsent(s, DetailPiece, '\n');
      TruncateAbsent(EscapeDetail(s), 200, '\n');
      Truncate(EscapeDetail(s), 200)
    case List(_) => Truncate(dumps(v), 200)
    case Dict(_) => Truncate(dumps(v), 200)
    case Null => "None"
  }

  /** `_result_to_dict`: exactly the four fields. */
  function ResultToDict(r: ClaimResult): (d: map<string, Value>)
    ensures d.Keys == {"id", "type", "status", "details"}
    ensures d["id"] == Str(r.id) && d["type"] == Str(r.kind) && d["status"] == Str(r.status) && d["details"] == Dict(r.details)
  {
    map["id" := Str(r.id), "type" := Str(r.kind), "status" := Str(r.status), "details" := Dict(r.details)]
  }

  /** Nothing of a result is lost: distinct results give distinct dictionaries. */
  lemma ResultToDictInjective(a: ClaimResult, b: ClaimResult)
    requires ResultToDict(a) == ResultToDict(b)
    ensures a == b
  {
    assert ResultToDict(a)["id"] == ResultToDict(b)["id"];
    assert ResultToDict(a)["type"] == ResultToDict(b)["type"];
    assert ResultToDict(a)["status"] == ResultToDict(b)["status"];
    assert ResultToDict(a)["details"] == ResultToDict(b)["details"];
  }
}
