/**
 * The document organiser: rule defaults, file-name normalisation, subject
 * detection, the claim-to-status map built from the results, the best proof
 * status per document, routing into the three buckets, and the choice of a
 * free name when copying. File-system reads arrive as parameters: the set of
 * names already in a destination folder, the parsed results file.
 */
module Organize {
  import opened Text
  import opened Py
  import opened Paths
  import Ordering

  // ---------------------------------------------------------------- defaults

  const TopDefaults: map<string, Value> :=
    map["naming" := Dict(map[]), "routing" := Dict(map[]), "subjects" := List([])]

  const NamingDefaults: map<string, Value> :=
    map[
      "replace_spaces_with" := Str("_"),
      "strip_chars" := List([Str("["), Str("]"), Str("("), Str(")"), Str("{"), Str("}"), Str(","), Str(";")]),
      "collapse_underscores" := Bool(true),
      "max_len" := Int(120)]

  const RoutingDefaults: map<string, Value> :=
    map[
      "confirmed_dir" := Str("Research_CONFIRMED"),
      "needs_work_dir" := Str("Research_NEEDS_WORK"),
      "speculative_dir" := Str("Speculation_REJECTED")]

  /** `d` after `setdefault` for every key of `defaults`: present keys keep their values. */
  function Filled(d: map<string, Value>, defaults: map<string, Value>): (r: map<string, Value>)
  {
    map k | k in d.Keys + defaults.Keys :: if k in d then d[k] else defaults[k]
  }

  /** Filling adds exactly the missing keys, never overwrites, and a second fill changes nothing. */
  lemma FilledKeepsAndAdds(d: map<string, Value>, defaults: map<string, Value>)
    ensures Filled(d, defaults).Keys == d.Keys + defaults.Keys
    ensures forall k :: k in d ==> Filled(d, defaults)[k] == d[k]
    ensures forall k :: k in defaults && k !in d ==> Filled(d, defaults)[k] == defaults[k]
    ensures Filled(Filled(d, defaults), defaults) == Filled(d, defaults)
  {
  }

  /** The error `v.setdefault(...)` raises on a value that is not a dict. */
  function NoSetdefault(v: Value): Exc
  {
    AttributeError("'" + TypeName(v) + "' object has no attribute 'setdefault'")
  }

  /** `d.setdefault(k, v)` on a dict value. */
  function SetDefault(d: map<string, Value>, k: string, v: Value): (r: map<string, Value>)
    ensures r.Keys == d.Keys + {k}
    ensures forall j :: j in d ==> r[j] == d[j]
    ensures k !in d ==> r[k] == v
  {
    if k in d then d else d[k := v]
  }

  /** One more `setdefault` fills one more default. */
  lemma SetDefaultFilled(d: map<string, Value>, defaults: map<string, Value>, k: string, v: Value)
    requires k !in defaults
    ensures SetDefault(Filled(d, defaults), k, v) == Filled(d, defaults[k := v])
  {
  }

  /** Filling from nothing changes nothing. */
  lemma FilledNothing(d: map<string, Value>)
    ensures Filled(d, map[]) == d
  {
  }

  /** The top-level defaults of a dict of rules, then the naming and routing defaults inside its sub-dicts. */
  function DictDefaults(d: map<string, Value>): Result<map<string, Value>>
  {
    var top := Filled(d, TopDefaults);
    assert "naming" in top && "routing" in top;
    if !top["naming"].Dict? then Err(NoSetdefault(top["naming"]))
    else if !top["routing"].Dict? then Err(NoSetdefault(top["routing"]))
    else Ok(top["naming" := Dict(Filled(top["naming"].entries, NamingDefaults))]
               ["routing" := Dict(Filled(top["routing"].entries, RoutingDefaults))])
  }

  /**
   * What `ensure_defaults` computes: `r or {}`, then the three top-level
   * defaults, then the naming and routing defaults inside the (possibly
   * just created) sub-dicts. Anything that is not a dict where one is
   * needed raises AttributeError.
   */
  function Defaults(r: Value): Result<map<string, Value>>
  {
    if !Truthy(r) then DictDefaults(map[])
    else if !r.Dict? then Err(NoSetdefault(r))
    else DictDefaults(r.entries)
  }

  /** The three top-level `setdefault` calls. */
  lemma TopSteps(d: map<string, Value>)
    ensures SetDefault(SetDefault(SetDefault(d, "naming", Dict(map[])), "routing", Dict(map[])), "subjects", List([]))
         == Filled(d, TopDefaults)
  {
    FilledNothing(d);
    SetDefaultFilled(d, map[], "naming", Dict(map[]));
    SetDefaultFilled(d, map["naming" := Dict(map[])], "routing", Dict(map[]));
    SetDefaultFilled(d, map["naming" := Dict(map[]), "routing" := Dict(map[])], "subjects", List([]));
  }

  /** The four naming `setdefault` calls. */
  lemma NamingSteps(d: map<string, Value>)
    ensures SetDefault(SetDefault(SetDefault(SetDefault(d,
              "replace_spaces_with", Str("_")), "strip_chars", NamingDefaults["strip_chars"]),
              "collapse_underscores", Bool(true)), "max_len", Int(120))
         == Filled(d, NamingDefaults)
  {
    var sc := NamingDefaults["strip_chars"];
    FilledNothing(d);
    SetDefaultFilled(d, map[], "replace_spaces_with", Str("_"));
    SetDefaultFilled(d, map["replace_spaces_with" := Str("_")], "strip_chars", sc);
    SetDefaultFilled(d, map["replace_spaces_with" := Str("_"), "strip_chars" := sc], "collapse_underscores", Bool(true));
    SetDefaultFilled(d, map["replace_spaces_with" := Str("_"), "strip_chars" := sc, "collapse_underscores" := Bool(true)],
                     "max_len", Int(120));
  }

  /** The three routing `setdefault` calls. */
  lemma RoutingSteps(d: map<string, Value>)
    ensures SetDefault(SetDefault(SetDefault(d,
              "confirmed_dir", Str("Research_CONFIRMED")), "needs_work_dir", Str("Research_NEEDS_WORK")),
              "speculative_dir", Str("Speculation_REJECTED"))
         == Filled(d, RoutingDefaults)
  {
    FilledNothing(d);
    SetDefaultFilled(d, map[], "confirmed_dir", Str("Research_CONFIRMED"));
    SetDefaultFilled(d, map["confirmed_dir" := Str("Research_CONFIRMED")], "needs_work_dir", Str("Research_NEEDS_WORK"));
    SetDefaultFilled(d, map["confirmed_dir" := Str("Research_CONFIRMED"), "needs_work_dir" := Str("Research_NEEDS_WORK")],
                     "speculative_dir", Str("Speculation_REJECTED"));
  }

  /** `ensure_defaults`, one `setdefault` at a time. */
  method EnsureDefaults(r: Value) returns (res: Result<map<string, Value>>)
    ensures res == Defaults(r)
  {
    var d: map<string, Value>;
    if !Truthy(r) {
      d := map[];
    } else if !r.Dict? {
      return Err(NoSetdefault(r));
    } else {
      d := r.entries;
    }
    TopSteps(d);
    d := SetDefault(d, "naming", Dict(map[]));
    d := SetDefault(d, "routing", Dict(map[]));
    d := SetDefault(d, "subjects", List([]));
    var n := d["naming"];
    var t := d["routing"];
    if !n.Dict? {
      return Err(NoSetdefault(n));
    }
    var nm := n.entries;
    NamingSteps(nm);
    nm := SetDefault(nm, "replace_spaces_with", Str("_"));
    nm := SetDefault(nm, "strip_chars", NamingDefaults["strip_chars"]);
    nm := SetDefault(nm, "collapse_underscores", Bool(true));
    nm := SetDefault(nm, "max_len", Int(120));
    d := d["naming" := Dict(nm)];
    if !t.Dict? {
      return Err(NoSetdefault(t));
    }
    var rt := t.entries;
    RoutingSteps(rt);
    rt := SetDefault(rt, "confirmed_dir", Str("Research_CONFIRMED"));
    rt := SetDefault(rt, "needs_work_dir", Str("Research_NEEDS_WORK"));
    rt := SetDefault(rt, "speculative_dir", Str("Speculation_REJECTED"));
    d := d["routing" := Dict(rt)];
    res := Ok(d);
  }

  /**
   * The rules after `ensure_defaults` when the sub-dicts that are present
   * are dicts: top-level entries other than the two sub-dicts are kept,
   * and inside the sub-dicts present settings are never overwritten while
   * every default setting is there.
   */
  lemma DefaultsKeepGivenSettings(r: map<string, Value>)
    requires "naming" in r ==> r["naming"].Dict?
    requires "routing" in r ==> r["routing"].Dict?
    ensures Defaults(Dict(r)).Ok?
    ensures var out := Defaults(Dict(r)).value;
      && out.Keys == r.Keys + TopDefaults.Keys
      && (forall k :: k in r && k != "naming" && k != "routing" ==> out[k] == r[k])
      && out["naming"].Dict? && out["routing"].Dict?
      && ("naming" in r ==> Extends(out["naming"].entries, r["naming"].entries))
      && ("routing" in r ==> Extends(out["routing"].entries, r["routing"].entries))
      && out["naming"].entries.Keys >= NamingDefaults.Keys
      && out["routing"].entries.Keys >= RoutingDefaults.Keys
  {
    NestedFilled(r, TopDefaults, NamingDefaults, RoutingDefaults);
    if r == map[] {
      assert Defaults(Dict(r)) == DictDefaults(map[]);
    }
    assert Defaults(Dict(r)) == DictDefaults(r);
  }

  /** The shape of `DictDefaults` for any top-level, naming and routing defaults. */
  lemma NestedFilled(r: map<string, Value>, top: map<string, Value>, naming: map<string, Value>, routing: map<string, Value>)
    requires "naming" in top && "routing" in top && top["naming"].Dict? && top["routing"].Dict?
    requires "naming" in r ==> r["naming"].Dict?
    requires "routing" in r ==> r["routing"].Dict?
    ensures var t := Filled(r, top);
      && t["naming"].Dict? && t["routing"].Dict?
      && var out := t["naming" := Dict(Filled(t["naming"].entries, naming))]["routing" := Dict(Filled(t["routing"].entries, routing))];
      && out.Keys == r.Keys + top.Keys
      && (forall k :: k in r && k != "naming" && k != "routing" ==> out[k] == r[k])
      && ("naming" in r ==> Extends(out["naming"].entries, r["naming"].entries))
      && ("routing" in r ==> Extends(out["routing"].entries, r["routing"].entries))
      && out["naming"].entries.Keys >= naming.Keys
      && out["routing"].entries.Keys >= routing.Keys
  {
    var t := Filled(r, top);
    FilledKeepsAndAdds(r, top);
    FilledExtends(t["naming"].entries, naming);
    FilledExtends(t["routing"].entries, routing);
  }

  /** Every entry of `given` is in `out` with the same value. */
  ghost predicate Extends(out: map<string, Value>, given: map<string, Value>)
  {
    forall k :: k in given ==> k in out && out[k] == given[k]
  }

  /** A filled dict extends the given one and holds every default key. */
  lemma FilledExtends(d: map<string, Value>, defaults: map<string, Value>)
    ensures Extends(Filled(d, defaults), d) && Filled(d, defaults).Keys >= defaults.Keys
  {
    FilledKeepsAndAdds(d, defaults);
  }

  /** `ensure_defaults(None)` gives the defaults alone. */
  lemma DefaultsOfNothing()
    ensures Defaults(Null) == Ok(TopDefaults["naming" := Dict(NamingDefaults)]["routing" := Dict(RoutingDefaults)])
  {
    assert Filled(map[], TopDefaults) == TopDefaults;
    assert Filled(map[], NamingDefaults) == NamingDefaults;
    assert Filled(map[], RoutingDefaults) == RoutingDefaults;
  }

  /** Filling a dict that already has every default key changes nothing. */
  lemma FilledComplete(d: map<string, Value>, defaults: map<string, Value>)
    requires defaults.Keys <= d.Keys
    ensures Filled(d, defaults) == d
  {
  }

  /** The defaults of a dict of rules, applied to their own result, change nothing. */
  lemma DictDefaultsIdempotent(d: map<string, Value>)
    requires DictDefaults(d).Ok?
    ensures DictDefaults(DictDefaults(d).value) == DictDefaults(d)
  {
    var out := DictDefaults(d).value;
    var top := Filled(d, TopDefaults);
    var nm, rt := Filled(top["naming"].entries, NamingDefaults), Filled(top["routing"].entries, RoutingDefaults);
    assert out == top["naming" := Dict(nm)]["routing" := Dict(rt)];
    FilledComplete(out, TopDefaults);
    FilledComplete(nm, NamingDefaults);
    FilledComplete(rt, RoutingDefaults);
    assert out["naming" := Dict(nm)]["routing" := Dict(rt)] == out;
  }

  /** `ensure_defaults` applied to its own result changes nothing. */
  lemma DefaultsIdempotent(r: Value)
    requires Defaults(r).Ok?
    ensures Defaults(Dict(Defaults(r).value)) == Defaults(r)
  {
    var d := if !Truthy(r) then map[] else r.entries;
    DictDefaultsIdempotent(d);
    assert "naming" in Defaults(r).value;
  }

  // ---------------------------------------------------------------- names

  /** The naming rules, with the value kinds their defaults have. */
  datatype Naming = Naming(
    replaceSpacesWith: string,
    stripChars: seq<string>,
    collapseUnderscores: bool,
    maxLen: int)

  /** `s.replace(ch, "")`; an empty `ch` leaves `s` as it is. */
  function Delete(s: string, ch: string): (r: string)
    ensures |r| <= |s|
  {
    if ch == [] then s else DeleteAll(s, ch)
  }

  /** Left-to-right, non-overlapping removal of `pat`. */
  function DeleteAll(s: string, pat: string): (r: string)
    requires pat != []
    ensures r == Replace(s, pat, "")
    ensures |r| <= |s|
    ensures forall c :: c in r ==> c in s
    decreases |s|
  {
    if |s| < |pat| then s
    else if s[..|pat|] == pat then DeleteAll(s[|pat|..], pat)
    else [s[0]] + DeleteAll(s[1..], pat)
  }

  /** Deleting a single character removes every occurrence of it. */
  lemma {:induction false} DeleteCharRemoves(s: string, c: char)
    ensures c !in Delete(s, [c])
    decreases |s|
  {
    if |s| >= 1 {
      DeleteCharRemoves(s[1..], c);
    }
  }

  /** The strip loop: each entry of `chars` deleted in turn. */
  function DeleteEach(s: string, chars: seq<string>): (r: string)
    ensures forall c :: c in r ==> c in s
  {
    if chars == [] then s else Delete(DeleteEach(s, chars[..|chars| - 1]), chars[|chars| - 1])
  }

  /** No single-character entry of the strip list survives the strip loop. */
  lemma {:induction false} DeleteEachRemoves(s: string, chars: seq<string>, c: char)
    requires [c] in chars
    ensures c !in DeleteEach(s, chars)
  {
    var init := chars[..|chars| - 1];
    if chars[|chars| - 1] == [c] {
      DeleteCharRemoves(DeleteEach(s, init), c);
    } else {
      assert [c] in init;
      DeleteEachRemoves(s, init, c);
    }
  }

  /** No two adjacent copies of `c`. */
  predicate NoDoubled(s: string, c: char)
  {
    forall i :: 0 <= i < |s| - 1 ==> !(s[i] == c && s[i + 1] == c)
  }

  /** `re.sub(r"_+", "_", s)`: each run of underscores becomes one. */
  function CollapseRuns(s: string): (r: string)
    ensures forall c :: c in r <==> c in s
    ensures NoDoubled(r, '_')
    ensures s != [] ==> r != [] && r[0] == s[0]
  {
    if |s| < 2 then s
    else if s[0] == '_' && s[1] == '_' then CollapseRuns(s[1..])
    else [s[0]] + CollapseRuns(s[1..])
  }

  /** `s.lstrip(c)` */
  function TrimLeft(s: string, c: char): (r: string)
    ensures forall d :: d in r ==> d in s
    ensures r == [] || r[0] != c
    ensures NoDoubled(s, c) ==> NoDoubled(r, c)
  {
    if s != [] && s[0] == c then TrimLeft(s[1..], c) else s
  }

  /** `s.rstrip(c)` */
  function TrimRight(s: string, c: char): (r: string)
    ensures forall d :: d in r ==> d in s
    ensures r == [] || r[|r| - 1] != c
    ensures |r| <= |s| && (r != [] ==> r[0] == s[0])
    ensures NoDoubled(s, c) ==> NoDoubled(r, c)
  {
    if s != [] && s[|s| - 1] == c then TrimRight(s[..|s| - 1], c) else s
  }

  /** `s.strip(c)` */
  function Trim(s: string, c: char): (r: string)
    ensures forall d :: d in r ==> d in s
    ensures r == [] || (r[0] != c && r[|r| - 1] != c)
    ensures NoDoubled(s, c) ==> NoDoubled(r, c)
  {
    TrimRight(TrimLeft(s, c), c)
  }

  /** The stem after spaces and hyphens are replaced and the strip characters deleted, before underscores are collapsed. */
  function Replaced(stem: string, naming: Naming): string
  {
    DeleteEach(ReplaceChar(ReplaceChar(stem, ' ', naming.replaceSpacesWith), '-', naming.replaceSpacesWith), naming.stripChars)
  }

  /** The cleaned stem handed to `safe_ascii`. */
  function CleanStem(stem: string, naming: Naming): (r: string)
  {
    var b := Replaced(stem, naming);
    if naming.collapseUnderscores then Trim(CollapseRuns(b), '_') else b
  }

  /** `normalize_name`: `safeAscii` stands for `safe_ascii`, which is not interpreted. */
  function NormalizedName(name: string, naming: Naming, safeAscii: string -> string): string
  {
    var n := Name(name);
    Prefix(safeAscii(CleanStem(Stem(n), naming)), naming.maxLen) + Lower(Suffix(n))
  }

  /** What `str.replace` raises for an argument (1 or 2) that is not a string. */
  function ReplaceArgument(position: string, v: Value): string
  {
    "replace() argument " + position + " must be str, not " + TypeName(v)
  }

  /** The `strip_chars` entries as strings; the first entry that is not one raises, as `base.replace(ch, "")` does. */
  function StripEntries(items: seq<Value>): (r: Result<seq<string>>)
    ensures r.Ok? ==> |r.value| == |items| && forall i :: 0 <= i < |items| ==> items[i] == Str(r.value[i])
  {
    if items == [] then Ok([])
    else
      var init :- StripEntries(items[..|items| - 1]);
      var last := items[|items| - 1];
      if last.Str? then Ok(init + [last.s]) else Err(TypeError(ReplaceArgument("1", last)))
  }

  /** The strip loop `for ch in strip_chars: base = base.replace(ch, "")`; the first entry that is not a string raises. */
  method StripAll(base: string, items: seq<Value>) returns (r: Result<string>)
    ensures r.Ok? <==> StripEntries(items).Ok?
    ensures r.Ok? ==> r.value == DeleteEach(base, StripEntries(items).value)
    ensures r.Err? ==> r.exc == StripEntries(items).exc
  {
    var stripped := base;
    ghost var chars := [];
    for i := 0 to |items|
      invariant StripEntries(items[..i]) == Ok(chars)
      invariant stripped == DeleteEach(base, chars)
    {
      assert items[..i + 1][..i] == items[..i];
      if !items[i].Str? {
        StripErrorPersists(items, i + 1);
        return Err(TypeError(ReplaceArgument("1", items[i])));
      }
      stripped := Delete(stripped, items[i].s);
      assert (chars + [items[i].s])[..|chars|] == chars;
      chars := chars + [items[i].s];
    }
    assert items[..|items|] == items;
    return Ok(stripped);
  }

  /** A list of strings passes the strip loop's type checks. */
  lemma {:induction false} StringEntries(items: seq<Value>)
    requires forall i :: 0 <= i < |items| ==> items[i].Str?
    ensures StripEntries(items).Ok?
  {
    if items != [] {
      StringEntries(items[..|items| - 1]);
    }
  }

  /** An entry that raises ends the strip loop: the later entries are never read. */
  lemma {:induction false} StripErrorPersists(items: seq<Value>, k: nat)
    requires k <= |items| && StripEntries(items[..k]).Err?
    ensures StripEntries(items) == StripEntries(items[..k])
    decreases |items| - k
  {
    if k < |items| {
      assert items[..k + 1][..k] == items[..k];
      StripErrorPersists(items, k + 1);
    } else {
      assert items[..k] == items;
    }
  }

  /**
   * The naming rules as `normalize_name` reads them, in the order it reads
   * them: `replace_spaces_with` must be a string, `strip_chars` is iterated
   * (a string per character) and each entry must be a string,
   * `collapse_underscores` is tested for truth and `max_len` goes through
   * `int()`. The first read that fails raises.
   */
  function NamingOf(rules: map<string, Value>): (r: Result<Naming>)
    ensures "naming" !in rules ==> r == Err(KeyError("naming"))
    ensures r.Ok? ==> "naming" in rules
    ensures r.Ok? ==> Index(rules["naming"], "replace_spaces_with") == Ok(Str(r.value.replaceSpacesWith))
    ensures r.Ok? ==> (Index(rules["naming"], "collapse_underscores").Ok? &&
      r.value.collapseUnderscores == Truthy(Index(rules["naming"], "collapse_underscores").value))
    ensures r.Ok? ==> (Index(rules["naming"], "max_len").Ok? &&
      ToInt(Index(rules["naming"], "max_len").value) == Ok(r.value.maxLen))
    ensures r.Ok? && Index(rules["naming"], "strip_chars").Ok? && Index(rules["naming"], "strip_chars").value.Str? ==>
      var text := Index(rules["naming"], "strip_chars").value.s;
      |r.value.stripChars| == |text| && forall i :: 0 <= i < |text| ==> r.value.stripChars[i] == [text[i]]
    ensures r.Ok? && Index(rules["naming"], "strip_chars").Ok? && Index(rules["naming"], "strip_chars").value.List? ==>
      var items := Index(rules["naming"], "strip_chars").value.items;
      |r.value.stripChars| == |items| && forall i :: 0 <= i < |items| ==> items[i] == Str(r.value.stripChars[i])
  {
    var naming :- Lookup(rules, "naming");
    var rep :- Index(naming, "replace_spaces_with");
    if !rep.Str? then Err(TypeError(ReplaceArgument("2", rep)))
    else
      var strip :- Index(naming, "strip_chars");
      var items :- Iterate(strip);
      var chars :- StripEntries(items);
      var collapse :- Index(naming, "collapse_underscores");
      var maxLen :- Index(naming, "max_len");
      var n :- ToInt(maxLen);
      Ok(Naming(rep.s, chars, Truthy(collapse), n))
  }

  /** Well-typed naming rules read as their fields, `max_len` through `int()`. */
  lemma NamingOfFields(rules: map<string, Value>, rep: string, strip: seq<Value>, collapse: Value, maxLen: Value, n: int)
    requires rules == map["naming" := Dict(map[
      "replace_spaces_with" := Str(rep), "strip_chars" := List(strip),
      "collapse_underscores" := collapse, "max_len" := maxLen])]
    requires StripEntries(strip).Ok? && ToInt(maxLen) == Ok(n)
    ensures NamingOf(rules) == Ok(Naming(rep, StripEntries(strip).value, Truthy(collapse), n))
  {
    var naming := rules["naming"];
    assert Lookup(rules, "naming") == Ok(naming);
    assert Index(naming, "replace_spaces_with") == Ok(Str(rep));
    assert Iterate(List(strip)) == Ok(strip);
    assert Index(naming, "collapse_underscores") == Ok(collapse);
    assert Index(naming, "max_len") == Ok(maxLen);
  }

  /** A `max_len` given as a numeral string is read as its number, as `int("80")` is. */
  lemma MaxLenFromString(rules: map<string, Value>, rep: string, strip: seq<Value>, collapse: Value, digits: string)
    requires rules == map["naming" := Dict(map[
      "replace_spaces_with" := Str(rep), "strip_chars" := List(strip),
      "collapse_underscores" := collapse, "max_len" := Str(digits)])]
    requires StripEntries(strip).Ok? && digits != [] && AllDigits(digits) && Strip(digits) == digits
    ensures NamingOf(rules) == Ok(Naming(rep, StripEntries(strip).value, Truthy(collapse), DigitsValue(digits) as int))
  {
    IntLiteralOfDigits(digits);
    NamingOfFields(rules, rep, strip, collapse, Str(digits), DigitsValue(digits) as int);
  }

  /** Under the default rules, names are normalised with "_", the eight bracket and separator characters, collapsing, and 120. */
  lemma DefaultNaming()
    ensures NamingOf(map["naming" := Dict(NamingDefaults)])
      == Ok(Naming("_", ["[", "]", "(", ")", "{", "}", ",", ";"], true, 120))
  {
    var items := NamingDefaults["strip_chars"].items;
    StringEntries(items);
    var chars := StripEntries(items).value;
    assert chars == ["[", "]", "(", ")", "{", "}", ",", ";"] by {
      assert |chars| == 8;
      forall i | 0 <= i < 8
        ensures chars[i] == ["[", "]", "(", ")", "{", "}", ",", ";"][i]
      {
        assert items[i] == Str(chars[i]);
      }
    }
  }

  /**
   * `normalize_name`, reading the rules step by step: the stem has spaces
   * and hyphens replaced, each `strip_chars` entry deleted in turn, runs of
   * underscores collapsed when asked, and is cut to `max_len` after
   * `safe_ascii`; the lower-cased extension follows.
   */
  method NormalizeName(name: string, rules: map<string, Value>, safeAscii: string -> string) returns (r: Result<string>)
    ensures r.Ok? <==> NamingOf(rules).Ok?
    ensures r.Err? ==> r.exc == NamingOf(rules).exc
    ensures r.Ok? ==> r.value == NormalizedName(name, NamingOf(rules).value, safeAscii)
  {
    var n := Name(name);
    var base, ext := Stem(n), Lower(Suffix(n));
    var naming :- Lookup(rules, "naming");
    var rep :- Index(naming, "replace_spaces_with");
    if !rep.Str? {
      return Err(TypeError(ReplaceArgument("2", rep)));
    }
    base := ReplaceChar(ReplaceChar(base, ' ', rep.s), '-', rep.s);
    var strip :- Index(naming, "strip_chars");
    var items :- Iterate(strip);
    base :- StripAll(base, items);
    var collapse :- Index(naming, "collapse_underscores");
    if Truthy(collapse) {
      base := Trim(CollapseRuns(base), '_');
    }
    var maxLenValue :- Index(naming, "max_len");
    var maxLen :- ToInt(maxLenValue);
    ghost var rules' := Naming(rep.s, StripEntries(items).value, Truthy(collapse), maxLen);
    assert NamingOf(rules) == Ok(rules');
    assert base == CleanStem(Stem(n), rules');
    r := Ok(Prefix(safeAscii(base), maxLen) + ext);
  }

  /** The lower-cased extension is kept whole; only the stem is cut to `max_len`. */
  lemma NormalizedKeepsExtension(name: string, naming: Naming, safeAscii: string -> string)
    ensures EndsWith(NormalizedName(name, naming, safeAscii), Lower(Suffix(Name(name))))
    ensures naming.maxLen >= 0 ==>
      |NormalizedName(name, naming, safeAscii)| <= naming.maxLen + |Suffix(Name(name))|
  {
    var n := Name(name);
    var p := Prefix(safeAscii(CleanStem(Stem(n), naming)), naming.maxLen);
    var e := Lower(Suffix(n));
    assert NormalizedName(name, naming, safeAscii) == p + e;
    assert (p + e)[|p + e| - |e|..] == e;
  }

  /** Before `safe_ascii`, no single-character entry of the strip list is left in the stem. */
  lemma CleanStemStripped(stem: string, naming: Naming, c: char)
    requires [c] in naming.stripChars
    ensures c !in CleanStem(stem, naming)
  {
    var rep := naming.replaceSpacesWith;
    DeleteEachRemoves(ReplaceChar(ReplaceChar(stem, ' ', rep), '-', rep), naming.stripChars, c);
  }

  /** With a replacement free of spaces and hyphens, the stem has none left. */
  lemma CleanStemNoSpaces(stem: string, naming: Naming)
    requires ' ' !in naming.replaceSpacesWith && '-' !in naming.replaceSpacesWith
    ensures ' ' !in CleanStem(stem, naming) && '-' !in CleanStem(stem, naming)
  {
    var rep := naming.replaceSpacesWith;
    var once := ReplaceChar(stem, ' ', rep);
    ReplaceCharRemoves(stem, ' ', rep);
    ReplaceCharKeepsAbsent(once, '-', rep, ' ');
    ReplaceCharRemoves(once, '-', rep);
  }

  /** With collapsing, underscores never come in pairs and never open or close the stem. */
  lemma CleanStemCollapsed(stem: string, naming: Naming)
    requires naming.collapseUnderscores
    ensures var r := CleanStem(stem, naming);
      (r == [] || (r[0] != '_' && r[|r| - 1] != '_')) && NoDoubled(r, '_')
  {
  }

  // ---------------------------------------------------------------- subjects

  /** One subject rule: its `match` tokens (`None` for a null token; no `match` key is `[]`) and its label (`None` when the key is missing). */
  datatype SubjectRule = SubjectRule(tokens: seq<Option<string>>, labelText: Option<string>)

  /** `(tok or "").lower() in t` */
  predicate TokenIn(tok: Option<string>, t: string)
  {
    Contains(t, Lower(if tok.Some? then tok.value else ""))
  }

  /** `any(... for tok in toks)` */
  predicate RuleMatches(rule: SubjectRule, t: string)
  {
    exists k :: 0 <= k < |rule.tokens| && TokenIn(rule.tokens[k], t)
  }

  function LabelOf(rule: SubjectRule): string
  {
    if rule.labelText.Some? then rule.labelText.value else "misc"
  }

  /** The labels of the matching rules, in rule order, each once. */
  function MatchedLabels(rules: seq<SubjectRule>, t: string): (ls: seq<string>)
    ensures forall i, j :: 0 <= i < j < |ls| ==> ls[i] != ls[j]
    ensures forall l :: l in ls <==> exists k :: 0 <= k < |rules| && RuleMatches(rules[k], t) && LabelOf(rules[k]) == l
  {
    if rules == [] then []
    else
      var init := rules[..|rules| - 1];
      var rest := MatchedLabels(init, t);
      var last := rules[|rules| - 1];
      assert forall k :: 0 <= k < |init| ==> init[k] == rules[k];
      if RuleMatches(last, t) && LabelOf(last) !in rest then rest + [LabelOf(last)] else rest
  }

  function Singleton(l: string): seq<string>
  {
    [l]
  }

  /** `sorted(labs)` for the labels of the matching rules, against the lower-cased text. */
  function SubjectLabels(text: Option<string>, rules: seq<SubjectRule>): (ls: seq<string>)
    ensures Ordering.SortedBy(ls, Singleton)
    ensures forall l :: l in ls <==> exists k :: 0 <= k < |rules| && RuleMatches(rules[k], Lower(if text.Some? then text.value else "")) && LabelOf(rules[k]) == l
    ensures forall i, j :: 0 <= i < j < |ls| ==> ls[i] != ls[j]
  {
    var m := MatchedLabels(rules, Lower(if text.Some? then text.value else ""));
    var ls := Ordering.SortBy(m, Singleton);
    PermutationKeepsDistinct(m, ls);
    ls
  }

  /** A permutation of a list without duplicates has the same items and no duplicates. */
  lemma PermutationKeepsDistinct(m: seq<string>, ls: seq<string>)
    requires multiset(ls) == multiset(m)
    requires forall i, j :: 0 <= i < j < |m| ==> m[i] != m[j]
    ensures forall l :: l in ls <==> l in m
    ensures forall i, j :: 0 <= i < j < |ls| ==> ls[i] != ls[j]
  {
    assert forall l :: l in ls <==> l in multiset(ls);
    assert forall l :: l in m <==> l in multiset(m);
    forall i, j | 0 <= i < j < |ls|
      ensures ls[i] != ls[j]
    {
      if ls[i] == ls[j] {
        var x := ls[i];
        assert multiset(ls)[x] >= 2 by {
          assert ls == ls[..j] + [ls[j]] + ls[j + 1..];
          assert ls[i] in ls[..j];
        }
        DistinctOnce(m, x);
      }
    }
  }

  /** In a list without duplicates each item occurs at most once. */
  lemma {:induction false} DistinctOnce(m: seq<string>, x: string)
    requires forall i, j :: 0 <= i < j < |m| ==> m[i] != m[j]
    ensures multiset(m)[x] <= 1
  {
    if m != [] {
      var init := m[..|m| - 1];
      assert m == init + [m[|m| - 1]];
      DistinctOnce(init, x);
      if m[|m| - 1] == x {
        assert x !in init;
      }
    }
  }

  /** `detect_subjects`: the sorted labels joined by ";", or "" when nothing matches. */
  function DetectSubjects(text: Option<string>, rules: seq<SubjectRule>): (r: string)
    ensures SubjectLabels(text, rules) == [] ==> r == ""
  {
    Join(";", SubjectLabels(text, rules))
  }

  /** A null or empty token is found in every text, so its rule always matches. */
  lemma EmptyTokenMatchesEverything(rule: SubjectRule, t: string, k: nat)
    requires k < |rule.tokens| && (rule.tokens[k].None? || rule.tokens[k] == Some(""))
    ensures RuleMatches(rule, t)
  {
    assert TokenIn(rule.tokens[k], t);
  }

  // ------------------------------------------------- subjects, as read from the rules

  /** `(tok or "").lower()`: a falsy token reads as "", a truthy token that is not a string has no `lower`. */
  function TokenText(tok: Value): (r: Result<string>)
    ensures r.Ok? <==> !Truthy(tok) || tok.Str?
    ensures r.Err? ==> r.exc == AttributeError("'" + TypeName(tok) + "' object has no attribute 'lower'")
    ensures tok.Str? ==> r == Ok(Lower(tok.s))
  {
    if !Truthy(tok) then Ok("")
    else if tok.Str? then Ok(Lower(tok.s))
    else Err(AttributeError("'" + TypeName(tok) + "' object has no attribute 'lower'"))
  }

  /** A token that reads as text and is found in `t`. */
  predicate Found(tok: Value, t: string)
  {
    TokenText(tok).Ok? && Contains(t, TokenText(tok).value)
  }

  /** `any(... for tok in toks)`: the tokens are read left to right and the first one found ends the scan. */
  function AnyToken(toks: seq<Value>, t: string): Result<bool>
  {
    if toks == [] then Ok(false)
    else
      var s :- TokenText(toks[0]);
      if Contains(t, s) then Ok(true) else AnyToken(toks[1..], t)
  }

  /**
   * The scan answers true exactly when some token is found and every token
   * before it reads as text, so a bad token after a found one is never read;
   * it answers false exactly when every token reads and none is found, and
   * otherwise it raises for a bad token.
   */
  lemma AnyTokenScan(toks: seq<Value>, t: string)
    ensures AnyToken(toks, t) == Ok(true) <==>
      exists k :: 0 <= k < |toks| && Found(toks[k], t) && forall j :: 0 <= j < k ==> TokenText(toks[j]).Ok?
    ensures AnyToken(toks, t) == Ok(false) <==>
      forall k :: 0 <= k < |toks| ==> TokenText(toks[k]).Ok? && !Found(toks[k], t)
    ensures AnyToken(toks, t).Err? ==>
      exists k :: 0 <= k < |toks| && TokenText(toks[k]).Err? && AnyToken(toks, t).exc == TokenText(toks[k]).exc
  {
    AnyTokenTrue(toks, t);
    AnyTokenOtherwise(toks, t);
  }

  /** The first half of `AnyTokenScan`: when the scan answers true. */
  lemma {:induction false} AnyTokenTrue(toks: seq<Value>, t: string)
    ensures AnyToken(toks, t) == Ok(true) <==>
      exists k :: 0 <= k < |toks| && Found(toks[k], t) && forall j :: 0 <= j < k ==> TokenText(toks[j]).Ok?
  {
    if toks != [] && TokenText(toks[0]).Ok? && !Found(toks[0], t) {
      var rest := toks[1..];
      AnyTokenTrue(rest, t);
      if AnyToken(rest, t) == Ok(true) {
        var k :| 0 <= k < |rest| && Found(rest[k], t) && forall j :: 0 <= j < k ==> TokenText(rest[j]).Ok?;
        forall j | 0 <= j < k + 1
          ensures TokenText(toks[j]).Ok?
        {
          if j > 0 {
            assert toks[j] == rest[j - 1];
          }
        }
        assert Found(toks[k + 1], t);
      }
      if exists k :: 0 <= k < |toks| && Found(toks[k], t) && forall j :: 0 <= j < k ==> TokenText(toks[j]).Ok? {
        var k :| 0 <= k < |toks| && Found(toks[k], t) && forall j :: 0 <= j < k ==> TokenText(toks[j]).Ok?;
        assert k > 0;
        forall j | 0 <= j < k - 1
          ensures TokenText(rest[j]).Ok?
        {
          assert rest[j] == toks[j + 1];
        }
        assert Found(rest[k - 1], t);
      }
    } else if toks != [] && TokenText(toks[0]).Ok? {
      assert Found(toks[0], t);
    }
  }

  /** The second half of `AnyTokenScan`: when the scan answers false or raises. */
  lemma {:induction false} AnyTokenOtherwise(toks: seq<Value>, t: string)
    ensures AnyToken(toks, t) == Ok(false) <==>
      forall k :: 0 <= k < |toks| ==> TokenText(toks[k]).Ok? && !Found(toks[k], t)
    ensures AnyToken(toks, t).Err? ==>
      exists k :: 0 <= k < |toks| && TokenText(toks[k]).Err? && AnyToken(toks, t).exc == TokenText(toks[k]).exc
  {
    if toks != [] && TokenText(toks[0]).Ok? && !Found(toks[0], t) {
      var rest := toks[1..];
      AnyTokenOtherwise(rest, t);
      assert forall k :: 0 <= k < |rest| ==> rest[k] == toks[k + 1];
      if AnyToken(rest, t).Err? {
        var k :| 0 <= k < |rest| && TokenText(rest[k]).Err? && AnyToken(rest, t).exc == TokenText(rest[k]).exc;
        assert TokenText(toks[k + 1]).Err?;
      }
    }
  }

  /** One rule against the lower-cased text: the label it adds when one of its tokens is found. */
  function RuleLabel(rule: Value, t: string): (r: Result<Option<Value>>)
    ensures !rule.Dict? ==> r == Err(AttributeError("'" + TypeName(rule) + "' object has no attribute 'get'"))
    ensures r.Ok? && r.value.Some? ==> !r.value.value.List? && !r.value.value.Dict?
  {
    if !rule.Dict? then Err(AttributeError("'" + TypeName(rule) + "' object has no attribute 'get'"))
    else
      var toks :- Iterate(Get(rule.entries, "match", List([])));
      var hit :- AnyToken(toks, t);
      var lab := Get(rule.entries, "label", Str("misc"));
      if !hit then Ok(None)
      else if lab.List? || lab.Dict? then Err(TypeError("unhashable type: '" + TypeName(lab) + "'"))
      else Ok(Some(lab))
  }

  /** The set `labs` after the loop over `rules`, in first-added order; the first rule that raises ends it. */
  function CollectLabels(rules: seq<Value>, t: string): Result<seq<Value>>
  {
    if rules == [] then Ok([])
    else
      var labs :- CollectLabels(rules[..|rules| - 1], t);
      var l :- RuleLabel(rules[|rules| - 1], t);
      if l.Some? && l.value !in labs then Ok(labs + [l.value]) else Ok(labs)
  }

  /** The collected labels are distinct and are exactly the labels some rule adds. */
  lemma {:induction false} CollectedLabels(rules: seq<Value>, t: string)
    requires CollectLabels(rules, t).Ok?
    ensures var labs := CollectLabels(rules, t).value;
      && (forall i, j :: 0 <= i < j < |labs| ==> labs[i] != labs[j])
      && (forall l :: l in labs <==> exists k :: 0 <= k < |rules| && RuleLabel(rules[k], t) == Ok(Some(l)))
  {
    if rules != [] {
      var init := rules[..|rules| - 1];
      CollectedLabels(init, t);
      assert forall k :: 0 <= k < |init| ==> init[k] == rules[k];
    }
  }

  /** The loop raises exactly when some rule raises, and then with the first such rule's exception. */
  lemma {:induction false} CollectLabelsRaisesFirst(rules: seq<Value>, t: string)
    ensures CollectLabels(rules, t).Err? <==> exists k :: 0 <= k < |rules| && RuleLabel(rules[k], t).Err?
    ensures CollectLabels(rules, t).Err? ==>
      exists k :: 0 <= k < |rules| && RuleLabel(rules[k], t).Err?
        && (forall j :: 0 <= j < k ==> RuleLabel(rules[j], t).Ok?)
        && CollectLabels(rules, t).exc == RuleLabel(rules[k], t).exc
  {
    if rules != [] {
      var init := rules[..|rules| - 1];
      var last := rules[|rules| - 1];
      CollectLabelsRaisesFirst(init, t);
      assert forall k :: 0 <= k < |init| ==> init[k] == rules[k];
      if CollectLabels(init, t).Err? {
        assert CollectLabels(rules, t) == Err(CollectLabels(init, t).exc);
      } else if RuleLabel(last, t).Err? {
        assert CollectLabels(rules, t) == Err(RuleLabel(last, t).exc);
        assert forall j :: 0 <= j < |init| ==> RuleLabel(rules[j], t).Ok?;
      } else {
        assert CollectLabels(rules, t).Ok?;
        assert forall k :: 0 <= k < |rules| ==> RuleLabel(rules[k], t).Ok? by {
          forall k | 0 <= k < |rules|
            ensures RuleLabel(rules[k], t).Ok?
          {
            if k < |init| {
              assert rules[k] == init[k];
            }
          }
        }
      }
    }
  }

  /** The string values of labels that are all strings. */
  function Texts(labs: seq<Value>): (ss: seq<string>)
    requires forall i :: 0 <= i < |labs| ==> labs[i].Str?
    ensures |ss| == |labs| && forall i :: 0 <= i < |labs| ==> ss[i] == labs[i].s
  {
    if labs == [] then [] else [labs[0].s] + Texts(labs[1..])
  }

  /** The index of the first label that is not a string, or the length when all are. */
  function FirstNonText(labs: seq<Value>): (i: nat)
    ensures i <= |labs|
    ensures forall j :: 0 <= j < i ==> labs[j].Str?
    ensures i < |labs| ==> !labs[i].Str?
  {
    if labs == [] || !labs[0].Str? then 0 else 1 + FirstNonText(labs[1..])
  }

  /**
   * `";".join(sorted(labs)) if labs else ""`: a label that is not a string makes
   * `sorted` or `join` raise TypeError. The message is the join's, for the first
   * such label in rule order, without its "sequence item <n>: " head.
   */
  function JoinLabels(labs: seq<Value>): (r: Result<string>)
    ensures r.Err? <==> exists i :: 0 <= i < |labs| && !labs[i].Str?
    ensures r.Err? ==> r.exc.TypeError?
    ensures labs == [] ==> r == Ok("")
  {
    var i := FirstNonText(labs);
    if i == |labs| then
      Ok(Join(";", Ordering.SortBy(Texts(labs), Singleton)))
    else
      Err(TypeError("expected str instance, " + TypeName(labs[i]) + " found"))
  }

  /** `detect_subjects` over the configuration as loaded: the rules, their tokens and labels are Python values. */
  function DetectSubjectsIn(text: Option<string>, rules: map<string, Value>): Result<string>
  {
    var subjects :- Iterate(Get(rules, "subjects", List([])));
    var labs :- CollectLabels(subjects, Lower(if text.Some? then text.value else ""));
    JoinLabels(labs)
  }

  /** A typed rule as the configuration writes it: a null token is `None`, a missing label is no key. */
  function RuleValue(rule: SubjectRule): Value
  {
    var toks := seq(|rule.tokens|, i requires 0 <= i < |rule.tokens| => TokenValue(rule.tokens[i]));
    var base := map["match" := List(toks)];
    Dict(if rule.labelText.Some? then base["label" := Str(rule.labelText.value)] else base)
  }

  function TokenValue(tok: Option<string>): Value
  {
    if tok.Some? then Str(tok.value) else Null
  }

  /** The labels as string values. */
  function StrValues(ls: seq<string>): (vs: seq<Value>)
    ensures |vs| == |ls| && forall i :: 0 <= i < |ls| ==> vs[i] == Str(ls[i])
  {
    seq(|ls|, i requires 0 <= i < |ls| => Str(ls[i]))
  }

  /** A typed token read as a value reads as text, and is found exactly when the typed token is. */
  lemma TokenValueFound(tok: Option<string>, t: string)
    ensures TokenText(TokenValue(tok)).Ok?
    ensures Found(TokenValue(tok), t) <==> TokenIn(tok, t)
  {
    if tok.None? {
      assert Lower("") == "";
    }
  }

  /** The tokens of a typed rule, read as values, are found exactly when the typed rule matches. */
  lemma TokenValuesScan(rule: SubjectRule, toks: seq<Value>, t: string)
    requires |toks| == |rule.tokens| && forall k :: 0 <= k < |toks| ==> toks[k] == TokenValue(rule.tokens[k])
    ensures AnyToken(toks, t) == Ok(RuleMatches(rule, t))
  {
    AnyTokenScan(toks, t);
    forall k | 0 <= k < |toks|
      ensures TokenText(toks[k]).Ok?
      ensures Found(toks[k], t) <==> TokenIn(rule.tokens[k], t)
    {
      TokenValueFound(rule.tokens[k], t);
    }
    if RuleMatches(rule, t) {
      var k :| 0 <= k < |rule.tokens| && TokenIn(rule.tokens[k], t);
      assert Found(toks[k], t);
    }
  }

  /** A typed rule read as a value adds its label exactly when the typed rule matches. */
  lemma RuleValueLabel(rule: SubjectRule, t: string)
    ensures RuleLabel(RuleValue(rule), t) == Ok(if RuleMatches(rule, t) then Some(Str(LabelOf(rule))) else None)
  {
    var toks := seq(|rule.tokens|, i requires 0 <= i < |rule.tokens| => TokenValue(rule.tokens[i]));
    var d := RuleValue(rule).entries;
    assert Get(d, "match", List([])) == List(toks);
    assert Get(d, "label", Str("misc")) == Str(LabelOf(rule));
    TokenValuesScan(rule, toks, t);
  }

  /** Typed rules read as values. */
  function RuleValues(rules: seq<SubjectRule>): (vs: seq<Value>)
    ensures |vs| == |rules| && forall i :: 0 <= i < |rules| ==> vs[i] == RuleValue(rules[i])
  {
    seq(|rules|, i requires 0 <= i < |rules| => RuleValue(rules[i]))
  }

  /** The loop over typed rules read as values collects exactly `MatchedLabels`, in the same order. */
  lemma {:induction false} CollectTypedLabels(rules: seq<SubjectRule>, t: string)
    ensures CollectLabels(RuleValues(rules), t) == Ok(StrValues(MatchedLabels(rules, t)))
  {
    if rules != [] {
      var vs := RuleValues(rules);
      var init := rules[..|rules| - 1];
      var last := rules[|rules| - 1];
      CollectTypedLabels(init, t);
      assert vs[..|vs| - 1] == RuleValues(init);
      RuleValueLabel(last, t);
      var rest := MatchedLabels(init, t);
      var labs := StrValues(rest);
      assert CollectLabels(vs[..|vs| - 1], t) == Ok(labs);
      assert RuleLabel(vs[|vs| - 1], t) == Ok(if RuleMatches(last, t) then Some(Str(LabelOf(last))) else None);
      assert Str(LabelOf(last)) in labs <==> LabelOf(last) in rest;
      assert MatchedLabels(rules, t) == if RuleMatches(last, t) && LabelOf(last) !in rest then rest + [LabelOf(last)] else rest;
      assert StrValues(rest + [LabelOf(last)]) == labs + [Str(LabelOf(last))];
    }
  }

  /** On rules that are well formed, the value-level detection gives the typed one's answer and never raises. */
  lemma DetectSubjectsAgree(text: Option<string>, rules: seq<SubjectRule>)
    ensures DetectSubjectsIn(text, map["subjects" := List(RuleValues(rules))]) == Ok(DetectSubjects(text, rules))
  {
    var t := Lower(if text.Some? then text.value else "");
    var ls := MatchedLabels(rules, t);
    var subjects := map["subjects" := List(RuleValues(rules))];
    assert Iterate(Get(subjects, "subjects", List([]))) == Ok(RuleValues(rules));
    CollectTypedLabels(rules, t);
    JoinTexts(ls);
    assert SubjectLabels(text, rules) == Ordering.SortBy(ls, Singleton);
  }

  /** Labels that are all strings are sorted and joined without raising. */
  lemma JoinTexts(ls: seq<string>)
    ensures JoinLabels(StrValues(ls)) == Ok(Join(";", Ordering.SortBy(ls, Singleton)))
  {
    assert FirstNonText(StrValues(ls)) == |ls|;
    assert Texts(StrValues(ls)) == ls;
  }

  /** Lower-casing twice is lower-casing once. */
  lemma {:induction false} LowerOfLower(s: string)
    ensures Lower(Lower(s)) == Lower(s)
  {
    var l := Lower(s);
    forall i | 0 <= i < |l|
      ensures Lower(l)[i] == l[i]
    {
    }
  }

  // ---------------------------------------------------------------- status

  /** `rank`: proved 2, inconclusive 1, rejected 0, anything else (and None) -1, case-insensitively. */
  function Rank(s: Option<string>): (k: int)
    ensures -1 <= k <= 2
  {
    var l := Lower(if s.Some? then s.value else "");
    if l == "proved" then 2 else if l == "inconclusive" then 1 else if l == "rejected" then 0 else -1
  }

  /** Rank ignores ASCII letter case, and only the three known statuses rank at or above 0. */
  lemma RankIgnoresCase(s: string)
    ensures Rank(Some(Lower(s))) == Rank(Some(s))
    ensures Rank(Some(s)) >= 0 <==> Lower(s) in {"proved", "inconclusive", "rejected"}
  {
    LowerOfLower(s);
  }

  /** The status stored for a result: its text when it is a string, None for anything else. */
  function StatusText(v: Value): Option<string>
  {
    if v.Str? then Some(v.s) else None
  }

  /**
   * One pass of the results loop: `r.get("id")`, `r.get("status", "inconclusive")`
   * and the store when the id is truthy. A record that is not a dictionary has
   * no `get`; a non-empty list or dictionary id is unhashable.
   */
  function Absorb(m: map<string, Option<string>>, rec: Value): Result<map<string, Option<string>>>
  {
    if !rec.Dict? then Err(AttributeError("'" + TypeName(rec) + "' object has no attribute 'get'"))
    else
      var cid := Get(rec.entries, "id", Null);
      var st := Get(rec.entries, "status", Str("inconclusive"));
      if !Truthy(cid) then Ok(m)
      else if cid.List? || cid.Dict? then Err(TypeError("unhashable type: '" + TypeName(cid) + "'"))
      else if cid.Str? then Ok(m[cid.s := StatusText(st)])
      else Ok(m)
  }

  /** The claim-to-status map read from the results, and the exception that ended the loop, if any. */
  datatype Loaded = Loaded(statuses: map<string, Option<string>>, warning: Option<Exc>)

  /** `id_to_status` after the loop over the first records: the first exception stops it and keeps what was stored. */
  function IdToStatus(results: seq<Value>): Loaded
  {
    if results == [] then Loaded(map[], None)
    else
      var before := IdToStatus(results[..|results| - 1]);
      if before.warning.Some? then before
      else
        match Absorb(before.statuses, results[|results| - 1])
        case Ok(m) => Loaded(m, None)
        case Err(e) => Loaded(before.statuses, Some(e))
  }

  /** The loop over a parsed results file: a dictionary yields its string keys, which have no `get`. */
  function LoadResults(results: Value): Loaded
  {
    match results
    case Dict(m) =>
      if m == map[] then Loaded(map[], None)
      else Loaded(map[], Some(AttributeError("'str' object has no attribute 'get'")))
    case _ =>
      match Iterate(results)
      case Ok(items) => IdToStatus(items)
      case Err(e) => Loaded(map[], Some(e))
  }

  /** The results loop with its early exit; the caught exception is handed back as the warning. */
  method BuildIdToStatus(results: Value) returns (statuses: map<string, Option<string>>, warning: Option<Exc>)
    ensures Loaded(statuses, warning) == LoadResults(results)
  {
    if results.Dict? {
      statuses := map[];
      warning := if results.entries == map[] then None else Some(AttributeError("'str' object has no attribute 'get'"));
      return;
    }
    var items := Iterate(results);
    if items.Err? {
      return map[], Some(items.exc);
    }
    statuses, warning := AbsorbAll(items.value);
  }

  /** The loop over the records: the first record that raises ends it, keeping what was stored before. */
  method AbsorbAll(recs: seq<Value>) returns (statuses: map<string, Option<string>>, warning: Option<Exc>)
    ensures Loaded(statuses, warning) == IdToStatus(recs)
  {
    statuses := map[];
    var i := 0;
    while i < |recs|
      invariant 0 <= i <= |recs|
      invariant IdToStatus(recs[..i]) == Loaded(statuses, None)
    {
      assert recs[..i + 1][..i] == recs[..i];
      var next := Absorb(statuses, recs[i]);
      if next.Err? {
        IdToStatusStops(recs, i + 1);
        assert recs[..|recs|] == recs;
        return statuses, Some(next.exc);
      }
      statuses := next.value;
      i := i + 1;
    }
    assert recs[..i] == recs;
    return statuses, None;
  }

  /** Once the loop has stopped, later records change nothing. */
  lemma {:induction false} IdToStatusStops(results: seq<Value>, k: nat)
    requires k <= |results|
    requires IdToStatus(results[..k]).warning.Some?
    ensures IdToStatus(results) == IdToStatus(results[..k])
    decreases |results| - k
  {
    if k < |results| {
      assert results[..k + 1][..k] == results[..k];
      IdToStatusStops(results, k + 1);
    } else {
      assert results[..k] == results;
    }
  }

  /** Record `rec` carries the truthy string id `c`. */
  predicate HasId(rec: Value, c: string)
  {
    rec.Dict? && Get(rec.entries, "id", Null) == Str(c) && c != ""
  }

  /**
   * When no record raised, a claim has a status exactly when some record carries
   * its id, and the status is the one of the last such record ("inconclusive"
   * when that record has none).
   */
  lemma {:induction false} LoadedStatuses(results: seq<Value>, c: string)
    requires IdToStatus(results).warning.None?
    ensures c in IdToStatus(results).statuses <==> exists i :: 0 <= i < |results| && HasId(results[i], c)
    ensures c in IdToStatus(results).statuses ==>
      exists i :: 0 <= i < |results| && HasId(results[i], c) &&
        IdToStatus(results).statuses[c] == StatusText(Get(results[i].entries, "status", Str("inconclusive"))) &&
        forall j :: i < j < |results| ==> !HasId(results[j], c)
  {
    if results != [] {
      var init := results[..|results| - 1];
      var last := |results| - 1;
      LoadedStatuses(init, c);
      assert forall i :: 0 <= i < |init| ==> init[i] == results[i];
      if HasId(results[last], c) {
        assert IdToStatus(results).statuses[c] == StatusText(Get(results[last].entries, "status", Str("inconclusive")));
      } else if c in IdToStatus(results).statuses {
        var i :| 0 <= i < |init| && HasId(init[i], c) &&
          IdToStatus(init).statuses[c] == StatusText(Get(init[i].entries, "status", Str("inconclusive"))) &&
          forall j :: i < j < |init| ==> !HasId(init[j], c);
        assert HasId(results[i], c);
      }
    }
  }

  /**
   * When a record raised, the loop stopped at the first such record: the map is
   * the one built from the records before it, and that record's exception is the warning.
   */
  lemma {:induction false} LoadedWarning(results: seq<Value>)
    requires IdToStatus(results).warning.Some?
    ensures
      exists k :: 0 <= k < |results| &&
        IdToStatus(results[..k]) == Loaded(IdToStatus(results).statuses, None) &&
        Absorb(IdToStatus(results).statuses, results[k]) == Err(IdToStatus(results).warning.value)
  {
    var init := results[..|results| - 1];
    var before := IdToStatus(init);
    if before.warning.Some? {
      LoadedWarning(init);
      var k :| 0 <= k < |init| &&
        IdToStatus(init[..k]) == Loaded(before.statuses, None) &&
        Absorb(before.statuses, init[k]) == Err(before.warning.value);
      assert init[..k] == results[..k];
    } else {
      assert results[..|results| - 1] == init;
    }
  }

  /** One claim-to-document entry of the claims map, in the map's order. */
  datatype ClaimDoc = ClaimDoc(claimId: string, docPath: string)

  /** A claim's status: its result's status, or "inconclusive" when it has no result. */
  function StatusOf(idToStatus: map<string, Option<string>>, cid: string): Option<string>
  {
    if cid in idToStatus then idToStatus[cid] else Some("inconclusive")
  }

  /** The update for one entry: replace when nothing (or None) is stored, or when the new status ranks higher. */
  function Step(best: map<string, Option<string>>, st: Option<string>, doc: string, rank: Option<string> -> int): map<string, Option<string>>
  {
    var cur := if doc in best then best[doc] else None;
    if cur.None? || rank(st) > rank(cur) then best[doc := st] else best
  }

  /** `doc_best` after the first entries of the claims map. */
  function BestOf(cmap: seq<ClaimDoc>, idToStatus: map<string, Option<string>>, rank: Option<string> -> int): map<string, Option<string>>
  {
    if cmap == [] then map[]
    else
      var e := cmap[|cmap| - 1];
      Step(BestOf(cmap[..|cmap| - 1], idToStatus, rank), StatusOf(idToStatus, e.claimId), e.docPath, rank)
  }

  /** Every document of the claims map, and no other, gets a best status. */
  lemma {:induction false} BestOfKeys(cmap: seq<ClaimDoc>, idToStatus: map<string, Option<string>>, rank: Option<string> -> int)
    ensures BestOf(cmap, idToStatus, rank).Keys == set e | e in cmap :: e.docPath
  {
    if cmap != [] {
      var init := cmap[..|cmap| - 1];
      BestOfKeys(init, idToStatus, rank);
      assert cmap == init + [cmap[|cmap| - 1]];
    }
  }

  /** The loop that builds `doc_best`. */
  method DocBest(cmap: seq<ClaimDoc>, idToStatus: map<string, Option<string>>) returns (best: map<string, Option<string>>)
    ensures best == BestOf(cmap, idToStatus, Rank)
  {
    best := map[];
    for i := 0 to |cmap|
      invariant best == BestOf(cmap[..i], idToStatus, Rank)
    {
      assert cmap[..i + 1][..i] == cmap[..i];
      best := Step(best, StatusOf(idToStatus, cmap[i].claimId), cmap[i].docPath, Rank);
    }
    assert cmap[..|cmap|] == cmap;
  }

  /** A null status ranks lowest, as it does under `rank`. */
  ghost predicate NullLowest(rank: Option<string> -> int)
  {
    forall s :: rank(None) <= rank(s)
  }

  lemma RankNullLowest()
    ensures NullLowest(Rank)
  {
  }

  /** The best status of a document ranks at least as high as the status of each of its claims. */
  lemma {:induction false} BestRanksHighest(cmap: seq<ClaimDoc>, idToStatus: map<string, Option<string>>, rank: Option<string> -> int, k: nat)
    requires NullLowest(rank)
    requires k < |cmap|
    ensures var doc := cmap[k].docPath;
      doc in BestOf(cmap, idToStatus, rank) &&
      rank(StatusOf(idToStatus, cmap[k].claimId)) <= rank(BestOf(cmap, idToStatus, rank)[doc])
  {
    var init := cmap[..|cmap| - 1];
    var e := cmap[|cmap| - 1];
    var doc := cmap[k].docPath;
    if k < |init| {
      assert init[k] == cmap[k];
      BestRanksHighest(init, idToStatus, rank, k);
    }
  }

  /** The best status of a document is the status of one of its claims. */
  lemma {:induction false} BestFromAClaim(cmap: seq<ClaimDoc>, idToStatus: map<string, Option<string>>, rank: Option<string> -> int, doc: string)
    requires doc in BestOf(cmap, idToStatus, rank)
    ensures exists k :: 0 <= k < |cmap| && cmap[k].docPath == doc && StatusOf(idToStatus, cmap[k].claimId) == BestOf(cmap, idToStatus, rank)[doc]
  {
    var init := cmap[..|cmap| - 1];
    var last := |cmap| - 1;
    var before := BestOf(init, idToStatus, rank);
    if BestOf(cmap, idToStatus, rank)[doc] == StatusOf(idToStatus, cmap[last].claimId) && cmap[last].docPath == doc {
    } else {
      assert doc in before && BestOf(cmap, idToStatus, rank)[doc] == before[doc];
      BestFromAClaim(init, idToStatus, rank, doc);
      var k :| 0 <= k < |init| && init[k].docPath == doc && StatusOf(idToStatus, init[k].claimId) == before[doc];
      assert cmap[k] == init[k];
    }
  }

  /** Every claim has a string status: none of the results has a null status. */
  predicate StringStatuses(idToStatus: map<string, Option<string>>)
  {
    forall c :: c in idToStatus ==> idToStatus[c].Some?
  }

  /** With string statuses, ties keep the earlier claim: no claim before the chosen one ranks as high. */
  lemma {:induction false} BestIsEarliest(cmap: seq<ClaimDoc>, idToStatus: map<string, Option<string>>, rank: Option<string> -> int, doc: string)
    requires NullLowest(rank)
    requires StringStatuses(idToStatus)
    requires doc in BestOf(cmap, idToStatus, rank)
    ensures exists k :: (0 <= k < |cmap| && cmap[k].docPath == doc &&
      StatusOf(idToStatus, cmap[k].claimId) == BestOf(cmap, idToStatus, rank)[doc] &&
      forall j :: 0 <= j < k && cmap[j].docPath == doc ==> rank(StatusOf(idToStatus, cmap[j].claimId)) < rank(BestOf(cmap, idToStatus, rank)[doc]))
  {
    var init := cmap[..|cmap| - 1];
    var last := |cmap| - 1;
    var e := cmap[last];
    var st := StatusOf(idToStatus, e.claimId);
    var before := BestOf(init, idToStatus, rank);
    var b := BestOf(cmap, idToStatus, rank)[doc];
    if e.docPath == doc && (doc !in before || rank(st) > rank(before[doc])) {
      assert b == st;
      forall j | 0 <= j < last && cmap[j].docPath == doc
        ensures rank(StatusOf(idToStatus, cmap[j].claimId)) < rank(b)
      {
        assert init[j] == cmap[j];
        BestRanksHighest(init, idToStatus, rank, j);
      }
    } else {
      assert doc in before;
      BestFromAClaim(init, idToStatus, rank, doc);
      assert b == before[doc];
      BestIsEarliest(init, idToStatus, rank, doc);
      var k :| 0 <= k < |init| && init[k].docPath == doc && StatusOf(idToStatus, init[k].claimId) == before[doc] &&
        forall j :: 0 <= j < k && init[j].docPath == doc ==> rank(StatusOf(idToStatus, init[j].claimId)) < rank(before[doc]);
      assert cmap[k] == init[k];
      forall j | 0 <= j < k && cmap[j].docPath == doc
        ensures rank(StatusOf(idToStatus, cmap[j].claimId)) < rank(b)
      {
        assert init[j] == cmap[j];
      }
    }
  }

  /** Where a routed document goes: the manifest's bucket label, the routing key, and the raw status column. */
  datatype Route = Route(statusLabel: string, bucket: string, raw: string)

  /** `STATUS_MAP.get((doc_best.get(doc) or "").lower(), ("Needs work", "needs_work_dir"))` */
  function RouteOf(best: Option<string>): (r: Route)
    ensures r.raw != ""
  {
    var status := Lower(if best.Some? then best.value else "");
    var raw := if status == "" then "unknown" else status;
    if status == "proved" then Route("Confirmed", "confirmed_dir", raw)
    else if status == "rejected" then Route("Speculative", "speculative_dir", raw)
    else Route("Needs work", "needs_work_dir", raw)
  }

  /** Routing agrees with the ranking: CONFIRMED is rank 2, REJECTED rank 0, and everything else needs work. */
  lemma RouteAgreesWithRank(best: Option<string>)
    ensures RouteOf(best).bucket == "confirmed_dir" <==> Rank(best) == 2
    ensures RouteOf(best).bucket == "speculative_dir" <==> Rank(best) == 0
    ensures RouteOf(best).bucket == "needs_work_dir" <==> Rank(best) == 1 || Rank(best) == -1
    ensures RouteOf(best).statusLabel == "Needs work" <==> RouteOf(best).bucket == "needs_work_dir"
  {
  }

  /** A document with no claim in the claims map needs work. */
  lemma UnmappedNeedsWork(best: map<string, Option<string>>, doc: string)
    requires doc !in best
    ensures RouteOf(if doc in best then best[doc] else None) == Route("Needs work", "needs_work_dir", "unknown")
  {
  }

  // ---------------------------------------------------------------- collisions

  /** `<stem>_<k><ext>` */
  function Candidate(name: string, k: nat): string
  {
    Stem(name) + "_" + NatToString(k) + Suffix(name)
  }

  /** Different counters give different names. */
  lemma CandidateInjective(name: string, a: nat, b: nat)
    requires Candidate(name, a) == Candidate(name, b)
    ensures a == b
  {
    var p, x := Stem(name) + "_", Suffix(name);
    var A, B := Candidate(name, a), Candidate(name, b);
    assert A == p + NatToString(a) + x && B == p + NatToString(b) + x;
    assert |NatToString(a)| == |NatToString(b)|;
    assert NatToString(a) == A[|p|..|A| - |x|];
    assert NatToString(b) == B[|p|..|B| - |x|];
    NatToStringInjective(a, b);
  }

  /** Counters 1 to k - 1 all taken means at least k - 1 names are taken. */
  lemma {:induction false} TakenBound(name: string, existing: set<string>, k: nat)
    requires k >= 1
    requires forall j :: 1 <= j < k ==> Candidate(name, j) in existing
    ensures k - 1 <= |existing|
  {
    if k > 1 {
      var top := Candidate(name, k - 1);
      forall j | 1 <= j < k - 1
        ensures Candidate(name, j) in existing - {top}
      {
        if Candidate(name, j) == top {
          CandidateInjective(name, j, k - 1);
        }
      }
      TakenBound(name, existing - {top}, k - 1);
    }
  }

  /**
   * The destination name in the bucket folder, given the names already
   * there. Copying takes the smallest `k >= 1` whose candidate is free
   * (`k` is 0 when the name itself is free); moving, and a dry run, keep
   * the name.
   */
  method Destination(newName: string, existing: set<string>, move: bool, dryRun: bool) returns (dest: string, k: nat)
    ensures dryRun || move ==> dest == newName && k == 0
    ensures !dryRun && !move ==> dest !in existing
    ensures !dryRun && !move && newName !in existing ==> dest == newName && k == 0
    ensures !dryRun && !move && newName in existing ==>
      k >= 1 && dest == Candidate(newName, k) && forall j :: 1 <= j < k ==> Candidate(newName, j) in existing
  {
    dest, k := newName, 0;
    if dryRun || move || newName !in existing {
      return;
    }
    k := 1;
    var alt := Candidate(newName, k);
    while alt in existing
      invariant k >= 1 && alt == Candidate(newName, k)
      invariant forall j :: 1 <= j < k ==> Candidate(newName, j) in existing
      decreases |existing| + 1 - k
    {
      TakenBound(newName, existing, k + 1);
      k := k + 1;
      alt := Candidate(newName, k);
    }
    dest := alt;
  }
}
