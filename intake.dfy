/**
 * The docx intake step: paragraph and table-cell text is normalised
 * (`norm`), lines that look like math are kept (`looks_math`), each is cut
 * at its last "=" into an identity (`split_identity`), candidate symbol
 * names are guessed (`guess_symbols`), claims are numbered per document
 * stem, and text is quoted for the YAML claim file (`yq`).
 */
module Intake {
  import opened Text
  import opened Py
  import opened Paths

  // ---------------------------------------------------------------------
  // norm
  // ---------------------------------------------------------------------

  /** The symbol table of `norm`, in its dictionary order. */
  const Symbols: seq<(char, string)> := [
    ('\U{2212}', "-"), ('\U{2014}', "-"), ('\U{2013}', "-"),
    ('\U{D7}', "*"), ('\U{2217}', "*"), ('\U{B7}', "*"),
    ('\U{F7}', "/"), ('\U{2215}', "/"), ('\U{221A}', "sqrt"),
    ('\U{2264}', "<="), ('\U{2265}', ">="), ('\U{2260}', "!=")]

  /** Every key is outside ASCII and every replacement is ASCII without whitespace. */
  predicate AsciiTable(t: seq<(char, string)>)
  {
    forall i :: 0 <= i < |t| ==>
      t[i].0 as int >= 128 && forall c :: c in t[i].1 ==> c as int < 128 && !IsSpace(c)
  }

  /** The replacement loop after the first `|t|` entries of the table. */
  function ReplaceAll(s: string, t: seq<(char, string)>): string
  {
    if t == [] then s else ReplaceChar(ReplaceAll(s, t[..|t| - 1]), t[|t| - 1].0, t[|t| - 1].1)
  }

  lemma {:induction false} ReplaceCharAbsent(s: string, c: char, repl: string)
    requires c !in s
    ensures ReplaceChar(s, c, repl) == s
    decreases |s|
  {
    if s != [] {
      ReplaceCharAbsent(s[1..], c, repl);
      assert s == [s[0]] + s[1..];
    }
  }

  /** No key of the table survives the replacement loop. */
  lemma {:induction false} ReplaceAllRemoves(s: string, t: seq<(char, string)>)
    requires AsciiTable(t)
    ensures forall i :: 0 <= i < |t| ==> t[i].0 !in ReplaceAll(s, t)
    decreases |t|
  {
    if t != [] {
      var p := t[..|t| - 1];
      var (c, repl) := t[|t| - 1];
      assert AsciiTable(p) by {
        forall i | 0 <= i < |p| ensures p[i] == t[i] { }
      }
      ReplaceAllRemoves(s, p);
      var before := ReplaceAll(s, p);
      assert c !in repl;
      ReplaceCharRemoves(before, c, repl);
      forall i | 0 <= i < |p|
        ensures p[i].0 !in ReplaceAll(s, t)
      {
        assert p[i].0 !in repl;
        ReplaceCharKeepsAbsent(before, c, repl, p[i].0);
      }
    }
  }

  /** A text without any key is left unchanged by the replacement loop. */
  lemma {:induction false} ReplaceAllAbsent(s: string, t: seq<(char, string)>)
    requires forall i :: 0 <= i < |t| ==> t[i].0 !in s
    ensures ReplaceAll(s, t) == s
    decreases |t|
  {
    if t != [] {
      ReplaceAllAbsent(s, t[..|t| - 1]);
      ReplaceCharAbsent(s, t[|t| - 1].0, t[|t| - 1].1);
    }
  }

  /**
   * `re.sub(r"\s+", " ", s)`: every run of whitespace becomes one space;
   * `inRun` says whether the text so far ended inside such a run.
   */
  function Collapse(s: string, inRun: bool): string
    decreases |s|
  {
    if s == [] then []
    else if IsSpace(s[0]) then (if inRun then [] else [' ']) + Collapse(s[1..], true)
    else [s[0]] + Collapse(s[1..], false)
  }

  /** Collapsing leaves only single plain spaces and brings in no other character. */
  lemma {:induction false} CollapseSpec(s: string, inRun: bool)
    ensures var r := Collapse(s, inRun);
      && SingleSpaced(r)
      && (inRun ==> r == [] || r[0] != ' ')
      && (forall i :: 0 <= i < |r| && !IsSpace(r[i]) ==> r[i] in s)
    decreases |s|
  {
    if s != [] {
      var rest := Collapse(s[1..], IsSpace(s[0]));
      CollapseSpec(s[1..], IsSpace(s[0]));
      var head := if IsSpace(s[0]) then (if inRun then [] else [' ']) else [s[0]];
      var r := Collapse(s, inRun);
      assert r == head + rest;
      forall i | 0 <= i < |r|
        ensures r[i] == if i < |head| then head[i] else rest[i - |head|]
      {
      }
    }
  }

  /** Only plain spaces, never two in a row. */
  predicate SingleSpaced(t: string)
  {
    && (forall i :: 0 <= i < |t| && IsSpace(t[i]) ==> t[i] == ' ')
    && (forall i :: 0 <= i < |t| - 1 ==> !(t[i] == ' ' && t[i + 1] == ' '))
  }

  /** What `norm` promises of its output: single-spaced with no space at either end. */
  predicate Normalized(t: string)
  {
    SingleSpaced(t) && (t == [] || (t[0] != ' ' && t[|t| - 1] != ' '))
  }

  /** What `norm` computes: symbol replacement, whitespace collapsing, stripping. */
  function NormOf(s: string): string
  {
    Strip(Collapse(ReplaceAll(s, Symbols), false))
  }

  /** `norm`, rebinding the text once per table entry. */
  method Norm(s: string) returns (r: string)
    ensures r == NormOf(s)
  {
    var t := s;
    for i := 0 to |Symbols|
      invariant t == ReplaceAll(s, Symbols[..i])
    {
      assert Symbols[..i + 1][..i] == Symbols[..i];
      t := ReplaceChar(t, Symbols[i].0, Symbols[i].1);
    }
    assert Symbols[..|Symbols|] == Symbols;
    r := Strip(Collapse(t, false));
  }

  /** A single-spaced text that does not open with a space inside a run is its own collapse. */
  lemma {:induction false} CollapseFixed(t: string, inRun: bool)
    requires SingleSpaced(t)
    requires inRun ==> t == [] || !IsSpace(t[0])
    ensures Collapse(t, inRun) == t
    decreases |t|
  {
    if t != [] {
      assert SingleSpaced(t[1..]) by {
        forall i | 0 <= i < |t[1..]| - 1 ensures !(t[1..][i] == ' ' && t[1..][i + 1] == ' ') {
          assert t[1..][i] == t[i + 1] && t[1..][i + 1] == t[i + 2];
        }
      }
      assert IsSpace(t[0]) ==> t[1..] == [] || !IsSpace(t[1]);
      CollapseFixed(t[1..], IsSpace(t[0]));
      assert t == [t[0]] + t[1..];
    }
  }

  /** A text with no whitespace at either end is its own strip. */
  lemma StripFixed(t: string)
    requires t == [] || (!IsSpace(t[0]) && !IsSpace(t[|t| - 1]))
    ensures Strip(t) == t
  {
    assert LStrip(t) == t;
    assert RStrip(t) == t;
  }

  /** A slice of a single-spaced text is single-spaced. */
  lemma SliceSingleSpaced(c: string, r: string, i: int)
    requires SingleSpaced(c) && OccursAt(c, r, i)
    ensures SingleSpaced(r)
  {
    forall k | 0 <= k < |r| ensures r[k] == c[i + k] {
      assert r[k] == c[i..i + |r|][k];
    }
  }

  /** The table of `norm` meets `AsciiTable`, and none of its keys is whitespace. */
  lemma SymbolsTable()
    ensures AsciiTable(Symbols)
    ensures forall i :: 0 <= i < |Symbols| ==> !IsSpace(Symbols[i].0)
  {
  }

  lemma SliceAbsent(c: string, r: string, j: int, d: char)
    requires OccursAt(c, r, j) && d !in c
    ensures d !in r
  {
    forall k | 0 <= k < |r|
      ensures r[k] == c[j + k]
    {
      assert r[k] == c[j..j + |r|][k];
    }
  }

  /** Collapsing and stripping bring back no character other than whitespace. */
  lemma StripCollapseKeepsAbsent(t: string, d: char)
    requires d !in t && !IsSpace(d)
    ensures d !in Strip(Collapse(t, false))
  {
    var c := Collapse(t, false);
    CollapseSpec(t, false);
    assert d !in c;
    var r := Strip(c);
    var j :| OccursAt(c, r, j);
    SliceAbsent(c, r, j, d);
  }

  /** `norm` leaves no listed symbol behind. */
  lemma NormRemovesSymbols(s: string)
    ensures forall i :: 0 <= i < |Symbols| ==> Symbols[i].0 !in NormOf(s)
  {
    SymbolsTable();
    ReplaceAllRemoves(s, Symbols);
    forall i | 0 <= i < |Symbols|
      ensures Symbols[i].0 !in NormOf(s)
    {
      StripCollapseKeepsAbsent(ReplaceAll(s, Symbols), Symbols[i].0);
    }
  }

  /** `norm` output is single-spaced and stripped. */
  lemma NormNormalized(s: string)
    ensures Normalized(NormOf(s))
  {
    var c := Collapse(ReplaceAll(s, Symbols), false);
    CollapseSpec(ReplaceAll(s, Symbols), false);
    var r := Strip(c);
    var j :| OccursAt(c, r, j);
    SliceSingleSpaced(c, r, j);
  }

  /** Normalising twice is normalising once. */
  lemma NormIdempotent(s: string)
    ensures NormOf(NormOf(s)) == NormOf(s)
  {
    var t := NormOf(s);
    NormRemovesSymbols(s);
    NormNormalized(s);
    ReplaceAllAbsent(t, Symbols);
    CollapseFixed(t, false);
    StripFixed(t);
  }

  // ---------------------------------------------------------------------
  // looks_math
  // ---------------------------------------------------------------------

  /** The marker tokens of `looks_math`. */
  const Markers: seq<string> := ["=", "Eq(", "Sum(", "Product(", "\U{2211}", "\U{2200}", "->", "\U{2192}"]

  /** `any(t in s for t in toks)` */
  function AnyIn(s: string, toks: seq<string>): (r: bool)
    ensures r <==> exists i :: 0 <= i < |toks| && Contains(s, toks[i])
  {
    if toks == [] then false
    else
      assert forall i :: 0 < i < |toks| ==> toks[i] == toks[1..][i - 1];
      Contains(s, toks[0]) || AnyIn(s, toks[1..])
  }

  function LooksMath(s: string): bool
  {
    AnyIn(s, Markers)
  }

  // ---------------------------------------------------------------------
  // split_identity
  // ---------------------------------------------------------------------

  /**
   * `split_identity`: None when there is no "=", otherwise the stripped
   * text before the last "=" and after it, unless either is empty.
   */
  function SplitIdentity(s: string): Option<(string, string)>
  {
    if '=' !in s then None
    else
      var parts := Split(s, '=');
      if |parts| < 2 then None
      else
        var lhs := Strip(Join("=", parts[..|parts| - 1]));
        var rhs := Strip(parts[|parts| - 1]);
        if lhs == [] || rhs == [] then None else Some((lhs, rhs))
  }

  /** A text with an "=" splits into at least two pieces, so the length guard never fires. */
  lemma SplitHasTwo(s: string)
    requires '=' in s
    ensures |Split(s, '=')| >= 2
  {
    JoinSplit(s, '=');
  }

  /** In `l + [c] + last` with no `c` in `last`, the last `c` is at `|l|`. */
  lemma RFindAt(s: string, l: string, c: char, last: string)
    requires s == l + [c] + last && c !in last
    ensures RFind(s, c) == |l|
    ensures s[..|l|] == l && s[|l| + 1..] == last
  {
    forall j | |l| < j < |s|
      ensures s[j] != c
    {
      assert s[j] == last[j - |l| - 1];
    }
    assert s[|l|] == c;
    var i := RFind(s, c);
    assert i >= |l|;
    assert i <= |l|;
  }

  /** The pieces before the last split piece are the text before the last "=". */
  lemma SplitAtLast(s: string)
    requires '=' in s
    ensures |Split(s, '=')| >= 2 && 0 <= RFind(s, '=')
    ensures s[..RFind(s, '=')] == Join("=", Split(s, '=')[..|Split(s, '=')| - 1])
    ensures s[RFind(s, '=') + 1..] == Split(s, '=')[|Split(s, '=')| - 1]
  {
    var parts := Split(s, '=');
    SplitHasTwo(s);
    JoinSplit(s, '=');
    var l := Join("=", parts[..|parts| - 1]);
    var last := parts[|parts| - 1];
    assert s == l + "=" + last;
    RFindAt(s, l, '=', last);
  }

  /** The split is at the last "=": the reference reading of `split_identity`. */
  lemma SplitIdentityAtLast(s: string)
    ensures '=' !in s ==> SplitIdentity(s) == None
    ensures '=' in s ==>
      var i := RFind(s, '=');
      0 <= i && SplitIdentity(s) ==
        (if Strip(s[..i]) == [] || Strip(s[i + 1..]) == [] then None else Some((Strip(s[..i]), Strip(s[i + 1..]))))
  {
    if '=' in s {
      SplitAtLast(s);
    }
  }

  /** A split identity has non-empty sides and no "=" on its right-hand side. */
  lemma SplitIdentitySides(s: string)
    requires SplitIdentity(s).Some?
    ensures SplitIdentity(s).value.0 != [] && SplitIdentity(s).value.1 != []
    ensures '=' !in SplitIdentity(s).value.1
  {
    SplitIdentityAtLast(s);
    var i := RFind(s, '=');
    var tail := s[i + 1..];
    var rhs := Strip(tail);
    assert '=' !in tail by {
      forall k | 0 <= k < |tail| ensures tail[k] == s[i + 1 + k] { }
    }
    var j :| OccursAt(tail, rhs, j);
    SliceAbsent(tail, rhs, j, '=');
  }

  /** Every text that splits into an identity also passes `looks_math`, so the filter drops no identity. */
  lemma IdentityLooksMath(s: string)
    requires SplitIdentity(s).Some?
    ensures LooksMath(s)
  {
    ContainsChar(s, '=');
    assert Contains(s, Markers[0]);
  }

  // ---------------------------------------------------------------------
  // guess_symbols
  // ---------------------------------------------------------------------

  /** The length of the run of word characters that opens `s`. */
  function WordLen(s: string): (n: nat)
    ensures n <= |s|
    ensures forall k :: 0 <= k < n ==> IsWordChar(s[k])
    ensures n == |s| || !IsWordChar(s[n])
    decreases |s|
  {
    if s == [] || !IsWordChar(s[0]) then 0 else 1 + WordLen(s[1..])
  }

  /** `s[i..j]` is a whole word: only word characters, with a non-word character or an end on each side. */
  predicate WordAt(s: string, i: int, j: int)
  {
    && 0 <= i < j <= |s|
    && (i == 0 || !IsWordChar(s[i - 1]))
    && (j == |s| || !IsWordChar(s[j]))
    && forall k :: i <= k < j ==> IsWordChar(s[k])
  }

  /** `w` matches `\b([a-zA-Z]\w*)\b` at index `i` of `s`. */
  predicate MatchAt(s: string, w: string, i: int)
  {
    0 <= i && i + |w| <= |s| && WordAt(s, i, i + |w|) && s[i..i + |w|] == w && IsAsciiLetter(w[0])
  }

  ghost predicate Matches(s: string, w: string)
  {
    exists i :: MatchAt(s, w, i)
  }

  ghost predicate MatchesFrom(s: string, w: string, d: int)
  {
    exists i :: d <= i && MatchAt(s, w, i)
  }

  /** `re.findall(r"\b([a-zA-Z]\w*)\b", s)`: the words that start with an ASCII letter, left to right. */
  function Tokens(s: string): seq<string>
    decreases |s|
  {
    if s == [] then []
    else if !IsWordChar(s[0]) then Tokens(s[1..])
    else
      var n := WordLen(s);
      (if IsAsciiLetter(s[0]) then [s[..n]] else []) + Tokens(s[n..])
  }

  /**
   * The matches in `s[d..]` are the matches in `s` from index `d` on, when
   * `s[..d]` is one non-word character or a run of word characters that
   * ends where a non-word character or the end of `s` follows.
   */
  lemma MatchesShift(s: string, d: nat, w: string)
    requires 0 < d <= |s|
    requires (!IsWordChar(s[0]) && d == 1) || (IsWordChar(s[d - 1]) && (d == |s| || !IsWordChar(s[d])))
    ensures Matches(s[d..], w) <==> MatchesFrom(s, w, d)
  {
    if Matches(s[d..], w) {
      var i :| MatchAt(s[d..], w, i);
      MatchShiftsRight(s, d, w, i);
    }
    if MatchesFrom(s, w, d) {
      var i :| d <= i && MatchAt(s, w, i);
      MatchShiftsLeft(s, d, w, i);
    }
  }

  /** A match in `s[d..]` is a match in `s`, `d` places further on. */
  lemma MatchShiftsRight(s: string, d: nat, w: string, i: int)
    requires 0 < d <= |s|
    requires (!IsWordChar(s[0]) && d == 1) || (IsWordChar(s[d - 1]) && (d == |s| || !IsWordChar(s[d])))
    requires MatchAt(s[d..], w, i)
    ensures MatchAt(s, w, i + d)
  {
    var t := s[d..];
    assert i == 0 ==> t[0] == s[d];
    assert i > 0 || !IsWordChar(s[d - 1]);
    forall k | i + d <= k < i + d + |w| ensures IsWordChar(s[k]) {
      assert s[k] == t[k - d];
    }
    assert i > 0 ==> s[i + d - 1] == t[i - 1];
    assert i + |w| < |t| ==> s[i + d + |w|] == t[i + |w|];
    assert s[i + d..i + d + |w|] == t[i..i + |w|];
  }

  /** A match in `s` at or after `d` is a match in `s[d..]`. */
  lemma MatchShiftsLeft(s: string, d: nat, w: string, i: int)
    requires 0 < d <= |s|
    requires d <= i && MatchAt(s, w, i)
    ensures MatchAt(s[d..], w, i - d)
  {
    var t := s[d..];
    forall k | i - d <= k < i - d + |w| ensures IsWordChar(t[k]) {
      assert t[k] == s[k + d];
    }
    assert i > d ==> t[i - d - 1] == s[i - 1];
    assert i + |w| < |s| ==> t[i - d + |w|] == s[i + |w|];
    assert t[i - d..i - d + |w|] == s[i..i + |w|];
  }

  /** `findall` finds exactly the matches of the pattern. */
  lemma {:induction false} TokensMatch(s: string, w: string)
    ensures w in Tokens(s) <==> Matches(s, w)
    decreases |s|
  {
    if s == [] {
      assert !MatchAt(s, w, 0);
    } else if !IsWordChar(s[0]) {
      TokensMatch(s[1..], w);
      MatchesShift(s, 1, w);
      assert !MatchAt(s, w, 0);
      if Matches(s, w) {
        var i :| MatchAt(s, w, i);
        assert i >= 1;
      }
    } else {
      var n := WordLen(s);
      TokensMatch(s[n..], w);
      MatchesShift(s, n, w);
      var head := if IsAsciiLetter(s[0]) then [s[..n]] else [];
      assert Tokens(s) == head + Tokens(s[n..]);
      if Matches(s, w) {
        var i :| MatchAt(s, w, i);
        assert i == 0 || i >= n;
        if i == 0 {
          assert |w| == n;
          assert w in head;
        }
      }
      if w in head {
        assert MatchAt(s, w, 0);
      }
    }
  }

  /** The function names `guess_symbols` never reports. */
  const Funcs: set<string> := {"sin", "cos", "tan", "log", "sqrt", "exp", "sum", "min", "max", "Eq", "Sum", "Product"}

  predicate Distinct(xs: seq<string>)
  {
    forall i, j :: 0 <= i < j < |xs| ==> xs[i] != xs[j]
  }

  /** The distinct elements of `xs`, in order of first occurrence. */
  function Dedup(xs: seq<string>): (r: seq<string>)
    ensures Distinct(r)
    ensures forall x :: x in r <==> x in xs
  {
    if xs == [] then []
    else
      var d := Dedup(xs[..|xs| - 1]);
      assert xs == xs[..|xs| - 1] + [xs[|xs| - 1]];
      if xs[|xs| - 1] in d then d else d + [xs[|xs| - 1]]
  }

  /** Deduplicating a list that has no repeats gives it back unchanged. */
  lemma {:induction false} DedupOfDistinct(xs: seq<string>)
    requires Distinct(xs)
    ensures Dedup(xs) == xs
  {
    if xs != [] {
      DedupOfDistinct(xs[..|xs| - 1]);
      assert xs[|xs| - 1] !in xs[..|xs| - 1];
    }
  }

  /** The elements of `xs` that are not function names. */
  function NonFuncs(xs: seq<string>): (r: seq<string>)
    ensures forall x :: x in r <==> x in xs && x !in Funcs
  {
    if xs == [] then []
    else
      assert xs == [xs[0]] + xs[1..];
      (if xs[0] in Funcs then [] else [xs[0]]) + NonFuncs(xs[1..])
  }

  /**
   * `guess_symbols`: the distinct identifiers of `lhs + " " + rhs` that are
   * not function names, at most twelve. The source collects them in a
   * set, whose order is not fixed; they are taken here in order of first
   * occurrence.
   */
  function GuessSymbols(lhs: string, rhs: string): seq<string>
  {
    var c := Dedup(NonFuncs(Tokens(lhs + " " + rhs)));
    c[..if |c| < 12 then |c| else 12]
  }

  /**
   * At most twelve distinct names, each an identifier that occurs as a
   * whole word and is not a function name; when fewer than twelve are
   * returned, every such identifier is among them.
   */
  lemma GuessSymbolsSpec(lhs: string, rhs: string)
    ensures var r := GuessSymbols(lhs, rhs);
      && |r| <= 12
      && Distinct(r)
      && (forall k :: 0 <= k < |r| ==> r[k] !in Funcs && Matches(lhs + " " + rhs, r[k]))
      && (|r| < 12 ==> forall w :: Matches(lhs + " " + rhs, w) && w !in Funcs ==> w in r)
  {
    var text := lhs + " " + rhs;
    var c := Dedup(NonFuncs(Tokens(text)));
    var r := GuessSymbols(lhs, rhs);
    forall k | 0 <= k < |r|
      ensures r[k] !in Funcs && Matches(text, r[k])
    {
      assert r[k] == c[k];
      TokensMatch(text, r[k]);
    }
    forall w | Matches(text, w) && w !in Funcs && |r| < 12
      ensures w in r
    {
      TokensMatch(text, w);
      assert r == c;
    }
  }

  // ---------------------------------------------------------------------
  // extract_from_docx and the claim loop
  // ---------------------------------------------------------------------

  datatype Kind = Para | Cell

  /** Each text normalised. */
  function NormAll(texts: seq<string>): (r: seq<string>)
    ensures |r| == |texts|
  {
    if texts == [] then [] else NormAll(texts[..|texts| - 1]) + [NormOf(texts[|texts| - 1])]
  }

  /** The normalised texts that look like math, each tagged with where it came from. */
  function Candidates(normed: seq<string>, kind: Kind): seq<(string, Kind)>
  {
    if normed == [] then []
    else
      var prior := Candidates(normed[..|normed| - 1], kind);
      var t := normed[|normed| - 1];
      if LooksMath(t) then prior + [(t, kind)] else prior
  }

  /** A line `extract_from_docx` may return for a text of the given kind. */
  predicate IsCandidate(x: (string, Kind), kind: Kind)
  {
    Normalized(x.0) && LooksMath(x.0) && x.1 == kind
  }

  /** Normalised texts stay normalised. */
  lemma {:induction false} NormAllNormalized(texts: seq<string>)
    ensures forall i :: 0 <= i < |texts| ==> Normalized(NormAll(texts)[i])
  {
    if texts != [] {
      NormAllNormalized(texts[..|texts| - 1]);
      NormNormalized(texts[|texts| - 1]);
    }
  }

  lemma CandidatesAppend(prior: seq<(string, Kind)>, x: (string, Kind), kind: Kind)
    requires forall k :: 0 <= k < |prior| ==> IsCandidate(prior[k], kind)
    requires IsCandidate(x, kind)
    ensures forall k :: 0 <= k < |prior + [x]| ==> IsCandidate((prior + [x])[k], kind)
  {
  }

  /** Every candidate line of normalised texts is normalised, looks like math and carries the given tag. */
  lemma {:induction false} CandidatesSpec(normed: seq<string>, kind: Kind)
    requires forall i :: 0 <= i < |normed| ==> Normalized(normed[i])
    ensures forall k :: 0 <= k < |Candidates(normed, kind)| ==> IsCandidate(Candidates(normed, kind)[k], kind)
  {
    if normed != [] {
      var prior := normed[..|normed| - 1];
      CandidatesSpec(prior, kind);
      var t := normed[|normed| - 1];
      var before := Candidates(prior, kind);
      assert forall k :: 0 <= k < |before| ==> IsCandidate(before[k], kind);
      if LooksMath(t) {
        assert Normalized(t);
        CandidatesAppend(before, (t, kind), kind);
      }
    }
  }

  /**
   * `extract_from_docx` once the document is open: paragraphs first, then
   * table cells (given in table, row, cell order), each normalised and kept
   * when it looks like math.
   */
  method ExtractFromDocx(paragraphs: seq<string>, cells: seq<string>) returns (eqLines: seq<(string, Kind)>)
    ensures eqLines == Candidates(NormAll(paragraphs), Para) + Candidates(NormAll(cells), Cell)
  {
    eqLines := KeepMath(paragraphs, Para, []);
    eqLines := KeepMath(cells, Cell, eqLines);
  }

  /** One more text adds its normalised form to the candidates exactly when that looks like math. */
  lemma CandidatesExtend(texts: seq<string>, i: nat, kind: Kind)
    requires i < |texts|
    ensures var t := NormOf(texts[i]);
      Candidates(NormAll(texts[..i + 1]), kind)
      == Candidates(NormAll(texts[..i]), kind) + if LooksMath(t) then [(t, kind)] else []
  {
    var t := NormOf(texts[i]);
    assert texts[..i + 1][..i] == texts[..i];
    assert NormAll(texts[..i + 1]) == NormAll(texts[..i]) + [t];
    assert (NormAll(texts[..i]) + [t])[..i] == NormAll(texts[..i]);
  }

  /** One loop of `extract_from_docx`: normalise each text and append it when it looks like math. */
  method KeepMath(texts: seq<string>, kind: Kind, init: seq<(string, Kind)>) returns (eqLines: seq<(string, Kind)>)
    ensures eqLines == init + Candidates(NormAll(texts), kind)
  {
    eqLines := init;
    ghost var kept: seq<(string, Kind)> := [];
    for i := 0 to |texts|
      invariant kept == Candidates(NormAll(texts[..i]), kind)
      invariant eqLines == init + kept
    {
      var txt := Norm(texts[i]);
      CandidatesExtend(texts, i, kind);
      if LooksMath(txt) {
        eqLines := eqLines + [(txt, kind)];
        kept := kept + [(txt, kind)];
      }
    }
    assert texts[..|texts|] == texts;
  }

  /** Every line `extract_from_docx` returns is normalised and looks like math. */
  lemma ExtractedLines(paragraphs: seq<string>, cells: seq<string>)
    ensures var r := Candidates(NormAll(paragraphs), Para) + Candidates(NormAll(cells), Cell);
      forall k :: 0 <= k < |r| ==> Normalized(r[k].0) && LooksMath(r[k].0)
  {
    NormAllNormalized(paragraphs);
    NormAllNormalized(cells);
    CandidatesSpec(NormAll(paragraphs), Para);
    CandidatesSpec(NormAll(cells), Cell);
  }

  /** One claim as `main` appends it. */
  datatype IdentityClaim = IdentityClaim(id: string, claimType: string, lhs: string, rhs: string,
                                         symbols: seq<string>, numericTrials: int)

  /** A document's path and the candidate lines read from it. */
  datatype Doc = Doc(path: string, lines: seq<(string, Kind)>)

  /** `docx.stem.replace(" ", "_")` */
  function Base(path: string): string
  {
    Replace(Stem(Name(path)), " ", "_")
  }

  /** `f"{base}_{n:03d}"` */
  function Cid(base: string, n: nat): string
  {
    base + "_" + ZeroPad(n, 3)
  }

  /** The base and the number can be read back from an id: ids of distinct (base, number) pairs differ. */
  lemma CidInjective(b1: string, n1: nat, b2: string, n2: nat)
    requires Cid(b1, n1) == Cid(b2, n2)
    ensures b1 == b2 && n1 == n2
  {
    var z1 := ZeroPad(n1, 3);
    var z2 := ZeroPad(n2, 3);
    assert '_' !in z1 && '_' !in z2;
    var c := Cid(b1, n1);
    RFindAt(c, b1, '_', z1);
    RFindAt(c, b2, '_', z2);
    ZeroPadInjective(n1, n2, 3);
  }

  /** The `defaultdict(int)` counter read at `base`. */
  function Count(counter: map<string, nat>, base: string): nat
  {
    if base in counter then counter[base] else 0
  }

  /** The claims, the claim-to-document map and the per-base counters of `main`. */
  datatype Intake = Intake(claims: seq<IdentityClaim>, claimMap: map<string, string>, counter: map<string, nat>)

  /** One candidate line of document `path`: skipped unless it splits into an identity. */
  function Step(st: Intake, path: string, txt: string): Intake
  {
    Record(st, path, SplitIdentity(txt))
  }

  /** The claim made from a split identity, numbered by the next count of the document's base name. */
  function Record(st: Intake, path: string, split: Option<(string, string)>): Intake
  {
    match split
    case None => st
    case Some((lhs, rhs)) => Numbered(st, Base(path), path, lhs, rhs, GuessSymbols(lhs, rhs))
  }

  /** `counter[b] += 1`, then the claim with id `Cid(b, counter[b])` is appended and mapped to `path`. */
  function Numbered(st: Intake, b: string, path: string, lhs: string, rhs: string, symbols: seq<string>): Intake
  {
    var n := Count(st.counter, b) + 1;
    var cid := Cid(b, n);
    Intake(st.claims + [IdentityClaim(cid, "identity", lhs, rhs, symbols, 6)], st.claimMap[cid := path], st.counter[b := n])
  }

  /** The state after processing `items` from `st`. */
  function GatherFrom(st: Intake, items: seq<(string, string)>): Intake
  {
    if items == [] then st
    else Step(GatherFrom(st, items[..|items| - 1]), items[|items| - 1].0, items[|items| - 1].1)
  }

  /** The state after processing `items` from the start. */
  function Gather(items: seq<(string, string)>): Intake
  {
    GatherFrom(Intake([], map[], map[]), items)
  }

  /** The lines of one document, each paired with its path. */
  function Pairs(path: string, lines: seq<(string, Kind)>): (r: seq<(string, string)>)
    ensures |r| == |lines|
  {
    if lines == [] then [] else Pairs(path, lines[..|lines| - 1]) + [(path, lines[|lines| - 1].0)]
  }

  /** One more line of a document adds one more pair. */
  lemma PairsExtend(path: string, lines: seq<(string, Kind)>, j: nat)
    requires j < |lines|
    ensures Pairs(path, lines[..j + 1]) == Pairs(path, lines[..j]) + [(path, lines[j].0)]
  {
    assert lines[..j + 1][..j] == lines[..j];
  }

  /** The lines of all documents in order. */
  function Flat(docs: seq<Doc>): seq<(string, string)>
  {
    if docs == [] then [] else Flat(docs[..|docs| - 1]) + Pairs(docs[|docs| - 1].path, docs[|docs| - 1].lines)
  }

  /** Claim ids are pairwise distinct. */
  ghost predicate DistinctIds(claims: seq<IdentityClaim>)
  {
    forall k, l :: 0 <= k < l < |claims| ==> claims[k].id != claims[l].id
  }

  /** Each claim id is a key of the claim map and the map has no other key. */
  ghost predicate Keyed(claims: seq<IdentityClaim>, claimMap: map<string, string>)
  {
    (forall k :: 0 <= k < |claims| ==> claims[k].id in claimMap) && |claimMap| == |claims|
  }

  /** Every id in the map was numbered at most at its base's counter. */
  ghost predicate Counted(claimMap: map<string, string>, counter: map<string, nat>)
  {
    forall b, n: nat :: Cid(b, n) in claimMap ==> 1 <= n <= Count(counter, b)
  }

  /** Every claim is an identity with six numeric trials. */
  ghost predicate AllIdentities(claims: seq<IdentityClaim>)
  {
    forall k :: 0 <= k < |claims| ==> claims[k].claimType == "identity" && claims[k].numericTrials == 6
  }

  /**
   * What the claim loop keeps true: ids are pairwise distinct, each is a
   * key of the claim map and the map has no other key, every id in the map
   * was numbered at most at its base's counter, and every claim is an
   * identity with six numeric trials.
   */
  ghost predicate Consistent(st: Intake)
  {
    DistinctIds(st.claims) && Keyed(st.claims, st.claimMap) && Counted(st.claimMap, st.counter) && AllIdentities(st.claims)
  }

  /** The id numbered next for base `b` is not yet in the map. */
  lemma NextIdFresh(claimMap: map<string, string>, counter: map<string, nat>, b: string)
    requires Counted(claimMap, counter)
    ensures Cid(b, Count(counter, b) + 1) !in claimMap
  {
  }

  /** Appending a claim whose id is not yet mapped keeps ids distinct and keyed. */
  lemma AppendKeyed(claims: seq<IdentityClaim>, claimMap: map<string, string>, c: IdentityClaim, path: string)
    requires DistinctIds(claims) && Keyed(claims, claimMap) && c.id !in claimMap
    ensures DistinctIds(claims + [c]) && Keyed(claims + [c], claimMap[c.id := path])
  {
    var next := claims + [c];
    forall k, l | 0 <= k < l < |next|
      ensures next[k].id != next[l].id
    {
      assert next[k] == claims[k];
      if l < |claims| {
        assert next[l] == claims[l];
      } else {
        assert claims[k].id in claimMap;
      }
    }
    forall k | 0 <= k < |next|
      ensures next[k].id in claimMap[c.id := path]
    {
      if k < |claims| {
        assert next[k] == claims[k];
      }
    }
  }

  /** Raising the counter of `b` to `m` and mapping `Cid(b, m)` keeps every mapped id counted. */
  lemma BumpCounted(claimMap: map<string, string>, counter: map<string, nat>, b: string, m: nat, path: string)
    requires Counted(claimMap, counter) && m == Count(counter, b) + 1
    ensures Counted(claimMap[Cid(b, m) := path], counter[b := m])
  {
    forall b': string, n': nat | Cid(b', n') in claimMap[Cid(b, m) := path]
      ensures 1 <= n' <= Count(counter[b := m], b')
    {
      if Cid(b', n') == Cid(b, m) {
        CidInjective(b', n', b, m);
      } else {
        assert Cid(b', n') in claimMap;
        assert Count(counter, b') <= Count(counter[b := m], b');
      }
    }
  }

  /** Appending an identity claim with six trials keeps every claim one. */
  lemma AppendIdentity(claims: seq<IdentityClaim>, c: IdentityClaim)
    requires AllIdentities(claims) && c.claimType == "identity" && c.numericTrials == 6
    ensures AllIdentities(claims + [c])
  {
    forall k | 0 <= k < |claims| + 1
      ensures (claims + [c])[k].claimType == "identity" && (claims + [c])[k].numericTrials == 6
    {
      if k < |claims| {
        assert (claims + [c])[k] == claims[k];
      }
    }
  }

  /** Adding a claim numbered by the next count of base `b` keeps the loop's invariant. */
  lemma AddConsistent(st: Intake, b: string, path: string, lhs: string, rhs: string, symbols: seq<string>)
    requires Consistent(st)
    ensures Consistent(Numbered(st, b, path, lhs, rhs, symbols))
  {
    var m := Count(st.counter, b) + 1;
    var c := IdentityClaim(Cid(b, m), "identity", lhs, rhs, symbols, 6);
    NextIdFresh(st.claimMap, st.counter, b);
    AppendKeyed(st.claims, st.claimMap, c, path);
    BumpCounted(st.claimMap, st.counter, b, m, path);
    AppendIdentity(st.claims, c);
    assert Numbered(st, b, path, lhs, rhs, symbols) == Intake(st.claims + [c], st.claimMap[c.id := path], st.counter[b := m]);
  }

  lemma RecordConsistent(st: Intake, path: string, split: Option<(string, string)>)
    requires Consistent(st)
    ensures Consistent(Record(st, path, split))
  {
    if split.Some? {
      var (lhs, rhs) := split.value;
      AddConsistent(st, Base(path), path, lhs, rhs, GuessSymbols(lhs, rhs));
    }
  }

  /** Every state the claim loop reaches from a consistent state is consistent. */
  lemma {:induction false} GatherConsistent(st: Intake, items: seq<(string, string)>)
    requires Consistent(st)
    ensures Consistent(GatherFrom(st, items))
  {
    if items != [] {
      GatherConsistent(st, items[..|items| - 1]);
      RecordConsistent(GatherFrom(st, items[..|items| - 1]), items[|items| - 1].0, SplitIdentity(items[|items| - 1].1));
    }
  }

  lemma GatherAppend(st: Intake, items: seq<(string, string)>, x: (string, string))
    ensures GatherFrom(st, items + [x]) == Step(GatherFrom(st, items), x.0, x.1)
  {
    assert (items + [x])[..|items|] == items;
  }

  /** Processing two runs of lines one after the other is processing them together. */
  lemma {:induction false} GatherConcat(st: Intake, a: seq<(string, string)>, b: seq<(string, string)>)
    ensures GatherFrom(GatherFrom(st, a), b) == GatherFrom(st, a + b)
  {
    if b != [] {
      GatherConcat(st, a, b[..|b| - 1]);
      assert (a + b)[..|a + b| - 1] == a + b[..|b| - 1];
    } else {
      assert a + b == a;
    }
  }

  /** The inner loop of `main` over the candidate lines of one document. */
  method CollectDoc(st: Intake, doc: Doc) returns (next: Intake)
    ensures next == GatherFrom(st, Pairs(doc.path, doc.lines))
  {
    var claims: seq<IdentityClaim>, claimMap: map<string, string>, counter: map<string, nat>
      := st.claims, st.claimMap, st.counter;
    for j := 0 to |doc.lines|
      invariant Intake(claims, claimMap, counter) == GatherFrom(st, Pairs(doc.path, doc.lines[..j]))
    {
      var txt := doc.lines[j].0;
      PairsExtend(doc.path, doc.lines, j);
      GatherAppend(st, Pairs(doc.path, doc.lines[..j]), (doc.path, txt));
      ghost var cur := Intake(claims, claimMap, counter);
      var split := SplitIdentity(txt);
      assert Step(cur, doc.path, txt) == Record(cur, doc.path, split);
      if split.Some? {
        var lhs, rhs := split.value.0, split.value.1;
        var base := Base(doc.path);
        var symbols := GuessSymbols(lhs, rhs);
        assert Record(cur, doc.path, split) == Numbered(cur, base, doc.path, lhs, rhs, symbols);
        var n := Count(counter, base) + 1;
        counter := counter[base := n];
        var cid := Cid(base, n);
        claims := claims + [IdentityClaim(cid, "identity", lhs, rhs, symbols, 6)];
        claimMap := claimMap[cid := doc.path];
      }
    }
    assert doc.lines[..|doc.lines|] == doc.lines;
    next := Intake(claims, claimMap, counter);
  }

  /**
   * The claim loop of `main` over already extracted documents: each line
   * that splits into an identity becomes a claim numbered by the counter of
   * its document's base name, and the id is mapped to the document's path.
   */
  method CollectClaims(docs: seq<Doc>) returns (claims: seq<IdentityClaim>, claimMap: map<string, string>)
    ensures claims == Gather(Flat(docs)).claims && claimMap == Gather(Flat(docs)).claimMap
    ensures forall k, l :: 0 <= k < l < |claims| ==> claims[k].id != claims[l].id
    ensures |claimMap| == |claims| && forall k :: 0 <= k < |claims| ==> claims[k].id in claimMap
  {
    var st := Intake([], map[], map[]);
    for i := 0 to |docs|
      invariant st == Gather(Flat(docs[..i]))
    {
      assert docs[..i + 1][..i] == docs[..i];
      GatherConcat(Intake([], map[], map[]), Flat(docs[..i]), Pairs(docs[i].path, docs[i].lines));
      st := CollectDoc(st, docs[i]);
    }
    assert docs[..|docs|] == docs;
    GatherConsistent(Intake([], map[], map[]), Flat(docs));
    claims, claimMap := st.claims, st.claimMap;
  }

  // ---------------------------------------------------------------------
  // yq
  // ---------------------------------------------------------------------

  /** `yq`: wrap in double quotes, backslash-escaping inner double quotes. */
  function Yq(s: string): string
  {
    "\"" + Replace(s, "\"", "\\\"") + "\""
  }

  /** Escape sequences of a YAML double-quoted scalar (section 5.7 of YAML 1.2), except the hex forms. */
  function YamlEscape(c: char): Option<char>
  {
    match c
    case '0' => Some('\U{0}')
    case 'a' => Some('\U{7}')
    case 'b' => Some('\U{8}')
    case 't' => Some('\t')
    case '\t' => Some('\t')
    case 'n' => Some('\n')
    case 'v' => Some('\U{B}')
    case 'f' => Some('\U{C}')
    case 'r' => Some('\r')
    case 'e' => Some('\U{1B}')
    case ' ' => Some(' ')
    case '"' => Some('"')
    case '/' => Some('/')
    case '\\' => Some('\\')
    case 'N' => Some('\U{85}')
    case '_' => Some('\U{A0}')
    case 'L' => Some('\U{2028}')
    case 'P' => Some('\U{2029}')
    case _ => None
  }

  /** The text of the body of a double-quoted scalar; None when it is malformed. */
  function YamlBody(b: string): Option<string>
    decreases |b|
  {
    if b == [] then Some([])
    else if b[0] == '"' then None
    else if b[0] == '\\' then
      if |b| < 2 then None
      else match (YamlEscape(b[1]), YamlBody(b[2..]))
        case (Some(c), Some(rest)) => Some([c] + rest)
        case _ => None
    else match YamlBody(b[1..])
      case Some(rest) => Some([b[0]] + rest)
      case None => None
  }

  /** A plain character followed by readable text reads back as itself followed by that text. */
  lemma BodyPlain(c: char, rest: string)
    requires c != '"' && c != '\\' && YamlBody(rest).Some?
    ensures YamlBody([c] + rest) == Some([c] + YamlBody(rest).value)
  {
    assert ([c] + rest)[1..] == rest;
  }

  /** A known escape followed by readable text reads back as the escaped character followed by that text. */
  lemma BodyEscaped(e: char, rest: string)
    requires YamlEscape(e).Some? && YamlBody(rest).Some?
    ensures YamlBody(['\\', e] + rest) == Some([YamlEscape(e).value] + YamlBody(rest).value)
  {
    assert (['\\', e] + rest)[2..] == rest;
  }

  /** What a YAML reader makes of a double-quoted scalar on one line. */
  function YamlUnquote(t: string): Option<string>
  {
    if |t| >= 2 && t[0] == '"' && t[|t| - 1] == '"' then YamlBody(t[1..|t| - 1]) else None
  }

  /** A character other than a backslash, with double quotes escaped, reads back as itself. */
  lemma QuoteCharRead(c: char, rest: string)
    requires c != '\\' && YamlBody(rest).Some?
    ensures YamlBody((if c == '"' then "\\\"" else [c]) + rest) == Some([c] + YamlBody(rest).value)
  {
    if c == '"' {
      BodyEscaped('"', rest);
    } else {
      BodyPlain(c, rest);
    }
  }

  lemma {:induction false} EscapedQuotesRead(s: string)
    requires '\\' !in s
    ensures YamlBody(ReplaceChar(s, '"', "\\\"")) == Some(s)
    decreases |s|
  {
    if s != [] {
      assert s[0] in s && s == [s[0]] + s[1..];
      assert '\\' !in s[1..];
      EscapedQuotesRead(s[1..]);
      var rest := ReplaceChar(s[1..], '"', "\\\"");
      assert ReplaceChar(s, '"', "\\\"") == (if s[0] == '"' then "\\\"" else [s[0]]) + rest;
      QuoteCharRead(s[0], rest);
    }
  }

  /** Text without backslashes reads back from `yq` unchanged. */
  lemma YqReadsBackWithoutBackslash(s: string)
    requires '\\' !in s
    ensures YamlUnquote(Yq(s)) == Some(s)
  {
    ReplaceCharIsReplace(s, '"', "\\\"");
    EscapedQuotesRead(s);
    var t := Yq(s);
    assert t[1..|t| - 1] == ReplaceChar(s, '"', "\\\"");
  }

  /** A LaTeX command on one side of an identity does not survive `yq`: `\a` reads back as the bell character. */
  lemma YqMangledBackslash()
    ensures YamlUnquote(Yq("\\alpha")) == Some("\U{7}" + "lpha")
    ensures YamlUnquote(Yq("\\alpha")) != Some("\\alpha")
  {
    var s := "\\alpha";
    ContainsChar(s, '"');
    var t := Yq(s);
    assert t == "\"" + s + "\"";
    assert t[1..|t| - 1] == s;
    assert s[2..] == "lpha";
    assert YamlBody([]) == Some([]);
    BodyPlain('a', []);
    BodyPlain('h', "a");
    BodyPlain('p', "ha");
    BodyPlain('l', "pha");
    BodyEscaped('a', "lpha");
    assert s == ['\\', 'a'] + "lpha";
    assert |t| >= 2 && t[0] == '"' && t[|t| - 1] == '"';
    assert YamlUnquote(t) == YamlBody(s);
  }

  /** One character of the corrected quoting: backslashes and double quotes are escaped. */
  function EscapeChar(c: char): string
  {
    if c == '\\' then "\\\\" else if c == '"' then "\\\"" else [c]
  }

  /** `yq` with backslashes escaped as well as double quotes. */
  function YqFixed(s: string): string
  {
    "\"" + FlatMap(s, EscapeChar) + "\""
  }

  /** One escaped character followed by readable text reads back as that character followed by that text. */
  lemma EscapeCharRead(c: char, rest: string)
    requires YamlBody(rest).Some?
    ensures YamlBody(EscapeChar(c) + rest) == Some([c] + YamlBody(rest).value)
  {
    if c == '\\' {
      BodyEscaped('\\', rest);
    } else if c == '"' {
      BodyEscaped('"', rest);
    } else {
      BodyPlain(c, rest);
    }
  }

  lemma {:induction false} EscapedRead(s: string)
    ensures YamlBody(FlatMap(s, EscapeChar)) == Some(s)
    decreases |s|
  {
    if s != [] {
      EscapedRead(s[1..]);
      var rest := FlatMap(s[1..], EscapeChar);
      assert FlatMap(s, EscapeChar) == EscapeChar(s[0]) + rest;
      EscapeCharRead(s[0], rest);
      assert s == [s[0]] + s[1..];
    }
  }

  /** Every text reads back from the corrected quoting unchanged. */
  lemma YqFixedReadsBack(s: string)
    ensures YamlUnquote(YqFixed(s)) == Some(s)
  {
    EscapedRead(s);
    var t := YqFixed(s);
    assert t[1..|t| - 1] == FlatMap(s, EscapeChar);
  }

  lemma {:induction false} FlatMapIsReplaceChar(s: string)
    requires '\\' !in s
    ensures FlatMap(s, EscapeChar) == ReplaceChar(s, '"', "\\\"")
    decreases |s|
  {
    if s != [] {
      FlatMapIsReplaceChar(s[1..]);
    }
  }

  /** On text without backslashes the corrected quoting is the original one. */
  lemma YqFixedAgrees(s: string)
    requires '\\' !in s
    ensures YqFixed(s) == Yq(s)
  {
    ReplaceCharIsReplace(s, '"', "\\\"");
    FlatMapIsReplaceChar(s);
  }
}
