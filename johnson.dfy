/**
 * The claim pre-filter of `johnson_filter.py`: a crude symbol detector, the
 * relation keywords found in a claim, and the ambiguity and risk notes
 * `analyze_claim` attaches to it.
 */
module Johnson {
  import opened Text
  import opened Py
  import Intake

  /** The relation keywords, in the order they are reported. */
  const Ops: seq<string> := [
    "equals", "=", "≈", "≡",
    "greater than", ">", ">=",
    "less than", "<", "<=",
    "converges", "diverges", "is prime", "is integer"
  ]

  /** Words `_find_symbols` never reports, compared after lower-casing. */
  const Stop: set<string> := {"equals", "for", "all", "real", "reals", "such", "that", "is", "are", "and", "or", "if", "then"}

  const NoOperatorNote := "No explicit equality/relationship operator detected."
  const QuantifierNote := "Global quantifier without explicit domain assumptions."
  const TrigNote := "Trigonometric identity assumed but not stated."

  // ---------------------------------------------------------------------
  // _find_symbols
  // ---------------------------------------------------------------------

  predicate IsIdStart(c: char)
  {
    IsAsciiLetter(c) || c == '_'
  }

  /** The character classes `[α-ω]` and `[Α-Ω]`. */
  predicate IsGreek(c: char)
  {
    'α' <= c <= 'ω' || 'Α' <= c <= 'Ω'
  }

  /** The length of the longest prefix of `s` whose characters all satisfy `p`. */
  function Span(s: string, p: char -> bool): (n: nat)
    ensures n <= |s|
    ensures forall k :: 0 <= k < n ==> p(s[k])
    ensures n == |s| || !p(s[n])
  {
    if s == [] || !p(s[0]) then 0 else 1 + Span(s[1..], p)
  }

  /**
   * The length of the match of `[A-Za-z_][A-Za-z0-9_]*|\\[A-Za-z]+|[α-ωΑ-Ω]`
   * at the start of `s`, alternatives tried left to right; 0 when none matches.
   */
  function MatchLen(s: string): (n: nat)
    ensures n <= |s|
  {
    if s == [] then 0
    else if IsIdStart(s[0]) then 1 + Span(s[1..], IsWordChar)
    else if s[0] == '\\' && |s| >= 2 && IsAsciiLetter(s[1]) then 1 + Span(s[1..], IsAsciiLetter)
    else if IsGreek(s[0]) then 1
    else 0
  }

  /** A string the symbol pattern matches as a whole. */
  predicate IsSymbolToken(t: string)
  {
    || (|t| >= 1 && IsIdStart(t[0]) && forall k :: 1 <= k < |t| ==> IsWordChar(t[k]))
    || (|t| >= 2 && t[0] == '\\' && forall k :: 1 <= k < |t| ==> IsAsciiLetter(t[k]))
    || (|t| == 1 && IsGreek(t[0]))
  }

  /** `re.findall` of the symbol pattern: non-overlapping matches, left to right. */
  function FindAll(s: string): seq<string>
    decreases |s|
  {
    if s == [] then []
    else
      var n := MatchLen(s);
      if n == 0 then FindAll(s[1..]) else [s[..n]] + FindAll(s[n..])
  }

  /** Every match is a whole token of the pattern and occurs in the text. */
  lemma {:induction false} FindAllTokens(s: string)
    ensures forall t :: t in FindAll(s) ==> IsSymbolToken(t) && Contains(s, t)
    decreases |s|
  {
    if s != [] {
      var n := MatchLen(s);
      if n == 0 {
        FindAllTokens(s[1..]);
        forall t | t in FindAll(s[1..]) ensures Contains(s, t) {
          assert Contains(s, s[1..]);
          ContainsTransitive(s, s[1..], t);
        }
      } else {
        FindAllTokens(s[n..]);
        var t0 := s[..n];
        assert StartsWith(s, t0);
        assert IsSymbolToken(t0);
        forall t | t in FindAll(s[n..]) ensures Contains(s, t) {
          SuffixContained(s, n);
          ContainsTransitive(s, s[n..], t);
        }
      }
    }
  }

  /** Every suffix of `s` occurs in `s`. */
  lemma SuffixContained(s: string, n: nat)
    requires n <= |s|
    ensures Contains(s, s[n..])
  {
    assert OccursAt(s, s[n..], n);
    ContainsAt(s, s[n..]);
  }

  /** A text without letters, underscores, backslashes or Greek letters has no symbols. */
  lemma {:induction false} FindAllNone(s: string)
    requires forall k :: 0 <= k < |s| ==> !IsIdStart(s[k]) && s[k] != '\\' && !IsGreek(s[k])
    ensures FindAll(s) == []
    decreases |s|
  {
    if s != [] {
      FindAllNone(s[1..]);
    }
  }

  /** The matches whose lower-cased form is not a stop-word, in order. */
  function NonStop(xs: seq<string>): (r: seq<string>)
    ensures forall x :: x in r <==> x in xs && Lower(x) !in Stop
  {
    if xs == [] then []
    else
      assert xs == [xs[0]] + xs[1..];
      (if Lower(xs[0]) in Stop then [] else [xs[0]]) + NonStop(xs[1..])
  }

  /**
   * `_find_symbols`: the distinct matches that are not stop-words. The source
   * goes through a set, whose order is not fixed; the model keeps the order
   * of first occurrence.
   */
  function FindSymbols(s: string): seq<string>
  {
    Intake.Dedup(NonStop(FindAll(s)))
  }

  /**
   * No symbol is repeated; a string is reported exactly when the pattern
   * matches it in the claim and it is not a stop-word in any letter case;
   * every reported symbol is a whole token that occurs in the claim.
   */
  lemma FindSymbolsSpec(s: string)
    ensures Intake.Distinct(FindSymbols(s))
    ensures forall t :: t in FindSymbols(s) <==> t in FindAll(s) && Lower(t) !in Stop
    ensures forall t :: t in FindSymbols(s) ==> IsSymbolToken(t) && Contains(s, t)
  {
    FindAllTokens(s);
  }

  // ---------------------------------------------------------------------
  // _find_ops
  // ---------------------------------------------------------------------

  /** The keywords of `ops` that occur in `lo`, in the order of `ops`. */
  function OpsIn(lo: string, ops: seq<string>): seq<string>
  {
    if ops == [] then []
    else (if Contains(lo, ops[0]) then [ops[0]] else []) + OpsIn(lo, ops[1..])
  }

  /** The keywords of `keys` occurring in `lo`, one loop step per keyword. */
  method KeywordsIn(lo: string, keys: seq<string>) returns (out: seq<string>)
    ensures out == OpsIn(lo, keys)
  {
    out := [];
    for i := 0 to |keys|
      invariant out + OpsIn(lo, keys[i..]) == OpsIn(lo, keys)
    {
      assert keys[i..] == [keys[i]] + keys[i + 1..];
      if Contains(lo, keys[i]) {
        out := out + [keys[i]];
      }
    }
    assert keys[|keys|..] == [];
  }

  /**
   * `_find_ops`: the keywords found in the lower-cased claim, in keyword
   * order, passed through `dict.fromkeys`, which has nothing to remove.
   */
  method FindOps(s: string) returns (ops: seq<string>)
    ensures ops == OpsIn(Lower(s), Ops)
  {
    var lo := Lower(s);
    var out := KeywordsIn(lo, Ops);
    OpsDistinct();
    OpsInDistinct(lo, Ops);
    Intake.DedupOfDistinct(out);
    ops := Intake.Dedup(out);
  }

  /** The keywords reported are exactly those occurring in `lo`. */
  lemma {:induction false} OpsInMembers(lo: string, ops: seq<string>)
    ensures forall op :: op in OpsIn(lo, ops) <==> op in ops && Contains(lo, op)
  {
    if ops != [] {
      OpsInMembers(lo, ops[1..]);
      assert ops == [ops[0]] + ops[1..];
    }
  }

  /** Distinct keywords are reported at most once each. */
  lemma {:induction false} OpsInDistinct(lo: string, ops: seq<string>)
    requires Intake.Distinct(ops)
    ensures Intake.Distinct(OpsIn(lo, ops))
  {
    if ops != [] {
      OpsInMembers(lo, ops[1..]);
      OpsInDistinct(lo, ops[1..]);
      assert ops[0] !in ops[1..];
    }
  }

  /** `r` is `xs` with some elements left out. */
  predicate Subsequence(r: seq<string>, xs: seq<string>)
    decreases |xs|
  {
    if r == [] then true
    else if xs == [] then false
    else (r[0] == xs[0] && Subsequence(r[1..], xs[1..])) || Subsequence(r, xs[1..])
  }

  /** The reported keywords keep the keyword order. */
  lemma {:induction false} OpsInOrdered(lo: string, ops: seq<string>)
    ensures Subsequence(OpsIn(lo, ops), ops)
  {
    if ops != [] {
      OpsInOrdered(lo, ops[1..]);
      var rest := OpsIn(lo, ops[1..]);
      if !Contains(lo, ops[0]) {
        assert OpsIn(lo, ops) == rest;
        if rest != [] {
          assert Subsequence(rest, ops[1..]);
        }
      } else {
        assert OpsIn(lo, ops) == [ops[0]] + rest;
        assert ([ops[0]] + rest)[1..] == rest;
      }
    }
  }

  lemma OpsDistinct()
    ensures Intake.Distinct(Ops)
  {
  }

  /**
   * `_find_ops` reports each keyword occurring in the lower-cased claim
   * exactly once, in keyword order. Matching is by substring, so "<="
   * brings "<" and "=" with it, and ">=" brings ">" and "=".
   */
  lemma FindOpsSpec(s: string)
    ensures forall op :: op in OpsIn(Lower(s), Ops) <==> op in Ops && Contains(Lower(s), op)
    ensures Intake.Distinct(OpsIn(Lower(s), Ops)) && Subsequence(OpsIn(Lower(s), Ops), Ops)
    ensures "<=" in OpsIn(Lower(s), Ops) ==> "<" in OpsIn(Lower(s), Ops) && "=" in OpsIn(Lower(s), Ops)
    ensures ">=" in OpsIn(Lower(s), Ops) ==> ">" in OpsIn(Lower(s), Ops) && "=" in OpsIn(Lower(s), Ops)
  {
    var lo := Lower(s);
    OpsDistinct();
    OpsInMembers(lo, Ops);
    OpsInDistinct(lo, Ops);
    OpsInOrdered(lo, Ops);
    assert "<" in Ops && "=" in Ops && ">" in Ops;
    PairContained('<', '=');
    PairContained('>', '=');
    OpsInBrings(lo, Ops, "<=", "<");
    OpsInBrings(lo, Ops, "<=", "=");
    OpsInBrings(lo, Ops, ">=", ">");
    OpsInBrings(lo, Ops, ">=", "=");
  }

  /** Both characters of a two-character string occur in it. */
  lemma PairContained(x: char, y: char)
    ensures Contains([x, y], [x]) && Contains([x, y], [y])
  {
    assert OccursAt([x, y], [x], 0);
    ContainsAt([x, y], [x]);
    SuffixContained([x, y], 1);
  }

  /** A reported keyword brings every keyword it contains with it. */
  lemma OpsInBrings(lo: string, ops: seq<string>, a: string, b: string)
    requires b in ops && Contains(a, b)
    ensures a in OpsIn(lo, ops) ==> b in OpsIn(lo, ops)
  {
    OpsInMembers(lo, ops);
    if a in OpsIn(lo, ops) {
      ContainsTransitive(lo, a, b);
    }
  }

  // ---------------------------------------------------------------------
  // analyze_claim
  // ---------------------------------------------------------------------

  datatype Analysis = Analysis(
    normalizedClaim: string,
    symbols: seq<string>,
    operations: seq<string>,
    assumptionsExtracted: seq<string>,
    ambiguities: seq<string>,
    risks: seq<string>)

  /** `assumptions or []` */
  function Assumed(assumptions: Option<seq<string>>): seq<string>
  {
    match assumptions
    case None => []
    case Some(xs) => xs
  }

  /** Some listed assumption mentions `w`, in any letter case. */
  predicate Mentions(assumptions: seq<string>, w: string)
  {
    exists k :: 0 <= k < |assumptions| && Contains(Lower(assumptions[k]), w)
  }

  /** The claim quantifies over everything without a stated domain. */
  predicate QuantifierRisk(claim: string, assumptions: seq<string>)
  {
    (Contains(claim, "for all") || Contains(claim, "∀")) && !Mentions(assumptions, "domain")
  }

  /** The claim mixes sine and cosine without stating the identity used. */
  predicate TrigRisk(claim: string, assumptions: seq<string>)
  {
    Contains(claim, "sin") && Contains(claim, "cos") && !Mentions(assumptions, "identity")
  }

  /** An equality keyword is reported exactly when one occurs in the lower-cased claim. */
  lemma EqualityOps(s: string)
    ensures var ops := OpsIn(Lower(s), Ops);
      ("equals" in ops || "=" in ops || "≡" in ops)
      <==> (Contains(Lower(s), "equals") || Contains(Lower(s), "=") || Contains(Lower(s), "≡"))
  {
    OpsInMembers(Lower(s), Ops);
    assert Ops[0] == "equals" && Ops[1] == "=" && Ops[3] == "≡";
  }

  /**
   * `analyze_claim`. The ambiguity note is added exactly when the claim
   * has none of "equals", "=" and "≡" (in any letter case); the quantifier
   * and trigonometry risks are added, in that order, exactly when their
   * conditions hold, where an assumption counts only if it mentions
   * "domain" (resp. "identity") itself.
   */
  method AnalyzeClaim(claim: string, assumptions: Option<seq<string>>) returns (a: Analysis)
    ensures a.normalizedClaim == Strip(claim)
    ensures a.assumptionsExtracted == Assumed(assumptions)
    ensures a.symbols == FindSymbols(claim) && a.operations == OpsIn(Lower(claim), Ops)
    ensures a.ambiguities
         == if Contains(Lower(claim), "equals") || Contains(Lower(claim), "=") || Contains(Lower(claim), "≡")
            then [] else [NoOperatorNote]
    ensures a.risks
         == (if QuantifierRisk(claim, Assumed(assumptions)) then [QuantifierNote] else [])
          + (if TrigRisk(claim, Assumed(assumptions)) then [TrigNote] else [])
  {
    var given: seq<string> := if assumptions.Some? then assumptions.value else [];
    var symbols := FindSymbols(claim);
    var ops := FindOps(claim);
    EqualityOps(claim);
    var ambiguities: seq<string> := [];
    var risks: seq<string> := [];
    if "equals" !in ops && "=" !in ops && "≡" !in ops {
      ambiguities := ambiguities + [NoOperatorNote];
    }
    assert ambiguities == if "equals" in ops || "=" in ops || "≡" in ops then [] else [NoOperatorNote];
    assert given == Assumed(assumptions);
    var joined := Lower(Join(" ", given));
    KeywordsWithoutSpaces();
    JoinMentions(given, "domain");
    JoinMentions(given, "identity");
    var quantified := (Contains(claim, "for all") || Contains(claim, "∀")) && !Contains(joined, "domain");
    assert quantified == QuantifierRisk(claim, given);
    if quantified {
      risks := risks + [QuantifierNote];
    }
    assert risks == if quantified then [QuantifierNote] else [];
    var trig := Contains(claim, "sin") && Contains(claim, "cos") && !Contains(joined, "identity");
    assert trig == TrigRisk(claim, given);
    ghost var before := risks;
    if trig {
      risks := risks + [TrigNote];
    }
    assert risks == before + if trig then [TrigNote] else [];
    a := Analysis(Strip(claim), symbols, ops, given, ambiguities, risks);
  }

  /** Neither assumption keyword contains a space. */
  lemma KeywordsWithoutSpaces()
    ensures ' ' !in "domain" && ' ' !in "identity"
  {
    var d, t := "domain", "identity";
    assert forall m :: 0 <= m < |d| ==> 'a' <= d[m] <= 'z';
    assert forall m :: 0 <= m < |t| ==> 'a' <= t[m] <= 'z';
  }

  /** `(a + b).lower()` is `a.lower() + b.lower()`. */
  lemma LowerConcat(a: string, b: string)
    ensures Lower(a + b) == Lower(a) + Lower(b)
  {
  }
  /** An occurrence in `x + " " + y` that covers the joining space contains a space. */
  lemma SpaceInside(x: string, y: string, w: string, i: int)
    requires OccursAt(x + " " + y, w, i) && i <= |x| < i + |w|
    ensures ' ' in w
  {
    var s := x + " " + y;
    assert w[|x| - i] == s[i..i + |w|][|x| - i] == s[|x|] == ' ';
  }

  /** An occurrence of a space-free word in `x + " " + y` lies inside `x` or inside `y`. */
  lemma SpaceSplitsOccurrence(x: string, y: string, w: string, i: int)
    requires w != [] && ' ' !in w && OccursAt(x + " " + y, w, i)
    ensures OccursAt(x, w, i) || OccursAt(y, w, i - |x| - 1)
  {
    var s := x + " " + y;
    if i <= |x| < i + |w| {
      SpaceInside(x, y, w, i);
      assert false;
    }
    if i + |w| <= |x| {
      assert s[i..i + |w|] == x[i..i + |w|];
    } else {
      assert s[i..i + |w|] == y[i - |x| - 1..i - |x| - 1 + |w|];
    }
  }

  /** A word without spaces occurs in `x + " " + y` only inside `x` or inside `y`. */
  lemma ContainsAcrossSpace(x: string, y: string, w: string)
    requires w != [] && ' ' !in w
    ensures Contains(x + " " + y, w) <==> Contains(x, w) || Contains(y, w)
  {
    var s := x + " " + y;
    ContainsAt(s, w);
    ContainsAt(x, w);
    ContainsAt(y, w);
    if exists i :: OccursAt(s, w, i) {
      var i :| OccursAt(s, w, i);
      SpaceSplitsOccurrence(x, y, w, i);
    }
    if exists i :: OccursAt(x, w, i) {
      var i :| OccursAt(x, w, i);
      OccursLeftOfSpace(x, y, w, i);
    }
    if exists i :: OccursAt(y, w, i) {
      var i :| OccursAt(y, w, i);
      OccursRightOfSpace(x, y, w, i);
    }
  }

  /** An occurrence in `x` is one in `x + " " + y` at the same index. */
  lemma OccursLeftOfSpace(x: string, y: string, w: string, i: int)
    requires OccursAt(x, w, i)
    ensures OccursAt(x + " " + y, w, i)
  {
    var s := x + " " + y;
    forall m | 0 <= m < |w|
      ensures s[i + m] == w[m]
    {
      assert x[i..i + |w|][m] == w[m];
    }
    OccursAtPointwise(s, w, i);
  }

  /** An occurrence in `y` is one in `x + " " + y`, shifted past `x` and the space. */
  lemma OccursRightOfSpace(x: string, y: string, w: string, i: int)
    requires OccursAt(y, w, i)
    ensures OccursAt(x + " " + y, w, i + |x| + 1)
  {
    var s := x + " " + y;
    forall m | 0 <= m < |w|
      ensures s[i + |x| + 1 + m] == w[m]
    {
      assert y[i..i + |w|][m] == w[m];
    }
    OccursAtPointwise(s, w, i + |x| + 1);
  }

  /** One more assumption mentions `w` or it does not. */
  lemma MentionsSnoc(init: seq<string>, last: string, w: string)
    ensures Mentions(init + [last], w) <==> Mentions(init, w) || Contains(Lower(last), w)
  {
    var parts := init + [last];
    if Mentions(parts, w) {
      var k :| 0 <= k < |parts| && Contains(Lower(parts[k]), w);
      if k < |init| {
        assert init[k] == parts[k];
      }
    }
    if Mentions(init, w) {
      var k :| 0 <= k < |init| && Contains(Lower(init[k]), w);
      assert parts[k] == init[k];
    }
    if Contains(Lower(last), w) {
      assert parts[|init|] == last;
    }
  }
  /**
   * A word without spaces occurs in the lower-cased, space-joined
   * assumptions exactly when some single assumption mentions it.
   */
  lemma {:induction false} JoinMentions(parts: seq<string>, w: string)
    requires w != [] && ' ' !in w
    ensures Contains(Lower(Join(" ", parts)), w) <==> Mentions(parts, w)
    decreases |parts|
  {
    if parts == [] {
      assert !StartsWith([], w);
    } else if |parts| == 1 {
      assert Join(" ", parts) == parts[0];
      if Contains(Lower(parts[0]), w) {
        assert Mentions(parts, w);
      }
    } else {
      var init := parts[..|parts| - 1];
      var last := parts[|parts| - 1];
      var j := Join(" ", init);
      assert Join(" ", parts) == j + " " + last;
      JoinMentions(init, w);
      LowerConcat(j + " ", last);
      LowerConcat(j, " ");
      assert Lower(" ") == " ";
      ContainsAcrossSpace(Lower(j), Lower(last), w);
      assert parts == init + [last];
      MentionsSnoc(init, last, w);
    }
  }
}
