/**
 * The regular-expression blacklist shared by the math-engine wrappers:
 * every pattern is searched anywhere in the expression, ignoring case,
 * the first pattern that matches raises a ValidationError, and the length
 * limit is checked only once every pattern has passed.
 */
module Guard {
  import opened Text
  import opened Py

  /**
   * One blacklist entry. `Literal(w)` is a plain word such as `__import__`,
   * `Call(name)` is `name\s*\(` (the name, any whitespace, an opening
   * parenthesis) and `Dunder` is `__\w+__`.
   */
  datatype Pattern =
    | Literal(word: string)
    | Call(name: string)
    | Dunder

  /** The pattern as the source writes it, as it appears in the error message. */
  function Source(p: Pattern): (r: string)
    ensures p.Literal? ==> r == p.word
    ensures p.Call? ==> StartsWith(r, p.name) && EndsWith(r, "\\(")
  {
    match p
    case Literal(w) => w
    case Call(name) => name + "\\s*\\("
    case Dunder => "__\\w+__"
  }

  /** Only whitespace from position `j` up to an opening parenthesis. */
  predicate ParenAfter(s: string, j: nat)
    decreases |s| - j
  {
    j < |s| && (s[j] == '(' || (IsSpace(s[j]) && ParenAfter(s, j + 1)))
  }

  /** `ParenAfter` is exactly "a run of whitespace, then `(`". */
  lemma ParenAfterSpec(s: string, j: nat)
    ensures ParenAfter(s, j) <==> exists k :: j <= k < |s| && s[k] == '(' && AllSpace(s[j..k])
  {
    if ParenAfter(s, j) {
      var k := ParenAfterFinds(s, j);
    }
    if exists k :: j <= k < |s| && s[k] == '(' && AllSpace(s[j..k]) {
      var k :| j <= k < |s| && s[k] == '(' && AllSpace(s[j..k]);
      ParenAfterOfRun(s, j, k);
    }
  }

  /** Where `ParenAfter` holds, the parenthesis it reaches. */
  lemma {:induction false} ParenAfterFinds(s: string, j: nat) returns (k: nat)
    requires ParenAfter(s, j)
    ensures j <= k < |s| && s[k] == '(' && AllSpace(s[j..k])
    decreases |s| - j
  {
    if s[j] == '(' {
      k := j;
      assert s[j..j] == [];
    } else {
      k := ParenAfterFinds(s, j + 1);
      assert s[j..k] == [s[j]] + s[j + 1..k];
    }
  }

  /** A run of whitespace from `j` up to a parenthesis at `k` satisfies `ParenAfter`. */
  lemma {:induction false} ParenAfterOfRun(s: string, j: nat, k: nat)
    requires j <= k < |s| && s[k] == '(' && AllSpace(s[j..k])
    ensures ParenAfter(s, j)
    decreases k - j
  {
    if k > j {
      assert s[j..k] == [s[j]] + s[j + 1..k];
      ParenAfterOfRun(s, j + 1, k);
    }
  }

  /** `__\w+__` occupies `s[i..k]`: word characters throughout, two underscores at each end, one more in between. */
  predicate DunderAt(s: string, i: int, k: int)
  {
    0 <= i && i + 5 <= k <= |s|
    && s[i] == '_' && s[i + 1] == '_' && s[k - 2] == '_' && s[k - 1] == '_'
    && forall m :: i <= m < k ==> IsWordChar(s[m])
  }

  /** `re.search(pattern, s, re.IGNORECASE)` finds a match; case is folded on ASCII letters. */
  predicate Matches(p: Pattern, s: string)
  {
    var lo := Lower(s);
    match p
    case Literal(w) => Contains(lo, Lower(w))
    case Call(name) =>
      exists i :: 0 <= i <= |lo| && OccursAt(lo, Lower(name), i) && ParenAfter(lo, i + |name|)
    case Dunder => exists i, k :: 0 <= i < k <= |s| && DunderAt(lo, i, k)
  }

  /** A lower-case call name followed by a space and `(` is caught by that name's call pattern, wherever it sits. */
  lemma CallWithSpaceCaught(pre: string, name: string, post: string)
    requires forall m :: 0 <= m < |name| ==> !('A' <= name[m] <= 'Z')
    ensures Matches(Call(name), pre + name + " (" + post)
  {
    var s := pre + name + " (" + post;
    var lo := Lower(s);
    var i, j := |pre|, |pre| + |name|;
    LowerFixed(name);
    forall m | 0 <= m < |name|
      ensures lo[i + m] == name[m]
    {
      assert s[i + m] == name[m];
    }
    OccursAtPointwise(lo, name, i);
    assert s[j] == ' ' && s[j + 1] == '(';
    assert lo[j] == ' ' && lo[j + 1] == '(';
    assert ParenAfter(lo, j + 1);
    assert ParenAfter(lo, j);
  }

  /** Any `__w__` with `w` a non-empty run of word characters is caught by the dunder pattern. */
  lemma DunderCaught(s: string, i: int, w: string)
    requires w != [] && forall m :: 0 <= m < |w| ==> IsWordChar(w[m])
    requires OccursAt(s, "__" + w + "__", i)
    ensures Matches(Dunder, s)
  {
    var t := "__" + w + "__";
    var k := i + |t|;
    var lo := Lower(s);
    forall m | i <= m < k
      ensures IsWordChar(lo[m])
    {
      assert s[m] == t[m - i];
      if 2 <= m - i < 2 + |w| {
        assert t[m - i] == w[m - i - 2];
      }
    }
    assert s[i] == t[0] && s[i + 1] == t[1] && s[k - 2] == t[|t| - 2] && s[k - 1] == t[|t| - 1];
    assert DunderAt(lo, i, k);
  }

  /** The first pattern of the list that matches, in list order. */
  function FirstMatch(pats: seq<Pattern>, s: string): (r: Option<Pattern>)
    ensures r.Some? ==> r.value in pats && Matches(r.value, s)
    ensures r.None? <==> forall p :: p in pats ==> !Matches(p, s)
  {
    if pats == [] then None
    else if Matches(pats[0], s) then Some(pats[0])
    else FirstMatch(pats[1..], s)
  }

  /** The match reported is the earliest one: every pattern before it passed. */
  lemma {:induction false} FirstMatchIsEarliest(pats: seq<Pattern>, s: string, k: int)
    requires 0 <= k < |pats| && Matches(pats[k], s)
    requires forall j :: 0 <= j < k ==> !Matches(pats[j], s)
    ensures FirstMatch(pats, s) == Some(pats[k])
  {
    if k > 0 {
      FirstMatchIsEarliest(pats[1..], s, k - 1);
    }
  }

  function ValidationError(msg: string): Exc
  {
    OtherError("ValidationError", msg)
  }

  function DangerousMessage(p: Pattern): string
  {
    "Expression contains potentially dangerous pattern: " + Source(p)
  }

  function TooLongMessage(maxLen: int): string
  {
    "Expression exceeds maximum allowed length of " + IntToString(maxLen) + " characters"
  }

  /** The two error messages can be told apart (they differ at their twelfth character). */
  lemma MessagesDiffer(p: Pattern, maxLen: int)
    ensures DangerousMessage(p) != TooLongMessage(maxLen)
  {
    assert DangerousMessage(p)[11] == 'c';
    assert TooLongMessage(maxLen)[11] == 'e';
  }

  /**
   * What `_validate_expression` does with pattern list `pats`: nothing when
   * validation is disabled; otherwise the first matching pattern raises,
   * and only then is the length compared with `maxLen`.
   */
  function Validation(pats: seq<Pattern>, enabled: bool, maxLen: int, s: string): (r: Result<()>)
    ensures !enabled ==> r == Ok(())
    ensures r.Ok? <==> !enabled || ((forall p :: p in pats ==> !Matches(p, s)) && |s| <= maxLen)
    ensures enabled && FirstMatch(pats, s).Some? ==>
      r == Err(ValidationError(DangerousMessage(FirstMatch(pats, s).value)))
    ensures r == Err(ValidationError(TooLongMessage(maxLen))) ==>
      enabled && |s| > maxLen && forall p :: p in pats ==> !Matches(p, s)
  {
    if !enabled then Ok(())
    else match FirstMatch(pats, s)
      case Some(p) =>
        MessagesDiffer(p, maxLen);
        Err(ValidationError(DangerousMessage(p)))
      case None =>
        if |s| > maxLen then Err(ValidationError(TooLongMessage(maxLen))) else Ok(())
  }

  /** `_validate_expression`: the pattern loop raising on the first match, then the length check. */
  method Validate(pats: seq<Pattern>, enabled: bool, maxLen: int, s: string) returns (r: Result<()>)
    ensures r == Validation(pats, enabled, maxLen, s)
  {
    if !enabled {
      return Ok(());
    }
    for i := 0 to |pats|
      invariant FirstMatch(pats, s) == FirstMatch(pats[i..], s)
    {
      assert pats[i..][1..] == pats[i + 1..];
      if Matches(pats[i], s) {
        return Err(ValidationError(DangerousMessage(pats[i])));
      }
    }
    if |s| > maxLen {
      return Err(ValidationError(TooLongMessage(maxLen)));
    }
    return Ok(());
  }

  /** A truthy `str`: what `not s or not isinstance(s, str)` lets through. */
  predicate IsText(v: Value): (b: bool)
    ensures b <==> Truthy(v) && v.Str?
  {
    v.Str? && v.s != []
  }

  /** The messages of the input checks that run before validation. */
  const EmptyExpression := "Expression string must be a non-empty string"
  const EmptyEquation := "Equation string must be a non-empty string"
  const EmptySymbol := "Symbol must be a non-empty string"

  /**
   * `validate_expression`: never raises. `parse` stands for loading SymPy
   * and `sympify`; any exception from either step becomes `(False, str(e))`.
   */
  function ValidateExpression(pats: seq<Pattern>, enabled: bool, maxLen: int, s: string,
                              parse: string -> Result<()>): (r: (bool, Option<string>))
    ensures r.0 <==> r.1.None?
    ensures r.0 <==> Validation(pats, enabled, maxLen, s).Ok? && parse(s).Ok?
    ensures Validation(pats, enabled, maxLen, s).Err? ==>
      r.1 == Some(Message(Validation(pats, enabled, maxLen, s).exc))
  {
    match Validation(pats, enabled, maxLen, s)
    case Err(e) => (false, Some(Message(e)))
    case Ok(_) =>
      match parse(s)
      case Err(e) => (false, Some(Message(e)))
      case Ok(_) => (true, None)
  }
}
