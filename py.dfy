/**
 * The part of Python's runtime the modelled code leans on: dynamic values as
 * they come out of YAML and JSON, exceptions, truthiness, `dict.get`,
 * `in`, subscripting, iteration, `len`, `int()`, `float()` and float
 * comparison with infinities and NaN.
 */
module Py {
  import opened Text

  /** `k / n` on ints: Python's true division, as an exact real. */
  function Fraction(k: nat, n: nat): real
    requires 0 < n
  {
    k as real / n as real
  }

  /** k/n lies in [0, 1], is 0 only for k = 0 and 1 only for k = n. */
  lemma FractionBounds(k: nat, n: nat)
    requires 0 < n && k <= n
    ensures var q := Fraction(k, n);
      && 0.0 <= q <= 1.0 && (q == 0.0 <==> k == 0) && (q == 1.0 <==> k == n)
  {
    var q := k as real / n as real;
    assert q * n as real == k as real;
    if q == 1.0 {
      assert k as real == n as real;
    }
  }

  /** A Python float: a finite value (as an exact real) or one of the non-finite values. */
  datatype Fl = Finite(r: real) | PosInf | NegInf | NaN

  /** A Python value of the kinds YAML and JSON produce (`Null` is Python's None). Dictionaries have string keys. */
  datatype Value =
    | Null
    | Bool(b: bool)
    | Int(i: int)
    | Float(x: Fl)
    | Str(s: string)
    | List(items: seq<Value>)
    | Dict(entries: map<string, Value>)

  /** A raised exception. */
  datatype Exc =
    | KeyError(key: string)
    | TypeError(msg: string)
    | ValueError(msg: string)
    | IndexError(msg: string)
    | AttributeError(msg: string)
    | FileNotFoundError(msg: string)
    | AssertionError
    | OtherError(kind: string, msg: string)

  /** `str(e)`; for a KeyError Python shows the quoted key. */
  function Message(e: Exc): string
  {
    match e
    case KeyError(k) => "'" + k + "'"
    case TypeError(m) => m
    case ValueError(m) => m
    case IndexError(m) => m
    case AttributeError(m) => m
    case FileNotFoundError(m) => m
    case AssertionError => ""
    case OtherError(_, m) => m
  }

  /** A computation that either returns a value or raises. */
  datatype Result<T> = Ok(value: T) | Err(exc: Exc) {
    predicate IsFailure() { Err? }
    function PropagateFailure<U>(): Result<U>
      requires Err?
    {
      Err(exc)
    }
    function Extract(): T
      requires Ok?
    {
      value
    }
  }

  /** `type(v).__name__` */
  function TypeName(v: Value): string
  {
    match v
    case Null => "NoneType"
    case Bool(_) => "bool"
    case Int(_) => "int"
    case Float(_) => "float"
    case Str(_) => "str"
    case List(_) => "list"
    case Dict(_) => "dict"
  }

  /** `bool(v)` */
  predicate Truthy(v: Value)
  {
    match v
    case Null => false
    case Bool(b) => b
    case Int(i) => i != 0
    case Float(x) => x != Finite(0.0)
    case Str(s) => s != []
    case List(items) => items != []
    case Dict(entries) => entries != map[]
  }

  /** Taking one more element of a sequence appends that element. */
  lemma TakeOneMore<T>(s: seq<T>, j: nat)
    requires j < |s|
    ensures s[..j + 1] == s[..j] + [s[j]]
  {
  }

  /** `d.get(key, default)` */
  function Get(d: map<string, Value>, key: string, default: Value): Value
  {
    if key in d then d[key] else default
  }

  /** `d[key]` on a dictionary. */
  function Lookup(d: map<string, Value>, key: string): (r: Result<Value>)
    ensures r.Ok? <==> key in d
    ensures r.Err? ==> r.exc == KeyError(key)
  {
    if key in d then Ok(d[key]) else Err(KeyError(key))
  }

  /** What indexing a list with a string raises. */
  const ListIndexMessage := "list indices must be integers or slices, not str"

  /** What indexing a string with a string raises. */
  const StrIndexMessage := "string indices must be integers, not 'str'"

  /** The tail of the message for indexing anything else. */
  const NotSubscriptable := "' object is not subscriptable"

  /** The stand-in message for iterating a dictionary. */
  const MappingIteration := "iteration over a mapping is not modelled"

  /** What `int(nan)` raises. */
  const NaNToInt := "cannot convert float NaN to integer"

  /** What `int(inf)` raises. */
  const InfinityToInt := "cannot convert float infinity to integer"

  /** The head of the message for a string `int()` cannot parse. */
  const IntLiteralPrefix := "invalid literal for int() with base 10: '"

  /** The head of the message for an argument `int()` does not take. */
  const IntArgumentPrefix := "int() argument must be a string, a bytes-like object or a real number, not '"

  /** The head of the message for a string `float()` cannot parse. */
  const FloatLiteralPrefix := "could not convert string to float: '"

  /** The head of the message for an argument `float()` does not take. */
  const FloatArgumentPrefix := "float() argument must be a string or a real number, not '"

  /** `key in c` for a string `key`. */
  function In(key: string, c: Value): Result<bool>
  {
    match c
    case Dict(entries) => Ok(key in entries)
    case List(items) => Ok(Str(key) in items)
    case Str(s) => Ok(Contains(s, key))
    case _ => Err(TypeError("argument of type '" + TypeName(c) + "' is not iterable"))
  }

  /** `c[key]` for a string `key`. */
  function Index(c: Value, key: string): Result<Value>
  {
    match c
    case Dict(entries) => Lookup(entries, key)
    case List(_) => Err(TypeError(ListIndexMessage))
    case Str(_) => Err(TypeError(StrIndexMessage))
    case _ => Err(TypeError("'" + TypeName(c) + NotSubscriptable))
  }

  function Chars(s: string): (r: seq<Value>)
    ensures |r| == |s| && forall i :: 0 <= i < |s| ==> r[i] == Str([s[i]])
  {
    if s == [] then [] else [Str([s[0]])] + Chars(s[1..])
  }

  /**
   * `list(c)`: the items a `for` loop visits. Iterating a dictionary (its keys
   * in insertion order) is not modelled and counts as an error.
   */
  function Iterate(c: Value): Result<seq<Value>>
  {
    match c
    case List(items) => Ok(items)
    case Str(s) => Ok(Chars(s))
    case Dict(_) => Err(TypeError(MappingIteration))
    case _ => Err(TypeError("'" + TypeName(c) + "' object is not iterable"))
  }

  /** The items of an iterable, each of which must be a string (a list of names). */
  function Names(c: Value): (r: Result<seq<string>>)
    ensures r.Ok? ==> Iterate(c).Ok? && |r.value| == |Iterate(c).value|
    ensures r.Ok? ==> forall i :: 0 <= i < |r.value| ==> Iterate(c).value[i] == Str(r.value[i])
  {
    var items :- Iterate(c);
    StringsOf(items)
  }

  function StringsOf(items: seq<Value>): (r: Result<seq<string>>)
    ensures r.Ok? ==> |r.value| == |items| && forall i :: 0 <= i < |items| ==> items[i] == Str(r.value[i])
  {
    if items == [] then Ok([])
    else if !items[0].Str? then Err(TypeError("expected a string, not '" + TypeName(items[0]) + "'"))
    else
      var rest :- StringsOf(items[1..]);
      Ok([items[0].s] + rest)
  }

  /** `len(v)` */
  function Len(v: Value): Result<nat>
  {
    match v
    case Str(s) => Ok(|s|)
    case List(items) => Ok(|items|)
    case Dict(entries) => Ok(|entries|)
    case _ => Err(TypeError("object of type '" + TypeName(v) + "' has no len()"))
  }

  /** Truncation toward zero, as `int()` does to a float. */
  function Trunc(r: real): (n: int)
    ensures r >= 0.0 ==> n == r.Floor
    ensures r < 0.0 ==> n == -((-r).Floor)
  {
    if r >= 0.0 then r.Floor else -((-r).Floor)
  }

  /**
   * A digit group as Python writes the digits of a number: a digit, then
   * more digits, each of which may have a single underscore before it.
   */
  predicate Grouped(t: string)
    decreases |t|
  {
    && t != [] && IsDigit(t[0])
    && (|t| == 1 || Grouped(t[1..]) || (t[1] == '_' && Grouped(t[2..])))
  }

  /** A group starts with a digit and holds only digits and underscores. */
  lemma {:induction false} GroupedChars(t: string)
    requires Grouped(t)
    ensures IsDigit(t[0]) && forall i :: 0 <= i < |t| ==> IsDigit(t[i]) || t[i] == '_'
    decreases |t|
  {
    if |t| > 1 {
      if Grouped(t[1..]) {
        GroupedChars(t[1..]);
        assert forall i :: 1 <= i < |t| ==> t[i] == t[1..][i - 1];
      } else {
        GroupedChars(t[2..]);
        assert forall i :: 2 <= i < |t| ==> t[i] == t[2..][i - 2];
      }
    }
  }

  /** Plain digits form a group. */
  lemma {:induction false} DigitsGrouped(t: string)
    requires t != [] && AllDigits(t)
    ensures Grouped(t)
    decreases |t|
  {
    if |t| > 1 {
      DigitsGrouped(t[1..]);
    }
  }

  /** The digits of a group, its underscores dropped. */
  function Ungrouped(t: string): (r: string)
    ensures AllDigits(r) && |r| <= |t|
  {
    if t == [] then []
    else (if IsDigit(t[0]) then [t[0]] else []) + Ungrouped(t[1..])
  }

  /** The value of a digit group. */
  function GroupValue(t: string): nat
  {
    DigitsValue(Ungrouped(t))
  }

  /** Plain digits need no ungrouping. */
  lemma {:induction false} UngroupedDigits(t: string)
    requires AllDigits(t)
    ensures Ungrouped(t) == t
  {
    if t != [] {
      UngroupedDigits(t[1..]);
      assert t == [t[0]] + t[1..];
    }
  }

  /** Ungrouping works piece by piece. */
  lemma {:induction false} UngroupedAppend(a: string, b: string)
    ensures Ungrouped(a + b) == Ungrouped(a) + Ungrouped(b)
  {
    if a != [] {
      var head := if IsDigit(a[0]) then [a[0]] else [];
      assert (a + b)[0] == a[0] && (a + b)[1..] == a[1..] + b;
      UngroupedAppend(a[1..], b);
      calc {
        Ungrouped(a + b);
        head + Ungrouped(a[1..] + b);
        head + (Ungrouped(a[1..]) + Ungrouped(b));
        (head + Ungrouped(a[1..])) + Ungrouped(b);
        Ungrouped(a) + Ungrouped(b);
      }
    } else {
      assert a + b == b;
    }
  }

  /** The text after an optional leading sign. */
  function Unsigned(t: string): (r: string)
    ensures |r| <= |t|
  {
    if t != [] && (t[0] == '+' || t[0] == '-') then t[1..] else t
  }

  /** The text starts with a minus sign. */
  predicate Negative(t: string)
  {
    t != [] && t[0] == '-'
  }

  /** What `int()` reads in base 10, after stripping: an optional sign and one digit group. */
  function ParseIntLiteral(t: string): Option<int>
  {
    var body := Unsigned(t);
    if Grouped(body) then
      Some(if Negative(t) then 0 - GroupValue(body) as int else GroupValue(body) as int)
    else None
  }

  datatype Option<T> = None | Some(value: T)

  /** `int(v)` */
  function ToInt(v: Value): (r: Result<int>)
    ensures v.Int? ==> r == Ok(v.i)
    ensures v.Bool? ==> r == Ok(if v.b then 1 else 0)
  {
    match v
    case Bool(b) => Ok(if b then 1 else 0)
    case Int(i) => Ok(i)
    case Float(x) =>
      (match x
       case Finite(r) => Ok(Trunc(r))
       case NaN => Err(ValueError(NaNToInt))
       case _ => Err(OtherError("OverflowError", InfinityToInt)))
    case Str(s) =>
      (match ParseIntLiteral(Strip(s))
       case Some(n) => Ok(n)
       case None => Err(ValueError(IntLiteralPrefix + s + "'")))
    case _ => Err(TypeError(IntArgumentPrefix + TypeName(v) + "'"))
  }

  function Pow10(n: nat): (p: nat)
    ensures p >= 1
  {
    if n == 0 then 1 else 10 * Pow10(n - 1)
  }

  /** `e` or `E`, which starts a float literal's exponent. */
  predicate IsExponentMark(c: char)
  {
    c == 'e' || c == 'E'
  }

  /** Where the exponent mark is: the first `e` or `E`, or `|t|` when there is none. */
  function ExponentAt(t: string): (k: nat)
    ensures k <= |t|
    ensures forall i :: 0 <= i < k ==> !IsExponentMark(t[i])
    ensures k < |t| ==> IsExponentMark(t[k])
  {
    if t == [] || IsExponentMark(t[0]) then 0 else 1 + ExponentAt(t[1..])
  }

  /** A mantissa: `g`, `g.`, `.g` or `g.g` for digit groups `g`. */
  function ParseMantissa(t: string): Option<real>
  {
    if '.' in t then
      var parts := Split(t, '.');
      if && |parts| == 2
         && (parts[0] == [] || Grouped(parts[0]))
         && (parts[1] == [] || Grouped(parts[1]))
         && (parts[0] != [] || parts[1] != [])
      then
        Some(GroupValue(parts[0]) as real + GroupValue(parts[1]) as real / Pow10(|Ungrouped(parts[1])|) as real)
      else None
    else if Grouped(t) then Some(GroupValue(t) as real)
    else None
  }

  /** `v` times ten to the power `k`. */
  function Scale(v: real, k: int): real
  {
    if k >= 0 then v * Pow10(k) as real else v / Pow10(-k) as real
  }

  /** An unsigned decimal literal: a mantissa, then optionally `e` or `E` and a signed digit group. */
  function ParseUnsignedDecimal(t: string): Option<real>
  {
    var k := ExponentAt(t);
    match ParseMantissa(t[..k])
    case None => None
    case Some(v) =>
      if k == |t| then Some(v)
      else
        match ParseIntLiteral(t[k + 1..])
        case None => None
        case Some(e) => Some(Scale(v, e))
  }

  /** The text of a float literal, after stripping: decimal, or `inf`/`infinity`/`nan` in any case, with an optional sign. */
  function ParseFloatLiteral(t: string): Option<Fl>
  {
    var negative := Negative(t);
    var body := Unsigned(t);
    match ParseUnsignedDecimal(body)
    case Some(r) => Some(Finite(if negative then -r else r))
    case None =>
      var word := Lower(body);
      if word == "inf" || word == "infinity" then Some(if negative then NegInf else PosInf)
      else if word == "nan" then Some(NaN)
      else None
  }

  /** `float(v)` */
  function ToFloat(v: Value): (r: Result<Fl>)
    ensures v.Int? ==> r == Ok(Finite(v.i as real))
    ensures v.Float? ==> r == Ok(v.x)
  {
    match v
    case Bool(b) => Ok(Finite(if b then 1.0 else 0.0))
    case Int(i) => Ok(Finite(i as real))
    case Float(x) => Ok(x)
    case Str(s) =>
      (match ParseFloatLiteral(Strip(s))
       case Some(x) => Ok(x)
       case None => Err(ValueError(FloatLiteralPrefix + s + "'")))
    case _ => Err(TypeError(FloatArgumentPrefix + TypeName(v) + "'"))
  }

  /** A digit string followed by more digits: the first part's value shifted left, plus the second's. */
  lemma {:induction false} DigitsValueAppend(a: string, b: string)
    requires AllDigits(a) && AllDigits(b)
    ensures AllDigits(a + b) && DigitsValue(a + b) == DigitsValue(a) * Pow10(|b|) + DigitsValue(b)
    decreases |b|
  {
    assert AllDigits(a + b);
    if b == [] {
      assert a + b == a;
    } else {
      var init, d := b[..|b| - 1], b[|b| - 1] as int - '0' as int;
      DigitsValueAppend(a, init);
      assert DigitsValue(a + b) == DigitsValue(a + init) * 10 + d by {
        assert (a + b)[..|a + b| - 1] == a + init && (a + b)[|a + b| - 1] == b[|b| - 1];
      }
      ShiftDigit(DigitsValue(a), Pow10(|init|), DigitsValue(init), d);
    }
  }

  /** One more digit on the right: the arithmetic step of `DigitsValueAppend`. */
  lemma ShiftDigit(va: int, p: int, vi: int, d: int)
    ensures (va * p + vi) * 10 + d == va * (p * 10) + (vi * 10 + d)
  {
    assert (va * p) * 10 == va * (p * 10);
  }

  /** `int()` reads a plain numeral as its value, with or without a minus sign. */
  lemma IntLiteralOfDigits(t: string)
    requires t != [] && AllDigits(t)
    ensures ParseIntLiteral(t) == Some(DigitsValue(t) as int)
    ensures ParseIntLiteral("-" + t) == Some(0 - DigitsValue(t) as int)
  {
    UngroupedDigits(t);
    DigitsGrouped(t);
    assert Unsigned("-" + t) == t;
  }

  /** Two groups joined directly, or with an underscore between them, form a group. */
  lemma {:induction false} GroupedJoin(a: string, b: string)
    requires Grouped(a) && Grouped(b)
    ensures Grouped(a + b) && Grouped(a + "_" + b)
    decreases |a|
  {
    var t, u := a + b, a + "_" + b;
    if |a| == 1 {
      assert t[1..] == b;
      assert u[1] == '_' && u[2..] == b;
    } else if Grouped(a[1..]) {
      GroupedJoin(a[1..], b);
      assert t[1..] == a[1..] + b;
      assert u[1..] == a[1..] + "_" + b;
    } else {
      GroupedJoin(a[2..], b);
      assert t[1] == '_' && t[2..] == a[2..] + b;
      assert u[1] == '_' && u[2..] == a[2..] + "_" + b;
    }
  }

  /** `int()` reads an unsigned digit group as its value. */
  lemma IntLiteralOfGroup(t: string)
    requires Grouped(t)
    ensures ParseIntLiteral(t) == Some(GroupValue(t) as int)
  {
    assert !Negative(t) && Unsigned(t) == t;
  }

  /** The underscore between two groups contributes no digit. */
  lemma UngroupedJoin(a: string, b: string)
    ensures Ungrouped(a + "_" + b) == Ungrouped(a) + Ungrouped(b) == Ungrouped(a + b)
  {
    UngroupedAppend(a + "_", b);
    UngroupedAppend(a, "_");
    UngroupedAppend(a, b);
    assert Ungrouped("_") == [];
  }

  /**
   * An underscore between two digit groups leaves the literal's meaning as
   * if the groups were written together: the first group's digits shifted
   * left past the second's.
   */
  lemma UnderscoreIgnored(a: string, b: string)
    requires Grouped(a) && Grouped(b)
    ensures ParseIntLiteral(a + "_" + b) == ParseIntLiteral(a + b)
    ensures ParseIntLiteral(a + b) == Some(GroupValue(a) * Pow10(|Ungrouped(b)|) + GroupValue(b))
  {
    GroupedJoin(a, b);
    IntLiteralOfGroup(a + "_" + b);
    IntLiteralOfGroup(a + b);
    UngroupedJoin(a, b);
    DigitsValueAppend(Ungrouped(a), Ungrouped(b));
  }

  /** Text made of digits and underscores holds no exponent mark and no point. */
  lemma GroupedPlain(t: string)
    requires Grouped(t)
    ensures ExponentAt(t) == |t| && '.' !in t
    ensures Lower(t) != "inf" && Lower(t) != "infinity" && Lower(t) != "nan"
  {
    GroupedChars(t);
    assert forall i :: 0 <= i < |t| ==> !IsExponentMark(t[i]) && t[i] != '.';
    assert Lower(t)[0] == t[0];
  }

  /** A digit group is a decimal literal without point or exponent. */
  lemma GroupedDecimal(t: string)
    requires Grouped(t)
    ensures ParseUnsignedDecimal(t) == Some(GroupValue(t) as real)
  {
    GroupedPlain(t);
    assert t[..|t|] == t;
  }

  /** Every literal `int()` reads, `float()` reads as the same number. */
  lemma IntLiteralIsFloatLiteral(t: string)
    requires ParseIntLiteral(t).Some?
    ensures ParseFloatLiteral(t) == Some(Finite(ParseIntLiteral(t).value as real))
  {
    GroupedDecimal(Unsigned(t));
    GroupedPlain(Unsigned(t));
  }

  /** `float(s)` is `int(s)` whenever `int(s)` reads the text. */
  lemma IntTextIsFloatText(s: string)
    requires ToInt(Str(s)).Ok?
    ensures ToFloat(Str(s)) == Ok(Finite(ToInt(Str(s)).value as real))
  {
    IntLiteralIsFloatLiteral(Strip(s));
  }

  /** A mantissa, an exponent mark and an exponent read as the mantissa times ten to the exponent. */
  lemma ExponentScales(m: string, c: char, x: string)
    requires IsExponentMark(c) && forall i :: 0 <= i < |m| ==> !IsExponentMark(m[i])
    requires ParseMantissa(m).Some? && ParseIntLiteral(x).Some?
    ensures ParseUnsignedDecimal(m + [c] + x) == Some(Scale(ParseMantissa(m).value, ParseIntLiteral(x).value))
  {
    var t := m + [c] + x;
    var k := ExponentAt(t);
    assert t[|m|] == c;
    assert forall i :: 0 <= i < |m| ==> t[i] == m[i];
    assert k == |m|;
    assert t[..k] == m && t[k + 1..] == x;
  }

  /** Text with no whitespace at either end is its own `strip()`. */
  lemma StripPlain(s: string)
    requires s != [] && !IsSpace(s[0]) && !IsSpace(s[|s| - 1])
    ensures Strip(s) == s
  {
    assert LStrip(s) == s;
  }

  /** A float literal that starts with a digit is its unsigned decimal reading. */
  lemma PlainFloatLiteral(s: string, v: real)
    requires s != [] && IsDigit(s[0])
    requires ParseUnsignedDecimal(s) == Some(v)
    ensures ParseFloatLiteral(s) == Some(Finite(v))
  {
    assert !Negative(s) && Unsigned(s) == s;
  }

  /** A mantissa of plain digits reads as its value. */
  lemma DigitsMantissa(m: string)
    requires m != [] && AllDigits(m)
    ensures ParseMantissa(m) == Some(DigitsValue(m) as real)
  {
    UngroupedDigits(m);
    DigitsGrouped(m);
  }

  /** Digits after an optional sign read as their value, negated after a minus sign. */
  lemma SignedDigits(sign: string, x: string)
    requires sign == "" || sign == "+" || sign == "-"
    requires x != [] && AllDigits(x)
    ensures ParseIntLiteral(sign + x) == Some(if sign == "-" then 0 - DigitsValue(x) as int else DigitsValue(x) as int)
  {
    IntLiteralOfDigits(x);
    if sign == "+" {
      assert Unsigned(sign + x) == x && !Negative(sign + x);
    } else if sign == "" {
      assert sign + x == x;
    }
  }

  /** Scaling by a negated exponent divides; by a plain one it multiplies. */
  lemma ScaleSigned(v: real, negative: bool, n: nat)
    ensures Scale(v, if negative then 0 - n else n) == if negative then v / Pow10(n) as real else v * Pow10(n) as real
  {
    if negative && n == 0 {
      assert Pow10(0) == 1;
    }
  }

  /** A digit mantissa with an exponent reads as the mantissa scaled by the exponent. */
  lemma ExponentDecimal(m: string, c: char, e: string)
    requires m != [] && AllDigits(m) && IsExponentMark(c) && ParseIntLiteral(e).Some?
    ensures ParseUnsignedDecimal(m + [c] + e) == Some(Scale(DigitsValue(m) as real, ParseIntLiteral(e).value))
  {
    DigitsMantissa(m);
    assert forall i :: 0 <= i < |m| ==> !IsExponentMark(m[i]);
    ExponentScales(m, c, e);
  }

  /** `float(s)` for a text with nothing to strip is its literal's reading. */
  lemma FloatOfLiteral(s: string, x: Fl)
    requires Strip(s) == s && ParseFloatLiteral(s) == Some(x)
    ensures ToFloat(Str(s)) == Ok(x)
  {
  }

  /**
   * `float()` reads scientific notation: digits, `e` or `E` and an `int()`
   * literal read as the first number scaled by ten to the second
   * (`SignedDigits` reads the exponent, `ScaleSigned` spells the scaling out
   * as a product or a quotient).
   */
  lemma ExponentLiteral(m: string, c: char, e: string)
    requires m != [] && AllDigits(m) && IsExponentMark(c) && ParseIntLiteral(e).Some?
    ensures ParseFloatLiteral(m + [c] + e) == Some(Finite(Scale(DigitsValue(m) as real, ParseIntLiteral(e).value)))
  {
    ExponentDecimal(m, c, e);
    assert (m + [c] + e)[0] == m[0];
    PlainFloatLiteral(m + [c] + e, Scale(DigitsValue(m) as real, ParseIntLiteral(e).value));
  }

  /** The literal `1e-3` reads as 0.001. */
  lemma ScientificLiteral()
    ensures ParseFloatLiteral("1e-3") == Some(Finite(0.001))
  {
    assert ParseIntLiteral("-3") == Some(-3) by {
      SignedDigits("-", "3");
      assert "-" + "3" == "-3" && DigitsValue("3") == 3;
    }
    assert Scale(1.0, -3) == 0.001 by {
      ScaleSigned(1.0, true, 3);
      assert Pow10(3) == 1000;
    }
    ExponentLiteral("1", 'e', "-3");
    assert "1" + ['e'] + "-3" == "1e-3";
  }

  /** `float("1e-3")` is 0.001, as a bound written `1e-3` reads. */
  lemma ScientificText()
    ensures ToFloat(Str("1e-3")) == Ok(Finite(0.001))
  {
    ScientificLiteral();
    StripPlain("1e-3");
    FloatOfLiteral("1e-3", Finite(0.001));
  }

  /** `int()` reads neither a point nor an exponent: every character it takes is a sign, a digit or an underscore. */
  lemma IntLiteralPlain(t: string)
    requires ParseIntLiteral(t).Some?
    ensures forall i :: 0 <= i < |t| ==> IsDigit(t[i]) || t[i] in "_+-"
  {
    var body := Unsigned(t);
    GroupedChars(body);
    if body != t {
      assert forall i :: 1 <= i < |t| ==> t[i] == body[i - 1];
    }
  }

  /** An int, a bool or a float: a value Python's arithmetic takes. */
  predicate IsNumber(v: Value)
  {
    v.Int? || v.Bool? || v.Float?
  }

  /** A number as a float. */
  function AsFl(v: Value): Fl
    requires IsNumber(v)
  {
    match v
    case Int(i) => Finite(i as real)
    case Bool(b) => Finite(if b then 1.0 else 0.0)
    case Float(x) => x
  }

  /** `a + b` on floats: NaN when a NaN takes part or the infinities cancel. */
  function FlPlus(a: Fl, b: Fl): Fl
  {
    if a.NaN? || b.NaN? then NaN
    else if a.Finite? && b.Finite? then Finite(a.r + b.r)
    else if (a.PosInf? && b.NegInf?) || (a.NegInf? && b.PosInf?) then NaN
    else if a.Finite? then b
    else a
  }

  /** An int or a bool as an int. */
  function IntOf(v: Value): int
    requires v.Int? || v.Bool?
  {
    if v.Int? then v.i else if v.b then 1 else 0
  }

  /** `a + b` on two numbers: an int sum, or a float sum when a float takes part. */
  function NumberSum(a: Value, b: Value): (r: Value)
    requires IsNumber(a) && IsNumber(b)
    ensures r.Float? <==> a.Float? || b.Float?
    ensures r.Int? <==> !a.Float? && !b.Float?
    ensures a.Int? && b.Int? ==> r == Int(a.i + b.i)
  {
    if a.Float? || b.Float? then Float(FlPlus(AsFl(a), AsFl(b)))
    else Int(IntOf(a) + IntOf(b))
  }

  /** `a <= b` on floats: false whenever a NaN is involved. */
  predicate FlLe(a: Fl, b: Fl)
  {
    if a.NaN? || b.NaN? then false
    else if a.NegInf? || b.PosInf? then true
    else if a.PosInf? || b.NegInf? then false
    else a.r <= b.r
  }

  /** `a < b` on floats: false whenever a NaN is involved. */
  predicate FlLt(a: Fl, b: Fl)
  {
    FlLe(a, b) && a != b
  }

  /** `a + c` for a finite `c`. */
  function FlAdd(a: Fl, c: real): Fl
  {
    if a.Finite? then Finite(a.r + c) else a
  }

  /** Python's `max(a, b)`: `b` only when `b > a`, so a NaN `b` never wins. */
  function PyMax(a: Fl, b: Fl): Fl
  {
    if FlLt(a, b) then b else a
  }

  /** Python's `min(a, b)`: `b` only when `b < a`. */
  function PyMin(a: Fl, b: Fl): Fl
  {
    if FlLt(b, a) then b else a
  }

  /** `max(lo, min(x, hi))` always lands in [lo, hi], NaN included. */
  lemma ClampBounds(x: Fl, lo: real, hi: real)
    requires lo <= hi
    ensures PyMax(Finite(lo), PyMin(x, Finite(hi))).Finite?
    ensures lo <= PyMax(Finite(lo), PyMin(x, Finite(hi))).r <= hi
  {
  }
}
