/**
 * String helpers shared by the whole model: Python's `str.isspace`,
 * `strip`, `lower` (ASCII letters only), `replace`, the `in` substring test,
 * slicing with a possibly negative stop, `split`/`join` on one character,
 * and decimal rendering of natural numbers.
 */
module Text {

  /** The characters for which Python's `str.isspace()` is true. */
  predicate IsSpace(c: char)
  {
    ('\t' <= c <= '\r') || ('\U{1C}' <= c <= '\U{1F}') || c == ' ' || c == '\U{85}' || c == '\U{A0}'
    || c == '\U{1680}' || ('\U{2000}' <= c <= '\U{200A}') || c == '\U{2028}' || c == '\U{2029}'
    || c == '\U{202F}' || c == '\U{205F}' || c == '\U{3000}'
  }

  predicate AllSpace(s: string)
  {
    forall i :: 0 <= i < |s| ==> IsSpace(s[i])
  }

  /** The regular-expression class `\w`, restricted to ASCII. */
  predicate IsWordChar(c: char)
  {
    ('a' <= c <= 'z') || ('A' <= c <= 'Z') || ('0' <= c <= '9') || c == '_'
  }

  predicate IsAsciiLetter(c: char)
  {
    ('a' <= c <= 'z') || ('A' <= c <= 'Z')
  }

  /** `s.lstrip()` */
  function LStrip(s: string): string
  {
    if s == [] || !IsSpace(s[0]) then s else LStrip(s[1..])
  }

  /** `s.lstrip()` is the suffix of `s` after its leading whitespace. */
  lemma {:induction false} LStripSpec(s: string)
    ensures var r := LStrip(s);
      && |r| <= |s| && r == s[|s| - |r|..]
      && (r == [] || !IsSpace(r[0]))
      && AllSpace(s[..|s| - |r|])
    decreases |s|
  {
    if s != [] && IsSpace(s[0]) {
      LStripSpec(s[1..]);
      var r := LStrip(s[1..]);
      assert s[1..][..|s[1..]| - |r|] == s[1..|s| - |r|];
    }
  }

  /** `s.rstrip()` */
  function RStrip(s: string): (r: string)
    ensures |r| <= |s| && r == s[..|r|]
    ensures r == [] || !IsSpace(r[|r| - 1])
    ensures AllSpace(s[|r|..])
  {
    if s == [] || !IsSpace(s[|s| - 1]) then s
    else
      var r := RStrip(s[..|s| - 1]);
      assert s[..|s| - 1][|r|..] == s[|r|..|s| - 1];
      assert s[..|s| - 1][..|r|] == s[..|r|];
      assert forall i :: |r| <= i < |s| ==> IsSpace(s[i]) by {
        forall i | |r| <= i < |s| ensures IsSpace(s[i]) {
          if i < |s| - 1 { assert s[i] == s[..|s| - 1][|r|..][i - |r|]; }
        }
      }
      r
  }

  /** `sub` occurs in `s` starting at index `i`. */
  predicate OccursAt(s: string, sub: string, i: int)
  {
    0 <= i && i + |sub| <= |s| && s[i..i + |sub|] == sub
  }

  /** `sub` occurs at `i` when it agrees with `s` character by character there. */
  lemma OccursAtPointwise(s: string, sub: string, i: int)
    requires 0 <= i && i + |sub| <= |s|
    requires forall m :: 0 <= m < |sub| ==> s[i + m] == sub[m]
    ensures OccursAt(s, sub, i)
  {
    var w := s[i..i + |sub|];
    assert forall m :: 0 <= m < |w| ==> w[m] == sub[m];
  }

  /** `s.strip()`: a slice of `s` with no whitespace at either end. */
  function Strip(s: string): (r: string)
    ensures exists i :: OccursAt(s, r, i)
    ensures r == [] || (!IsSpace(r[0]) && !IsSpace(r[|r| - 1]))
    ensures r == [] <==> AllSpace(s)
  {
    LStripSpec(s);
    var l := LStrip(s);
    var r := RStrip(l);
    assert r == s[|s| - |l|..|s| - |l| + |r|];
    assert OccursAt(s, r, |s| - |l|);
    if r == [] then
      assert s == s[..|s| - |l|] + l;
      r
    else
      assert !IsSpace(s[|s| - |l|]);
      r
  }

  /** `not s.strip()`: empty or whitespace only. */
  predicate IsBlank(s: string)
  {
    Strip(s) == []
  }

  /** ASCII part of `str.lower()`. */
  function LowerChar(c: char): char
  {
    if 'A' <= c <= 'Z' then (c as int + 32) as char else c
  }

  function Lower(s: string): (r: string)
    ensures |r| == |s|
    ensures forall i :: 0 <= i < |s| ==> r[i] == LowerChar(s[i])
  {
    if s == [] then [] else [LowerChar(s[0])] + Lower(s[1..])
  }

  /** Text without upper-case letters is its own lower-case form. */
  lemma LowerFixed(s: string)
    requires forall i :: 0 <= i < |s| ==> !('A' <= s[i] <= 'Z')
    ensures Lower(s) == s
  {
  }

  /** ASCII part of `str.upper()`. */
  function Upper(s: string): (r: string)
    ensures |r| == |s|
    ensures forall i :: 0 <= i < |s| ==> (('a' <= s[i] <= 'z') ==> r[i] as int == s[i] as int - 32)
    ensures forall i :: 0 <= i < |s| ==> (!('a' <= s[i] <= 'z') ==> r[i] == s[i])
  {
    if s == [] then []
    else [if 'a' <= s[0] <= 'z' then (s[0] as int - 32) as char else s[0]] + Upper(s[1..])
  }

  predicate StartsWith(s: string, prefix: string)
  {
    |prefix| <= |s| && s[..|prefix|] == prefix
  }

  predicate EndsWith(s: string, suffix: string)
  {
    |suffix| <= |s| && s[|s| - |suffix|..] == suffix
  }

  /** Python's `sub in s`. */
  predicate Contains(s: string, sub: string)
    decreases |s|
  {
    StartsWith(s, sub) || (s != [] && Contains(s[1..], sub))
  }

  /** `Contains` holds exactly when `sub` occurs at some index. */
  lemma {:induction false} ContainsAt(s: string, sub: string)
    ensures Contains(s, sub) <==> exists i :: OccursAt(s, sub, i)
    decreases |s|
  {
    if Contains(s, sub) {
      if StartsWith(s, sub) {
        assert OccursAt(s, sub, 0);
      } else {
        ContainsAt(s[1..], sub);
        var i :| OccursAt(s[1..], sub, i);
        assert s[i + 1..i + 1 + |sub|] == s[1..][i..i + |sub|];
        assert OccursAt(s, sub, i + 1);
      }
    }
    if exists i :: OccursAt(s, sub, i) {
      var i :| OccursAt(s, sub, i);
      if i > 0 {
        assert s[1..][i - 1..i - 1 + |sub|] == s[i..i + |sub|];
        assert OccursAt(s[1..], sub, i - 1);
        ContainsAt(s[1..], sub);
      }
    }
  }

  /** A string contains any string that occurs inside one of its substrings. */
  lemma ContainsTransitive(s: string, mid: string, sub: string)
    requires Contains(s, mid) && Contains(mid, sub)
    ensures Contains(s, sub)
  {
    ContainsAt(s, mid);
    ContainsAt(mid, sub);
    var i :| OccursAt(s, mid, i);
    var j :| OccursAt(mid, sub, j);
    forall k | 0 <= k < |sub|
      ensures s[i + j + k] == sub[k]
    {
      assert sub[k] == mid[j + k] == s[i + j + k];
    }
    assert s[i + j..i + j + |sub|] == sub;
    assert OccursAt(s, sub, i + j);
    ContainsAt(s, sub);
  }

  /** The single character `c` occurs in `s`. */
  lemma ContainsChar(s: string, c: char)
    ensures Contains(s, [c]) <==> c in s
  {
    ContainsAt(s, [c]);
    if c in s {
      var i :| 0 <= i < |s| && s[i] == c;
      assert OccursAt(s, [c], i);
    }
    if Contains(s, [c]) {
      var i :| OccursAt(s, [c], i);
      assert s[i] == s[i..i + 1][0];
    }
  }

  /** Python's `s.replace(old, new)`: left-to-right, non-overlapping. */
  function Replace(s: string, pat: string, repl: string): (r: string)
    requires pat != []
    ensures !Contains(s, pat) ==> r == s
    decreases |s|
  {
    if |s| < |pat| then s
    else if s[..|pat|] == pat then repl + Replace(s[|pat|..], pat, repl)
    else [s[0]] + Replace(s[1..], pat, repl)
  }

  /** Replacing a single character maps each character independently. */
  function ReplaceChar(s: string, c: char, repl: string): (r: string)
  {
    if s == [] then [] else (if s[0] == c then repl else [s[0]]) + ReplaceChar(s[1..], c, repl)
  }

  lemma {:induction false} ReplaceCharIsReplace(s: string, c: char, repl: string)
    ensures Replace(s, [c], repl) == ReplaceChar(s, c, repl)
    decreases |s|
  {
    if s != [] {
      ReplaceCharIsReplace(s[1..], c, repl);
    }
  }

  /** After replacing `c` by a text free of `c`, no `c` is left. */
  lemma {:induction false} ReplaceCharRemoves(s: string, c: char, repl: string)
    requires c !in repl
    ensures c !in ReplaceChar(s, c, repl)
    decreases |s|
  {
    if s != [] {
      ReplaceCharRemoves(s[1..], c, repl);
    }
  }

  /** Replacing `c` keeps absent every character absent from `s` and `repl`. */
  lemma {:induction false} ReplaceCharKeepsAbsent(s: string, c: char, repl: string, d: char)
    requires d !in s && d !in repl
    ensures d !in ReplaceChar(s, c, repl)
    decreases |s|
  {
    if s != [] {
      ReplaceCharKeepsAbsent(s[1..], c, repl, d);
    }
  }

  /** Python slicing `s[:k]` for any integer `k` (a negative `k` counts from the end). */
  function Prefix(s: string, k: int): (r: string)
    ensures k >= 0 ==> r == s[..if k < |s| then k else |s|]
    ensures k < 0 ==> r == s[..if |s| + k > 0 then |s| + k else 0]
  {
    if k >= 0 then s[..if k < |s| then k else |s|]
    else s[..if |s| + k > 0 then |s| + k else 0]
  }

  /** `sep.join(parts)` */
  function Join(sep: string, parts: seq<string>): (r: string)
  {
    if parts == [] then []
    else if |parts| == 1 then parts[0]
    else Join(sep, parts[..|parts| - 1]) + sep + parts[|parts| - 1]
  }

  /** `s.split(c)` for a one-character separator. */
  function Split(s: string, c: char): (parts: seq<string>)
    ensures |parts| >= 1
    ensures c !in parts[|parts| - 1]
    decreases |s|
  {
    if s == [] then [[]]
    else if s[|s| - 1] == c then Split(s[..|s| - 1], c) + [[]]
    else
      var p := Split(s[..|s| - 1], c);
      p[..|p| - 1] + [p[|p| - 1] + [s[|s| - 1]]]
  }

  /** No piece of a split holds the separator. */
  lemma {:induction false} SplitPieces(s: string, c: char)
    ensures forall k :: 0 <= k < |Split(s, c)| ==> c !in Split(s, c)[k]
    decreases |s|
  {
    if s != [] {
      SplitPieces(s[..|s| - 1], c);
    }
  }

  /** Appending an empty piece to the pieces adds one separator to the join. */
  lemma JoinSnocEmpty(p: seq<string>, c: char)
    requires |p| >= 1
    ensures Join([c], p + [[]]) == Join([c], p) + [c]
  {
    assert (p + [[]])[..|p|] == p;
  }

  /** Extending the last piece by `x` extends the join by `x`. */
  lemma JoinSnocLast(p: seq<string>, c: char, x: char)
    requires |p| >= 1
    ensures Join([c], p[..|p| - 1] + [p[|p| - 1] + [x]]) == Join([c], p) + [x]
  {
    var q := p[..|p| - 1] + [p[|p| - 1] + [x]];
    if |p| == 1 {
      assert q == [p[0] + [x]];
    } else {
      assert q[..|q| - 1] == p[..|p| - 1];
      calc {
        Join([c], q);
        Join([c], p[..|p| - 1]) + [c] + (p[|p| - 1] + [x]);
        (Join([c], p[..|p| - 1]) + [c] + p[|p| - 1]) + [x];
      }
    }
  }

  /** Joining the pieces of a split gives back the original text. */
  lemma {:induction false} JoinSplit(s: string, c: char)
    ensures Join([c], Split(s, c)) == s
    decreases |s|
  {
    if s != [] {
      var init, x := s[..|s| - 1], s[|s| - 1];
      JoinSplit(init, c);
      if x == c {
        JoinSnocEmpty(Split(init, c), c);
      } else {
        JoinSnocLast(Split(init, c), c, x);
      }
      assert s == init + [x];
    }
  }

  function DigitChar(d: nat): char
    requires d < 10
  {
    ('0' as int + d) as char
  }

  predicate IsDigit(c: char)
  {
    '0' <= c <= '9'
  }

  predicate AllDigits(s: string)
  {
    forall i :: 0 <= i < |s| ==> IsDigit(s[i])
  }

  /** `str(n)` for a natural number. */
  function NatToString(n: nat): (r: string)
    ensures |r| >= 1 && AllDigits(r)
    decreases n
  {
    if n < 10 then [DigitChar(n)] else NatToString(n / 10) + [DigitChar(n % 10)]
  }

  /** The value of a string of decimal digits. */
  function DigitsValue(s: string): nat
    requires AllDigits(s)
  {
    if s == [] then 0 else DigitsValue(s[..|s| - 1]) * 10 + (s[|s| - 1] as int - '0' as int)
  }

  /** Reading back a rendered number gives the number. */
  lemma {:induction false} DigitsValueOfNatToString(n: nat)
    ensures DigitsValue(NatToString(n)) == n
    decreases n
  {
    if n >= 10 {
      DigitsValueOfNatToString(n / 10);
      var s := NatToString(n);
      assert s[..|s| - 1] == NatToString(n / 10);
    }
  }

  lemma NatToStringInjective(a: nat, b: nat)
    requires NatToString(a) == NatToString(b)
    ensures a == b
  {
    DigitsValueOfNatToString(a);
    DigitsValueOfNatToString(b);
  }

  /** Leading zeros do not change a digit string's value. */
  lemma {:induction false} DigitsValueLeadingZeros(z: nat, s: string)
    requires AllDigits(s)
    ensures AllDigits(Zeros(z) + s) && DigitsValue(Zeros(z) + s) == DigitsValue(s)
    decreases |s|
  {
    var t := Zeros(z) + s;
    assert AllDigits(t);
    if s == [] {
      assert t == Zeros(z);
      ZerosValue(z);
    } else {
      DigitsValueLeadingZeros(z, s[..|s| - 1]);
      assert t[..|t| - 1] == Zeros(z) + s[..|s| - 1];
    }
  }

  function Zeros(z: nat): (r: string)
    ensures |r| == z && AllDigits(r)
    ensures forall i :: 0 <= i < z ==> r[i] == '0'
  {
    if z == 0 then [] else Zeros(z - 1) + ['0']
  }

  lemma {:induction false} ZerosValue(z: nat)
    ensures DigitsValue(Zeros(z)) == 0
  {
    if z > 0 {
      ZerosValue(z - 1);
      assert Zeros(z)[..z - 1] == Zeros(z - 1);
    }
  }

  /** `f"{n:0{width}d}"` for a natural number: zero-padded to at least `width` digits. */
  function ZeroPad(n: nat, width: nat): (r: string)
    ensures AllDigits(r) && |r| >= width && DigitsValue(r) == n
  {
    var digits := NatToString(n);
    DigitsValueOfNatToString(n);
    var z := if |digits| < width then width - |digits| else 0;
    DigitsValueLeadingZeros(z, digits);
    Zeros(z) + digits
  }

  lemma ZeroPadInjective(a: nat, b: nat, width: nat)
    requires ZeroPad(a, width) == ZeroPad(b, width)
    ensures a == b
  {
  }
  /** `str(i)` for an integer. */
  function IntToString(i: int): (r: string)
    ensures r != []
    ensures i >= 0 ==> r == NatToString(i)
    ensures i < 0 ==> r == "-" + NatToString(-i)
  {
    if i >= 0 then NatToString(i) else "-" + NatToString(-i)
  }

  /**
   * `s if len(s) <= max else s[:max] + "..."`: text within the limit is
   * kept, longer text is cut to the limit (Python slicing, so a negative
   * limit counts from the end) and marked with an ellipsis.
   */
  function Truncate(s: string, max: int): (r: string)
    ensures |s| <= max ==> r == s
    ensures |s| > max ==> r == Prefix(s, max) + "..."
    ensures max >= 0 ==> |r| <= max + 3
  {
    if |s| <= max then s else Prefix(s, max) + "..."
  }

  /** The characters of `s` mapped one by one to texts and concatenated. */
  function FlatMap(s: string, f: char -> string): (r: string)
  {
    if s == [] then [] else f(s[0]) + FlatMap(s[1..], f)
  }

  /** Every `d` in `s` directly follows a backslash. */
  predicate Escaped(s: string, d: char)
  {
    forall i :: 0 <= i < |s| && s[i] == d ==> i > 0 && s[i - 1] == '\\'
  }

  lemma EscapedConcat(a: string, b: string, d: char)
    requires Escaped(a, d) && Escaped(b, d)
    ensures Escaped(a + b, d)
  {
    forall i | 0 <= i < |a + b| && (a + b)[i] == d
      ensures i > 0 && (a + b)[i - 1] == '\\'
    {
      if i >= |a| {
        assert b[i - |a|] == d;
      }
    }
  }

  /** Mapping every character to an escaped text gives an escaped text. */
  lemma {:induction false} EscapedFlatMap(s: string, f: char -> string, d: char)
    requires forall c :: Escaped(f(c), d)
    ensures Escaped(FlatMap(s, f), d)
    decreases |s|
  {
    if s != [] {
      EscapedFlatMap(s[1..], f, d);
      EscapedConcat(f(s[0]), FlatMap(s[1..], f), d);
    }
  }

  /** A character no piece produces does not occur in the result. */
  lemma {:induction false} FlatMapAbsent(s: string, f: char -> string, d: char)
    requires forall c :: d !in f(c)
    ensures d !in FlatMap(s, f)
    decreases |s|
  {
    if s != [] {
      FlatMapAbsent(s[1..], f, d);
    }
  }

  /** A prefix of an escaped text, followed by a text without `d`, is escaped. */
  lemma EscapedTruncate(s: string, max: int, d: char)
    requires Escaped(s, d) && d != '.'
    ensures Escaped(Truncate(s, max), d)
  {
    if |s| > max {
      var p := Prefix(s, max);
      assert Escaped(p, d) by {
        forall i | 0 <= i < |p| && p[i] == d
          ensures i > 0 && p[i - 1] == '\\'
        {
          assert s[i] == d;
        }
      }
      EscapedConcat(p, "...", d);
    }
  }

  lemma TruncateAbsent(s: string, max: int, d: char)
    requires d !in s && d != '.'
    ensures d !in Truncate(s, max)
  {
    if |s| > max {
      assert forall i :: 0 <= i < |Prefix(s, max)| ==> Prefix(s, max)[i] == s[i];
    }
  }

  /** Replacing a character distributes over concatenation. */
  lemma {:induction false} ReplaceCharConcat(a: string, b: string, c: char, repl: string)
    ensures ReplaceChar(a + b, c, repl) == ReplaceChar(a, c, repl) + ReplaceChar(b, c, repl)
    decreases |a|
  {
    if a != [] {
      assert (a + b)[0] == a[0] && (a + b)[1..] == a[1..] + b;
      ReplaceCharConcat(a[1..], b, c, repl);
      var h := if a[0] == c then repl else [a[0]];
      assert ReplaceChar(a + b, c, repl) == h + ReplaceChar(a[1..] + b, c, repl);
      assert ReplaceChar(a, c, repl) == h + ReplaceChar(a[1..], c, repl);
    } else {
      assert a + b == b;
    }
  }
}
