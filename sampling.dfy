/**
 * Random sample points. `random.uniform(lo, hi)` is `lo + (hi - lo) * u` for
 * the generator's next value `u` in [0, 1); the generator is a stream
 * `rand` of such values. Each symbol's interval is its entry in `ranges`
 * when `ranges` is truthy and holds one, and the strategy's default otherwise.
 */
module Sampling {
  import opened Py
  import opened Text

  type Unit = r: real | 0.0 <= r < 1.0

  function Uniform(lo: real, hi: real, u: Unit): (x: real)
    ensures lo <= hi ==> lo <= x <= hi
    ensures hi <= lo ==> hi <= x <= lo
  {
    var d := hi - lo;
    var v := 1.0 - u;
    assert d - d * u == d * v;
    assert v > 0.0;
    assert d >= 0.0 ==> d * u >= 0.0 && d * v >= 0.0;
    assert d <= 0.0 ==> d * u <= 0.0 && d * v <= 0.0;
    lo + d * u
  }

  /** The head of the message for a bound that is not a number. */
  const MinusOperandPrefix := "unsupported operand type(s) for -: '"

  /** What unpacking a range of fewer than two items raises: `got` is how many it has. */
  function TooFewValues(got: nat): string
  {
    "not enough values to unpack (expected 2, got " + NatToString(got) + ")"
  }

  /** What unpacking a range of more than two items raises. */
  const TooManyValues := "too many values to unpack (expected 2)"

  /** A finite number as a real. */
  function NumberValue(v: Value): real
    requires IsNumber(v) && AsFl(v).Finite?
  {
    AsFl(v).r
  }

  /**
   * The ends of a range pair as `random.uniform(lo, hi)` uses them. It
   * computes `hi - lo` first, which raises TypeError naming hi's type and
   * then lo's unless both are numbers.
   */
  function Ends(lo: Value, hi: Value): (r: Result<(real, real)>)
    ensures r.Ok? <==> IsNumber(lo) && IsNumber(hi) && AsFl(lo).Finite? && AsFl(hi).Finite?
    ensures r.Ok? ==> r.value == (AsFl(lo).r, AsFl(hi).r)
    ensures !(IsNumber(lo) && IsNumber(hi)) ==>
      r == Err(TypeError(MinusOperandPrefix + TypeName(hi) + "' and '" + TypeName(lo) + "'"))
  {
    if !IsNumber(lo) || !IsNumber(hi) then
      Err(TypeError(MinusOperandPrefix + TypeName(hi) + "' and '" + TypeName(lo) + "'"))
    else if !AsFl(lo).Finite? || !AsFl(hi).Finite? then Err(ValueError("non-finite range bound"))
    else Ok((NumberValue(lo), NumberValue(hi)))
  }

  /** `lo, hi = ranges[s]` when `ranges and s in ranges`, the default otherwise. */
  function Bounds(ranges: Value, s: string, dlo: real, dhi: real): (r: Result<(real, real)>)
    ensures !Truthy(ranges) ==> r == Ok((dlo, dhi))
    ensures Truthy(ranges) && In(s, ranges) == Ok(false) ==> r == Ok((dlo, dhi))
  {
    if !Truthy(ranges) then Ok((dlo, dhi))
    else
      var present :- In(s, ranges);
      if !present then Ok((dlo, dhi))
      else
        var pair :- Index(ranges, s);
        var items :- Iterate(pair);
        if |items| < 2 then Err(ValueError(TooFewValues(|items|)))
        else if |items| > 2 then Err(ValueError(TooManyValues))
        else Ends(items[0], items[1])
  }

  /**
   * A symbol's range pair: fewer than two items fail the unpacking with the
   * count it got, a non-number end fails `hi - lo` naming hi's type first,
   * and two finite numbers are the interval.
   */
  lemma RangePair(s: string, pair: seq<Value>, dlo: real, dhi: real)
    ensures var r := Bounds(Dict(map[s := List(pair)]), s, dlo, dhi);
      && (|pair| < 2 ==> r == Err(ValueError(TooFewValues(|pair|))))
      && (|pair| == 1 ==> r == Err(ValueError("not enough values to unpack (expected 2, got 1)")))
      && (|pair| > 2 ==> r == Err(ValueError(TooManyValues)))
      && (|pair| == 2 && !(IsNumber(pair[0]) && IsNumber(pair[1])) ==>
            r == Err(TypeError(MinusOperandPrefix + TypeName(pair[1]) + "' and '" + TypeName(pair[0]) + "'")))
      && (|pair| == 2 && IsNumber(pair[0]) && IsNumber(pair[1]) && AsFl(pair[0]).Finite? && AsFl(pair[1]).Finite? ==>
            r == Ok((AsFl(pair[0]).r, AsFl(pair[1]).r)))
  {
    var entries := map[s := List(pair)];
    var ranges := Dict(entries);
    assert s in entries && entries[s] == List(pair);
    assert Truthy(ranges);
    assert In(s, ranges) == Ok(true);
    assert Index(ranges, s) == Lookup(entries, s) == Ok(List(pair));
    assert Iterate(List(pair)) == Ok(pair);
    assert NatToString(1) == [DigitChar(1)] == "1";
    assert TooFewValues(1) == "not enough values to unpack (expected 2, got 1)";
  }

  /** `x` lies between the two ends of `b`, whichever is smaller. */
  predicate Between(x: real, b: (real, real))
  {
    (b.0 <= x <= b.1) || (b.1 <= x <= b.0)
  }

  /**
   * The interval of every symbol, in order. The first trial computes these
   * before drawing, so a malformed entry raises from the first trial; later
   * trials compute the same intervals again.
   */
  function AllBounds(symbols: seq<string>, ranges: Value, dlo: real, dhi: real): (r: Result<seq<(real, real)>>)
    ensures r.Ok? ==> |r.value| == |symbols|
    ensures r.Ok? <==> forall i :: 0 <= i < |symbols| ==> Bounds(ranges, symbols[i], dlo, dhi).Ok?
    ensures r.Ok? ==> forall i :: 0 <= i < |symbols| ==> Bounds(ranges, symbols[i], dlo, dhi) == Ok(r.value[i])
    decreases |symbols|
  {
    if symbols == [] then Ok([])
    else
      var b :- Bounds(ranges, symbols[0], dlo, dhi);
      var rest :- AllBounds(symbols[1..], ranges, dlo, dhi);
      assert forall i :: 1 <= i < |symbols| ==> symbols[i] == symbols[1..][i - 1];
      Ok([b] + rest)
  }

  /**
   * The intervals a run samples from: with no trials nothing is drawn and
   * `ranges` is never consulted, so the defaults stand in.
   */
  function Prepare(symbols: seq<string>, ranges: Value, dlo: real, dhi: real, trials: int): (r: Result<seq<(real, real)>>)
    ensures r.Ok? ==> |r.value| == |symbols|
    ensures trials <= 0 ==> r.Ok?
    ensures trials > 0 ==> r == AllBounds(symbols, ranges, dlo, dhi)
  {
    if trials <= 0 then Ok(seq(|symbols|, _ => (dlo, dhi)))
    else AllBounds(symbols, ranges, dlo, dhi)
  }

  /** One `uniform` per interval, in order, consuming `rand(offset)`, `rand(offset + 1)`, ... */
  function Draw(bounds: seq<(real, real)>, rand: nat -> Unit, offset: nat): (v: seq<real>)
    ensures |v| == |bounds|
    ensures forall i :: 0 <= i < |bounds| ==> Between(v[i], bounds[i])
    decreases |bounds|
  {
    if bounds == [] then []
    else [Uniform(bounds[0].0, bounds[0].1, rand(offset))] + Draw(bounds[1..], rand, offset + 1)
  }

  /** `subs[sym_map[s]] = vec[i]` for each symbol in order: a later duplicate overwrites an earlier one. */
  function Coordinates(symbols: seq<string>, vec: seq<real>): (point: map<string, real>)
    requires |vec| == |symbols|
    ensures point.Keys == set s | s in symbols
    ensures forall s :: s in point ==> exists i :: 0 <= i < |symbols| && symbols[i] == s && point[s] == vec[i]
  {
    if symbols == [] then map[]
    else
      var n := |symbols| - 1;
      var prev := Coordinates(symbols[..n], vec[..n]);
      assert forall s :: s in prev ==> exists i :: 0 <= i < n && symbols[i] == s && prev[s] == vec[i] by {
        forall s | s in prev
          ensures exists i :: 0 <= i < n && symbols[i] == s && prev[s] == vec[i]
        {
          var i :| 0 <= i < |symbols[..n]| && symbols[..n][i] == s && prev[s] == vec[..n][i];
          assert symbols[i] == s && prev[s] == vec[i];
        }
      }
      assert symbols == symbols[..n] + [symbols[n]];
      prev[symbols[n] := vec[n]]
  }

  /** The point of trial `t`: each trial draws one value per symbol, so trial `t` starts at `rand(t * |symbols|)`. */
  function Point(symbols: seq<string>, bounds: seq<(real, real)>, rand: nat -> Unit, t: nat): (point: map<string, real>)
    requires |bounds| == |symbols|
    ensures point.Keys == set s | s in symbols
  {
    Coordinates(symbols, Draw(bounds, rand, t * |symbols|))
  }

  /** A coordinate is the draw of some occurrence of its symbol, so it lies in that occurrence's interval. */
  lemma CoordinateInInterval(symbols: seq<string>, bounds: seq<(real, real)>, vec: seq<real>, s: string)
    returns (i: nat)
    requires |vec| == |symbols| == |bounds|
    requires forall j :: 0 <= j < |vec| ==> Between(vec[j], bounds[j])
    requires s in Coordinates(symbols, vec)
    ensures i < |symbols| && symbols[i] == s && Between(Coordinates(symbols, vec)[s], bounds[i])
  {
    i :| 0 <= i < |symbols| && symbols[i] == s && Coordinates(symbols, vec)[s] == vec[i];
  }

  /** Every coordinate of a trial's point lies in its symbol's interval. */
  lemma PointInRange(symbols: seq<string>, ranges: Value, dlo: real, dhi: real, rand: nat -> Unit, t: nat)
    requires AllBounds(symbols, ranges, dlo, dhi).Ok?
    ensures var point := Point(symbols, AllBounds(symbols, ranges, dlo, dhi).value, rand, t);
      forall s :: s in point ==> Bounds(ranges, s, dlo, dhi).Ok? && Between(point[s], Bounds(ranges, s, dlo, dhi).value)
  {
    var point := Point(symbols, AllBounds(symbols, ranges, dlo, dhi).value, rand, t);
    forall s | s in point
      ensures Bounds(ranges, s, dlo, dhi).Ok? && Between(point[s], Bounds(ranges, s, dlo, dhi).value)
    {
      SymbolInRange(symbols, ranges, dlo, dhi, rand, t, s);
    }
  }

  /** A coordinate of a trial's point lies in the interval of some occurrence of its symbol. */
  lemma PointCoordinate(symbols: seq<string>, bounds: seq<(real, real)>, rand: nat -> Unit, t: nat, s: string)
    requires |bounds| == |symbols|
    requires s in Point(symbols, bounds, rand, t)
    ensures exists i :: 0 <= i < |symbols| && symbols[i] == s && Between(Point(symbols, bounds, rand, t)[s], bounds[i])
  {
    var vec := Draw(bounds, rand, t * |symbols|);
    assert Point(symbols, bounds, rand, t) == Coordinates(symbols, vec);
    var i := CoordinateInInterval(symbols, bounds, vec, s);
    assert Between(Coordinates(symbols, vec)[s], bounds[i]);
  }

  /** The coordinate of one symbol lies in that symbol's interval. */
  lemma SymbolInRange(symbols: seq<string>, ranges: Value, dlo: real, dhi: real, rand: nat -> Unit, t: nat, s: string)
    requires AllBounds(symbols, ranges, dlo, dhi).Ok?
    requires s in Point(symbols, AllBounds(symbols, ranges, dlo, dhi).value, rand, t)
    ensures Bounds(ranges, s, dlo, dhi).Ok?
    ensures Between(Point(symbols, AllBounds(symbols, ranges, dlo, dhi).value, rand, t)[s], Bounds(ranges, s, dlo, dhi).value)
  {
    var bounds := AllBounds(symbols, ranges, dlo, dhi).value;
    PointCoordinate(symbols, bounds, rand, t, s);
    var i :| 0 <= i < |symbols| && symbols[i] == s && Between(Point(symbols, bounds, rand, t)[s], bounds[i]);
    assert Bounds(ranges, symbols[i], dlo, dhi) == Ok(bounds[i]);
  }

  /** Without `ranges`, every coordinate lies in the default interval. */
  lemma DefaultRange(symbols: seq<string>, dlo: real, dhi: real, rand: nat -> Unit, t: nat)
    requires dlo <= dhi
    ensures AllBounds(symbols, Null, dlo, dhi).Ok?
    ensures var point := Point(symbols, AllBounds(symbols, Null, dlo, dhi).value, rand, t);
      forall s :: s in point ==> dlo <= point[s] <= dhi
  {
    PointInRange(symbols, Null, dlo, dhi, rand, t);
  }
}
