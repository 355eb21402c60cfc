/**
 * The fermion-parity qubit: a parity bit that a braid with one
 * quasiparticle flips and a measurement reads, with the improved version's
 * operation counters and error checks.
 */
module ParityQubit {
  import opened Text
  import opened Py

  /** `p ^= 1` on a Python int: flip the lowest bit. */
  function FlipParity(p: int): (q: int)
    ensures (p == 0 || p == 1) ==> q == 1 - p
    ensures p % 2 != q % 2
  {
    if p % 2 == 0 then p + 1 else p - 1
  }

  /** Flipping twice gives back the original parity, for every int. */
  lemma FlipTwice(p: int)
    ensures FlipParity(FlipParity(p)) == p
  {
    if p % 2 == 0 {
      assert (p + 1) % 2 == 1;
    } else {
      assert (p - 1) % 2 == 0;
    }
  }

  /** The head of the message for a parity other than 0 or 1. */
  const ParityPrefix := "Parity must be 0 (even) or 1 (odd), got "

  /** The head of the message for a quasiparticle count that is not an int. */
  const QuasiparticleTypePrefix := "external_quasiparticle must be an integer, got "

  /** The head of the message for a quasiparticle count other than 1. */
  const QuasiparticleCountPrefix := "Only one e/4 quasiparticle can braid at a time, got "

  function ParityError(p: int): Exc
  {
    OtherError("ParityError", ParityPrefix + IntToString(p))
  }

  /** `isinstance(x, int)`: a bool is an int too. */
  predicate IsInt(x: Value)
  {
    x.Int? || x.Bool?
  }

  /** `str(x)` for an int or a bool. */
  function IntText(x: Value): string
    requires IsInt(x)
  {
    if x.Int? then IntToString(x.i) else if x.b then "True" else "False"
  }

  /** `x != 1` for an int or a bool (True equals 1). */
  predicate IsOne(x: Value)
  {
    x == Int(1) || x == Bool(true)
  }

  /** The improved `FermionParityQubit`. */
  class FermionParityQubit {
    var parity: int
    var measurementCount: nat
    var braidCount: nat

    /** The parity is 0 (even) or 1 (odd). */
    predicate Valid()
      reads this
    {
      parity == 0 || parity == 1
    }

    constructor (initialParity: int)
      requires initialParity == 0 || initialParity == 1
      ensures parity == initialParity && measurementCount == 0 && braidCount == 0 && Valid()
    {
      parity := initialParity;
      measurementCount := 0;
      braidCount := 0;
    }

    /**
     * `braid`: a non-int raises TypeError, an int other than 1 raises
     * QuasiparticleError, and in both cases nothing changes; otherwise the
     * parity flips and one more braid is counted.
     */
    method Braid(quasiparticles: Value) returns (r: Result<()>)
      requires Valid()
      modifies this
      ensures Valid() && measurementCount == old(measurementCount)
      ensures r.Ok? <==> IsOne(quasiparticles)
      ensures !IsInt(quasiparticles) ==>
        r == Err(TypeError(QuasiparticleTypePrefix + TypeName(quasiparticles)))
      ensures IsInt(quasiparticles) && !IsOne(quasiparticles) ==>
        r == Err(OtherError("QuasiparticleError",
                            QuasiparticleCountPrefix + IntText(quasiparticles)))
      ensures r.Ok? ==> parity == 1 - old(parity) && braidCount == old(braidCount) + 1
      ensures r.Err? ==> parity == old(parity) && braidCount == old(braidCount)
    {
      if !IsInt(quasiparticles) {
        return Err(TypeError(QuasiparticleTypePrefix + TypeName(quasiparticles)));
      }
      if !IsOne(quasiparticles) {
        return Err(OtherError("QuasiparticleError",
                              QuasiparticleCountPrefix + IntText(quasiparticles)));
      }
      parity := FlipParity(parity);
      braidCount := braidCount + 1;
      return Ok(());
    }

    /** `measure`: count the measurement and read the parity, which stays as it was. */
    method Measure() returns (p: int)
      modifies this
      ensures p == parity && parity == old(parity)
      ensures measurementCount == old(measurementCount) + 1 && braidCount == old(braidCount)
    {
      measurementCount := measurementCount + 1;
      return parity;
    }

    /** `reset`: set a valid parity; the counters are left alone. An invalid parity raises and changes nothing. */
    method Reset(p: int) returns (r: Result<()>)
      modifies this
      ensures r.Ok? <==> p == 0 || p == 1
      ensures r.Err? ==> r == Err(ParityError(p)) && parity == old(parity)
      ensures r.Ok? ==> parity == p
      ensures measurementCount == old(measurementCount) && braidCount == old(braidCount)
    {
      if p != 0 && p != 1 {
        return Err(ParityError(p));
      }
      parity := p;
      return Ok(());
    }

    /** `get_state_vector`: [+1] for even parity, [-1] otherwise. */
    function StateVector(): (v: seq<int>)
      reads this
      ensures v == [1] <==> parity == 0
      ensures v == [-1] <==> parity != 0
    {
      if parity == 0 then [1] else [-1]
    }

    /** `get_statistics`. */
    function Statistics(): (m: map<string, int>)
      reads this
      ensures m.Keys == {"parity", "measurements", "braids"}
      ensures m["parity"] == parity && m["measurements"] == measurementCount && m["braids"] == braidCount
    {
      map["parity" := parity, "measurements" := measurementCount, "braids" := braidCount]
    }

    /** `__eq__` between two qubits: parity alone decides; the counters are ignored. */
    predicate Equals(other: FermionParityQubit)
      reads this, other
    {
      parity == other.parity
    }
  }

  /** The constructor: a parity other than 0 or 1 raises ParityError; both counters start at 0. */
  method NewQubit(initialParity: int) returns (r: Result<FermionParityQubit>)
    ensures r.Ok? <==> initialParity == 0 || initialParity == 1
    ensures r.Err? ==> r == Err(ParityError(initialParity))
    ensures r.Ok? ==>
      && fresh(r.value) && r.value.Valid() && r.value.parity == initialParity
      && r.value.measurementCount == 0 && r.value.braidCount == 0
  {
    if initialParity != 0 && initialParity != 1 {
      return Err(ParityError(initialParity));
    }
    var q := new FermionParityQubit(initialParity);
    return Ok(q);
  }

  /** Two successful braids restore the parity and count two braids. */
  method BraidTwice(q: FermionParityQubit) returns (r: Result<()>)
    requires q.Valid()
    modifies q
    ensures r.Ok? && q.parity == old(q.parity) && q.braidCount == old(q.braidCount) + 2
    ensures q.Valid() && q.measurementCount == old(q.measurementCount)
  {
    var first := q.Braid(Int(1));
    var second := q.Braid(Int(1));
    return Ok(());
  }

  /**
   * Two qubits started at the same parity, one braided twice and measured
   * and the other left alone, compare equal although their counters differ.
   */
  method EqualityIgnoresCounters(p: int) returns (a: FermionParityQubit, b: FermionParityQubit)
    requires p == 0 || p == 1
    ensures a.Equals(b) && b.Equals(a) && a.StateVector() == b.StateVector()
    ensures a.braidCount == 2 && a.measurementCount == 1
    ensures b.braidCount == 0 && b.measurementCount == 0
  {
    a := new FermionParityQubit(p);
    b := new FermionParityQubit(p);
    var _ := BraidTwice(a);
    var _ := a.Measure();
  }
}

/** The original `FermionParityQubit`: a bare parity field guarded by assertions. */
module LegacyParityQubit {
  import opened Py
  import ParityQubit

  /** `x == 1` in Python: an int 1, True, or the float 1.0. */
  predicate EqualsOne(x: Value)
  {
    x == Int(1) || x == Bool(true) || x == Float(Finite(1.0))
  }

  class FermionParityQubit {
    var parity: int

    predicate Valid()
      reads this
    {
      parity == 0 || parity == 1
    }

    constructor (initialParity: int)
      requires initialParity == 0 || initialParity == 1
      ensures parity == initialParity && Valid()
    {
      parity := initialParity;
    }

    /** `braid`: assert the argument equals 1, then flip the parity. */
    method Braid(quasiparticles: Value) returns (r: Result<()>)
      requires Valid()
      modifies this
      ensures Valid()
      ensures r.Ok? <==> EqualsOne(quasiparticles)
      ensures r.Err? ==> r == Err(AssertionError) && parity == old(parity)
      ensures r.Ok? ==> parity == 1 - old(parity)
    {
      if !EqualsOne(quasiparticles) {
        return Err(AssertionError);
      }
      parity := ParityQubit.FlipParity(parity);
      return Ok(());
    }

    /** `measure`: the parity, unchanged. */
    function Measure(): (p: int)
      reads this
      ensures Valid() ==> p == 0 || p == 1
    {
      parity
    }

    /** `get_state_vector`: [+1] for parity 0, [-1] otherwise. */
    function StateVector(): (v: seq<int>)
      reads this
      ensures v == [1] <==> parity == 0
      ensures v == [-1] <==> parity != 0
    {
      if parity == 0 then [1] else [-1]
    }
  }

  /** The constructor asserts the initial parity is 0 or 1. */
  method NewQubit(initialParity: int) returns (r: Result<FermionParityQubit>)
    ensures r.Ok? <==> initialParity == 0 || initialParity == 1
    ensures r.Err? ==> r == Err(AssertionError)
    ensures r.Ok? ==> fresh(r.value) && r.value.Valid() && r.value.parity == initialParity
  {
    if initialParity != 0 && initialParity != 1 {
      return Err(AssertionError);
    }
    var q := new FermionParityQubit(initialParity);
    return Ok(q);
  }

  /**
   * The two versions accept the same braid arguments except the float
   * 1.0: the original's `== 1` lets it through, the improved `isinstance`
   * check raises TypeError.
   */
  lemma BraidArgumentsCompared(x: Value)
    ensures ParityQubit.IsOne(x) ==> EqualsOne(x)
    ensures EqualsOne(x) && !ParityQubit.IsOne(x) <==> x == Float(Finite(1.0))
    ensures !ParityQubit.IsInt(Float(Finite(1.0)))
  {
  }
}
