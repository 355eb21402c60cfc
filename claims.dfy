/** The records that flow through the pipeline: a claim as read from the claims file, and its verdict. */
module Claims {
  import opened Py

  /** A claim: its id, its `type` (called `kind` here) and the whole YAML item as `data`. */
  datatype ClaimSpec = ClaimSpec(id: string, kind: string, data: map<string, Value>)

  /** A verdict. `status` is "proved", "rejected" or "inconclusive" when the dispatcher sets it. */
  datatype ClaimResult = ClaimResult(id: string, kind: string, status: string, details: map<string, Value>)

  const Proved := "proved"
  const Rejected := "rejected"
  const Inconclusive := "inconclusive"
  /** Sort keys: by id, by (type, id) and by (status, id). */
  function IdKey(r: ClaimResult): seq<string>
  {
    [r.id]
  }

  function TypeKey(r: ClaimResult): seq<string>
  {
    [r.kind, r.id]
  }

  function StatusKey(r: ClaimResult): seq<string>
  {
    [r.status, r.id]
  }

  /** The three statuses are different strings. */
  lemma StatusesDistinct()
    ensures Proved != Rejected && Proved != Inconclusive && Rejected != Inconclusive
  {
    assert |Proved| == 6 && |Rejected| == 8 && |Inconclusive| == 12;
  }

  /** One of the three statuses the dispatcher produces. */
  predicate KnownStatus(status: string)
  {
    status == Proved || status == Rejected || status == Inconclusive
  }

  /** `sum(1 for r in results if r.status == status)` */
  function CountStatus(results: seq<ClaimResult>, status: string): (n: nat)
    ensures n <= |results|
    ensures n == 0 <==> forall i :: 0 <= i < |results| ==> results[i].status != status
  {
    if results == [] then 0
    else CountStatus(results[..|results| - 1], status) + (if results[|results| - 1].status == status then 1 else 0)
  }

  /** The number of results of one type. */
  function CountKind(results: seq<ClaimResult>, kind: string): (n: nat)
    ensures n <= |results|
    ensures n == 0 <==> forall i :: 0 <= i < |results| ==> results[i].kind != kind
  {
    if results == [] then 0
    else CountKind(results[..|results| - 1], kind) + (if results[|results| - 1].kind == kind then 1 else 0)
  }

  /** The number of results of one type with one status. */
  function CountKindStatus(results: seq<ClaimResult>, kind: string, status: string): (n: nat)
    ensures n <= CountKind(results, kind) && n <= CountStatus(results, status)
  {
    if results == [] then 0
    else
      var r := results[|results| - 1];
      CountKindStatus(results[..|results| - 1], kind, status) + (if r.kind == kind && r.status == status then 1 else 0)
  }

  /** The three counts never exceed the number of results, and reach it exactly when every status is one of the three. */
  lemma {:induction false} StatusCountsBound(results: seq<ClaimResult>)
    ensures CountStatus(results, Proved) + CountStatus(results, Rejected) + CountStatus(results, Inconclusive) <= |results|
    ensures CountStatus(results, Proved) + CountStatus(results, Rejected) + CountStatus(results, Inconclusive) == |results|
      <==> forall i :: 0 <= i < |results| ==> KnownStatus(results[i].status)
  {
    if results != [] {
      var init := results[..|results| - 1];
      StatusCountsBound(init);
      assert forall i :: 0 <= i < |init| ==> init[i] == results[i];
    }
  }

  /** The same within one type. */
  lemma {:induction false} KindStatusCountsSum(results: seq<ClaimResult>, kind: string)
    requires forall i :: 0 <= i < |results| ==> KnownStatus(results[i].status)
    ensures CountKindStatus(results, kind, Proved) + CountKindStatus(results, kind, Rejected)
      + CountKindStatus(results, kind, Inconclusive) == CountKind(results, kind)
  {
    if results != [] {
      KindStatusCountsSum(results[..|results| - 1], kind);
    }
  }

  /** When every status is one of the three, no result has the status "total". */
  lemma {:induction false} NoTotalStatus(results: seq<ClaimResult>, t: string)
    requires forall i :: 0 <= i < |results| ==> KnownStatus(results[i].status)
    ensures CountKindStatus(results, t, "total") == 0
  {
    if results != [] {
      var init := results[..|results| - 1];
      assert forall i :: 0 <= i < |init| ==> init[i] == results[i];
      NoTotalStatus(init, t);
      assert KnownStatus(results[|results| - 1].status);
    }
  }

  /** The per-type counts of a list of distinct types. */
  function SumKinds(results: seq<ClaimResult>, kinds: seq<string>): nat
  {
    if kinds == [] then 0 else SumKinds(results, kinds[..|kinds| - 1]) + CountKind(results, kinds[|kinds| - 1])
  }

  predicate Distinct(kinds: seq<string>)
  {
    forall i, j :: 0 <= i < j < |kinds| ==> kinds[i] != kinds[j]
  }

  /** Among distinct types, exactly the one equal to `kind` counts once. */
  lemma {:induction false} SumKindsOne(r: ClaimResult, kinds: seq<string>)
    requires Distinct(kinds)
    ensures SumKinds([r], kinds) == if r.kind in kinds then 1 else 0
  {
    if kinds != [] {
      var init := kinds[..|kinds| - 1];
      assert Distinct(init);
      SumKindsOne(r, init);
      assert r.kind in kinds <==> r.kind in init || r.kind == kinds[|kinds| - 1];
      if r.kind == kinds[|kinds| - 1] {
        assert r.kind !in init;
      }
    }
  }

  /** Counting is additive over appending one result. */
  lemma {:induction false} SumKindsAppend(results: seq<ClaimResult>, r: ClaimResult, kinds: seq<string>)
    ensures SumKinds(results + [r], kinds) == SumKinds(results, kinds) + SumKinds([r], kinds)
  {
    if kinds != [] {
      SumKindsAppend(results, r, kinds[..|kinds| - 1]);
      assert (results + [r])[..|results + [r]| - 1] == results;
      assert [r][..0] == [];
    }
  }

  /** The per-type totals over all the types present add up to the number of results. */
  lemma {:induction false} KindTotalsSum(results: seq<ClaimResult>, kinds: seq<string>)
    requires Distinct(kinds)
    requires forall i :: 0 <= i < |results| ==> results[i].kind in kinds
    ensures SumKinds(results, kinds) == |results|
  {
    if results == [] {
      ZeroSum(kinds);
    } else {
      var init := results[..|results| - 1];
      assert results == init + [results[|results| - 1]];
      KindTotalsSum(init, kinds);
      SumKindsAppend(init, results[|results| - 1], kinds);
      SumKindsOne(results[|results| - 1], kinds);
    }
  }

  lemma {:induction false} ZeroSum(kinds: seq<string>)
    ensures SumKinds([], kinds) == 0
  {
    if kinds != [] {
      ZeroSum(kinds[..|kinds| - 1]);
    }
  }
}
