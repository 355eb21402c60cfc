/**
 * The proof runner: run every claim, turning an exception from `run_claim`
 * into an inconclusive result, either one claim after another or through a
 * process pool whose results are collected as they complete and then
 * sorted by id; and the exit code of `main`.
 */
module Runner {
  import opened Py
  import opened SymPy
  import opened Sampling
  import opened Claims
  import opened Ordering
  import Registry

  /** The result kept for a claim: the verdict, or an inconclusive result carrying `str(e)`. */
  function Settle(spec: ClaimSpec, r: Result<ClaimResult>): (res: ClaimResult)
    ensures r.Ok? ==> res == r.value
    ensures r.Err? ==> res == ClaimResult(spec.id, spec.kind, Inconclusive, map["error" := Str(Message(r.exc))])
  {
    if r.Ok? then r.value
    else ClaimResult(spec.id, spec.kind, Inconclusive, map["error" := Str(Message(r.exc))])
  }

  /** The settled result of claim `i`, run on its own stream of random values. */
  function Outcome(claims: seq<ClaimSpec>, e: Engine, streams: nat -> (nat -> Unit), i: nat): (res: ClaimResult)
    requires i < |claims|
    ensures res.id == claims[i].id && res.kind == claims[i].kind
    ensures res.status in {Proved, Rejected, Inconclusive}
  {
    Settle(claims[i], Registry.RunClaim(claims[i], e, streams(i)))
  }

  /** The settled results of the claims `order` names, in that order. */
  function Collect(claims: seq<ClaimSpec>, e: Engine, streams: nat -> (nat -> Unit), order: seq<nat>): (rs: seq<ClaimResult>)
    requires forall k :: 0 <= k < |order| ==> order[k] < |claims|
    ensures |rs| == |order|
    ensures forall k :: 0 <= k < |order| ==> rs[k] == Outcome(claims, e, streams, order[k])
  {
    seq(|order|, k requires 0 <= k < |order| => Outcome(claims, e, streams, order[k]))
  }

  /** Collecting one more claim appends its outcome. */
  lemma CollectSnoc(claims: seq<ClaimSpec>, e: Engine, streams: nat -> (nat -> Unit), order: seq<nat>, i: nat)
    requires forall k :: 0 <= k < |order| ==> order[k] < |claims|
    requires i < |claims|
    ensures Collect(claims, e, streams, order + [i]) == Collect(claims, e, streams, order) + [Outcome(claims, e, streams, i)]
  {
  }

  function Indices(n: nat): (s: seq<nat>)
    ensures |s| == n && forall k :: 0 <= k < n ==> s[k] == k
  {
    if n == 0 then [] else Indices(n - 1) + [n - 1]
  }

  /** `run_claims_sequential`: one result per claim, in input order. */
  method RunClaimsSequential(claims: seq<ClaimSpec>, e: Engine, streams: nat -> (nat -> Unit)) returns (results: seq<ClaimResult>)
    ensures results == Collect(claims, e, streams, Indices(|claims|))
  {
    results := [];
    var i := 0;
    while i < |claims|
      invariant 0 <= i <= |claims|
      invariant results == Collect(claims, e, streams, Indices(i))
    {
      var r := Registry.RunClaim(claims[i], e, streams(i));
      if r.Ok? {
        results := results + [r.value];
      } else {
        results := results + [ClaimResult(claims[i].id, claims[i].kind, Inconclusive, map["error" := Str(Message(r.exc))])];
      }
      assert results[i] == Outcome(claims, e, streams, i);
      CollectSnoc(claims, e, streams, Indices(i), i);
      assert Indices(i + 1) == Indices(i) + [i];
      i := i + 1;
    }
  }

  /** The sequential results line up with the claims: same length, same ids and types, in order. */
  lemma SequentialMatchesClaims(claims: seq<ClaimSpec>, e: Engine, streams: nat -> (nat -> Unit))
    ensures var rs := Collect(claims, e, streams, Indices(|claims|));
      && |rs| == |claims|
      && forall i :: 0 <= i < |claims| ==>
           rs[i].id == claims[i].id && rs[i].kind == claims[i].kind && rs[i].status in {Proved, Rejected, Inconclusive}
  {
  }

  /** A completion order: each claim index exactly once. */
  predicate IsCompletionOrder(order: seq<nat>, n: nat)
  {
    && (forall k :: 0 <= k < |order| ==> order[k] < n)
    && multiset(order) == multiset(Indices(n))
  }

  /** What `future.get()` raises: concurrent.futures futures have no `get` method. */
  const FutureGet := AttributeError("'Future' object has no attribute 'get'")

  /**
   * `run_claims_parallel` as written: every `future.get()` raises, so each
   * claim, in completion order, gets an inconclusive result; then the list
   * is sorted by id.
   */
  method RunClaimsParallel(claims: seq<ClaimSpec>, order: seq<nat>) returns (results: seq<ClaimResult>)
    requires IsCompletionOrder(order, |claims|)
    ensures |results| == |claims|
    ensures SortedBy(results, IdKey)
    ensures forall k :: 0 <= k < |results| ==>
      results[k].status == Inconclusive && results[k].details == map["error" := Str(Message(FutureGet))]
    ensures multiset(results) == multiset(Failures(claims, order))
  {
    var collected := [];
    var k := 0;
    while k < |order|
      invariant 0 <= k <= |order|
      invariant collected == Failures(claims, order[..k])
    {
      var claim := claims[order[k]];
      collected := collected + [ClaimResult(claim.id, claim.kind, Inconclusive, map["error" := Str(Message(FutureGet))])];
      assert order[..k + 1][..k] == order[..k];
      k := k + 1;
    }
    assert order[..k] == order;
    assert |order| == |claims| by {
      assert |multiset(order)| == |multiset(Indices(|claims|))|;
    }
    results := SortBy(collected, IdKey);
    forall j | 0 <= j < |results|
      ensures results[j].status == Inconclusive && results[j].details == map["error" := Str(Message(FutureGet))]
    {
      assert results[j] in multiset(collected);
    }
  }

  /** The failed result of every claim in completion order. */
  function Failures(claims: seq<ClaimSpec>, order: seq<nat>): (rs: seq<ClaimResult>)
    requires forall k :: 0 <= k < |order| ==> order[k] < |claims|
    ensures |rs| == |order|
    ensures forall k :: 0 <= k < |order| ==>
      rs[k] == ClaimResult(claims[order[k]].id, claims[order[k]].kind, Inconclusive, map["error" := Str(Message(FutureGet))])
  {
    if order == [] then []
    else
      var c := claims[order[|order| - 1]];
      Failures(claims, order[..|order| - 1]) + [ClaimResult(c.id, c.kind, Inconclusive, map["error" := Str(Message(FutureGet))])]
  }

  /** The entries of `table` that `order` names, in that order. */
  function Lookup<B>(table: seq<B>, order: seq<nat>): (rs: seq<B>)
    requires forall k :: 0 <= k < |order| ==> order[k] < |table|
    ensures |rs| == |order| && forall k :: 0 <= k < |order| ==> rs[k] == table[order[k]]
  {
    seq(|order|, k requires 0 <= k < |order| => table[order[k]])
  }

  /** Removing position `j` removes one occurrence of its element. */
  lemma RemoveAt<T>(s: seq<T>, j: nat)
    requires j < |s|
    ensures multiset(s) == multiset(s[..j] + s[j + 1..]) + multiset{s[j]}
  {
    assert s == s[..j] + [s[j]] + s[j + 1..];
  }

  /** Every index names an entry of a table of `n` entries. */
  predicate Below(order: seq<nat>, n: nat)
  {
    forall k :: 0 <= k < |order| ==> order[k] < n
  }

  /** Removing position `j` from the indices removes position `j` from what they look up. */
  lemma LookupRemoveAt<B>(table: seq<B>, ys: seq<nat>, j: nat)
    requires forall k :: 0 <= k < |ys| ==> ys[k] < |table|
    requires j < |ys|
    ensures Below(ys[..j] + ys[j + 1..], |table|)
    ensures Lookup(table, ys[..j] + ys[j + 1..]) == Lookup(table, ys)[..j] + Lookup(table, ys)[j + 1..]
  {
    var ys' := ys[..j] + ys[j + 1..];
    forall k | 0 <= k < |ys'|
      ensures ys'[k] == if k < j then ys[k] else ys[k + 1]
    {
    }
  }

  /** Adding the same multiset to both sides can be undone. */
  lemma Cancel<T>(a: multiset<T>, b: multiset<T>, m: multiset<T>)
    requires a + m == b + m
    ensures a == b
  {
    assert forall z :: a[z] == (a + m)[z] - m[z];
    assert forall z :: b[z] == (b + m)[z] - m[z];
  }

  /** Looking up a permutation of the same indices gives a permutation of the same entries. */
  lemma {:induction false} LookupPermutes<B>(table: seq<B>, xs: seq<nat>, ys: seq<nat>)
    requires forall k :: 0 <= k < |xs| ==> xs[k] < |table|
    requires forall k :: 0 <= k < |ys| ==> ys[k] < |table|
    requires multiset(xs) == multiset(ys)
    ensures multiset(Lookup(table, xs)) == multiset(Lookup(table, ys))
    decreases |xs|
  {
    if xs == [] {
      assert |ys| == |multiset(ys)|;
    } else {
      var n := |xs| - 1;
      var x := xs[n];
      assert x in multiset(ys);
      var j :| 0 <= j < |ys| && ys[j] == x;
      RemoveAt(xs, n);
      assert xs[..n] + xs[n + 1..] == xs[..n];
      RemoveAt(ys, j);
      Cancel(multiset(xs[..n]), multiset(ys[..j] + ys[j + 1..]), multiset{x});
      LookupRemoveAt(table, xs, n);
      LookupRemoveAt(table, ys, j);
      LookupPermutes(table, xs[..n], ys[..j] + ys[j + 1..]);
      RemoveAt(Lookup(table, xs), n);
      RemoveAt(Lookup(table, ys), j);
    }
  }

  /** Reordering the claim indices only reorders the collected results. */
  lemma CollectPermutes(claims: seq<ClaimSpec>, e: Engine, streams: nat -> (nat -> Unit), xs: seq<nat>, ys: seq<nat>)
    requires forall k :: 0 <= k < |xs| ==> xs[k] < |claims|
    requires forall k :: 0 <= k < |ys| ==> ys[k] < |claims|
    requires multiset(xs) == multiset(ys)
    ensures multiset(Collect(claims, e, streams, xs)) == multiset(Collect(claims, e, streams, ys))
  {
    var table := Collect(claims, e, streams, Indices(|claims|));
    assert Collect(claims, e, streams, xs) == Lookup(table, xs);
    assert Collect(claims, e, streams, ys) == Lookup(table, ys);
    LookupPermutes(table, xs, ys);
  }

  /** Collecting one more entry of `order` appends that claim's settled result. */
  lemma CollectExtend(claims: seq<ClaimSpec>, e: Engine, streams: nat -> (nat -> Unit), order: seq<nat>, k: nat)
    requires Below(order, |claims|) && k < |order|
    ensures Collect(claims, e, streams, order[..k + 1]) ==
      Collect(claims, e, streams, order[..k]) + [Settle(claims[order[k]], Registry.RunClaim(claims[order[k]], e, streams(order[k])))]
  {
    assert order[..k + 1] == order[..k] + [order[k]];
    CollectSnoc(claims, e, streams, order[..k], order[k]);
  }

  /**
   * `run_claims_parallel` with `future.result()` in place of `future.get()`:
   * each claim's own verdict, collected in completion order, sorted by id.
   */
  method RunClaimsParallelCorrected(claims: seq<ClaimSpec>, e: Engine, streams: nat -> (nat -> Unit), order: seq<nat>)
    returns (results: seq<ClaimResult>)
    requires IsCompletionOrder(order, |claims|)
    ensures SortedBy(results, IdKey)
    ensures multiset(results) == multiset(Collect(claims, e, streams, Indices(|claims|)))
  {
    var collected := [];
    var k := 0;
    while k < |order|
      invariant 0 <= k <= |order|
      invariant collected == Collect(claims, e, streams, order[..k])
    {
      var i := order[k];
      var r := Registry.RunClaim(claims[i], e, streams(i));
      collected := collected + [Settle(claims[i], r)];
      CollectExtend(claims, e, streams, order, k);
      k := k + 1;
    }
    assert order[..k] == order;
    CollectPermutes(claims, e, streams, order, Indices(|claims|));
    results := SortBy(collected, IdKey);
  }

  /** `sum(1 for r in results if r.status != "proved")` */
  function NotProved(results: seq<ClaimResult>): (n: nat)
    ensures n == 0 <==> forall i :: 0 <= i < |results| ==> results[i].status == Proved
    ensures n <= |results|
  {
    if results == [] then 0
    else NotProved(results[..|results| - 1]) + (if results[|results| - 1].status != Proved then 1 else 0)
  }

  /** How `main` ends, up to the exit code. */
  datatype Run =
    | Interrupted                      // KeyboardInterrupt
    | Raised(exc: Exc)                  // configuration, loading or report writing raised
    | NoClaims
    | Finished(results: seq<ClaimResult>)

  /** The exit code of `main`. */
  function ExitCode(run: Run): (code: int)
    ensures run.Interrupted? ==> code == 130
    ensures run.Raised? || run.NoClaims? ==> code == (if run.Raised? then 1 else 0)
    ensures run.Finished? ==> (code == 0 <==> forall i :: 0 <= i < |run.results| ==> run.results[i].status == Proved)
    ensures code in {0, 1, 130}
  {
    match run
    case Interrupted => 130
    case Raised(_) => 1
    case NoClaims => 0
    case Finished(results) => if NotProved(results) > 0 then 1 else 0
  }

  /** As written, a parallel run over at least one claim always exits with 1. */
  lemma ParallelAlwaysFails(claims: seq<ClaimSpec>, order: seq<nat>, results: seq<ClaimResult>)
    requires claims != []
    requires |results| == |claims|
    requires forall k :: 0 <= k < |results| ==> results[k].status == Inconclusive
    ensures ExitCode(Finished(results)) == 1
  {
    assert results[0].status != Proved;
  }
}
