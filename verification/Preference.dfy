/**
 Which of several complaints is reported: the same one in whatever order they are
 found, as far as block-path length and witness can tell.
 */
module Preference {
  import opened Options
  import opened ProtocolDomain
  import opened Supergraph
  import opened Runs
  import opened Tables
  import Antichain

  /** A shorter block path wins; ties go to the smaller witness. */
  function Prefer(smaller: Antichain.Order, current: Option<PathResult>, candidate: PathResult): Option<PathResult> {
    if current.None? then Some(candidate)
    else if |candidate.path| < |current.value.path| then Some(candidate)
    else if |candidate.path| == |current.value.path| && smaller(candidate.trail, current.value.trail) then
      Some(candidate)
    else current
  }

  /** How witnesses are compared: a strict total order. */
  ghost predicate StrictOrder(smaller: Antichain.Order) {
    && (forall a :: !smaller(a, a))
    && (forall a, b :: a != b ==> smaller(a, b) || smaller(b, a))
    && (forall a, b, c :: smaller(a, b) && smaller(b, c) ==> smaller(a, c))
  }

  predicate Better(smaller: Antichain.Order, a: PathResult, b: PathResult) {
    |a.path| < |b.path| || (|a.path| == |b.path| && smaller(a.trail, b.trail))
  }

  /** What is reported after complaints found in this order. */
  function Reported(smaller: Antichain.Order, found: seq<PathResult>): Option<PathResult> {
    if found == [] then None
    else Prefer(smaller, Reported(smaller, found[..|found| - 1]), found[|found| - 1])
  }

  lemma ReportedMore(smaller: Antichain.Order, found: seq<PathResult>, r: PathResult)
    ensures Reported(smaller, found + [r]) == Prefer(smaller, Reported(smaller, found), r)
    ensures Chosen(Reported(smaller, found), r, Reported(smaller, found + [r]))
    ensures Reported(smaller, found + [r]).Some?
  {
    assert (found + [r])[..|found|] == found;
  }

  lemma BetterTransitive(smaller: Antichain.Order, a: PathResult, b: PathResult, c: PathResult)
    requires StrictOrder(smaller) && Better(smaller, a, b) && Better(smaller, b, c)
    ensures Better(smaller, a, c)
  {
  }

  lemma PreferKeepsLeast(smaller: Antichain.Order, current: PathResult, candidate: PathResult, r: PathResult)
    requires StrictOrder(smaller) && (!Better(smaller, r, current) || r == candidate)
    ensures !Better(smaller, r, Prefer(smaller, Some(current), candidate).value)
  {
    if Better(smaller, candidate, current) && Better(smaller, r, candidate) && r != candidate {
      BetterTransitive(smaller, r, candidate, current);
    }
  }

  ghost predicate Least(smaller: Antichain.Order, found: seq<PathResult>, r: PathResult) {
    r in found && forall x :: x in found ==> !Better(smaller, x, r)
  }

  lemma LeastStep(smaller: Antichain.Order, found: seq<PathResult>, current: PathResult, candidate: PathResult)
    requires StrictOrder(smaller) && Least(smaller, found, current)
    ensures Least(smaller, found + [candidate], Prefer(smaller, Some(current), candidate).value)
  {
    var r := Prefer(smaller, Some(current), candidate).value;
    assert r == current || r == candidate;
    hide StrictOrder, Better, Prefer;
    forall x | x in found + [candidate]
      ensures !Better(smaller, x, r)
    {
      PreferKeepsLeast(smaller, current, candidate, x);
    }
  }

  /** A complaint is reported iff there is one, and none of the others is better. */
  lemma {:induction false} ReportedIsLeast(smaller: Antichain.Order, found: seq<PathResult>)
    requires StrictOrder(smaller)
    ensures Reported(smaller, found).None? <==> found == []
    ensures Reported(smaller, found).Some? ==> Least(smaller, found, Reported(smaller, found).value)
    decreases |found|
  {
    if |found| == 1 {
      assert Reported(smaller, found) == Some(found[0]);
      assert !Better(smaller, found[0], found[0]);
    } else if |found| > 1 {
      hide StrictOrder, Least;
      var k := |found| - 1;
      ReportedIsLeast(smaller, found[..k]);
      assert found == found[..k] + [found[k]];
      LeastStep(smaller, found[..k], Reported(smaller, found[..k]).value, found[k]);
    }
  }

  lemma ReportIgnoresOrder(smaller: Antichain.Order, a: seq<PathResult>, b: seq<PathResult>)
    requires StrictOrder(smaller) && a != [] && forall r :: r in a <==> r in b
    ensures Reported(smaller, a).Some? && Reported(smaller, b).Some?
    ensures |Reported(smaller, a).value.path| == |Reported(smaller, b).value.path|
    ensures Reported(smaller, a).value.trail == Reported(smaller, b).value.trail
  {
    ReportedIsLeast(smaller, a);
    assert a[0] in b;
    ReportedIsLeast(smaller, b);
    var x, y := Reported(smaller, a).value, Reported(smaller, b).value;
    assert !Better(smaller, x, y) && !Better(smaller, y, x);
  }

  /** No violation that a finished table keeps and that is not discharged is better than the one reported. */
  lemma NoKeptViolationIsBetter(sys: System, discharged: set<Token>, smaller: Antichain.Order, t: Table, k: Key,
                                w: Witness)
    requires StrictOrder(smaller) && Saturated(sys, discharged, t) && t.unsafe == Reported(smaller, t.violations)
    requires w in KeptAt(t, k) && sys.visit(k.node, k.state).Violation?
    requires !IsDischarged(discharged, KeptAt(t, k)[w], w, k.node, UnsafeCandidate)
    ensures t.unsafe.Some?
            && !Better(smaller, PathResult(Unsafe, NoReason, KeptAt(t, k)[w], w, k.node), t.unsafe.value)
  {
    hide Sound, Paired, StrictOrder;
    ReportedIsLeast(smaller, t.violations);
    assert Expanded(sys, discharged, t, k, w, KeptAt(t, k)[w]);
  }

  /** Nor is a doubt better than the doubt reported. */
  lemma NoKeptDoubtIsBetter(sys: System, discharged: set<Token>, smaller: Antichain.Order, t: Table, k: Key,
                            w: Witness, reason: Reason)
    requires StrictOrder(smaller) && Saturated(sys, discharged, t) && t.inconclusive == Reported(smaller, t.doubts)
    requires w in KeptAt(t, k) && Complains(sys, k, Inconclusive, reason)
    requires !IsDischarged(discharged, KeptAt(t, k)[w], w, k.node, Uncertain(reason))
    ensures t.inconclusive.Some?
            && !Better(smaller, PathResult(Inconclusive, reason, KeptAt(t, k)[w], w, k.node), t.inconclusive.value)
  {
    hide Sound, Paired, StrictOrder;
    ReportedIsLeast(smaller, t.doubts);
    assert Expanded(sys, discharged, t, k, w, KeptAt(t, k)[w]);
  }
}
