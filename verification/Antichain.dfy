/**
 Which of several witnesses for the same contribution are kept.

 A shorter witness with fewer predicates stands for every longer, more
 constrained one. What is kept is a bounded antichain of that preorder.
 */
module Antichain {
  import opened Supergraph

  const LIMIT := 64

  type Order = (Witness, Witness) -> bool

  /** Witness identities are compared as strings; this is all the code relies on. */
  ghost predicate TotalOrder(precedes: Order) {
    && (forall a, b :: precedes(a, b) || precedes(b, a))
    && (forall a, b :: precedes(a, b) && precedes(b, a) ==> a == b)
    && (forall a, b, c :: precedes(a, b) && precedes(b, c) ==> precedes(a, c))
  }

  predicate Subsumes(retained: Witness, candidate: Witness) {
    |retained| <= |candidate| && Predicates(retained) <= Predicates(candidate)
  }

  /** The retained witness makes the candidate superfluous; ties go to the smaller identity. */
  predicate Beats(precedes: Order, retained: Witness, candidate: Witness) {
    Subsumes(retained, candidate) && (!Subsumes(candidate, retained) || precedes(retained, candidate))
  }

  predicate Beaten(precedes: Order, kept: set<Witness>, candidate: Witness) {
    exists r :: r in kept && Beats(precedes, r, candidate)
  }

  function Ousted(kept: set<Witness>, candidate: Witness): set<Witness> {
    set r | r in kept && Subsumes(candidate, r)
  }

  function Admit(precedes: Order, kept: set<Witness>, candidate: Witness): set<Witness> {
    if Beaten(precedes, kept, candidate) then kept
    else kept - Ousted(kept, candidate) + {candidate}
  }

  function AdmitAll(precedes: Order, offers: seq<Witness>): set<Witness>
    decreases |offers|
  {
    if offers == [] then {}
    else Admit(precedes, AdmitAll(precedes, offers[..|offers| - 1]), offers[|offers| - 1])
  }

  lemma AdmitOneMore(precedes: Order, offers: seq<Witness>, candidate: Witness)
    ensures AdmitAll(precedes, offers + [candidate]) == Admit(precedes, AdmitAll(precedes, offers), candidate)
  {
    assert (offers + [candidate])[..|offers|] == offers;
    hide Admit;
  }

  ghost predicate PairwiseIncomparable(kept: set<Witness>) {
    forall a, b :: a in kept && b in kept && a != b ==> !Subsumes(a, b)
  }

  ghost predicate Covers(kept: set<Witness>, w: Witness) {
    exists r :: r in kept && Subsumes(r, w)
  }

  /**
   The witnesses worth keeping out of `offered`, said without any procedure: nothing
   offered is strictly better, and among equally good ones it has the least identity.
   */
  ghost predicate Best(precedes: Order, offered: set<Witness>, w: Witness) {
    && w in offered
    && (forall r :: r in offered && Subsumes(r, w) ==> Subsumes(w, r) && precedes(w, r))
  }

  lemma SubsumesTransitive(a: Witness, b: Witness, c: Witness)
    requires Subsumes(a, b) && Subsumes(b, c)
    ensures Subsumes(a, c)
  {
  }

  lemma AdmitCovers(precedes: Order, kept: set<Witness>, candidate: Witness, w: Witness)
    requires Covers(kept, w) || w == candidate
    ensures Covers(Admit(precedes, kept, candidate), w)
  {
    var next := Admit(precedes, kept, candidate);
    if w == candidate {
      if !Beaten(precedes, kept, candidate) {
        assert candidate in next && Subsumes(candidate, candidate);
      }
    } else {
      var r :| r in kept && Subsumes(r, w);
      if r !in next {
        SubsumesTransitive(candidate, r, w);
        assert candidate in next;
      }
    }
  }

  lemma AdmitIncomparable(precedes: Order, kept: set<Witness>, candidate: Witness)
    requires PairwiseIncomparable(kept)
    ensures PairwiseIncomparable(Admit(precedes, kept, candidate))
  {
  }

  lemma {:induction false} AdmitAllCovers(precedes: Order, offers: seq<Witness>, w: Witness)
    requires w in offers
    ensures Covers(AdmitAll(precedes, offers), w)
    decreases |offers|
  {
    var k := |offers| - 1;
    var kept := AdmitAll(precedes, offers[..k]);
    if w != offers[k] {
      AdmitAllCovers(precedes, offers[..k], w);
    }
    AdmitCovers(precedes, kept, offers[k], w);
  }

  lemma AdmitBest(precedes: Order, offered: set<Witness>, kept: set<Witness>, candidate: Witness, w: Witness)
    requires TotalOrder(precedes)
    requires forall x :: x in kept <==> Best(precedes, offered, x)
    requires forall x :: x in offered ==> Covers(kept, x)
    ensures w in Admit(precedes, kept, candidate) <==> Best(precedes, offered + {candidate}, w)
  {
    var all := offered + {candidate};
    if Beaten(precedes, kept, candidate) {
      var r :| r in kept && Beats(precedes, r, candidate);
      assert Best(precedes, offered, r);
      if w in kept {
        assert Subsumes(candidate, w) ==> Subsumes(r, w);
      }
      assert r in all;
    } else if w == candidate {
      forall s | s in offered && Subsumes(s, w)
        ensures Subsumes(w, s) && precedes(w, s)
      {
        var r :| r in kept && Subsumes(r, s);
        SubsumesTransitive(r, s, w);
        assert !Beats(precedes, r, w);
        SubsumesTransitive(w, r, s);
        SubsumesTransitive(s, w, r);
        assert Best(precedes, offered, r);
        assert precedes(w, r) && precedes(r, s);
      }
      assert precedes(w, w);
    } else {
      if w in kept && Subsumes(candidate, w) {
        assert !Beats(precedes, w, candidate);
        assert candidate in all;
      }
    }
  }

  /**
   What is kept depends only on the set of witnesses offered: not on the order
   they came in, and not on the order in which the kept ones were compared.
   */
  lemma {:induction false} AdmitAllKeepsTheBest(precedes: Order, offers: seq<Witness>, w: Witness)
    requires TotalOrder(precedes)
    ensures w in AdmitAll(precedes, offers) <==> Best(precedes, (set x | x in offers), w)
    decreases |offers|
  {
    if offers != [] {
      var k := |offers| - 1;
      var earlier := set x | x in offers[..k];
      forall x
        ensures x in AdmitAll(precedes, offers[..k]) <==> Best(precedes, earlier, x)
      {
        AdmitAllKeepsTheBest(precedes, offers[..k], x);
      }
      forall x | x in earlier
        ensures Covers(AdmitAll(precedes, offers[..k]), x)
      {
        AdmitAllCovers(precedes, offers[..k], x);
      }
      AdmitBest(precedes, earlier, AdmitAll(precedes, offers[..k]), offers[k], w);
      assert offers == offers[..k] + [offers[k]];
      assert (set x | x in offers) == earlier + {offers[k]};
    }
  }

  /** Kept witnesses never subsume one another, whatever was offered. */
  lemma {:induction false} AdmitAllIncomparable(precedes: Order, offers: seq<Witness>)
    ensures PairwiseIncomparable(AdmitAll(precedes, offers))
    decreases |offers|
  {
    if offers != [] {
      var k := |offers| - 1;
      AdmitAllIncomparable(precedes, offers[..k]);
      AdmitIncomparable(precedes, AdmitAll(precedes, offers[..k]), offers[k]);
    }
  }
}
