/** Nodes and edges of the interprocedural supergraph, and the witness steps that name them. */
module Supergraph {
  import opened ProtocolDomain

  datatype NodeKind = CfgNode | CallNode | ReturnNode | ExitNode

  datatype NodeId = NodeId(func: string, block: int, index: int, ordinal: int, kind: NodeKind)

  datatype EdgeKind = Intra | Call | Return | CallToReturn

  datatype Edge = Edge(
    from: NodeId,
    to: NodeId,
    kind: EdgeKind,
    site: string,
    reason: Reason,
    predicates: seq<string>)

  /** Return edges carry neither a reason nor predicates. */
  function ReturnEdge(exit: NodeId, target: NodeId, site: string): Edge {
    Edge(exit, target, Return, site, NoReason, [])
  }

  datatype Fact = Fact(family: string, key: string)

  /** Tabulation works on an unnamed fact; the caller qualifies the witness afterwards. */
  const NO_FACT := Fact("", "")

  datatype Step = Step(edge: Edge, fact: Fact, before: State, after: State, tag: Tag)

  type Witness = seq<Step>

  function Edges(w: Witness): (es: seq<Edge>)
    ensures |es| == |w|
    ensures forall i :: 0 <= i < |w| ==> es[i] == w[i].edge
  {
    seq(|w|, i requires 0 <= i < |w| => w[i].edge)
  }

  lemma EdgesAppend(w: Witness, s: Step)
    ensures Edges(w + [s]) == Edges(w) + [s.edge]
  {
  }

  lemma EdgesConcat(w: Witness, x: Witness)
    ensures Edges(w + x) == Edges(w) + Edges(x)
  {
  }

  /** Every provenance string met along a witness. */
  function Predicates(w: Witness): set<string> {
    set i, p | 0 <= i < |w| && p in w[i].edge.predicates :: p
  }

  function EdgePredicates(es: seq<Edge>): set<string> {
    set i, p | 0 <= i < |es| && p in es[i].predicates :: p
  }

  lemma PredicatesConcat(w: Witness, x: Witness)
    ensures Predicates(w + x) == Predicates(w) + Predicates(x)
  {
    var all := w + x;
    forall p
      ensures p in Predicates(all) <==> p in Predicates(w) + Predicates(x)
    {
      if p in Predicates(w) {
        var i :| 0 <= i < |w| && p in w[i].edge.predicates;
        assert all[i] == w[i];
      }
      if p in Predicates(x) {
        var i :| 0 <= i < |x| && p in x[i].edge.predicates;
        assert all[|w| + i] == x[i];
      }
    }
  }

  /** The states along a witness chain from `first` to `last`. */
  ghost predicate Chained(w: Witness, first: State, last: State) {
    if w == [] then first == last
    else
      && Chained(w[..|w| - 1], first, w[|w| - 1].before)
      && w[|w| - 1].after == last
  }

  lemma ChainedAppend(w: Witness, s: Step, first: State)
    requires Chained(w, first, s.before)
    ensures Chained(w + [s], first, s.after)
  {
    assert (w + [s])[..|w|] == w;
  }

  lemma {:induction false} ChainedConcat(w: Witness, x: Witness, first: State, middle: State, last: State)
    requires Chained(w, first, middle) && Chained(x, middle, last)
    ensures Chained(w + x, first, last)
    decreases |x|
  {
    if x == [] {
      assert w + x == w;
    } else {
      var k := |x| - 1;
      ChainedConcat(w, x[..k], first, middle, x[k].before);
      ChainedAppend(w + x[..k], x[k], first);
      assert w + x == (w + x[..k]) + [x[k]];
    }
  }
}
