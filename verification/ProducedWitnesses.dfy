/**
 The witnesses tabulation stores, put through replay: on a well-bracketed graph
 they meet every clause except, possibly, that one tag explains each step; and
 when edges themselves change no state, they meet that one too.
 */
module ProducedWitnesses {
  import opened Options
  import opened ProtocolDomain
  import opened Supergraph
  import opened Runs
  import opened Tables
  import opened TabulationTheory
  import Antichain
  import Protocol
  import Replay

  /** `r` is a return edge for the call edge `e`: the same site, out of the procedure called. */
  predicate Brackets(e: Edge, r: Edge) {
    e.kind == Call && r.kind == Return && r.site == e.site && r.from.func == e.to.func
  }

  /** What supergraph construction guarantees about sites and procedures. */
  ghost predicate WellBracketed(sys: System) {
    && sys.start in sys.nodes
    && (forall e :: e in sys.edges ==>
          e.from in sys.nodes && e.to in sys.nodes && (e.site == "" <==> e.kind == Intra))
    && (forall e :: e in sys.edges && (e.kind == Intra || e.kind == CallToReturn) ==> e.from.func == e.to.func)
    && (forall e, r :: e in sys.edges && r in sys.edges && Brackets(e, r) ==> r.to.func == e.from.func)
  }

  function GraphOf(sys: System): Replay.Graph {
    Replay.Graph(sys.nodes, sys.edges, _ => true)
  }

  /** The witness as reported: every step named after the caller's fact. */
  function Qualify(w: Witness, fact: Fact): (q: Witness)
    ensures |q| == |w|
    ensures forall i :: 0 <= i < |w| ==> q[i] == w[i].(fact := fact)
  {
    seq(|w|, i requires 0 <= i < |w| => w[i].(fact := fact))
  }

  // ---------------------------------------------------------------- the two stacks

  /** The replay frame of an open call: who called whom, from where. */
  ghost predicate FramesAgree(c: Config, frames: seq<Replay.CallFrame>) {
    && |frames| == |c.stack|
    && c.key.node.func == c.key.entry.node.func
    && (forall i :: 0 <= i < |frames| ==>
          frames[i] == Replay.CallFrame(c.stack[i].site, c.stack[i].caller.node.func, CalleeOf(c, i).node.func))
  }

  /** The open call was made along a call edge of the graph. */
  ghost predicate CalledFrom(sys: System, frame: Frame, callee: Entry) {
    exists e :: e in sys.edges && e.kind == Call && e.site == frame.site
                && e.from.func == frame.caller.node.func && e.to.func == callee.node.func
  }

  /** Every open call was. */
  ghost predicate FramesCalled(sys: System, c: Config) {
    forall i :: 0 <= i < |c.stack| ==> CalledFrom(sys, c.stack[i], CalleeOf(c, i))
  }

  lemma CalleesAfterCall(c: Config, d: Config, frame: Frame)
    requires d.stack == c.stack + [frame] && frame.caller == c.key.entry
    ensures forall i :: 0 <= i < |c.stack| ==> CalleeOf(d, i) == CalleeOf(c, i)
    ensures CalleeOf(d, |c.stack|) == d.key.entry
  {
  }

  lemma CalleesAfterReturn(c: Config, d: Config)
    requires c.stack != [] && d.stack == c.stack[..|c.stack| - 1] && d.key.entry == c.stack[|c.stack| - 1].caller
    ensures forall i :: 0 <= i < |d.stack| ==> CalleeOf(d, i) == CalleeOf(c, i)
    ensures CalleeOf(c, |c.stack| - 1) == c.key.entry
  {
  }

  lemma CallFrames(sys: System, c: Config, frames: seq<Replay.CallFrame>, e: Edge, d: Config)
    requires WellBracketed(sys) && FramesAgree(c, frames) && FramesCalled(sys, c)
    requires Move(sys, c, e) == Some(d) && e.kind == Call
    ensures FramesAgree(d, frames + [Replay.FrameOf(e)]) && FramesCalled(sys, d)
  {
    CalleesAfterCall(c, d, d.stack[|c.stack|]);
    forall i | 0 <= i < |d.stack|
      ensures CalledFrom(sys, d.stack[i], CalleeOf(d, i))
    {
      if i < |c.stack| {
        assert d.stack[i] == c.stack[i];
      } else {
        assert e in sys.edges && e.site == d.stack[i].site;
      }
    }
  }

  lemma ReturnFrames(sys: System, c: Config, frames: seq<Replay.CallFrame>, e: Edge, d: Config)
    requires WellBracketed(sys) && FramesAgree(c, frames) && FramesCalled(sys, c)
    requires Move(sys, c, e) == Some(d) && e.kind == Return
    ensures frames != [] && Replay.Ends(frames[|frames| - 1], e)
    ensures FramesAgree(d, frames[..|frames| - 1]) && FramesCalled(sys, d)
  {
    var n := |c.stack| - 1;
    CalleesAfterReturn(c, d);
    var x :| x in sys.edges && x.kind == Call && x.site == c.stack[n].site
             && x.from.func == c.stack[n].caller.node.func && x.to.func == CalleeOf(c, n).node.func;
    assert Brackets(x, e);
    forall i | 0 <= i < |d.stack|
      ensures CalledFrom(sys, d.stack[i], CalleeOf(d, i))
    {
      assert d.stack[i] == c.stack[i];
    }
  }

  lemma PlainFrames(sys: System, c: Config, frames: seq<Replay.CallFrame>, e: Edge, d: Config)
    requires WellBracketed(sys) && FramesAgree(c, frames) && FramesCalled(sys, c)
    requires Move(sys, c, e) == Some(d) && e.kind != Return && e.kind != Call
    ensures FramesAgree(d, frames) && FramesCalled(sys, d)
  {
    assert d.stack == c.stack && d.key.entry == c.key.entry;
    hide CalledFrom;
    forall i | 0 <= i < |d.stack|
      ensures CalledFrom(sys, d.stack[i], CalleeOf(d, i))
    {
      assert CalleeOf(d, i) == CalleeOf(c, i) && d.stack[i] == c.stack[i];
    }
  }

  lemma MoveFrames(sys: System, c: Config, w: Witness, k: nat, d: Config)
    requires WellBracketed(sys) && k < |w| && Replay.StackAfter(w, k).Some?
    requires FramesAgree(c, Replay.StackAfter(w, k).value) && FramesCalled(sys, c)
    requires Move(sys, c, w[k].edge) == Some(d)
    ensures Replay.StackAfter(w, k + 1).Some? && FramesAgree(d, Replay.StackAfter(w, k + 1).value)
            && FramesCalled(sys, d)
  {
    hide FramesAgree, FramesCalled, WellBracketed, Move;
    var e := w[k].edge;
    var frames := Replay.StackAfter(w, k).value;
    match e.kind
    case Call => CallFrames(sys, c, frames, e, d);
    case Return => ReturnFrames(sys, c, frames, e, d);
    case Intra => PlainFrames(sys, c, frames, e, d);
    case CallToReturn => PlainFrames(sys, c, frames, e, d);
  }

  lemma MoveEnds(sys: System, c: Config, e: Edge, d: Config)
    requires Move(sys, c, e) == Some(d)
    ensures e in sys.edges && e.from == c.key.node && e.to == d.key.node
  {
  }

  lemma {:induction false} RunFrames(sys: System, start: Config, w: Witness, n: nat, c: Config)
    requires WellBracketed(sys) && n <= |w|
    requires start.stack == [] && start.key.node == start.key.entry.node
    requires Run(sys, start, Edges(w)[..n]) == Some(c)
    ensures Replay.StackAfter(w, n).Some? && FramesAgree(c, Replay.StackAfter(w, n).value) && FramesCalled(sys, c)
    ensures n > 0 ==> c.key.node == w[n - 1].edge.to && w[n - 1].edge in sys.edges
    ensures n < |w| && Run(sys, start, Edges(w)[..n + 1]).Some? ==> w[n].edge.from == c.key.node
  {
    hide WellBracketed, Move;
    if n < |w| && Run(sys, start, Edges(w)[..n + 1]).Some? {
      assert Edges(w)[..n + 1] == Edges(w)[..n] + [w[n].edge];
      RunAppend(sys, start, Edges(w)[..n], w[n].edge);
      MoveEnds(sys, c, w[n].edge, Run(sys, start, Edges(w)[..n + 1]).value);
    }
    if n > 0 {
      var k := n - 1;
      assert Edges(w)[..n] == Edges(w)[..k] + [w[k].edge];
      RunAppend(sys, start, Edges(w)[..k], w[k].edge);
      var m := Run(sys, start, Edges(w)[..k]).value;
      MoveEnds(sys, m, w[k].edge, c);
      RunFrames(sys, start, w, k, m);
      MoveFrames(sys, m, w, k, c);
    }
  }

  // ---------------------------------------------------------------- the other clauses

  lemma {:induction false} ChainedLinks(w: Witness, first: State, last: State, i: nat)
    requires Chained(w, first, last) && 0 < i < |w|
    ensures w[i - 1].after == w[i].before
    decreases |w|
  {
    if i < |w| - 1 {
      ChainedLinks(w[..|w| - 1], first, w[|w| - 1].before, i);
    }
  }

  lemma StackIgnoresFact(w: Witness, fact: Fact, n: nat)
    requires n <= |w|
    ensures Replay.StackAfter(Qualify(w, fact), n) == Replay.StackAfter(w, n)
  {
  }

  lemma EdgesPrefix(w: Witness)
    ensures Edges(w)[..|w|] == Edges(w)
  {
  }

  lemma EntryInGraph(sys: System, entry: Entry)
    requires WellBracketed(sys) && EntryReached(sys, entry)
    ensures entry.node in sys.nodes
  {
    var es, stack :| Run(sys, Initial(sys), es) == Some(Config(EntryKey(entry), stack));
    if es != [] {
      var e := es[|es| - 1];
      assert e in sys.edges;
    }
  }

  ghost predicate TagsExplain(w: Witness) {
    forall i :: 0 <= i < |w| ==> TransferMatches(Transfer(w[i].tag, w[i].before), w[i].after)
  }

  lemma ProducedSteps(sys: System, k: Key, w: Witness)
    requires WellBracketed(sys) && PathSound(sys, k, w)
    ensures Replay.Connected(w)
    ensures Replay.Bracketed(w, |w|)
    ensures forall i :: 0 <= i < |w| ==> w[i].edge in sys.edges
    ensures k.node in sys.nodes && (w != [] ==> w[|w| - 1].edge.to == k.node)
  {
    var start := Config(EntryKey(k.entry), []);
    EdgesPrefix(w);
    RunFrames(sys, start, w, |w|, Config(k, []));
    Replay.StackMeansBracketed(w, |w|);
    forall i | 0 <= i < |w|
      ensures w[i].edge in sys.edges && (i > 0 ==> Replay.Linked(w[i - 1], w[i]))
    {
      RunPrefix(sys, start, Edges(w), i);
      RunPrefix(sys, start, Edges(w), i + 1);
      RunFrames(sys, start, w, i, Run(sys, start, Edges(w)[..i]).value);
      RunFrames(sys, start, w, i + 1, Run(sys, start, Edges(w)[..i + 1]).value);
      if i > 0 {
        ChainedLinks(w, k.entry.state, k.state, i);
      }
    }
    EntryInGraph(sys, k.entry);
  }

  lemma QualifyKeeps(w: Witness, fact: Fact)
    requires Replay.Connected(w) && Replay.Bracketed(w, |w|)
    ensures Replay.Connected(Qualify(w, fact)) && Replay.Bracketed(Qualify(w, fact), |w|)
  {
    var q := Qualify(w, fact);
    forall i | 0 < i < |q|
      ensures Replay.Linked(q[i - 1], q[i])
    {
      assert Replay.Linked(w[i - 1], w[i]);
    }
    StackIgnoresFact(w, fact, |w|);
    Replay.StackMeansBracketed(w, |w|);
    Replay.StackMeansBracketed(q, |w|);
  }

  /** Every stored witness replays, provided only that its tags explain its steps. */
  lemma ProducedWitnessReplays(sys: System, k: Key, w: Witness, fact: Fact)
    requires WellBracketed(sys) && PathSound(sys, k, w)
    ensures Replay.Realizable(GraphOf(sys), Replay.Claim(fact, Qualify(w, fact), k.node)) <==> TagsExplain(w)
  {
    hide PathSound, Replay.Bracketed, Replay.Connected;
    ProducedSteps(sys, k, w);
    QualifyKeeps(w, fact);
    var g, q := GraphOf(sys), Qualify(w, fact);
    forall i | 0 <= i < |w|
      ensures Replay.Sound(g, fact, q[i]) <==> TransferMatches(Transfer(w[i].tag, w[i].before), w[i].after)
    {
      assert w[i].edge in sys.edges;
    }
    if TagsExplain(w) {
      forall i | 0 <= i < |q|
        ensures Replay.Sound(g, fact, q[i])
      {
        assert TransferMatches(Transfer(w[i].tag, w[i].before), w[i].after);
      }
    }
    if Replay.Realizable(g, Replay.Claim(fact, q, k.node)) {
      forall i | 0 <= i < |w|
        ensures TransferMatches(Transfer(w[i].tag, w[i].before), w[i].after)
      {
        assert Replay.Sound(g, fact, q[i]);
      }
    }
  }

  // ---------------------------------------------------------------- when tags explain steps

  lemma UncertaintyStillMatches(x: State, y: State, r: Reason)
    requires TransferMatches(x, y)
    ensures TransferMatches(x, y.WithUncertainty(r))
  {
  }

  /** The change of state a single transfer can make, uncertainty apart. */
  ghost predicate SimpleChange(before: State, moved: State) {
    && before.uncertainty <= moved.uncertainty
    && before.effects <= moved.effects
    && before.identity.Rank() <= moved.identity.Rank()
    && (moved.validation != before.validation ==> moved.hazards == before.hazards)
    && (moved.hazards != before.hazards ==>
          && before.IsRequired() && moved.result == before.result
          && (|| (Escaped !in before.hazards && moved.hazards == before.hazards + {Escaped})
              || (Consumed !in before.hazards && moved.hazards == before.hazards + {Consumed})))
    && (moved.deferred == DeferredUnknown && before.deferred != DeferredUnknown ==> moved.identity == UnknownIdentity)
  }

  lemma TransferIsSimple(before: State, tag: Tag)
    ensures SimpleChange(before, Transfer(tag, before))
  {
    if Escaped in before.hazards {
      assert before.hazards + {Escaped} == before.hazards;
    }
    if Consumed in before.hazards {
      assert before.hazards + {Consumed} == before.hazards;
    }
  }

  lemma UncertaintyStaysSimple(before: State, moved: State, r: Reason)
    requires SimpleChange(before, moved)
    ensures SimpleChange(before, moved.WithUncertainty(r))
  {
  }

  lemma SimpleChangeExplained(before: State, moved: State)
    requires SimpleChange(before, moved)
    ensures TransferMatches(Transfer(TransitionTag(before, moved), before), moved)
  {
  }

  /** One transfer followed by any uncertainty is explained by the tag computed from its end states. */
  lemma SingleTransferExplained(before: State, tag: Tag, r: Reason, more: Reason)
    ensures var moved := Transfer(tag, before).WithUncertainty(r);
            TransferMatches(Transfer(TransitionTag(before, moved), before), moved.WithUncertainty(more))
  {
    hide Transfer, TransitionTag, TransferMatches, SimpleChange;
    var moved := Transfer(tag, before).WithUncertainty(r);
    TransferIsSimple(before, tag);
    UncertaintyStaysSimple(before, Transfer(tag, before), r);
    SimpleChangeExplained(before, moved);
    UncertaintyStillMatches(Transfer(TransitionTag(before, moved), before), moved, more);
  }

  ghost predicate QuietEdges(a: Protocol.Analysis) {
    forall e, s :: a.edgeTransfer(e, s) == (TagIdentity, NoReason)
  }

  lemma QuietTagsExplain(a: Protocol.Analysis, nodes: set<NodeId>, edges: set<Edge>, start: NodeId, initial: State,
                         w: Witness)
    requires QuietEdges(a) && StepsSound(Protocol.ProtocolSystem(a, nodes, edges, start, initial), w)
    ensures TagsExplain(w)
  {
    var sys := Protocol.ProtocolSystem(a, nodes, edges, start, initial);
    forall i | 0 <= i < |w|
      ensures TransferMatches(Transfer(w[i].tag, w[i].before), w[i].after)
    {
      var s := w[i];
      assert StepSound(sys, s);
      var (tag, reason) := a.transfer(s.edge.from, s.before);
      if s.edge.kind != Return {
        assert a.edgeTransfer(s.edge, sys.visit(s.edge.from, s.before).after) == (TagIdentity, NoReason);
        SingleTransferExplained(s.before, tag, reason, NoReason);
        SingleTransferExplained(s.before, tag, reason, s.edge.reason);
      }
    }
  }

  /** With quiet edges every witness the tabulator stores is accepted by replay. */
  lemma QuietWitnessesReplay(a: Protocol.Analysis, nodes: set<NodeId>, edges: set<Edge>, start: NodeId, initial: State,
                             k: Key, w: Witness, fact: Fact)
    requires QuietEdges(a)
    requires WellBracketed(Protocol.ProtocolSystem(a, nodes, edges, start, initial))
    requires PathSound(Protocol.ProtocolSystem(a, nodes, edges, start, initial), k, w)
    ensures Replay.Verdict(GraphOf(Protocol.ProtocolSystem(a, nodes, edges, start, initial)),
                           Replay.Claim(fact, Qualify(w, fact), k.node)).None?
  {
    var sys := Protocol.ProtocolSystem(a, nodes, edges, start, initial);
    QuietTagsExplain(a, nodes, edges, start, initial, w);
    ProducedWitnessReplays(sys, k, w, fact);
    Replay.AcceptedIffRealizable(GraphOf(sys), Replay.Claim(fact, Qualify(w, fact), k.node));
  }

  // ---------------------------------------------------------------- two transfers in one step

  /** Escapes at the node and validates along the edge; nothing else ever happens. */
  const ESCAPE_THEN_VALIDATE := Protocol.Analysis(
    (_, _) => (TagEscape, NoReason),
    (_, _) => false,
    (_, _) => false,
    _ => false,
    Protocol.SinkPolicy(false, false, false),
    (_, _) => (TagValidate, NoReason),
    (_, _) => false)

  function StepOf(a: NodeId, b: NodeId): Edge {
    Edge(a, b, Intra, "", NoReason, [])
  }

  function TwoNodes(a: NodeId, b: NodeId): System {
    Protocol.ProtocolSystem(ESCAPE_THEN_VALIDATE, {a, b}, {StepOf(a, b)}, a, REQUIRED_STATE)
  }

  const ESCAPED_VALIDATED := Transfer(TagValidate, Transfer(TagEscape, REQUIRED_STATE))

  function DoubleStep(a: NodeId, b: NodeId): Witness {
    [Step(StepOf(a, b), NO_FACT, REQUIRED_STATE, ESCAPED_VALIDATED, TransitionTag(REQUIRED_STATE, ESCAPED_VALIDATED))]
  }

  function DoubleKey(a: NodeId, b: NodeId): Key {
    Key(RootEntry(TwoNodes(a, b)), b, ESCAPED_VALIDATED, IDENTITY_EDGE.Then(TagEscape).Then(TagValidate))
  }

  /** The one step of the run: both transfers, and the edge function of both. */
  lemma DoubleMove(a: NodeId, b: NodeId)
    ensures Move(TwoNodes(a, b), Initial(TwoNodes(a, b)), StepOf(a, b)) == Some(Config(DoubleKey(a, b), []))
    ensures StepSound(TwoNodes(a, b), DoubleStep(a, b)[0])
  {
    var sys := TwoNodes(a, b);
    assert !HasReturn(sys, a);
    assert sys.visit(a, REQUIRED_STATE) == Proceed(Transfer(TagEscape, REQUIRED_STATE), TagEscape, None);
    assert ESCAPED_VALIDATED.WithUncertainty(NoReason) == ESCAPED_VALIDATED;
    assert sys.follow(StepOf(a, b), Transfer(TagEscape, REQUIRED_STATE))
           == Some(Flow(ESCAPED_VALIDATED, TagValidate, ESCAPED_VALIDATED));
  }

  /** Whatever single step is stored for that key is the one with both transfers. */
  lemma OnlyDoubleStep(a: NodeId, b: NodeId, r: Witness)
    requires PathSound(TwoNodes(a, b), DoubleKey(a, b), r) && |r| <= 1
    ensures r == DoubleStep(a, b)
  {
    var sys := TwoNodes(a, b);
    var start := Config(EntryKey(DoubleKey(a, b).entry), []);
    DoubleMove(a, b);
    assert Escaped in ESCAPED_VALIDATED.hazards;
    hide Move;
    assert Run(sys, start, []) == Some(start);
    assert r == [] ==> Edges(r) == [];
    if r != [] {
      assert Edges(r) == [] + [r[0].edge];
      RunAppend(sys, start, [], r[0].edge);
      MoveEnds(sys, start, r[0].edge, Config(DoubleKey(a, b), []));
      assert Chained(r[..0], REQUIRED_STATE, r[0].before);
      assert StepSound(sys, r[0]);
    }
  }

  /** Every finished run over these two nodes keeps this witness. */
  lemma DoubleStepIsStored(a: NodeId, b: NodeId, t: Table)
    requires Saturated(TwoNodes(a, b), {}, t)
    ensures DoubleStep(a, b) in KeptAt(t, DoubleKey(a, b))
  {
    var sys, root := TwoNodes(a, b), EntryKey(RootEntry(TwoNodes(a, b)));
    DoubleMove(a, b);
    var v := sys.visit(a, REQUIRED_STATE);
    var effect := IDENTITY_EDGE.Then(v.tag);
    var f := sys.follow(StepOf(a, b), v.after).value;
    assert [] in KeptAt(t, root);
    SaturatedExpanded(sys, {}, t, root, []);
    assert EdgeDone(sys, t, root, [], StepOf(a, b), effect, v.after);
    var longer := Extended(root, [], StepOf(a, b), f);
    var r :| r in KeptAt(t, DoubleKey(a, b)) && Antichain.Subsumes(r, longer);
    OnlyDoubleStep(a, b, r);
  }

  lemma DoubleStepRefused(a: NodeId, b: NodeId, fact: Fact)
    requires a.func == b.func
    ensures WellBracketed(TwoNodes(a, b))
    ensures Replay.Verdict(GraphOf(TwoNodes(a, b)), Replay.Claim(fact, Qualify(DoubleStep(a, b), fact), b))
            == Some(Replay.ChangedState)
  {
    var sys := TwoNodes(a, b);
    var c := Replay.Claim(fact, Qualify(DoubleStep(a, b), fact), b);
    assert Escaped in ESCAPED_VALIDATED.hazards && Escaped !in Transfer(TagValidate, REQUIRED_STATE).hazards;
    assert Replay.StepFault(GraphOf(sys), c, 0) == Some(Replay.ChangedState);
    assert Replay.FaultFrom(GraphOf(sys), c, 0) == Some(Replay.ChangedState);
  }

  /**
   Two transfers in one step can be beyond any single tag: escaping at the node and
   validating along the edge. Every finished run keeps such a step, and replay refuses it.
   */
  lemma DoubleTransferRefused(a: NodeId, b: NodeId, fact: Fact, t: Table)
    requires a.func == b.func && Saturated(TwoNodes(a, b), {}, t)
    ensures var sys, k, w := TwoNodes(a, b), DoubleKey(a, b), DoubleStep(a, b);
            && WellBracketed(sys) && w in KeptAt(t, k)
            && Replay.Verdict(GraphOf(sys), Replay.Claim(fact, Qualify(w, fact), k.node)) == Some(Replay.ChangedState)
  {
    DoubleStepIsStored(a, b, t);
    hide Saturated, KeptAt, Replay.Verdict;
    DoubleStepRefused(a, b, fact);
  }
}
