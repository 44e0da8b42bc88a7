/**
 How the protocol analysis decides at a node and along an edge, as a system that
 the tabulator can run; and what the composed edge functions say about a run.

 The node and edge transfers, the terminal and sink tests and the pruning test
 come from Go syntax and types; here they are parameters.
 */
module Protocol {
  import opened Options
  import opened ProtocolDomain
  import opened Supergraph
  import opened Runs
  import opened Tables
  import opened TabulationTheory

  datatype SinkPolicy = SinkPolicy(
    unresolvedIdentityAtSink: bool,
    mustAliasUncertaintyAtSink: bool,
    terminalCanObserve: bool)

  datatype Analysis = Analysis(
    transfer: (NodeId, State) -> (Tag, Reason),
    terminalUnsafe: (NodeId, State) -> bool,
    unresolvedCallRelevant: (NodeId, State) -> bool,
    sink: NodeId -> bool,
    policy: SinkPolicy,
    edgeTransfer: (Edge, State) -> (Tag, Reason),
    prunes: (Edge, State) -> bool)

  function AfterNode(a: Analysis, n: NodeId, s: State): State {
    var (tag, reason) := a.transfer(n, s);
    Transfer(tag, s).WithUncertainty(reason)
  }

  /** A transfer that fails with a reason that has no effect stops the path. */
  predicate Stuck(a: Analysis, n: NodeId, s: State) {
    var (_, reason) := a.transfer(n, s);
    reason != NoReason && EffectsOf(reason) == {}
  }

  predicate TerminalCanObserve(a: Analysis, n: NodeId) {
    || a.terminalUnsafe(n, REQUIRED_STATE)
    || a.terminalUnsafe(n, FAILED_STATE)
    || a.terminalUnsafe(n, ESCAPED_STATE)
    || a.terminalUnsafe(n, CONSUMED_STATE)
  }

  predicate UnresolvedCallReason(reason: Reason) {
    reason == UnresolvedTarget || reason == CallMapping || reason == Reflection || reason == UnsafePackage
  }

  function QueryIdentity(a: Analysis, n: NodeId, after: State): Identity {
    var reason := after.PathReason();
    var raised :=
      if a.policy.unresolvedIdentityAtSink && a.sink(n) && UnresolvedCallReason(reason)
      then after.identity.Join(UnknownIdentity) else after.identity;
    if a.policy.mustAliasUncertaintyAtSink && a.sink(n) && reason != NoReason && raised == MustAlias
    then MayAlias else raised
  }

  /** Recorded uncertainty that could change the answer where it can still be observed. */
  predicate RelevantDoubt(a: Analysis, returning: bool, n: NodeId, after: State) {
    var identity := QueryIdentity(a, n, after);
    && after.PathReason() != NoReason
    && (a.sink(n) || (a.policy.terminalCanObserve && !returning && TerminalCanObserve(a, n)))
    && identity != Unrelated
    && after.effects != {}
    && if !after.IsProven() then identity.Rank() >= MayAlias.Rank()
       else after.effects * {MayMutate, MayReplace, MayEscape, MayConsume, MayConstrain} != {}
  }

  /** An unproven obligation on a definite identity: no uncertainty can excuse it. */
  predicate Definite(after: State) {
    !after.IsProven() && after.identity.Rank() < MayAlias.Rank()
  }

  function Classify(a: Analysis, returning: bool, n: NodeId, s: State): Visit {
    var (tag, reason) := a.transfer(n, s);
    if reason != NoReason && EffectsOf(reason) == {} then Halt(reason)
    else
      var after := Transfer(tag, s).WithUncertainty(reason);
      if Definite(after) && a.terminalUnsafe(n, after) then Violation
      else if RelevantDoubt(a, returning, n, after) then Proceed(after, tag, Some(after.PathReason()))
      else if a.terminalUnsafe(n, after) then Violation
      else Proceed(after, tag, None)
  }

  function FollowProtocol(a: Analysis, e: Edge, after: State): Option<Flow> {
    if a.prunes(e, after) then None
    else
      var (tag, reason) := a.edgeTransfer(e, after);
      var moved := Transfer(tag, after).WithUncertainty(reason);
      var next :=
        if e.kind == CallToReturn && e.reason != NoReason && a.unresolvedCallRelevant(e.from, after)
        then moved.WithUncertainty(e.reason) else moved;
      Some(Flow(moved, tag, next))
  }

  predicate Returning(edges: set<Edge>, n: NodeId) {
    exists e :: e in edges && e.from == n && e.kind == Return
  }

  function ProtocolSystem(a: Analysis, nodes: set<NodeId>, edges: set<Edge>, start: NodeId, initial: State): System {
    System(nodes, edges, start, initial,
           (n, s) => Classify(a, Returning(edges, n), n, s),
           (e, s) => FollowProtocol(a, e, s))
  }

  /**
   Safe, in the analysis' own terms: on no realizable run is a transfer stuck, an
   unsafe terminal met, or a relevant uncertainty left over; and the other way.
   */
  lemma SafeMeansClean(a: Analysis, nodes: set<NodeId>, edges: set<Edge>, start: NodeId, initial: State)
    ensures var sys := ProtocolSystem(a, nodes, edges, start, initial);
            !ReachesViolation(sys) && !ReachesDoubt(sys) <==>
            forall k :: ReachesKey(sys, k) ==>
              && !Stuck(a, k.node, k.state)
              && !a.terminalUnsafe(k.node, AfterNode(a, k.node, k.state))
              && !RelevantDoubt(a, Returning(edges, k.node), k.node, AfterNode(a, k.node, k.state))
  {
    var sys := ProtocolSystem(a, nodes, edges, start, initial);
    if ReachesViolation(sys) {
      var k :| ReachesKey(sys, k) && sys.visit(k.node, k.state).Violation?;
      assert a.terminalUnsafe(k.node, AfterNode(a, k.node, k.state));
    }
    if ReachesDoubt(sys) {
      var k :| ReachesKey(sys, k) && Doubts(sys.visit(k.node, k.state));
      assert Stuck(a, k.node, k.state) ||
             RelevantDoubt(a, Returning(edges, k.node), k.node, AfterNode(a, k.node, k.state));
    }
    if !ReachesViolation(sys) && !ReachesDoubt(sys) {
      forall k | ReachesKey(sys, k)
        ensures !Stuck(a, k.node, k.state)
        ensures !a.terminalUnsafe(k.node, AfterNode(a, k.node, k.state))
        ensures !RelevantDoubt(a, Returning(edges, k.node), k.node, AfterNode(a, k.node, k.state))
      {
        assert !sys.visit(k.node, k.state).Violation? && !Doubts(sys.visit(k.node, k.state));
      }
    }
  }

  /** A stuck transfer and a relevant doubt always say why. */
  lemma ProtocolNamesComplaints(a: Analysis, nodes: set<NodeId>, edges: set<Edge>, start: NodeId, initial: State)
    ensures ComplaintsNamed(ProtocolSystem(a, nodes, edges, start, initial))
  {
  }

  /** A definite violation on a realizable run is reported whatever else was uncertain. */
  lemma DefiniteViolationIsUnsafe(a: Analysis, nodes: set<NodeId>, edges: set<Edge>, start: NodeId, initial: State,
                                  k: Key)
    requires ReachesKey(ProtocolSystem(a, nodes, edges, start, initial), k)
    requires !Stuck(a, k.node, k.state)
    requires Definite(AfterNode(a, k.node, k.state)) && a.terminalUnsafe(k.node, AfterNode(a, k.node, k.state))
    ensures ReachesViolation(ProtocolSystem(a, nodes, edges, start, initial))
  {
    var sys := ProtocolSystem(a, nodes, edges, start, initial);
    assert sys.visit(k.node, k.state).Violation?;
  }

  /** So every finished table without discharges has an unsafe result, however much of it is uncertain. */
  lemma DefiniteViolationIsReported(a: Analysis, nodes: set<NodeId>, edges: set<Edge>, start: NodeId, initial: State,
                                    k: Key, t: Table)
    requires ReachesKey(ProtocolSystem(a, nodes, edges, start, initial), k)
    requires !Stuck(a, k.node, k.state)
    requires Definite(AfterNode(a, k.node, k.state)) && a.terminalUnsafe(k.node, AfterNode(a, k.node, k.state))
    requires Saturated(ProtocolSystem(a, nodes, edges, start, initial), {}, t)
    ensures t.unsafe.Some?
  {
    hide Saturated;
    DefiniteViolationIsUnsafe(a, nodes, edges, start, initial, k);
    ExactOutcome(ProtocolSystem(a, nodes, edges, start, initial), t);
  }

  /** Where nothing returns, a run goes on along exactly the edges that the state at the node does not rule out. */
  lemma TakenUnlessPruned(a: Analysis, nodes: set<NodeId>, edges: set<Edge>, start: NodeId, initial: State, c: Config,
                          e: Edge)
    requires !Returning(edges, c.key.node)
    ensures var sys := ProtocolSystem(a, nodes, edges, start, initial);
            Move(sys, c, e).Some? <==>
            && e in edges && e.from == c.key.node && sys.visit(c.key.node, c.key.state).Proceed?
            && !a.prunes(e, AfterNode(a, c.key.node, c.key.state))
  {
    hide RelevantDoubt, Definite;
  }

  // ---------------------------------------------------------------- edge functions

  /** The composed edge function, applied to where the procedure started, gives the current validation and hazards. */
  predicate Tracks(effect: EdgeFn, from: State, to: State) {
    effect.Apply(from).validation == to.validation && effect.Apply(from).hazards == to.hazards
  }

  lemma ThenTracks(effect: EdgeFn, tag: Tag, from: State, to: State, reason: Reason)
    requires Tracks(effect, from, to)
    ensures Tracks(effect.Then(tag), from, Transfer(tag, to).WithUncertainty(reason))
  {
    var summary := if from.IsRequired() then effect.required else effect.proven;
    assert forall h :: from.hazards + (summary.hazards + {h}) == from.hazards + summary.hazards + {h};
  }

  lemma SummaryTracks(caller: EdgeFn, callee: EdgeFn, from: State, middle: State, to: State)
    requires Tracks(caller, from, middle) && Tracks(callee, middle, to)
    ensures Tracks(caller.ThenSummary(callee), from, to)
  {
    var outer := if from.IsRequired() then caller.required else caller.proven;
    var inner := if middle.IsRequired() then callee.required else callee.proven;
    assert from.hazards + (outer.hazards + inner.hazards) == from.hazards + outer.hazards + inner.hazards;
  }

  ghost predicate AllTracked(c: Config) {
    && Tracks(c.key.effect, c.key.entry.state, c.key.state)
    && forall i :: 0 <= i < |c.stack| ==>
         Tracks(c.stack[i].effect, c.stack[i].caller.state, CalleeOf(c, i).state)
  }

  lemma MoveTracks(a: Analysis, nodes: set<NodeId>, edges: set<Edge>, start: NodeId, initial: State, c: Config, e: Edge,
                   d: Config)
    requires AllTracked(c) && Move(ProtocolSystem(a, nodes, edges, start, initial), c, e) == Some(d)
    ensures AllTracked(d)
  {
    var sys := ProtocolSystem(a, nodes, edges, start, initial);
    var v := sys.visit(c.key.node, c.key.state);
    var (_, reason) := a.transfer(c.key.node, c.key.state);
    ThenTracks(c.key.effect, v.tag, c.key.entry.state, c.key.state, reason);
    var effect := c.key.effect.Then(v.tag);
    if HasReturn(sys, c.key.node) {
      var n := |c.stack| - 1;
      assert CalleeOf(c, n) == c.key.entry;
      SummaryTracks(c.stack[n].effect, effect, c.stack[n].caller.state, c.key.entry.state, v.after);
      forall i | 0 <= i < |d.stack|
        ensures Tracks(d.stack[i].effect, d.stack[i].caller.state, CalleeOf(d, i).state)
      {
        assert d.stack[i] == c.stack[i] && CalleeOf(d, i) == CalleeOf(c, i);
      }
    } else {
      var f := sys.follow(e, v.after).value;
      var (_, edgeReason) := a.edgeTransfer(e, v.after);
      ThenTracks(effect, f.tag, c.key.entry.state, v.after, edgeReason);
      forall i | 0 <= i < |d.stack|
        ensures Tracks(d.stack[i].effect, d.stack[i].caller.state, CalleeOf(d, i).state)
      {
        if i < |c.stack| {
          assert d.stack[i] == c.stack[i] && CalleeOf(d, i) == CalleeOf(c, i);
        }
      }
    }
  }

  /** Through calls, recursion and summaries, edge functions keep to the validation and hazards they summarise. */
  lemma {:induction false} EdgeFunctionsTrackValidation(a: Analysis, nodes: set<NodeId>, edges: set<Edge>,
                                                        start: NodeId, initial: State, es: seq<Edge>, c: Config)
    requires Run(ProtocolSystem(a, nodes, edges, start, initial),
                 Initial(ProtocolSystem(a, nodes, edges, start, initial)), es) == Some(c)
    ensures AllTracked(c)
    decreases |es|
  {
    var sys := ProtocolSystem(a, nodes, edges, start, initial);
    if es != [] {
      var k := |es| - 1;
      var m := Run(sys, Initial(sys), es[..k]).value;
      EdgeFunctionsTrackValidation(a, nodes, edges, start, initial, es[..k], m);
      MoveTracks(a, nodes, edges, start, initial, m, es[k], c);
    }
  }
}
