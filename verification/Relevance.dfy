/**
 Uncertainty along runs: what is recorded on the way is never lost, through calls and
 returns, and at a sink it is reported unless it could not change the answer.
 */
module Relevance {
  import opened Options
  import opened ProtocolDomain
  import opened Supergraph
  import opened Runs
  import opened Protocol

  /** Reasons after which the tracked value may have been changed behind the analysis' back. */
  const DISTURBING: set<Reason> :=
    {ConcurrentMutation, EscapedHeapMutation, AmbiguousIdentity, UnresolvedTarget, CallMapping, Reflection,
     UnsafePackage}

  /** The possible effects are those of the recorded reasons, and the identity is no more certain than they allow. */
  ghost predicate Accounted(s: State) {
    && NoReason !in s.uncertainty
    && (forall x :: x in s.effects <==> exists r :: r in s.uncertainty && x in EffectsOf(r))
    && (forall r :: r in s.uncertainty ==> s.identity.Rank() >= IdentityOf(r).Rank())
  }

  lemma RecordingAccounts(s: State, reason: Reason)
    requires Accounted(s)
    ensures Accounted(s.WithUncertainty(reason))
    ensures s.WithUncertainty(reason).uncertainty == s.uncertainty + ({reason} - {NoReason})
  {
    var after := s.WithUncertainty(reason);
    if reason != NoReason {
      forall x
        ensures x in after.effects <==> exists r :: r in after.uncertainty && x in EffectsOf(r)
      {
        if x in s.effects {
          var r :| r in s.uncertainty && x in EffectsOf(r);
          assert r in after.uncertainty;
        }
        if x in EffectsOf(reason) {
          assert reason in after.uncertainty;
        }
      }
    }
  }

  lemma TransferAccounts(tag: Tag, s: State)
    requires Accounted(s)
    ensures Accounted(Transfer(tag, s))
    ensures Transfer(tag, s).uncertainty == s.uncertainty
  {
    hide EffectsOf;
  }

  // ---------------------------------------------------------------- one state

  /** The node is a sink, or one past which nothing is left but to judge the value. */
  predicate Observed(a: Analysis, returning: bool, n: NodeId) {
    || a.sink(n)
    || (a.policy.terminalCanObserve && !returning
        && exists s :: s in {REQUIRED_STATE, FAILED_STATE, ESCAPED_STATE, CONSUMED_STATE} && a.terminalUnsafe(n, s))
  }

  /** Calls that could not be followed are all that is uncertain. */
  predicate OnlyCallsInDoubt(s: State) {
    s.uncertainty != {} && s.uncertainty <= {Reflection, UnsafePackage, UnresolvedTarget, CallMapping}
  }

  /** It may be another object that gets here, by what was recorded or by what the policy says of sinks. */
  predicate IdentityInDoubt(a: Analysis, n: NodeId, s: State) {
    || s.identity == MayAlias || s.identity == UnknownIdentity
    || (a.sink(n) && a.policy.unresolvedIdentityAtSink && OnlyCallsInDoubt(s))
    || (a.sink(n) && a.policy.mustAliasUncertaintyAtSink && s.identity == MustAlias)
  }

  /**
   Which recorded reasons are reported where the value is observed: on a proven value every
   disturbing one, and on an unproven one those that leave its identity in doubt.
   */
  lemma DoubtExactly(a: Analysis, returning: bool, n: NodeId, after: State)
    requires Accounted(after)
    ensures RelevantDoubt(a, returning, n, after) <==>
            && Observed(a, returning, n)
            && after.uncertainty * DISTURBING != {}
            && (after.IsProven() || IdentityInDoubt(a, n, after))
  {
    DisturbedHasEffects(after);
    CallsAreBlamedLast(after);
    hide Accounted, EffectsOf, IdentityOf, OnlyCallsInDoubt, UnresolvedCallReason;
    if after.uncertainty * DISTURBING != {} {
      var r :| r in after.uncertainty && r in DISTURBING;
      assert after.PathReason() != NoReason;
    }
  }

  /** Effects that matter are possible just when a disturbing reason is recorded, and then the identity is not clear. */
  lemma DisturbedHasEffects(s: State)
    requires Accounted(s)
    ensures s.uncertainty * DISTURBING != {} <==> s.effects != {}
    ensures s.uncertainty * DISTURBING != {} <==>
            s.effects * {MayMutate, MayReplace, MayEscape, MayConsume, MayConstrain} != {}
    ensures s.uncertainty * DISTURBING != {} ==> s.identity != Unrelated
  {
    forall r
      ensures r in DISTURBING <==> MayMutate in EffectsOf(r)
      ensures r in DISTURBING <==> EffectsOf(r) != {}
      ensures r in DISTURBING ==> IdentityOf(r).Rank() >= 1
    {
    }
    hide EffectsOf, IdentityOf;
    if s.uncertainty * DISTURBING != {} {
      var r :| r in s.uncertainty && r in DISTURBING;
      assert MayMutate in EffectsOf(r);
      assert MayMutate in s.effects * {MayMutate, MayReplace, MayEscape, MayConsume, MayConstrain};
    }
    if s.effects != {} {
      var x :| x in s.effects;
      var r :| r in s.uncertainty && x in EffectsOf(r);
      assert r in s.uncertainty * DISTURBING;
    }
  }

  /** A call is named as the reason only when nothing else was recorded. */
  lemma CallsAreBlamedLast(s: State)
    requires NoReason !in s.uncertainty
    ensures UnresolvedCallReason(s.PathReason()) <==> OnlyCallsInDoubt(s)
  {
    if OnlyCallsInDoubt(s) {
      var r :| r in s.uncertainty;
    }
    if UnresolvedCallReason(s.PathReason()) {
      assert s.PathReason() in s.uncertainty;
      forall r | r in s.uncertainty
        ensures r in {Reflection, UnsafePackage, UnresolvedTarget, CallMapping}
      {
        match r
        case NoReason =>
        case Timeout | StateBudget | WitnessBudget | RecursionCycle | FeasibilityUnknown =>
        case MissingSSA | UnsupportedInstruction =>
        case ConcurrentMutation | EscapedHeapMutation | AmbiguousIdentity =>
        case Reflection | UnsafePackage | UnresolvedTarget | CallMapping =>
      }
    }
  }

  // ---------------------------------------------------------------- along runs

  /** The reasons that a step records: its node's, its edge's, and that of a call it passes over. */
  function RecordedBy(a: Analysis, sys: System, m: Config, e: Edge): set<Reason> {
    var (_, atNode) := a.transfer(m.key.node, m.key.state);
    var after := AfterNode(a, m.key.node, m.key.state);
    var (_, onEdge) := a.edgeTransfer(e, after);
    var passedOver := e.kind == CallToReturn && a.unresolvedCallRelevant(e.from, after);
    ({atNode}
     + (if HasReturn(sys, m.key.node) then {} else {onEdge} + if passedOver then {e.reason} else {}))
    - {NoReason}
  }

  lemma StepRecords(a: Analysis, nodes: set<NodeId>, edges: set<Edge>, start: NodeId, initial: State, m: Config,
                    e: Edge, d: Config)
    requires Accounted(m.key.state) && Move(ProtocolSystem(a, nodes, edges, start, initial), m, e) == Some(d)
    ensures Accounted(d.key.state)
    ensures d.key.state.uncertainty
            == m.key.state.uncertainty + RecordedBy(a, ProtocolSystem(a, nodes, edges, start, initial), m, e)
  {
    hide EffectsOf, Accounted, IdentityOf, RelevantDoubt;
    var sys := ProtocolSystem(a, nodes, edges, start, initial);
    var (tag, atNode) := a.transfer(m.key.node, m.key.state);
    TransferAccounts(tag, m.key.state);
    RecordingAccounts(Transfer(tag, m.key.state), atNode);
    if !HasReturn(sys, m.key.node) {
      var after := AfterNode(a, m.key.node, m.key.state);
      var (edgeTag, onEdge) := a.edgeTransfer(e, after);
      TransferAccounts(edgeTag, after);
      RecordingAccounts(Transfer(edgeTag, after), onEdge);
      RecordingAccounts(Transfer(edgeTag, after).WithUncertainty(onEdge), e.reason);
    }
  }

  /** Some step of the run recorded this reason. */
  ghost predicate RecordedOn(a: Analysis, sys: System, es: seq<Edge>, r: Reason) {
    exists i, m :: 0 <= i < |es| && Run(sys, Initial(sys), es[..i]) == Some(m) && r in RecordedBy(a, sys, m, es[i])
  }

  lemma RecordedOnLonger(a: Analysis, sys: System, es: seq<Edge>, r: Reason)
    requires es != [] && Run(sys, Initial(sys), es[..|es| - 1]).Some?
    ensures var k := |es| - 1;
            RecordedOn(a, sys, es, r) <==>
            RecordedOn(a, sys, es[..k], r) || r in RecordedBy(a, sys, Run(sys, Initial(sys), es[..k]).value, es[k])
  {
    hide RecordedBy, Run;
    var k := |es| - 1;
    if i, m :| 0 <= i < k && Run(sys, Initial(sys), es[..k][..i]) == Some(m) && r in RecordedBy(a, sys, m, es[..k][i]) {
      assert es[..k][..i] == es[..i];
      assert Run(sys, Initial(sys), es[..i]) == Some(m) && r in RecordedBy(a, sys, m, es[i]);
    }
    if i, m :| 0 <= i < |es| && Run(sys, Initial(sys), es[..i]) == Some(m) && r in RecordedBy(a, sys, m, es[i]) {
      if i < k {
        assert es[..k][..i] == es[..i] && es[..k][i] == es[i];
      }
    }
  }

  /**
   What is recorded at the end of a run is just what its steps recorded, whatever was called
   and returned from in between; and the identity is no more certain than that allows.
   */
  lemma {:induction false} UncertaintyNeverLost(a: Analysis, nodes: set<NodeId>, edges: set<Edge>, start: NodeId,
                                                initial: State, es: seq<Edge>, c: Config)
    requires var sys := ProtocolSystem(a, nodes, edges, start, initial); Run(sys, Initial(sys), es) == Some(c)
    requires Accounted(initial)
    ensures Accounted(c.key.state)
    ensures forall r :: r in c.key.state.uncertainty <==>
              r in initial.uncertainty || RecordedOn(a, ProtocolSystem(a, nodes, edges, start, initial), es, r)
    ensures c.key.state.uncertainty * DISTURBING != {} ==> c.key.state.identity != Unrelated
    ensures AmbiguousIdentity in c.key.state.uncertainty ==> c.key.state.identity in {MayAlias, UnknownIdentity}
    decreases |es|
  {
    hide Move, RecordedBy;
    var sys := ProtocolSystem(a, nodes, edges, start, initial);
    if es != [] {
      var k := |es| - 1;
      var last := Run(sys, Initial(sys), es[..k]).value;
      UncertaintyNeverLost(a, nodes, edges, start, initial, es[..k], last);
      StepRecords(a, nodes, edges, start, initial, last, es[k], c);
      forall r
        ensures r in c.key.state.uncertainty <==> r in initial.uncertainty || RecordedOn(a, sys, es, r)
      {
        RecordedOnLonger(a, sys, es, r);
      }
    }
    DisturbedHasEffects(c.key.state);
    hide RecordedOn;
    if AmbiguousIdentity in c.key.state.uncertainty {
      assert c.key.state.identity.Rank() >= IdentityOf(AmbiguousIdentity).Rank();
    }
  }

  /**
   A run that was disturbed on its way and comes to a sink with a value that counts as proven,
   or whose identity is in doubt, is never passed over: it is a violation or a doubt, and on a
   proven value a doubt.
   */
  lemma DisturbanceIsReported(a: Analysis, nodes: set<NodeId>, edges: set<Edge>, start: NodeId, initial: State,
                              es: seq<Edge>, c: Config, r: Reason)
    requires Accounted(initial)
    requires var sys := ProtocolSystem(a, nodes, edges, start, initial);
             && Run(sys, Initial(sys), es) == Some(c)
             && r in DISTURBING && RecordedOn(a, sys, es, r)
    requires a.sink(c.key.node)
    ensures var sys := ProtocolSystem(a, nodes, edges, start, initial);
            var after := AfterNode(a, c.key.node, c.key.state);
            && (after.IsProven() ==> ReachesDoubt(sys))
            && (IdentityInDoubt(a, c.key.node, after) ==> ReachesDoubt(sys) || ReachesViolation(sys))
  {
    hide Run, Move, RecordedOn, Accounted, EffectsOf, IdentityOf, Transfer;
    var sys := ProtocolSystem(a, nodes, edges, start, initial);
    UncertaintyNeverLost(a, nodes, edges, start, initial, es, c);
    var (tag, reason) := a.transfer(c.key.node, c.key.state);
    TransferAccounts(tag, c.key.state);
    RecordingAccounts(Transfer(tag, c.key.state), reason);
    var after := AfterNode(a, c.key.node, c.key.state);
    assert r in after.uncertainty * DISTURBING;
    DoubtExactly(a, Returning(edges, c.key.node), c.key.node, after);
    assert c == Config(c.key, c.stack) && ReachesKey(sys, c.key);
    if after.IsProven() {
      assert Doubts(sys.visit(c.key.node, c.key.state));
    } else if IdentityInDoubt(a, c.key.node, after) {
      assert Doubts(sys.visit(c.key.node, c.key.state)) || sys.visit(c.key.node, c.key.state).Violation?;
    }
  }

  /**
   An unsafe report is never a guess: it is made exactly where a run comes to an unsafe terminal
   with a definite obligation, or unobserved, or undisturbed.
   */
  lemma ViolationExactly(a: Analysis, nodes: set<NodeId>, edges: set<Edge>, start: NodeId, initial: State, k: Key)
    requires Accounted(AfterNode(a, k.node, k.state))
    ensures var after := AfterNode(a, k.node, k.state);
            ProtocolSystem(a, nodes, edges, start, initial).visit(k.node, k.state).Violation? <==>
            && !Stuck(a, k.node, k.state) && a.terminalUnsafe(k.node, after)
            && (|| (!after.IsProven() && after.identity in {Unrelated, MustAlias})
                || !Observed(a, Returning(edges, k.node), k.node)
                || after.uncertainty * DISTURBING == {}
                || (!after.IsProven() && !IdentityInDoubt(a, k.node, after)))
  {
    DoubtExactly(a, Returning(edges, k.node), k.node, AfterNode(a, k.node, k.state));
    hide Accounted, RelevantDoubt, IdentityInDoubt, Observed;
  }
}
