/**
 What a return edge cuts off. At a node with a return edge tabulation follows no
 other edge; a plain run may. When the two agree, exactly, and a graph where they
 do not: a violation after such a node is never met.
 */
module PlainRuns {
  import opened Options
  import opened ProtocolDomain
  import opened Supergraph
  import opened Runs
  import Tables
  import TabulationTheory

  /** A move of the graph as it is drawn: a node with return edges may also follow its others. */
  function PlainMove(sys: System, c: Config, e: Edge): Option<Config> {
    if e !in sys.edges || e.from != c.key.node || !sys.visit(c.key.node, c.key.state).Proceed? then None
    else
      var v := sys.visit(c.key.node, c.key.state);
      var effect := c.key.effect.Then(v.tag);
      if e.kind == Return then
        if c.stack == [] then None
        else
          var top := c.stack[|c.stack| - 1];
          if top.site != e.site || e.from.func != c.key.entry.node.func then None
          else Some(Config(Key(top.caller, e.to, v.after, top.effect.ThenSummary(effect)), c.stack[..|c.stack| - 1]))
      else
        match sys.follow(e, v.after)
        case None => None
        case Some(f) =>
          var stack := if e.kind == Call then c.stack + [Frame(e.site, c.key.entry, effect.Then(f.tag))] else c.stack;
          Some(Config(FollowEdge(c.key, e, effect, f), stack))
  }

  function PlainRun(sys: System, c: Config, es: seq<Edge>): Option<Config>
    decreases |es|
  {
    if es == [] then Some(c)
    else
      match PlainRun(sys, c, es[..|es| - 1])
      case None => None
      case Some(m) => PlainMove(sys, m, es[|es| - 1])
  }

  /** An edge that could be followed from here, were it not for a return edge beside it. */
  predicate Dropped(sys: System, k: Key, e: Edge) {
    && e in sys.edges && e.from == k.node && e.kind != Return && HasReturn(sys, k.node)
    && sys.visit(k.node, k.state).Proceed?
    && sys.follow(e, sys.visit(k.node, k.state).after).Some?
  }

  ghost predicate NothingDropped(sys: System) {
    forall k, e :: ReachesKey(sys, k) ==> !Dropped(sys, k, e)
  }

  ghost predicate AllPlainRunsAreRuns(sys: System) {
    forall es :: PlainRun(sys, Initial(sys), es) == Run(sys, Initial(sys), es)
  }

  ghost predicate PlainlyReachesViolation(sys: System) {
    exists es :: PlainRun(sys, Initial(sys), es).Some? &&
                 var k := PlainRun(sys, Initial(sys), es).value.key;
                 sys.visit(k.node, k.state).Violation?
  }

  lemma MovesAgree(sys: System, c: Config, e: Edge)
    ensures PlainMove(sys, c, e) == Move(sys, c, e) <==> !Dropped(sys, c.key, e)
    ensures Dropped(sys, c.key, e) ==> PlainMove(sys, c, e).Some? && Move(sys, c, e).None?
  {
  }

  lemma {:induction false} RunsAgree(sys: System, es: seq<Edge>)
    requires NothingDropped(sys)
    ensures PlainRun(sys, Initial(sys), es) == Run(sys, Initial(sys), es)
    decreases |es|
  {
    hide Move, PlainMove, Dropped;
    if es != [] {
      var k := |es| - 1;
      RunsAgree(sys, es[..k]);
      if Run(sys, Initial(sys), es[..k]).Some? {
        var m := Run(sys, Initial(sys), es[..k]).value;
        assert ReachesKey(sys, m.key);
        MovesAgree(sys, m, es[k]);
      }
    }
  }

  /** A dropped edge ends a plain run that is no run. */
  lemma DroppedSeparates(sys: System, k: Key, e: Edge)
    requires ReachesKey(sys, k) && Dropped(sys, k, e)
    ensures !AllPlainRunsAreRuns(sys)
  {
    hide Move, PlainMove, Dropped;
    var es, stack :| Run(sys, Initial(sys), es) == Some(Config(k, stack));
    MovesAgree(sys, Config(k, stack), e);
    RunAppend(sys, Initial(sys), es, e);
    assert (es + [e])[..|es|] == es;
    if PlainRun(sys, Initial(sys), es) == Run(sys, Initial(sys), es) {
      assert PlainRun(sys, Initial(sys), es + [e]) == PlainMove(sys, Config(k, stack), e);
    }
  }

  /** The runs tabulation covers are all there are, exactly when no run comes to a dropped edge. */
  lemma PlainRunsCovered(sys: System)
    ensures AllPlainRunsAreRuns(sys) <==> NothingDropped(sys)
  {
    hide Dropped, Run, PlainRun;
    if NothingDropped(sys) {
      forall es
        ensures PlainRun(sys, Initial(sys), es) == Run(sys, Initial(sys), es)
      {
        RunsAgree(sys, es);
      }
    } else {
      var k, e :| ReachesKey(sys, k) && Dropped(sys, k, e);
      DroppedSeparates(sys, k, e);
    }
  }

  /** A finished table shows it: its keys are the reached ones. */
  lemma DroppedShowsInTable(sys: System, t: Tables.Table)
    requires Tables.Saturated(sys, {}, t)
    ensures NothingDropped(sys) <==> forall k, e :: Tables.KeptAt(t, k) != map[] ==> !Dropped(sys, k, e)
  {
    hide Dropped, Tables.Saturated, Tables.KeptAt;
    forall k
      ensures Tables.KeptAt(t, k) != map[] <==> ReachesKey(sys, k)
    {
      TabulationTheory.ExactKeys(sys, t, k);
    }
  }

  /** Then a finished table is unsafe exactly when a plain run violates. */
  lemma PlainViolationsReported(sys: System, t: Tables.Table)
    requires NothingDropped(sys) && Tables.Saturated(sys, {}, t)
    ensures t.unsafe.Some? <==> PlainlyReachesViolation(sys)
  {
    TabulationTheory.ExactOutcome(sys, t);
    hide Dropped, Run, PlainRun, Tables.Saturated;
    if ReachesViolation(sys) {
      var k :| ReachesKey(sys, k) && sys.visit(k.node, k.state).Violation?;
      var es, stack :| Run(sys, Initial(sys), es) == Some(Config(k, stack));
      RunsAgree(sys, es);
    }
    if PlainlyReachesViolation(sys) {
      var es :| PlainRun(sys, Initial(sys), es).Some? &&
        var k := PlainRun(sys, Initial(sys), es).value.key;
        sys.visit(k.node, k.state).Violation?;
      RunsAgree(sys, es);
      var c := Run(sys, Initial(sys), es).value;
      assert Run(sys, Initial(sys), es) == Some(Config(c.key, c.stack));
      assert ReachesKey(sys, c.key);
    }
  }

  // ---------------------------------------------------------------- a violation that is never met

  const CALL_SITE := NodeId("f", 0, 0, 0, CallNode)
  const BACK := NodeId("f", 0, 0, 0, ReturnNode)
  const FIRST := NodeId("g", 0, 0, 0, CfgNode)
  const LATER := NodeId("g", 3, 0, 0, CfgNode)

  const ENTERS := Edge(CALL_SITE, FIRST, Call, "site", NoReason, [])
  const RETURNS := ReturnEdge(FIRST, BACK, "site")
  const GOES_ON := Edge(FIRST, LATER, Intra, "", NoReason, [])
  const RETURNS_LATER := ReturnEdge(LATER, BACK, "site")

  /**
   The callee's first block has only empty direct successors, so it is an exit; past
   them comes a last block, which is an exit too, and violates.
   */
  const CUT_SHORT := System(
    {CALL_SITE, BACK, FIRST, LATER}, {ENTERS, RETURNS, GOES_ON, RETURNS_LATER}, CALL_SITE, REQUIRED_STATE,
    (n: NodeId, s: State) => if n == LATER then Violation else Proceed(s, TagIdentity, None),
    (e: Edge, s: State) => Some(Flow(s, TagIdentity, s)))

  lemma FirstReturns()
    ensures HasReturn(CUT_SHORT, FIRST) && !HasReturn(CUT_SHORT, CALL_SITE)
  {
    assert RETURNS in CUT_SHORT.edges;
  }

  /** No run gets past the first block of the callee. */
  lemma {:induction false} NeverLater(es: seq<Edge>)
    ensures var c := Run(CUT_SHORT, Initial(CUT_SHORT), es); c.Some? ==> c.value.key.node != LATER
    decreases |es|
  {
    if es != [] {
      NeverLater(es[..|es| - 1]);
      FirstReturns();
    }
  }

  /** A plain run violates in the callee; no run of the tabulated kind does, and one comes to a dropped edge. */
  lemma ViolationCutOff()
    ensures PlainlyReachesViolation(CUT_SHORT) && !ReachesViolation(CUT_SHORT)
    ensures !NothingDropped(CUT_SHORT) && TabulationTheory.PlainReturns(CUT_SHORT)
  {
    FirstReturns();
    var start := Initial(CUT_SHORT);
    var inside := Move(CUT_SHORT, start, ENTERS).value;
    assert Run(CUT_SHORT, start, []) == Some(start) && PlainRun(CUT_SHORT, start, []) == Some(start);
    assert [ENTERS][..0] == [] && [ENTERS, GOES_ON][..1] == [ENTERS];
    assert Run(CUT_SHORT, start, [ENTERS]) == Some(inside) == PlainRun(CUT_SHORT, start, [ENTERS]);
    assert PlainMove(CUT_SHORT, inside, GOES_ON).Some?;
    assert PlainRun(CUT_SHORT, start, [ENTERS, GOES_ON]) == PlainMove(CUT_SHORT, inside, GOES_ON);
    assert Run(CUT_SHORT, start, [ENTERS]) == Some(Config(inside.key, inside.stack));
    assert ReachesKey(CUT_SHORT, inside.key) && Dropped(CUT_SHORT, inside.key, GOES_ON);
    if ReachesViolation(CUT_SHORT) {
      var k :| ReachesKey(CUT_SHORT, k) && CUT_SHORT.visit(k.node, k.state).Violation?;
      var es, stack :| Run(CUT_SHORT, start, es) == Some(Config(k, stack));
      NeverLater(es);
    }
  }
}
