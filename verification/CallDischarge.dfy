/**
 How discharging goes wrong at a call: two ways to one call share a single waiting
 dependency, and the one that registered it is the only one a return extends.
 Refuting that one leaves a Safe answer while the other still reaches the violation.
 */
module CallDischarge {
  import opened Options
  import opened ProtocolDomain
  import opened Supergraph
  import opened Runs
  import opened Tables
  import opened TabulationTheory
  import Antichain

  const BEFORE := NodeId("f", 0, 0, 0, CfgNode)
  const CALL := NodeId("f", 1, 0, 0, CallNode)
  const CALLEE := NodeId("g", 0, 0, 0, CfgNode)
  const BACK := NodeId("f", 1, 0, 0, ReturnNode)

  /** Two branches to one call, told apart by their predicates. */
  const BY_P := Edge(BEFORE, CALL, Intra, "", NoReason, ["p"])
  const BY_Q := Edge(BEFORE, CALL, Intra, "", NoReason, ["q"])
  const ENTERS := Edge(CALL, CALLEE, Call, "site", NoReason, [])
  const RETURNS := Edge(CALLEE, BACK, Return, "site", NoReason, [])

  function Arrive(n: NodeId, s: State): Visit {
    if n == BACK then Violation else Proceed(s, TagIdentity, None)
  }

  function Pass(e: Edge, s: State): Option<Flow> {
    Some(Flow(s, TagIdentity, s))
  }

  /** Nothing changes the state, and whoever comes back from the call violates. */
  const TWO_WAYS := System(
    {BEFORE, CALL, CALLEE, BACK}, {BY_P, BY_Q, ENTERS, RETURNS}, BEFORE, REQUIRED_STATE, Arrive, Pass)

  const CALLER := Entry(BEFORE, REQUIRED_STATE)
  const CALLED := Entry(CALLEE, REQUIRED_STATE)

  const AT_START := Key(CALLER, BEFORE, REQUIRED_STATE, IDENTITY_EDGE)
  const AT_CALL := Key(CALLER, CALL, REQUIRED_STATE, IDENTITY_EDGE)
  const AT_CALLEE := Key(CALLED, CALLEE, REQUIRED_STATE, IDENTITY_EDGE)
  const AT_BACK := Key(CALLER, BACK, REQUIRED_STATE, IDENTITY_EDGE)

  const OPEN := Frame("site", CALLER, IDENTITY_EDGE)

  function Stay(e: Edge): Step {
    Step(e, NO_FACT, REQUIRED_STATE, REQUIRED_STATE, TagIdentity)
  }

  const WAITING := DepKey(CALLED, CALLEE, CALLER, "site", BACK, IDENTITY_EDGE)
  const FINISHED := SumKey(CALLED, CALLEE, REQUIRED_STATE, IDENTITY_EDGE)

  const TRAIL_P: Witness := [Stay(BY_P)]
  const TRAIL_Q: Witness := [Stay(BY_Q)]
  const TRAIL_IN: Witness := [Stay(BY_P), Stay(ENTERS)]
  const TRAIL_BACK: Witness := [Stay(BY_P), Stay(ENTERS), Stay(RETURNS)]

  /** The table of a run that met the branch with `p` first. */
  const FINISHED_TABLE := Table(
    map[AT_START := map[[] := [0]],
        AT_CALL := map[TRAIL_P := [0, 1], TRAIL_Q := [0, 1]],
        AT_CALLEE := map[[] := [0]],
        AT_BACK := map[TRAIL_BACK := [0, 1, 0, 1]]],
    [],
    map[WAITING := Dependency([0, 1, 0], TRAIL_IN)],
    map[FINISHED := Summary([0], [], REQUIRED_STATE, TagIdentity)],
    None, None,
    map[], [], [])

  /** The witness through `p`, discharged. */
  const REFUTED := Token([0, 1, 0, 1], TRAIL_BACK, BACK, UnsafeCandidate)

  lemma NothingChanges()
    ensures IDENTITY_EDGE.Then(TagIdentity) == IDENTITY_EDGE
    ensures IDENTITY_EDGE.ThenSummary(IDENTITY_EDGE) == IDENTITY_EDGE
    ensures TransitionTag(REQUIRED_STATE, REQUIRED_STATE) == TagIdentity
  {
  }

  lemma OnlyCalleeReturns(n: NodeId)
    ensures HasReturn(TWO_WAYS, n) <==> n == CALLEE
  {
    assert RETURNS in TWO_WAYS.edges;
  }

  lemma Moves()
    ensures Move(TWO_WAYS, Config(AT_START, []), BY_P) == Some(Config(AT_CALL, []))
    ensures Move(TWO_WAYS, Config(AT_START, []), BY_Q) == Some(Config(AT_CALL, []))
    ensures Move(TWO_WAYS, Config(AT_CALL, []), ENTERS) == Some(Config(AT_CALLEE, [OPEN]))
    ensures Move(TWO_WAYS, Config(AT_CALLEE, [OPEN]), RETURNS) == Some(Config(AT_BACK, []))
  {
    NothingChanges();
    OnlyCalleeReturns(BEFORE);
    OnlyCalleeReturns(CALL);
    OnlyCalleeReturns(CALLEE);
    assert [] + [OPEN] == [OPEN] && [OPEN][..0] == [];
  }

  lemma StepsAreSound()
    ensures StepSound(TWO_WAYS, Stay(BY_P)) && StepSound(TWO_WAYS, Stay(BY_Q))
    ensures StepSound(TWO_WAYS, Stay(ENTERS)) && StepSound(TWO_WAYS, Stay(RETURNS))
  {
    NothingChanges();
  }

  /** One more sound step of a traced walk. */
  lemma OneMore(entry: Entry, w: Witness, c: Config, e: Edge, d: Config)
    requires Traces(TWO_WAYS, entry, w, c) && Move(TWO_WAYS, c, e) == Some(d)
    requires StepSound(TWO_WAYS, Stay(e)) && c.key.state == d.key.state == REQUIRED_STATE
    ensures Traces(TWO_WAYS, entry, w + [Stay(e)], d)
  {
    hide Move, StepSound;
    TracesAppend(TWO_WAYS, entry, w, c, Stay(e), d);
  }

  lemma Walks()
    ensures Traces(TWO_WAYS, CALLER, [], Config(AT_START, [])) && Traces(TWO_WAYS, CALLED, [], Config(AT_CALLEE, []))
    ensures Traces(TWO_WAYS, CALLER, TRAIL_P, Config(AT_CALL, []))
            && Traces(TWO_WAYS, CALLER, TRAIL_Q, Config(AT_CALL, []))
    ensures Traces(TWO_WAYS, CALLER, TRAIL_IN, Config(AT_CALLEE, [OPEN]))
    ensures Traces(TWO_WAYS, CALLER, TRAIL_BACK, Config(AT_BACK, []))
  {
    assert EntryKey(CALLER) == AT_START && EntryKey(CALLED) == AT_CALLEE;
    assert Traces(TWO_WAYS, CALLER, [], Config(AT_START, [])) && Traces(TWO_WAYS, CALLED, [], Config(AT_CALLEE, []));
    Moves();
    StepsAreSound();
    assert [] + [Stay(BY_P)] == TRAIL_P && [] + [Stay(BY_Q)] == TRAIL_Q;
    assert TRAIL_P + [Stay(ENTERS)] == TRAIL_IN && TRAIL_IN + [Stay(RETURNS)] == TRAIL_BACK;
    hide Move, StepSound, Traces;
    OneMore(CALLER, [], Config(AT_START, []), BY_P, Config(AT_CALL, []));
    OneMore(CALLER, [], Config(AT_START, []), BY_Q, Config(AT_CALL, []));
    OneMore(CALLER, TRAIL_P, Config(AT_CALL, []), ENTERS, Config(AT_CALLEE, [OPEN]));
    OneMore(CALLER, TRAIL_IN, Config(AT_CALLEE, [OPEN]), RETURNS, Config(AT_BACK, []));
  }

  lemma EntriesReached()
    ensures EntryReached(TWO_WAYS, CALLER) && EntryReached(TWO_WAYS, CALLED)
    ensures ReachesKey(TWO_WAYS, AT_CALL)
  {
    Walks();
    assert EntryKey(CALLED) == AT_CALLEE && EntryKey(CALLER) == AT_START && Initial(TWO_WAYS) == Config(AT_START, []);
    hide Move, StepSound, Run;
    assert Run(TWO_WAYS, Initial(TWO_WAYS), Edges(TRAIL_IN)) == Some(Config(AT_CALLEE, [OPEN]));
    assert Run(TWO_WAYS, Initial(TWO_WAYS), Edges(TRAIL_P)) == Some(Config(AT_CALL, []));
    assert Run(TWO_WAYS, Initial(TWO_WAYS), Edges([])) == Some(Config(AT_START, []));
  }

  /** Only this return edge matches the call, so only this dependency waits. */
  lemma OneRegistration(k: Key, e: Edge, r: Edge, d: DepKey)
    ensures RegistersAt(TWO_WAYS, k, e, r, d) && k == AT_CALL ==> d == WAITING
    ensures RegistersAt(TWO_WAYS, AT_CALL, ENTERS, RETURNS, WAITING)
  {
    NothingChanges();
    OnlyCalleeReturns(CALL);
  }

  /** The block paths of the witnesses. */
  lemma PathsFit()
    ensures PathFits(CALLER, [0], []) && PathFits(CALLED, [0], [])
    ensures PathFits(CALLER, [0, 1], TRAIL_P) && PathFits(CALLER, [0, 1], TRAIL_Q)
    ensures PathFits(CALLER, [0, 1, 0, 1], TRAIL_BACK)
  {
    EmptyPathFits(CALLER);
    EmptyPathFits(CALLED);
    assert [] + [Stay(BY_P)] == TRAIL_P && [] + [Stay(BY_Q)] == TRAIL_Q;
    assert TRAIL_P + [Stay(ENTERS)] == TRAIL_IN && TRAIL_IN + [Stay(RETURNS)] == TRAIL_BACK;
    hide PathFits;
    PathGrows(CALLER, [0], [], Stay(BY_P));
    PathGrows(CALLER, [0], [], Stay(BY_Q));
    PathGrows(CALLER, [0, 1], TRAIL_P, Stay(ENTERS));
    PathGrows(CALLER, [0, 1, 0], TRAIL_IN, Stay(RETURNS));
  }

  lemma PathsAreSound(k: Key, w: Witness)
    requires w in KeptAt(FINISHED_TABLE, k)
    ensures PathSound(TWO_WAYS, k, w) && PathFits(k.entry, FINISHED_TABLE.retained[k][w], w)
  {
    Walks();
    EntriesReached();
    PathsFit();
    hide Traces, EntryReached, PathFits;
    assert k == AT_START || k == AT_CALL || k == AT_CALLEE || k == AT_BACK;
    assert AT_START != AT_CALL && AT_START != AT_BACK && AT_CALL != AT_BACK && AT_CALLEE != AT_BACK;
  }

  lemma WaitingIsSound()
    ensures DepSound(TWO_WAYS, WAITING, TRAIL_IN)
  {
    Walks();
    EntriesReached();
    OneRegistration(AT_CALL, ENTERS, RETURNS, WAITING);
    hide Traces, RegistersAt, ReachesKey, EntryReached;
    assert DepReached(TWO_WAYS, WAITING);
  }

  lemma FinishedIsSound()
    ensures SumSound(TWO_WAYS, FINISHED, Summary([0], [], REQUIRED_STATE, TagIdentity))
  {
    Walks();
    EntriesReached();
    NothingChanges();
    OnlyCalleeReturns(CALLEE);
    hide Traces, EntryReached;
    assert SumSoundFrom(TWO_WAYS, FINISHED, Summary([0], [], REQUIRED_STATE, TagIdentity), AT_CALLEE);
  }

  lemma TableIsSound()
    ensures Sound(TWO_WAYS, FINISHED_TABLE)
  {
    WaitingIsSound();
    FinishedIsSound();
    hide DepSound, SumSound, PathSound;
    forall k, w | w in KeptAt(FINISHED_TABLE, k)
      ensures PathSound(TWO_WAYS, k, w) && PathFits(k.entry, FINISHED_TABLE.retained[k][w], w)
    {
      PathsAreSound(k, w);
    }
  }

  lemma CallIsFollowed(w: Witness)
    ensures EdgesDone(TWO_WAYS, FINISHED_TABLE, AT_CALL, w, IDENTITY_EDGE, REQUIRED_STATE, TWO_WAYS.edges)
  {
    NothingChanges();
    assert CoveredAt(FINISHED_TABLE, AT_CALLEE, []) by {
      assert Antichain.Subsumes([], []);
    }
    forall r, d | RegistersAt(TWO_WAYS, AT_CALL, ENTERS, r, d)
      ensures d in FINISHED_TABLE.dependencies.Keys
    {
      OneRegistration(AT_CALL, ENTERS, r, d);
    }
    hide RegistersAt;
    forall e | e in TWO_WAYS.edges && e.from == CALL && e.kind != Return
      ensures EdgeDone(TWO_WAYS, FINISHED_TABLE, AT_CALL, w, e, IDENTITY_EDGE, REQUIRED_STATE)
    {
      assert e == ENTERS;
    }
  }

  lemma StartIsFollowed()
    ensures EdgesDone(TWO_WAYS, FINISHED_TABLE, AT_START, [], IDENTITY_EDGE, REQUIRED_STATE, TWO_WAYS.edges)
  {
    NothingChanges();
    forall e | e in TWO_WAYS.edges && e.from == BEFORE && e.kind != Return
      ensures EdgeDone(TWO_WAYS, FINISHED_TABLE, AT_START, [], e, IDENTITY_EDGE, REQUIRED_STATE)
    {
      assert e == BY_P || e == BY_Q;
      var longer := if e == BY_P then TRAIL_P else TRAIL_Q;
      assert Extended(AT_START, [], e, Flow(REQUIRED_STATE, TagIdentity, REQUIRED_STATE)) == longer;
      assert longer in KeptAt(FINISHED_TABLE, AT_CALL) && Antichain.Subsumes(longer, longer);
    }
  }

  /** Nothing waits, nothing is missing, and nothing is complained of. */
  lemma TableIsFinished()
    ensures Saturated(TWO_WAYS, {REFUTED}, FINISHED_TABLE) && NoComplaint(FINISHED_TABLE)
  {
    TableIsSound();
    NothingChanges();
    StartIsFollowed();
    CallIsFollowed(TRAIL_P);
    CallIsFollowed(TRAIL_Q);
    OnlyCalleeReturns(BEFORE);
    OnlyCalleeReturns(CALL);
    OnlyCalleeReturns(CALLEE);
    hide Sound, EdgesDone, HasReturn;
    forall k, w | w in KeptAt(FINISHED_TABLE, k)
      ensures Expanded(TWO_WAYS, {REFUTED}, FINISHED_TABLE, k, w, KeptAt(FINISHED_TABLE, k)[w])
    {
      assert k == AT_START || k == AT_CALL || k == AT_CALLEE || k == AT_BACK;
    }
    assert Paired(FINISHED_TABLE, {}) by {
      assert ReturnKey(WAITING, FINISHED) == AT_BACK;
      assert TRAIL_IN + [] + [Stay(RETURNS)] == TRAIL_BACK;
      assert TRAIL_BACK in KeptAt(FINISHED_TABLE, AT_BACK) && Antichain.Subsumes(TRAIL_BACK, TRAIL_BACK);
      assert Returned(FINISHED_TABLE, WAITING, FINISHED);
    }
    assert CoveredAt(FINISHED_TABLE, AT_START, []) by {
      assert [] in KeptAt(FINISHED_TABLE, AT_START) && Antichain.Subsumes([], []);
    }
  }

  const OTHER_WAY: seq<Edge> := [BY_Q, ENTERS, RETURNS]

  /** The other way through the call, all along. */
  lemma OtherWayRuns()
    ensures Run(TWO_WAYS, Initial(TWO_WAYS), OTHER_WAY) == Some(Config(AT_BACK, []))
  {
    Moves();
    hide Move;
    var start := Initial(TWO_WAYS);
    assert start == Config(AT_START, []) && Run(TWO_WAYS, start, []) == Some(start);
    RunAppend(TWO_WAYS, start, [], BY_Q);
    RunAppend(TWO_WAYS, start, [] + [BY_Q], ENTERS);
    RunAppend(TWO_WAYS, start, [] + [BY_Q] + [ENTERS], RETURNS);
    assert [] + [BY_Q] + [ENTERS] + [RETURNS] == OTHER_WAY;
  }

  /** The table gives it away: through `q` and back nothing is kept that does without `p`. */
  lemma NothingRecombined()
    ensures !Recombined(TWO_WAYS, FINISHED_TABLE)
  {
    OneRegistration(AT_CALL, ENTERS, RETURNS, WAITING);
    OnlyCalleeReturns(CALLEE);
    NothingChanges();
    assert PublishesAt(TWO_WAYS, AT_CALLEE, FINISHED);
    hide RegistersAt, PublishesAt;
    assert ReturnsThrough(TWO_WAYS, FINISHED_TABLE, AT_CALL, TRAIL_Q, ENTERS, WAITING, AT_CALLEE, [], FINISHED);
    var asked := Predicates(TRAIL_Q) + EdgePredicates([ENTERS]) + Predicates([]);
    assert "p" !in asked by {
      assert "p"[0] != "q"[0];
    }
    assert "p" in TRAIL_BACK[0].edge.predicates && "p" in Predicates(TRAIL_BACK);
    assert ReturnKey(WAITING, FINISHED) == AT_BACK;
    assert !KeptWithin(FINISHED_TABLE, AT_BACK, asked);
  }

  /**
   Safe is justified although a run violates whose predicates have nothing to do
   with those of the discharged witness.
   */
  lemma DischargeHidesAnotherWitness()
    ensures JustifiedSafe(TWO_WAYS, {REFUTED}) && PlainReturns(TWO_WAYS)
    ensures Run(TWO_WAYS, Initial(TWO_WAYS), OTHER_WAY) == Some(Config(AT_BACK, []))
    ensures TWO_WAYS.visit(BACK, REQUIRED_STATE).Violation?
    ensures "p" in Predicates(REFUTED.trail) && "p" !in EdgePredicates(OTHER_WAY) && !Excused({REFUTED}, OTHER_WAY)
  {
    TableIsFinished();
    OtherWayRuns();
    hide Saturated, Run;
    assert "p" in REFUTED.trail[0].edge.predicates;
    assert "p" != "q" by {
      assert "p"[0] != "q"[0];
    }
    assert forall i :: 0 <= i < |OTHER_WAY| ==> "p" !in OTHER_WAY[i].predicates;
  }
}
