/**
 End to end: when refining a complaint ends Safe on a table that recombines its
 witnesses, no run of the last graph analysed to a violating or doubtful configuration
 is feasible.

 An override may resolve call targets, so each rerun has a graph of its own. A run is
 feasible when one valuation satisfies the prefix of the fact's origin and every
 predicate written on the run's edges.
 */
module RefinementSoundness {
  import opened Options
  import opened ProtocolDomain
  import opened Supergraph
  import opened Constraints
  import opened Evidence
  import opened WitnessFormulas
  import opened Refinement
  import Conditions
  import Runs
  import Antichain
  import CallDischarge
  import Tables
  import Tabulation
  import TabulationTheory

  ghost predicate FeasibleRun(s: Settings, origin: seq<int>, v: Valuation, es: seq<Edge>) {
    && Holds(s.reading, v, s.extraction.prefix(origin))
    && SatisfiesTexts(s.reading, v, s.extraction.decode, EdgePredicates(es))
  }

  /** What a Safe rerun leaves: a finished table of its own graph without a complaint. */
  ghost predicate RerunFinished(sys: Runs.System, o: Override, t: Tables.Table) {
    Tables.Saturated(sys, TokensOf(o.discharged), t) && TabulationTheory.NoComplaint(t)
  }

  /** What the tabulator guarantees of reruns, each on the graph its override leads to. */
  ghost predicate RerunsTabulate(s: Settings, systems: Override -> Runs.System, tables: Override -> Tables.Table) {
    forall o :: s.rerun(o).result.outcome == Tables.Safe ==> RerunFinished(systems(o), o, tables(o))
  }

  /** A result that repeats what the system says on some run, and that was not discharged. */
  ghost predicate Found(sys: Runs.System, o: Override, r: Tables.PathResult) {
    Tables.ResultSound(sys, r) && !Tables.WasDischarged(TokensOf(o.discharged), r)
  }

  predicate NotFinished(reason: Reason) {
    reason == Timeout || reason == StateBudget || reason == WitnessBudget || reason == UnresolvedTarget
  }

  /** One rerun, as the analyses make it: the override's state limit if it has one, and its discharges. */
  method Rerun(sys: Runs.System, maxStates: int, clock: nat -> bool, order: Antichain.Order, smaller: Antichain.Order,
               o: Override)
    returns (c: Candidate, ghost t: Tables.Table, ghost bound: nat)
    requires TabulationTheory.PlainReturns(sys)
    ensures bound == if o.maxStates > 0 then o.maxStates else if maxStates > 0 then maxStates else 20000
    ensures c.hashed <==> c.result.path != []
    ensures c.result.outcome == Tables.Safe ==> RerunFinished(sys, o, t)
    ensures c.hashed && c.result.trail == [] ==> |c.result.path| == 1
    ensures c.result.outcome == Tables.Unsafe ==> Found(sys, o, c.result)
    ensures c.result.outcome == Tables.Inconclusive ==> Found(sys, o, c.result) || NotFinished(c.result.reason)
  {
    hide Tables.Saturated, Tables.ResultSound, Tables.WasDischarged, TabulationTheory.JustifiedSafe;
    hide TabulationTheory.PlainReturns, Runs.ReachesViolation, Runs.ReachesDoubt, TokensOf, Tables.KeepsTheBest;
    hide Tabulation.Crowded, Tables.Reportable;
    var limit := if o.maxStates > 0 then o.maxStates else maxStates;
    var tabulator := new Tabulation.Tabulator(sys, limit, TokensOf(o.discharged), clock, order, smaller, false);
    var result, _ := tabulator.Propagate();
    c, t, bound := Candidate(result, result.path != []), tabulator.View(), tabulator.limit;
  }

  /**
   The token named for a candidate is the one the tabulation asks for at exactly this
   complaint: this witness, this path, this node, and what the system says there.
   */
  lemma TokenNamesComplaint(sys: Runs.System, s: Settings, c: Candidate)
    requires Tables.ResultSound(sys, c.result) && Tables.ComplaintsNamed(sys)
    ensures TokenOf(s, c)
            == Tables.Token(c.result.path, c.result.trail, c.result.terminal, Tables.ComplaintOf(c.result))
    ensures forall r :: Tables.WasDischarged({TokenOf(s, c)}, r) <==>
                        && r.path == c.result.path && r.trail == c.result.trail && r.terminal == c.result.terminal
                        && Tables.ComplaintOf(r) == Tables.ComplaintOf(c.result)
    ensures exists k :: Tables.ResultSoundAt(sys, c.result, k) && Says(sys, k, Tables.ComplaintOf(c.result))
  {
    var k :| Tables.ResultSoundAt(sys, c.result, k);
    assert Says(sys, k, Tables.ComplaintOf(c.result));
  }

  /** What the system says at the end of a run, as the tabulation asks about it. */
  ghost predicate Says(sys: Runs.System, k: Runs.Key, trigger: Tables.Trigger) {
    var v := sys.visit(k.node, k.state);
    match trigger
    case UnsafeCandidate => v.Violation?
    case Uncertain(reason) => v == Runs.Halt(reason) || (v.Proceed? && v.doubt == Some(reason))
  }

  /**
   Two refutations are one discharge exactly when they are about the same witness, or the same
   record where there is no hash, refute the same alternatives, and by the same certificate.
   */
  lemma SameDischargeExactly(s: Settings, a: Candidate, x: Option<Decision>, b: Candidate, y: Option<Decision>)
    requires DischargeOf(s, a, x).Some? && DischargeOf(s, b, y).Some?
    ensures DischargeOf(s, a, x) == DischargeOf(s, b, y) <==>
            && a.hashed == b.hashed
            && (if a.hashed then TokenOf(s, a) == TokenOf(s, b) else RecordOf(s, a) == RecordOf(s, b))
            && SameUpToOrder(FormulaFor(s, a), FormulaFor(s, b))
            && x.value.certificate == y.value.certificate
  {
    NormalizeCanonical(FormulaFor(s, a), FormulaFor(s, b));
    hide SameUpToOrder, Normalize, FormulaFor, TokenOf, RecordOf;
  }

  /**
   The discharge of a hashed candidate names its token to the rerun, and a complaint that the
   rerun finds was not discharged for it: what is refuted does not come back.
   */
  lemma RefutedNeverReturns(sys: Runs.System, s: Settings, o: Override, c: Candidate, d: Option<Decision>,
                            next: Candidate)
    requires c.hashed && DischargeOf(s, c, d).Some? && DischargeOf(s, c, d) in o.discharged
    requires Found(sys, o, next.result) && Tables.ComplaintsNamed(sys)
    ensures TokenOf(s, c) in TokensOf(o.discharged) && TokenOf(s, next) !in TokensOf(o.discharged)
    ensures TokenOf(s, next) != TokenOf(s, c)
  {
    assert DischargeOf(s, c, d).value.base == WitnessBase(TokenOf(s, c));
    TokenNamesComplaint(sys, s, next);
  }

  /** Every candidate is about the same origin, and a hashed one without edges covers a single block. */
  ghost predicate CandidateFits(s: Settings, origin: seq<int>, c: Candidate) {
    && OriginPath(RecordOf(s, c)) == origin
    && (c.hashed && c.result.trail == [] ==> |EffectivePath(s, c)| < 2)
  }

  ghost predicate CandidatesFit(s: Settings, origin: seq<int>, log: Log) {
    forall i :: 0 <= i < |log.asked| ==> CandidateFits(s, origin, log.asked[i].0)
  }

  /** No formula asked about spells one value in two ways or holds a text that is parsed for another number. */
  ghost predicate TextsAreCanonical(s: Settings, log: Log) {
    forall i :: 0 <= i < |log.asked| ==> CanonicalTexts(s.reading, FormulaFor(s, log.asked[i].0))
  }

  /** A path of at most one block has no predicates. */
  ghost predicate ShortPathsAreFree(s: Settings) {
    forall p :: |p| < 2 ==> s.extraction.suffix(p) == TRUE_FORMULA
  }

  /** A witness with a certificate is on no feasible run, and nor is any run with its predicates. */
  lemma RefutedWitnessExcludesRuns(s: Settings, origin: seq<int>, c: Candidate, cert: Certificate, v: Valuation,
                                   es: seq<Edge>)
    requires Certifies(s.reading, FormulaFor(s, c), RecordOf(s, c).path, cert)
             && CanonicalTexts(s.reading, FormulaFor(s, c))
    requires CandidateFits(s, origin, c) && c.hashed && ShortPathsAreFree(s)
    requires Predicates(c.result.trail) <= EdgePredicates(es)
    ensures !FeasibleRun(s, origin, v, es)
  {
    CanonicalTextsSuffice(s.reading, FormulaFor(s, c), RecordOf(s, c).path, cert);
    CertifiedIsUnsatisfiable(s.reading, FormulaFor(s, c), RecordOf(s, c).path, cert);
    if FeasibleRun(s, origin, v, es) {
      Conditions.TrivialMeaning(s.reading, v);
      FormulaMeaning(s.reading, v, s.extraction, RecordOf(s, c));
      assert SatisfiesRecord(s.reading, v, s.extraction, RecordOf(s, c));
      assert Satisfiable(s.reading, FormulaFor(s, c));
    }
  }

  lemma DischargeNames(s: Settings, c: Candidate, d: Option<Decision>)
    requires DischargeOf(s, c, d).Some? && Admissible(s, c, d)
    ensures d.Some? && d.value.certificate.Some?
    ensures Certifies(s.reading, FormulaFor(s, c), RecordOf(s, c).path, d.value.certificate.value)
    ensures var base := DischargeOf(s, c, d).value.base; base.WitnessBase? ==>
              c.hashed && base.token.trail == c.result.trail
  {
    hide Certifies, FormulaFor;
  }

  lemma EarnedTokenRefuted(s: Settings, log: Log, discharged: set<Option<Discharge>>, token: Tables.Token)
    returns (i: nat)
    requires AllEarned(s, log, discharged) && token in TokensOf(discharged)
    ensures i < |log.asked| && log.asked[i].0.hashed && log.asked[i].0.result.trail == token.trail
    ensures log.asked[i].1.Some? && log.asked[i].1.value.certificate.Some?
    ensures Certifies(s.reading, FormulaFor(s, log.asked[i].0), RecordOf(s, log.asked[i].0).path,
                      log.asked[i].1.value.certificate.value)
  {
    hide Certifies, FormulaFor, RecordOf, DischargeOf, Admissible;
    var k :| k in discharged && k.Some? && k.value.base.WitnessBase? && k.value.base.token == token;
    assert Earned(s, log, k);
    i :| 0 <= i < |log.asked| && k.Some? && k == DischargeOf(s, log.asked[i].0, log.asked[i].1)
         && Admissible(s, log.asked[i].0, log.asked[i].1);
    DischargeNames(s, log.asked[i].0, log.asked[i].1);
  }

  /**
   The promise of refinement. A Safe outcome of the loop means that every run that
   reaches a violation or a doubt is infeasible, calls or not, provided the last
   table recombines its witnesses. Without calls it always does.
   */
  lemma RefinedSafeIsSafe(s: Settings, systems: Override -> Runs.System, tables: Override -> Tables.Table,
                          origin: seq<int>, log: Log, outcome: Candidate, report: Report,
                          es: seq<Edge>, end: Runs.Config, v: Valuation)
    requires FailsClosed(s, log, outcome, report) && outcome.result.outcome == Tables.Safe
    requires RerunsTabulate(s, systems, tables)
    requires CandidatesFit(s, origin, log) && TextsAreCanonical(s, log) && ShortPathsAreFree(s)
    requires var o := log.overrides[|log.overrides| - 1];
             var sys := systems(o);
             && TabulationTheory.Recombined(sys, tables(o))
             && Runs.Run(sys, Runs.Initial(sys), es) == Some(end)
             && (sys.visit(end.key.node, end.key.state).Violation?
                 || Runs.Doubts(sys.visit(end.key.node, end.key.state)))
    ensures !FeasibleRun(s, origin, v, es)
  {
    hide Certifies, CanonicalTexts, Tables.Saturated, TabulationTheory.Recombined, FeasibleRun, Runs.Run;
    var o := log.overrides[|log.overrides| - 1];
    assert RerunFinished(systems(o), o, tables(o));
    TabulationTheory.SilentMeansExcused(systems(o), TokensOf(o.discharged), tables(o), es, end);
    var token :| token in TokensOf(o.discharged) && Predicates(token.trail) <= EdgePredicates(es);
    var i := EarnedTokenRefuted(s, log, o.discharged, token);
    RefutedWitnessExcludesRuns(s, origin, log.asked[i].0, log.asked[i].1.value.certificate.value, v, es);
  }

  /**
   Without canonical texts the promise fails: any misjudged pair refutes a witness
   that some value satisfies.
   */
  lemma MisjudgedPairDischargesFeasibleWitness(s: Settings, c: Candidate, left: Atom, right: Atom)
    requires Contradict(s.reading, left, right) && Misjudged(s.reading, left, right)
    requires MeansNumber(s.reading, left) && MeansNumber(s.reading, right)
    requires FormulaFor(s, c) == Formula([[left, right]], false)
    ensures exists d :: Admissible(s, c, Some(d)) && d.verdict == Unsat && DischargeOf(s, c, Some(d)).Some?
    ensures Satisfiable(s.reading, FormulaFor(s, c))
  {
    hide Contradict, Misjudged, MeansNumber, FormulaFor, RecordOf, BaseOf, Satisfiable, Normalize;
    MisjudgedPairIsCertified(s.reading, left, right, RecordOf(s, c).path);
    var cert := Certificate(VERSION, false, RecordOf(s, c).path, [left.subject], [Contradiction(0, left, right)]);
    assert Admissible(s, c, Some(Decision(Unsat, Some(cert))));
    assert DischargeOf(s, c, Some(Decision(Unsat, Some(cert)))).Some?;
  }

  /**
   Where a stored call hides a witness the promise fails: the discharged witness is infeasible, Safe is
   justified, and yet a feasible run violates.
   */
  lemma CallsBreakThePromise(s: Settings, origin: seq<int>, v: Valuation)
    requires s.extraction.decode("p") == FALSE_FORMULA && s.extraction.decode("q") == TRUE_FORMULA
    requires Holds(s.reading, v, s.extraction.prefix(origin))
    ensures forall u :: !SatisfiesTexts(s.reading, u, s.extraction.decode, Predicates(CallDischarge.REFUTED.trail))
    ensures TabulationTheory.JustifiedSafe(CallDischarge.TWO_WAYS, {CallDischarge.REFUTED})
    ensures var sys := CallDischarge.TWO_WAYS;
            exists end :: Runs.Run(sys, Runs.Initial(sys), CallDischarge.OTHER_WAY) == Some(end)
                          && sys.visit(end.key.node, end.key.state).Violation?
    ensures FeasibleRun(s, origin, v, CallDischarge.OTHER_WAY)
  {
    CallDischarge.DischargeHidesAnotherWitness();
    hide TabulationTheory.JustifiedSafe, Runs.Run;
    Conditions.TrivialMeaning(s.reading, v);
    forall u
      ensures !SatisfiesTexts(s.reading, u, s.extraction.decode, Predicates(CallDischarge.REFUTED.trail))
    {
      Conditions.TrivialMeaning(s.reading, u);
      assert "p" in Predicates(CallDischarge.REFUTED.trail);
    }
    forall p | p in EdgePredicates(CallDischarge.OTHER_WAY)
      ensures Holds(s.reading, v, s.extraction.decode(p))
    {
      assert p == "q";
    }
  }
}
