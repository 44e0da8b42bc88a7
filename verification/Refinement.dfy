/**
 The refinement loop: ask whether a reported witness is feasible, discharge it if
 its refutation is checked, run the analysis again, under two budgets and a clock.
 It fails closed.

 The backend may answer anything; only the checker is trusted. What a rerun finds
 is a function of its override.
 */
module Refinement {
  import opened Options
  import opened ProtocolDomain
  import opened Supergraph
  import opened Constraints
  import opened Evidence
  import opened WitnessFormulas
  import Tables

  const DEFAULT_ITERATIONS := 3
  const DEFAULT_QUERIES := 16
  const DEFAULT_MAX_STATES := 20000

  /** A path result and whether its caller gave it a witness hash. */
  datatype Candidate = Candidate(result: Tables.PathResult, hashed: bool)

  /** Hashes are injective: a witness hash is the token it identifies, a record hash is the record. */
  datatype Base = WitnessBase(token: Tables.Token) | RecordBase(record: Record)

  /** The discharge token: base hash, formula digest and evidence digest. */
  datatype Discharge = Discharge(base: Base, formula: Formula, certificate: Certificate)

  datatype Override = Override(maxStates: int, discharged: set<Option<Discharge>>, allowSafe: bool,
                               resolveTargets: bool) {
    predicate HasConcreteAction() {
      maxStates > 0 || discharged != {} || resolveTargets
    }
  }

  datatype Settings = Settings(
    iterations: int,
    queries: int,
    reading: Reading,
    extraction: Extraction,
    origin: seq<int>,
    replays: Tables.PathResult -> bool,
    backend: Option<Record -> Decision>,
    rerun: Override -> Candidate)

  datatype Status = Violation | Undecided | DischargedInfeasible

  datatype Note = Evidenced | TimedOut | EvidenceRejected | QueryLimit | IterationLimit

  datatype Report = Report(verdict: Option<Verdict>, note: Note, status: Status, iterations: nat)

  function IterationBudget(s: Settings): nat {
    if s.iterations > 0 then s.iterations else DEFAULT_ITERATIONS
  }

  function QueryBudget(s: Settings): nat {
    if s.queries > 0 then s.queries else DEFAULT_QUERIES
  }

  // ---------------------------------------------------------------- what is asked, and named

  function EffectivePath(s: Settings, c: Candidate): seq<int> {
    if c.result.path != [] then c.result.path else s.origin
  }

  function RecordOf(s: Settings, c: Candidate): (r: Record)
    ensures r.origin == s.origin && r.trail == c.result.trail
    ensures c.result.path != [] ==> r.path == c.result.path
    ensures c.result.path == [] ==> r.path == s.origin
  {
    Record(s.origin, EffectivePath(s, c), c.result.trail)
  }

  function TriggerOf(r: Tables.PathResult): Tables.Trigger {
    if r.outcome == Tables.Unsafe || r.reason == NoReason then Tables.UnsafeCandidate else Tables.Uncertain(r.reason)
  }

  function TokenOf(s: Settings, c: Candidate): Tables.Token {
    Tables.Token(EffectivePath(s, c), c.result.trail, c.result.terminal, TriggerOf(c.result))
  }

  function BaseOf(s: Settings, c: Candidate): Base {
    if c.hashed then WitnessBase(TokenOf(s, c)) else RecordBase(RecordOf(s, c))
  }

  function FormulaFor(s: Settings, c: Candidate): Formula {
    FormulaOf(s.extraction, RecordOf(s, c))
  }

  /** Only an UNSAT decision names a discharge. */
  function DischargeOf(s: Settings, c: Candidate, d: Option<Decision>): Option<Discharge> {
    if d.Some? && d.value.verdict == Unsat && d.value.certificate.Some?
    then Some(Discharge(BaseOf(s, c), Normalize(FormulaFor(s, c)), d.value.certificate.value))
    else None
  }

  /** The tabulation recognises a witness by its hash at the head of a token. */
  function TokensOf(discharged: set<Option<Discharge>>): set<Tables.Token> {
    set k | k in discharged && k.Some? && k.value.base.WitnessBase? :: k.value.base.token
  }

  // ---------------------------------------------------------------- checked decisions

  /** An UNSAT that is let through is certified, for the formula of this witness, on its path. */
  ghost predicate Admissible(s: Settings, c: Candidate, d: Option<Decision>) {
    d.Some? && d.value.verdict == Unsat ==>
      d.value.certificate.Some?
        && Certifies(s.reading, FormulaFor(s, c), RecordOf(s, c).path, d.value.certificate.value)
  }

  /** What the check makes of the backend's answer when time does not run out. */
  ghost function Checked(s: Settings, c: Candidate): Option<Decision> {
    if s.backend.None? then None
    else
      var d := s.backend.value(RecordOf(s, c));
      if Admissible(s, c, Some(d)) then Some(d) else Some(Decision(Unknown, d.certificate))
  }

  /** The production backend: its UNSAT is never turned away by the checker. */
  method AnswerQuery(s: Settings, c: Candidate) returns (d: Decision)
    ensures Admissible(s, c, Some(d))
    ensures d.verdict == Unsat <==> forall x :: x in FormulaFor(s, c).alternatives ==> HasContradiction(s.reading, x)
    ensures d.verdict == Unknown ==> FormulaFor(s, c).unsupported
    ensures d.verdict == Sat ==> !FormulaFor(s, c).unsupported
  {
    hide Certifies;
    var f := ExtractFormula(s.extraction, RecordOf(s, c));
    d := Decide(s.reading, f, RecordOf(s, c).path);
  }

  /** The readings of the clock so far: was one past the deadline, and is the first one. */
  datatype Readings = Readings(overtaken: bool, first: bool)

  /** A clock that may run out at any reading. */
  class Deadline {
    const clock: Option<nat -> bool>
    var ticks: nat

    constructor (clock: Option<nat -> bool>)
      ensures this.clock == clock && ticks == 0
    {
      this.clock := clock;
      ticks := 0;
    }

    /** Some reading from `first` on was past the deadline. */
    ghost predicate Overtaken(first: nat)
      reads `ticks
    {
      clock.Some? && exists i: nat :: first <= i < ticks && clock.value(i)
    }

    ghost function ReadingsFrom(first: nat): Readings
      reads `ticks
    {
      Readings(Overtaken(first), clock.Some? && clock.value(first))
    }

    /** Reads the clock, if there is one, and says what it says. */
    method Reached() returns (expired: bool)
      modifies this
      ensures expired <==> clock.Some? && clock.value(old(ticks))
      ensures ticks == if clock.Some? then old(ticks) + 1 else old(ticks)
      ensures forall first: nat :: first <= old(ticks) ==> (Overtaken(first) <==> old(Overtaken(first)) || expired)
    {
      if clock.None? {
        return false;
      }
      expired := clock.value(ticks);
      ticks := ticks + 1;
    }
  }

  class RefinementCache {
    var attempts: set<Discharge>

    constructor ()
      ensures attempts == {}
    {
      attempts := {};
    }

    /** Each discharge token is admitted once; the empty one never. */
    method Record(key: Option<Discharge>) returns (added: bool)
      modifies this
      ensures added <==> key.Some? && key.value !in old(attempts)
      ensures attempts == old(attempts) + if key.Some? then {key.value} else {}
    {
      if key.None? {
        return false;
      }
      added := key.value !in attempts;
      attempts := attempts + {key.value};
    }
  }

  /** What is noted about a decision that time did not overtake. */
  ghost function CheckedNote(s: Settings, c: Candidate): (note: Note)
    ensures note != TimedOut
  {
    if s.backend.Some? && !Admissible(s, c, Some(s.backend.value(RecordOf(s, c)))) then EvidenceRejected else Evidenced
  }

  /** Asks the backend, and admits its UNSAT only past the checker and within the time. */
  method CheckFeasibility(s: Settings, c: Candidate, deadline: Deadline) returns (d: Option<Decision>, note: Note)
    modifies deadline
    ensures Admissible(s, c, d)
    ensures d.None? <==> s.backend.None?
    ensures d.Some? && d.value.verdict == Sat ==> s.backend.value(RecordOf(s, c)).verdict == Sat
    ensures old(deadline.ticks) <= deadline.ticks
    ensures if deadline.Overtaken(old(deadline.ticks)) then d == Some(Decision(Unknown, None)) && note == TimedOut
            else d == Checked(s, c) && note == CheckedNote(s, c)
    ensures s.backend.Some? && deadline.clock.Some? ==> old(deadline.ticks) < deadline.ticks
  {
    if s.backend.None? {
      return None, Evidenced;
    }
    var expired := deadline.Reached();
    if expired {
      return Some(Decision(Unknown, None)), TimedOut;
    }
    var record := RecordOf(s, c);
    var answer := s.backend.value(record);
    expired := deadline.Reached();
    if expired {
      return Some(Decision(Unknown, None)), TimedOut;
    }
    if answer.verdict == Unsat {
      var f := ExtractFormula(s.extraction, record);
      var accepted := false;
      if answer.certificate.Some? {
        accepted := Check(s.reading, f, record.path, answer.certificate.value);
      }
      expired := deadline.Reached();
      if expired {
        return Some(Decision(Unknown, None)), TimedOut;
      }
      if !accepted {
        return Some(Decision(Unknown, answer.certificate)), EvidenceRejected;
      }
    }
    d, note := Some(answer), Evidenced;
  }

  // ---------------------------------------------------------------- what the loop answers

  function VerdictOf(d: Option<Decision>): Option<Verdict> {
    if d.None? then None else Some(d.value.verdict)
  }

  /** The last word on a candidate that is refined no further. */
  function Closed(c: Candidate, verdict: Option<Verdict>): Tables.Outcome {
    if verdict == Some(Unsat) || verdict == Some(Unknown) then Tables.Inconclusive else c.result.outcome
  }

  function OverrideFor(c: Candidate, discharged: set<Option<Discharge>>): Override {
    var maxStates := if c.result.reason == StateBudget then DEFAULT_MAX_STATES else 0;
    Override(maxStates, discharged, true, c.result.reason == UnresolvedTarget)
  }

  /**
   What refining a candidate comes to when time does not run out: discharge and run
   again as long as the witness is refuted, the refutation is new and both budgets last.
   */
  ghost function Chase(s: Settings, attempts: set<Discharge>, discharged: set<Option<Discharge>>, c: Candidate,
                       iterations: nat, queries: nat):
    Tables.Outcome
    decreases QueryBudget(s) - queries
  {
    var d := Checked(s, c);
    var key := DischargeOf(s, c, d);
    if VerdictOf(d) != Some(Unsat) || iterations >= IterationBudget(s) || queries >= QueryBudget(s)
       || key.None? || key.value in attempts then Closed(c, VerdictOf(d))
    else
      var next := s.rerun(OverrideFor(c, discharged + {key}));
      if next.result.outcome == Tables.Safe then Tables.Safe
      else Chase(s, attempts + {key.value}, discharged + {key}, next, iterations + 1, queries + 1)
  }

  /** What is not refuted, or cannot be tried, stays as it is; what is refuted or unknown ends undecided. */
  lemma ChaseEnds(s: Settings, attempts: set<Discharge>, discharged: set<Option<Discharge>>, c: Candidate,
                  iterations: nat, queries: nat)
    requires var d := Checked(s, c);
             || VerdictOf(d) != Some(Unsat)
             || iterations >= (if s.iterations > 0 then s.iterations else 3)
             || queries >= (if s.queries > 0 then s.queries else 16)
             || DischargeOf(s, c, d).None? || DischargeOf(s, c, d).value in attempts
    ensures Chase(s, attempts, discharged, c, iterations, queries)
            == if VerdictOf(Checked(s, c)) in {None, Some(Sat)} then c.result.outcome else Tables.Inconclusive
  {
    assert VerdictOf(Checked(s, c)) in {None, Some(Sat), Some(Unsat), Some(Unknown)} by {
      if v: Verdict :| VerdictOf(Checked(s, c)) == Some(v) {
        assert v.Sat? || v.Unsat? || v.Unknown?;
      }
    }
  }

  /** What is refuted, for the first time and within both budgets, is run again with the refutation discharged. */
  lemma ChaseTurns(s: Settings, attempts: set<Discharge>, discharged: set<Option<Discharge>>, c: Candidate,
                   iterations: nat, queries: nat, key: Option<Discharge>, next: Candidate)
    requires VerdictOf(Checked(s, c)) == Some(Unsat)
    requires iterations < (if s.iterations > 0 then s.iterations else 3)
    requires queries < (if s.queries > 0 then s.queries else 16)
    requires key == DischargeOf(s, c, Checked(s, c)) && key.Some? && key.value !in attempts
    requires next == s.rerun(Override(if c.result.reason == StateBudget then 20000 else 0, discharged + {key}, true,
                                      c.result.reason == UnresolvedTarget))
    ensures Chase(s, attempts, discharged, c, iterations, queries) ==
            if next.result.outcome == Tables.Safe then Tables.Safe
            else Chase(s, attempts + {key.value}, discharged + {key}, next, iterations + 1, queries + 1)
  {
  }

  /** What the loop did: whom it asked about and what it was told, and the overrides it ran with. */
  datatype Log = Log(asked: seq<(Candidate, Option<Decision>)>, overrides: seq<Override>)

  function Ran(log: Log, override: Override): Log {
    Log(log.asked, log.overrides + [override])
  }

  function AskedAbout(log: Log, c: Candidate, d: Option<Decision>): Log {
    Log(log.asked + [(c, d)], log.overrides)
  }

  function KeysOf(s: Settings, asked: seq<(Candidate, Option<Decision>)>): set<Option<Discharge>> {
    set i | 0 <= i < |asked| :: DischargeOf(s, asked[i].0, asked[i].1)
  }

  /** The candidate the loop holds: the one last asked about, or what the last rerun brought. */
  function Held(s: Settings, log: Log): Candidate
    requires log.asked != []
  {
    if log.overrides == [] || |log.asked| > |log.overrides| then log.asked[|log.asked| - 1].0
    else s.rerun(log.overrides[|log.overrides| - 1])
  }

  /**
   The log is the whole story: it starts with the input, each override discharges everything
   refuted so far, and what is asked about next is what the rerun with it brought.
   */
  ghost predicate Chronicle(s: Settings, input: Candidate, log: Log) {
    && log.asked != [] && log.asked[0].0 == input
    && |log.overrides| <= |log.asked| <= |log.overrides| + 1
    && (forall i :: 0 <= i < |log.overrides| ==>
          log.overrides[i] == OverrideFor(log.asked[i].0, KeysOf(s, log.asked[..i + 1])))
    && (forall i :: 0 < i < |log.asked| ==> log.asked[i].0 == s.rerun(log.overrides[i - 1]))
  }

  lemma KeysMore(s: Settings, asked: seq<(Candidate, Option<Decision>)>, n: nat)
    requires n < |asked|
    ensures KeysOf(s, asked[..n + 1]) == KeysOf(s, asked[..n]) + {DischargeOf(s, asked[n].0, asked[n].1)}
  {
    hide DischargeOf;
    var more := asked[..n + 1];
    forall key
      ensures key in KeysOf(s, more) <==> key in KeysOf(s, asked[..n]) + {DischargeOf(s, asked[n].0, asked[n].1)}
    {
      if key in KeysOf(s, asked[..n]) {
        var i :| 0 <= i < n && key == DischargeOf(s, asked[..n][i].0, asked[..n][i].1);
        assert more[i] == asked[i];
      }
      assert more[n] == asked[n];
    }
  }

  lemma ChronicleStarts(s: Settings, input: Candidate, d: Option<Decision>)
    ensures Chronicle(s, input, Log([(input, d)], [])) && Held(s, Log([(input, d)], [])) == input
    ensures KeysOf(s, [(input, d)][..0]) == {}
  {
  }

  lemma ChronicleRuns(s: Settings, input: Candidate, log: Log, discharged: set<Option<Discharge>>, override: Override)
    requires Chronicle(s, input, log) && |log.asked| == |log.overrides| + 1
    requires discharged == KeysOf(s, log.asked[..|log.overrides|])
    requires var (c, d) := log.asked[|log.overrides|]; override == OverrideFor(c, discharged + {DischargeOf(s, c, d)})
    ensures Chronicle(s, input, Ran(log, override)) && Held(s, Ran(log, override)) == s.rerun(override)
    ensures override.discharged == KeysOf(s, log.asked)
  {
    hide KeysOf, DischargeOf;
    KeysMore(s, log.asked, |log.overrides|);
    assert log.asked[..|log.overrides| + 1] == log.asked;
    hide OverrideFor;
    var more := Ran(log, override);
    forall i | 0 <= i < |more.overrides|
      ensures more.overrides[i] == OverrideFor(more.asked[i].0, KeysOf(s, more.asked[..i + 1]))
    {
      if i < |log.overrides| {
        assert more.overrides[i] == log.overrides[i];
      }
    }
  }

  lemma ChronicleAsks(s: Settings, input: Candidate, log: Log, d: Option<Decision>)
    requires Chronicle(s, input, log) && |log.asked| == |log.overrides|
    ensures var c := Held(s, log); var more := AskedAbout(log, c, d);
            Chronicle(s, input, more) && Held(s, more) == c && more.asked[..|log.overrides|] == log.asked
  {
    hide KeysOf, OverrideFor;
    var more := AskedAbout(log, Held(s, log), d);
    forall i | 0 <= i < |more.overrides|
      ensures more.overrides[i] == OverrideFor(more.asked[i].0, KeysOf(s, more.asked[..i + 1]))
    {
      assert more.asked[..i + 1] == log.asked[..i + 1];
    }
  }

  /** Every discharge stands on a checked refutation of a candidate asked about. */
  ghost predicate Earned(s: Settings, log: Log, key: Option<Discharge>) {
    exists i :: 0 <= i < |log.asked| && key.Some? && key == DischargeOf(s, log.asked[i].0, log.asked[i].1)
                && Admissible(s, log.asked[i].0, log.asked[i].1) && log.asked[i].1.value.verdict == Unsat
  }

  ghost predicate AllEarned(s: Settings, log: Log, discharged: set<Option<Discharge>>) {
    forall k :: k in discharged ==> Earned(s, log, k)
  }

  lemma EarnedStays(s: Settings, log: Log, more: Log, discharged: set<Option<Discharge>>)
    requires AllEarned(s, log, discharged) && log.asked <= more.asked
    ensures AllEarned(s, more, discharged)
  {
    forall k | k in discharged
      ensures Earned(s, more, k)
    {
      var i :| 0 <= i < |log.asked| && k.Some? && k == DischargeOf(s, log.asked[i].0, log.asked[i].1)
                && Admissible(s, log.asked[i].0, log.asked[i].1) && log.asked[i].1.value.verdict == Unsat;
      assert more.asked[i] == log.asked[i];
    }
  }

  lemma EarnedLast(s: Settings, log: Log, discharged: set<Option<Discharge>>, key: Option<Discharge>)
    requires AllEarned(s, log, discharged) && log.asked != []
    requires var (c, d) := log.asked[|log.asked| - 1];
             key.Some? && key == DischargeOf(s, c, d) && Admissible(s, c, d) && d.value.verdict == Unsat
    ensures AllEarned(s, log, discharged + {key})
  {
    assert Earned(s, log, key);
  }

  function LastVerdict(log: Log): Option<Verdict>
    requires log.asked != []
  {
    VerdictOf(log.asked[|log.asked| - 1].1)
  }

  /** The verdict the loop works with: a decision overtaken by the clock counts for nothing. */
  ghost predicate Trusts(d: Option<Decision>, verdict: Option<Verdict>) {
    verdict == VerdictOf(d) || verdict == Some(Unknown)
  }

  /** One question: the decision, overridden to unknown if the time is up. */
  method Ask(s: Settings, c: Candidate, deadline: Deadline)
    returns (d: Option<Decision>, verdict: Option<Verdict>, note: Note, key: Option<Discharge>)
    modifies deadline
    ensures Answered(s, c, d, verdict, note, key)
    ensures old(deadline.ticks) <= deadline.ticks && (deadline.clock.Some? ==> old(deadline.ticks) < deadline.ticks)
    ensures if deadline.Overtaken(old(deadline.ticks)) then verdict == Some(Unknown) && note == TimedOut && key.None?
            else d == Checked(s, c) && note == CheckedNote(s, c) && verdict == VerdictOf(d)
                 && key == DischargeOf(s, c, d)
    ensures deadline.clock.Some? && deadline.clock.value(old(deadline.ticks)) ==>
              deadline.Overtaken(old(deadline.ticks))
    ensures forall first: nat :: first <= old(deadline.ticks) ==>
              (deadline.Overtaken(first) <==> old(deadline.Overtaken(first)) || deadline.Overtaken(old(deadline.ticks)))
  {
    d, note := CheckFeasibility(s, c, deadline);
    verdict, key := VerdictOf(d), DischargeOf(s, c, d);
    var expired := deadline.Reached();
    if expired {
      verdict, note, key := Some(Unknown), TimedOut, None;
    }
  }

  /** Where the loop stands between two turns. */
  ghost predicate Standing(s: Settings, log: Log, before: set<Discharge>, attempts: set<Discharge>,
                           discharged: set<Option<Discharge>>,
                           c: Candidate, d: Option<Decision>, verdict: Option<Verdict>, note: Note,
                           key: Option<Discharge>, iterations: nat) {
    && |log.asked| == iterations + 1 <= QueryBudget(s) && iterations <= IterationBudget(s)
    && log.asked[|log.asked| - 1] == (c, d) && c == Held(s, log)
    && c.result.outcome != Tables.Safe
    && Answered(s, c, d, verdict, note, key)
    && AllEarned(s, log, discharged)
    && |log.overrides| == iterations
    && before <= attempts && |attempts - before| == iterations
  }

  /** What asking about a candidate leaves behind. */
  ghost predicate Answered(s: Settings, c: Candidate, d: Option<Decision>, verdict: Option<Verdict>, note: Note,
                           key: Option<Discharge>) {
    && Admissible(s, c, d) && Trusts(d, verdict)
    && (d.None? <==> s.backend.None?)
    && (verdict == Some(Unsat) ==> key == DischargeOf(s, c, d) && key.Some? && note == Evidenced)
    && (verdict != Some(Unsat) ==> key.None?)
  }

  ghost predicate MayConclude(s: Settings, log: Log, c: Candidate, last: Option<Verdict>, iterations: nat) {
    && 1 <= |log.asked| <= QueryBudget(s) && iterations == |log.overrides| <= IterationBudget(s)
    && c == Held(s, log)
    && (c.result.outcome == Tables.Safe ==> last == Some(Unknown))
    && (last != Some(Unknown) ==> last == LastVerdict(log) && (last.None? <==> s.backend.None?))
  }

  lemma StandingStart(s: Settings, attempts: set<Discharge>, c: Candidate, d: Option<Decision>,
                      verdict: Option<Verdict>, note: Note,
                      key: Option<Discharge>)
    requires c.result.outcome != Tables.Safe && Answered(s, c, d, verdict, note, key)
    ensures Standing(s, Log([(c, d)], []), attempts, attempts, {}, c, d, verdict, note, key, 0)
  {
    assert attempts - attempts == {};
    hide Answered;
  }

  /** Stopping where one stands, or because time is up. */
  lemma StandingStops(s: Settings, log: Log, before: set<Discharge>, attempts: set<Discharge>,
                      discharged: set<Option<Discharge>>,
                      c: Candidate, d: Option<Decision>, verdict: Option<Verdict>, note: Note, key: Option<Discharge>,
                      iterations: nat)
    requires Standing(s, log, before, attempts, discharged, c, d, verdict, note, key, iterations)
    ensures MayConclude(s, log, c, verdict, iterations) && MayConclude(s, log, c, Some(Unknown), iterations)
    ensures before <= attempts && |attempts - before| <= IterationBudget(s) && c.result.outcome != Tables.Safe
    ensures verdict == Some(Unsat) ==> key.Some? && key == DischargeOf(s, c, d) && note == Evidenced
    ensures log.asked != [] && log.asked[|log.asked| - 1] == (c, d)
  {
    hide Admissible, AllEarned, DischargeOf;
  }

  /** After a rerun: its discharges are earned, and one more token is spent. */
  lemma StandingRuns(s: Settings, log: Log, before: set<Discharge>, attempts: set<Discharge>,
                     discharged: set<Option<Discharge>>,
                     c: Candidate, d: Option<Decision>, note: Note, key: Option<Discharge>, iterations: nat,
                     override: Override, next: Candidate)
    requires Standing(s, log, before, attempts, discharged, c, d, Some(Unsat), note, key, iterations)
    requires iterations < IterationBudget(s) && key.value !in attempts && override.discharged == discharged + {key}
    requires next == s.rerun(override)
    ensures AllEarned(s, Ran(log, override), discharged + {key})
    ensures MayConclude(s, Ran(log, override), next, Some(Unknown), iterations + 1)
    ensures before <= attempts + {key.value} && |attempts + {key.value} - before| == iterations + 1
    ensures next.result.outcome == Tables.Safe ==>
              FailsClosed(s, Ran(log, override), next, Report(Some(Unsat), note, DischargedInfeasible, iterations + 1))
  {
    hide Admissible, DischargeOf, AllEarned;
    EarnedLast(s, log, discharged, key);
    EarnedStays(s, log, Ran(log, override), discharged + {key});
    OneMoreAttempt(before, attempts, key.value);
  }

  lemma StandingAsks(s: Settings, log: Log, before: set<Discharge>, attempts: set<Discharge>,
                     discharged: set<Option<Discharge>>,
                     c: Candidate, d: Option<Decision>, verdict: Option<Verdict>, note: Note, key: Option<Discharge>,
                     iterations: nat)
    requires AllEarned(s, log, discharged) && MayConclude(s, log, c, Some(Unknown), iterations)
             && |log.asked| == iterations
    requires before <= attempts && |attempts - before| == iterations && iterations + 1 <= QueryBudget(s)
    requires c.result.outcome != Tables.Safe && Answered(s, c, d, verdict, note, key)
    ensures Standing(s, AskedAbout(log, c, d), before, attempts, discharged, c, d, verdict, note, key, iterations)
  {
    hide Answered, AllEarned;
    EarnedStays(s, log, AskedAbout(log, c, d), discharged);
  }

  function Undecide(c: Candidate): Candidate {
    c.(result := c.result.(outcome := Tables.Inconclusive, reason := FeasibilityUnknown))
  }

  /** How a refinement ended: the candidate held comes back as it is, or undecided and otherwise as it is. */
  ghost predicate FailsClosed(s: Settings, log: Log, outcome: Candidate, report: Report) {
    && 1 <= |log.asked| <= (if s.queries > 0 then s.queries else 16)
    && |log.overrides| <= (if s.iterations > 0 then s.iterations else 3)
    && report.iterations == |log.overrides|
    && outcome.hashed == Held(s, log).hashed
    && outcome.result == (if report.verdict == Some(Unknown)
                          then Held(s, log).result.(outcome := Tables.Inconclusive, reason := FeasibilityUnknown)
                          else Held(s, log).result)
    && (outcome.result.outcome == Tables.Safe ==>
          && |log.overrides| > 0
          && outcome == s.rerun(log.overrides[|log.overrides| - 1])
          && AllEarned(s, log, log.overrides[|log.overrides| - 1].discharged)
          && report == Report(Some(Unsat), Evidenced, DischargedInfeasible, |log.overrides|))
    && (outcome.result.outcome == Tables.Unsafe ==>
          report.status == Violation && report.verdict == LastVerdict(log)
            && (report.verdict == Some(Sat) || report.verdict == None)
          && (report.verdict.None? <==> s.backend.None?))
    && (outcome.result.outcome == Tables.Inconclusive ==> report.status == Undecided)
  }

  lemma OneMoreAttempt(before: set<Discharge>, attempts: set<Discharge>, key: Discharge)
    requires before <= attempts && key !in attempts
    ensures attempts + {key} - before == (attempts - before) + {key}
    ensures |attempts + {key} - before| == |attempts - before| + 1
  {
  }

  /** An input without edges has nothing to replay. */
  predicate Replays(s: Settings, input: Candidate) {
    input.result.trail == [] || s.replays(input.result)
  }

  /** Where the loop is between two turns, and what it has been told about the candidate it holds. */
  datatype Stand = Stand(
    c: Candidate,
    d: Option<Decision>,
    verdict: Option<Verdict>,
    note: Note,
    key: Option<Discharge>,
    discharged: set<Option<Discharge>>,
    iterations: nat)

  /** What a turn comes to: an end, nothing new to try, or another candidate. */
  datatype Step = Ended(outcome: Candidate, report: Report) | Stuck | Next(stand: Stand)

  ghost predicate OnTime(s: Settings, input: Candidate, before: set<Discharge>, attempts: set<Discharge>, st: Stand) {
    && st.d == Checked(s, st.c) && st.note == CheckedNote(s, st.c)
    && st.verdict == VerdictOf(st.d) && st.key == DischargeOf(s, st.c, st.d)
    && Chase(s, attempts, st.discharged, st.c, st.iterations, st.iterations + 1) == Chase(s, before, {}, input, 0, 1)
  }

  ghost predicate Progress(s: Settings, input: Candidate, log: Log, before: set<Discharge>, attempts: set<Discharge>,
                           st: Stand, r: Readings) {
    && Standing(s, log, before, attempts, st.discharged, st.c, st.d, st.verdict, st.note, st.key, st.iterations)
    && Chronicle(s, input, log) && |log.asked| == |log.overrides| + 1 == st.iterations + 1
    && st.discharged == KeysOf(s, log.asked[..st.iterations])
    && (if r.overtaken then st.verdict == Some(Unknown) && st.note == TimedOut
        else OnTime(s, input, before, attempts, st))
    && (r.first ==> r.overtaken && log.overrides == [])
  }

  ghost predicate Final(s: Settings, input: Candidate, log: Log, before: set<Discharge>, attempts: set<Discharge>,
                        outcome: Candidate, report: Report, r: Readings) {
    && FailsClosed(s, log, outcome, report) && Chronicle(s, input, log)
    && (report.note == TimedOut <==> r.overtaken)
    && (if r.overtaken then outcome.result.outcome == Tables.Inconclusive
        else outcome.result.outcome == Chase(s, before, {}, input, 0, 1))
    && (r.first ==> r.overtaken && log.overrides == [])
    && before <= attempts && |attempts - before| <= IterationBudget(s)
  }

  lemma ProgressStarts(s: Settings, input: Candidate, attempts: set<Discharge>, st: Stand, r: Readings)
    requires input.result.outcome != Tables.Safe && st.c == input && st.discharged == {} && st.iterations == 0
    requires Answered(s, input, st.d, st.verdict, st.note, st.key)
    requires if r.overtaken then st.verdict == Some(Unknown) && st.note == TimedOut
             else st.d == Checked(s, st.c) && st.note == CheckedNote(s, st.c) && st.verdict == VerdictOf(st.d)
                  && st.key == DischargeOf(s, st.c, st.d)
    requires r.first ==> r.overtaken
    ensures Progress(s, input, Log([(input, st.d)], []), attempts, attempts, st, r)
  {
    hide Answered, Checked, CheckedNote, Chase, DischargeOf, Standing, Chronicle, KeysOf;
    StandingStart(s, attempts, input, st.d, st.verdict, st.note, st.key);
    ChronicleStarts(s, input, st.d);
  }

  lemma ProgressStops(s: Settings, input: Candidate, log: Log, before: set<Discharge>, attempts: set<Discharge>,
                      st: Stand, r: Readings)
    requires Progress(s, input, log, before, attempts, st, r)
    ensures MayConclude(s, log, st.c, st.verdict, st.iterations)
    ensures MayConclude(s, log, st.c, Some(Unknown), st.iterations)
    ensures before <= attempts && |attempts - before| <= IterationBudget(s) && st.c.result.outcome != Tables.Safe
    ensures Chronicle(s, input, log) && (r.first ==> r.overtaken && log.overrides == [])
    ensures st.verdict == Some(Unsat) ==> st.key == DischargeOf(s, st.c, st.d) && st.key.Some? && st.note == Evidenced
  {
    hide Answered, Checked, CheckedNote, Chase, DischargeOf, Chronicle, KeysOf, Standing, MayConclude;
    StandingStops(s, log, before, attempts, st.discharged, st.c, st.d, st.verdict, st.note, st.key, st.iterations);
  }

  /** Overtaken by the clock, whatever is held ends undecided. */
  lemma TimedOutIsFinal(s: Settings, input: Candidate, log: Log, before: set<Discharge>, attempts: set<Discharge>,
                        outcome: Candidate, report: Report, r: Readings)
    requires FailsClosed(s, log, outcome, report) && Chronicle(s, input, log) && r.overtaken && report.note == TimedOut
    requires outcome.result.outcome == Tables.Inconclusive && (r.first ==> log.overrides == [])
    requires before <= attempts && |attempts - before| <= IterationBudget(s)
    ensures Final(s, input, log, before, attempts, outcome, report, r)
  {
    hide FailsClosed, Chronicle, Chase;
  }

  /** Nothing is left to try: the end is that of the chase, unless the clock overtook it. */
  lemma StoppedIsFinal(s: Settings, input: Candidate, log: Log, before: set<Discharge>, attempts: set<Discharge>,
                       st: Stand, outcome: Candidate, report: Report, r: Readings)
    requires Progress(s, input, log, before, attempts, st, r)
    requires FailsClosed(s, log, outcome, report)
    requires outcome.result.outcome
             == if st.verdict in {None, Some(Sat)} then st.c.result.outcome else Tables.Inconclusive
    requires st.verdict != Some(Unsat) ==> report.note == st.note
    requires st.verdict == Some(Unsat) ==> report.note != TimedOut
    requires || st.verdict != Some(Unsat) || st.iterations >= IterationBudget(s) || st.iterations + 1 >= QueryBudget(s)
             || st.key.None? || st.key.value in attempts
    ensures Final(s, input, log, before, attempts, outcome, report, r)
  {
    ProgressStops(s, input, log, before, attempts, st, r);
    hide FailsClosed, Chronicle, Standing, KeysOf, Checked, CheckedNote, DischargeOf;
    if !r.overtaken {
      ChaseEnds(s, attempts, st.discharged, st.c, st.iterations, st.iterations + 1);
    }
  }

  /** What a rerun that spends a fresh token leaves. */
  ghost predicate RunsOn(s: Settings, input: Candidate, log: Log, before: set<Discharge>, attempts: set<Discharge>,
                         discharged: set<Option<Discharge>>, next: Candidate, iterations: nat) {
    && Chronicle(s, input, log) && next == Held(s, log) && |log.asked| == |log.overrides| == iterations
    && discharged == KeysOf(s, log.asked)
    && AllEarned(s, log, discharged) && MayConclude(s, log, next, Some(Unknown), iterations)
    && before <= attempts && |attempts - before| == iterations <= IterationBudget(s)
    && (next.result.outcome == Tables.Safe ==>
          FailsClosed(s, log, next, Report(Some(Unsat), Evidenced, DischargedInfeasible, iterations)))
  }

  lemma ProgressRuns(s: Settings, input: Candidate, log: Log, before: set<Discharge>, attempts: set<Discharge>,
                     st: Stand, r: Readings, override: Override, next: Candidate)
    requires Progress(s, input, log, before, attempts, st, r) && st.verdict == Some(Unsat)
    requires st.iterations < IterationBudget(s) && st.key.Some? && st.key.value !in attempts
    requires override == OverrideFor(st.c, st.discharged + {st.key}) && next == s.rerun(override)
    ensures RunsOn(s, input, Ran(log, override), before, attempts + {st.key.value}, st.discharged + {st.key}, next,
                   st.iterations + 1)
  {
    ProgressStops(s, input, log, before, attempts, st, r);
    StandingStops(s, log, before, attempts, st.discharged, st.c, st.d, st.verdict, st.note, st.key, st.iterations);
    hide Answered, OnTime, DischargeOf, Chronicle, KeysOf, Standing, MayConclude, AllEarned, FailsClosed, Held;
    hide Checked, CheckedNote, Chase;
    StandingRuns(s, log, before, attempts, st.discharged, st.c, st.d, st.note, st.key, st.iterations, override, next);
    ChronicleRuns(s, input, log, st.discharged, override);
  }

  /** On time, the rest of the chase is that of the candidate the rerun brought. */
  lemma ChaseGoesOn(s: Settings, input: Candidate, before: set<Discharge>, attempts: set<Discharge>, st: Stand,
                    next: Candidate)
    requires OnTime(s, input, before, attempts, st) && st.verdict == Some(Unsat)
    requires st.iterations < IterationBudget(s) && st.iterations + 1 < QueryBudget(s)
    requires st.key.Some? && st.key.value !in attempts && next == s.rerun(OverrideFor(st.c, st.discharged + {st.key}))
    ensures Chase(s, before, {}, input, 0, 1)
            == if next.result.outcome == Tables.Safe then Tables.Safe
               else Chase(s, attempts + {st.key.value}, st.discharged + {st.key}, next, st.iterations + 1,
                          st.iterations + 2)
  {
    hide Checked, DischargeOf, Chase;
    ChaseTurns(s, attempts, st.discharged, st.c, st.iterations, st.iterations + 1, st.key, next);
  }

  lemma ProgressAsks(s: Settings, input: Candidate, log: Log, before: set<Discharge>, attempts: set<Discharge>,
                     st: Stand, r: Readings)
    requires RunsOn(s, input, log, before, attempts, st.discharged, st.c, st.iterations)
    requires st.iterations + 1 <= QueryBudget(s) && st.c.result.outcome != Tables.Safe && !r.first
    requires Answered(s, st.c, st.d, st.verdict, st.note, st.key)
    requires if r.overtaken then st.verdict == Some(Unknown) && st.note == TimedOut
             else OnTime(s, input, before, attempts, st)
    ensures Progress(s, input, AskedAbout(log, st.c, st.d), before, attempts, st, r)
  {
    hide Answered, OnTime, Chronicle, KeysOf, Standing, MayConclude, AllEarned, FailsClosed, Held;
    StandingAsks(s, log, before, attempts, st.discharged, st.c, st.d, st.verdict, st.note, st.key, st.iterations);
    ChronicleAsks(s, input, log, st.d);
  }

  /** After the loop: a refutation nobody could use and an unknown both end undecided. */
  method Conclude(s: Settings, ghost log: Log, c: Candidate, last: Option<Verdict>, why: Note, iterations: nat,
                  queries: nat)
    returns (outcome: Candidate, report: Report)
    requires MayConclude(s, log, c, last, iterations)
    ensures outcome.result.outcome == if last in {None, Some(Sat)} then c.result.outcome else Tables.Inconclusive
    ensures FailsClosed(s, log, outcome, report)
    ensures report.note
            == if c.result.outcome == Tables.Safe || last != Some(Unsat) then why
               else if queries >= QueryBudget(s) then QueryLimit
               else if iterations >= IterationBudget(s) then IterationLimit
               else why
  {
    hide AllEarned, Held;
    outcome := c;
    var verdict, note := last, why;
    if outcome.result.outcome != Tables.Safe && verdict == Some(Unsat) {
      outcome := Undecide(outcome);
      verdict := Some(Unknown);
      if queries >= QueryBudget(s) {
        note := QueryLimit;
      } else if iterations >= IterationBudget(s) {
        note := IterationLimit;
      }
    } else if verdict == Some(Unknown) {
      outcome := Undecide(outcome);
    }
    var status := match outcome.result.outcome
      case Safe => DischargedInfeasible
      case Unsafe => Violation
      case Inconclusive => Undecided;
    report := Report(verdict, note, status, iterations);
    assert verdict.Some? ==> verdict.value.Sat? || verdict.value.Unsat? || verdict.value.Unknown?;
  }

  /** After a rerun: an end, if it is Safe or time is up; otherwise the next question. */
  method Continue(s: Settings, ghost input: Candidate, deadline: Deadline, st: Stand, next: Candidate, ghost log: Log,
                  ghost before: set<Discharge>, ghost attempts: set<Discharge>, ghost first: nat)
    returns (step: Step, ghost after: Log)
    requires first <= deadline.ticks && !deadline.Overtaken(first) && !deadline.ReadingsFrom(first).first
    requires st.key.Some? && st.verdict == Some(Unsat) && st.note == Evidenced && st.iterations + 2 <= QueryBudget(s)
    requires RunsOn(s, input, log, before, attempts, st.discharged + {st.key}, next, st.iterations + 1)
    requires Chase(s, before, {}, input, 0, 1)
             == if next.result.outcome == Tables.Safe then Tables.Safe
                else Chase(s, attempts, st.discharged + {st.key}, next, st.iterations + 1, st.iterations + 2)
    modifies deadline
    ensures first <= deadline.ticks
    ensures match step
            case Ended(outcome, report) =>
              Final(s, input, after, before, attempts, outcome, report, deadline.ReadingsFrom(first))
            case Stuck => false
            case Next(more) =>
              more.iterations == st.iterations + 1
              && Progress(s, input, after, before, attempts, more, deadline.ReadingsFrom(first))
  {
    hide Progress, Answered, FailsClosed, MayConclude, DischargeOf, Checked, CheckedNote, Chronicle, KeysOf;
    hide Chase, AllEarned, Held, deadline.Overtaken;
    var iterations := st.iterations + 1;
    var expired := deadline.Reached();
    if !expired && next.result.outcome == Tables.Safe {
      expired := deadline.Reached();
      if !expired {
        return Ended(next, Report(st.verdict, st.note, DischargedInfeasible, iterations)), log;
      }
    }
    if expired {
      var outcome, report := Conclude(s, log, next, Some(Unknown), TimedOut, iterations, iterations);
      TimedOutIsFinal(s, input, log, before, attempts, outcome, report, deadline.ReadingsFrom(first));
      return Ended(outcome, report), log;
    }
    hide Final;
    var d, verdict, note, key := Ask(s, next, deadline);
    var more := Stand(next, d, verdict, note, key, st.discharged + {st.key}, iterations);
    ProgressAsks(s, input, log, before, attempts, more, deadline.ReadingsFrom(first));
    return Next(more), AskedAbout(log, next, d);
  }

  /** One turn: the discharge that was earned is spent on a rerun, if time and the cache allow it. */
  method TakeTurn(s: Settings, ghost input: Candidate, cache: RefinementCache, deadline: Deadline, st: Stand,
                  ghost log: Log, ghost before: set<Discharge>, ghost first: nat)
    returns (step: Step, ghost after: Log)
    requires first <= deadline.ticks
    requires Progress(s, input, log, before, cache.attempts, st, deadline.ReadingsFrom(first))
    requires st.verdict == Some(Unsat) && st.iterations < IterationBudget(s) && st.iterations + 1 < QueryBudget(s)
    modifies cache, deadline
    ensures first <= deadline.ticks
    ensures match step
            case Ended(outcome, report) =>
              Final(s, input, after, before, cache.attempts, outcome, report, deadline.ReadingsFrom(first))
            case Stuck =>
              after == log && st.key.Some? && st.key.value in cache.attempts
              && Progress(s, input, log, before, cache.attempts, st, deadline.ReadingsFrom(first))
            case Next(next) =>
              next.iterations == st.iterations + 1
              && Progress(s, input, after, before, cache.attempts, next, deadline.ReadingsFrom(first))
  {
    hide Final, Answered, FailsClosed, MayConclude, DischargeOf, Checked, CheckedNote, Standing, Chronicle, KeysOf;
    hide Chase, AllEarned, Held, RunsOn, deadline.Overtaken;
    after := log;
    ProgressStops(s, input, log, before, cache.attempts, st, deadline.ReadingsFrom(first));
    var expired := deadline.Reached();
    if !expired {
      expired := deadline.Reached();
    }
    if expired {
      var outcome, report := Conclude(s, log, st.c, Some(Unknown), TimedOut, st.iterations, st.iterations + 1);
      TimedOutIsFinal(s, input, log, before, cache.attempts, outcome, report, deadline.ReadingsFrom(first));
      return Ended(outcome, report), log;
    }
    var override := OverrideFor(st.c, st.discharged + {st.key});
    if !override.HasConcreteAction() {
      return Stuck, log;
    }
    ghost var attempted := cache.attempts;
    var added := cache.Record(st.key);
    if !added {
      assert cache.attempts == attempted;
      return Stuck, log;
    }
    var next := s.rerun(override);
    ProgressRuns(s, input, log, before, attempted, st, deadline.ReadingsFrom(first), override, next);
    ChaseGoesOn(s, input, before, attempted, st, next);
    step, after := Continue(s, input, deadline, st, next, Ran(log, override), before, cache.attempts, first);
  }

  /**
   Refines a result. Safe comes back only for a Safe input or from a rerun whose
   every discharge stands on a checked refutation; Unsafe only when the backend,
   if there is one, last answered SAT; a witness that does not replay is undecided.
   A single expired reading makes the end undecided, and without one the end is that
   of the chase.
   */
  method Refine(s: Settings, input: Candidate, cache: RefinementCache, deadline: Deadline)
    returns (outcome: Candidate, report: Option<Report>, ghost log: Log)
    modifies cache, deadline
    ensures input.result.outcome == Tables.Safe ==>
              outcome == input && report.None? && cache.attempts == old(cache.attempts)
    ensures input.result.outcome != Tables.Safe ==> report.Some?
    ensures input.result.outcome != Tables.Safe && input.result.trail != [] && !s.replays(input.result) ==>
              outcome == Candidate(input.result.(outcome := Tables.Inconclusive, reason := FeasibilityUnknown),
                                   input.hashed)
              && report.value == Report(Some(Unknown), EvidenceRejected, Undecided, 0)
              && log == Log([], []) && cache.attempts == old(cache.attempts)
    ensures input.result.outcome != Tables.Safe && (input.result.trail == [] || s.replays(input.result)) ==>
              Final(s, input, log, old(cache.attempts), cache.attempts, outcome, report.value,
                    deadline.ReadingsFrom(old(deadline.ticks)))
  {
    hide Progress, Final, Answered, FailsClosed, MayConclude, DischargeOf, Checked, CheckedNote;
    ghost var first, before := deadline.ticks, cache.attempts;
    outcome, report, log := input, None, Log([], []);
    if input.result.outcome == Tables.Safe {
      return;
    }
    if !Replays(s, input) {
      outcome := Undecide(input);
      report := Some(Report(Some(Unknown), EvidenceRejected, Undecided, 0));
      return;
    }
    var d, verdict, note, key := Ask(s, input, deadline);
    var st := Stand(input, d, verdict, note, key, {}, 0);
    log := Log([(input, d)], []);
    ProgressStarts(s, input, before, st, deadline.ReadingsFrom(first));
    var stuck := false;
    while st.iterations < IterationBudget(s) && st.iterations + 1 < QueryBudget(s)
      invariant Progress(s, input, log, before, cache.attempts, st, deadline.ReadingsFrom(first))
      invariant first <= deadline.ticks
      decreases QueryBudget(s) - st.iterations
    {
      if st.verdict != Some(Unsat) {
        break;
      }
      var step;
      step, log := TakeTurn(s, input, cache, deadline, st, log, before, first);
      match step {
        case Ended(end, last) =>
          outcome, report := end, Some(last);
          return;
        case Stuck =>
          stuck := true;
          break;
        case Next(next) => st := next;
      }
    }
    ProgressStops(s, input, log, before, cache.attempts, st, deadline.ReadingsFrom(first));
    var last;
    outcome, last := Conclude(s, log, st.c, st.verdict, st.note, st.iterations, st.iterations + 1);
    report := Some(last);
    StoppedIsFinal(s, input, log, before, cache.attempts, st, outcome, last, deadline.ReadingsFrom(first));
  }
}
