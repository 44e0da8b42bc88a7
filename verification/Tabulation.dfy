/**
 The work-list algorithm itself: an object whose tables are updated in place,
 under a work budget and a clock that may expire at any checkpoint.

 The antichain of a key and the path edges stored under it are one field here;
 the sets the source walks in map or key order are walked in any order.
 */
module Tabulation {
  import opened Options
  import opened ProtocolDomain
  import opened Supergraph
  import opened Runs
  import opened Tables
  import opened TabulationTheory
  import Antichain
  import Preference

  const DEFAULT_MAX_STATES: nat := 20000

  /** What is answered when the work is done: a violation before a doubt, and Safe for neither. */
  function Answer(start: NodeId, unsafe: Option<PathResult>, inconclusive: Option<PathResult>): PathResult {
    if unsafe.Some? then unsafe.value
    else if inconclusive.Some? then inconclusive.value
    else PathResult(Safe, NoReason, [], [], start)
  }

  /** A waiting call's witness ends in the callee, and its path is that of the witness. */
  predicate DependencyFits(d: DepKey, info: Dependency) {
    && info.trail != [] && info.trail[|info.trail| - 1].edge.to == d.callee.node
    && PathFits(d.caller, info.path, info.trail)
  }

  /** Everything that waits in the tables could be reported. */
  ghost predicate AllReportable(dependencies: map<DepKey, Dependency>, summaries: map<SumKey, Summary>) {
    && (forall d :: d in dependencies ==> DependencyFits(d, dependencies[d]))
    && (forall s :: s in summaries ==> PathFits(s.entry, summaries[s].path, summaries[s].trail))
  }

  /** The result of giving up: it ends where its witness does. */
  function GivingUp(start: NodeId, reason: Reason, path: Path, w: Witness): PathResult {
    PathResult(Inconclusive, reason, path, w, if w == [] then start else w[|w| - 1].edge.to)
  }

  predicate GaveUp(start: NodeId, r: PathResult) {
    && r == GivingUp(start, r.reason, r.path, r.trail) && Reportable(r.path, r.trail)
    && (r.reason == Timeout || r.reason == StateBudget || r.reason == WitnessBudget)
  }

  /** Why a path edge was not stored: time, a full antichain, or the unit past the limit. */
  predicate Refused(reason: Reason, before: nat, now: nat, limit: nat, kept: nat) {
    match reason
    case Timeout => now == before
    case WitnessBudget => now == before && kept >= 64
    case StateBudget => now == before + 1 > limit
    case _ => false
  }

  /** More sound witnesses of one key than may be kept, none of which makes another superfluous. */
  ghost predicate CrowdAt(sys: System, k: Key, crowd: set<Witness>) {
    && |crowd| > 64 && Antichain.PairwiseIncomparable(crowd)
    && forall w :: w in crowd ==> PathSound(sys, k, w)
  }

  ghost predicate Crowded(sys: System) {
    exists k, crowd :: CrowdAt(sys, k, crowd)
  }

  /** A walk from the start of some procedure, or of a call it makes. */
  ghost predicate Walked(sys: System, w: Witness) {
    (exists k :: PathSound(sys, k, w)) || (exists d :: DepSound(sys, d, w))
  }

  /** What giving up shows for it: out of work or of room it points at the walk that was turned away. */
  ghost predicate Stopped(sys: System, r: PathResult) {
    && (r.reason == WitnessBudget ==> Crowded(sys))
    && (r.reason != Timeout ==> r.path != [] && Walked(sys, r.trail))
  }

  lemma TurnedAway(sys: System, e: PathEdge, r: PathResult)
    requires PathSound(sys, e.key, e.trail) && PathFits(e.key.entry, e.path, e.trail)
    requires r.path == e.path && r.trail == e.trail && (r.reason == WitnessBudget ==> Crowded(sys))
    ensures Stopped(sys, r)
  {
    hide PathSound, Crowded;
  }

  lemma CallTurnedAway(sys: System, d: DepKey, info: Dependency, r: PathResult)
    requires DepSound(sys, d, info.trail) && DependencyFits(d, info)
    requires r.path == info.path && r.trail == info.trail && r.reason != WitnessBudget
    ensures Stopped(sys, r)
  {
    hide DepSound;
  }

  lemma SummaryTurnedAway(sys: System, s: SumKey, info: Summary, r: PathResult)
    requires SumSound(sys, s, info) && PathFits(s.entry, info.path, info.trail)
    requires r.path == info.path && r.trail == info.trail && r.reason != WitnessBudget
    ensures Stopped(sys, r)
  {
    hide PathSound;
  }

  /** A full antichain and a newcomer that is neither beaten nor ousts enough are such a crowd. */
  lemma CrowdFound(sys: System, discharged: set<Token>, order: Antichain.Order, t: Table, e: PathEdge,
                   hole: set<(Key, Witness, Path)>, gap: set<(DepKey, SumKey)>)
    requires Inv(sys, discharged, order, t, hole, gap) && PathSound(sys, e.key, e.trail)
    requires var kept := KeptAt(t, e.key);
             && !Antichain.Beaten(order, kept.Keys, e.trail)
             && |kept - Antichain.Ousted(kept.Keys, e.trail)| >= Antichain.LIMIT
    ensures Crowded(sys)
  {
    hide PathSound, Antichain.Subsumes;
    var kept := KeptAt(t, e.key);
    var rest := kept - Antichain.Ousted(kept.Keys, e.trail);
    InvSound(sys, discharged, order, t, hole, gap);
    assert KeepsTheBestAt(order, t, e.key);
    Antichain.AdmitAllIncomparable(order, OffersAt(t, e.key));
    var crowd := rest.Keys + {e.trail};
    NoneSubsumes(order, kept.Keys, e.trail);
    CrowdGrows(rest.Keys, kept.Keys, e.trail);
    assert |rest.Keys| == |rest|;
    assert forall w :: w in crowd ==> PathSound(sys, e.key, w);
    assert CrowdAt(sys, e.key, crowd);
  }

  lemma CrowdGrows(rest: set<Witness>, kept: set<Witness>, w: Witness)
    requires Antichain.PairwiseIncomparable(kept) && rest <= kept
    requires forall r :: r in rest ==> !Antichain.Subsumes(r, w) && !Antichain.Subsumes(w, r)
    ensures Antichain.PairwiseIncomparable(rest + {w}) && |rest + {w}| == |rest| + 1
  {
    assert w in rest ==> Antichain.Subsumes(w, w);
  }

  lemma NoneSubsumes(order: Antichain.Order, kept: set<Witness>, w: Witness)
    requires !Antichain.Beaten(order, kept, w)
    ensures forall r :: r in kept - Antichain.Ousted(kept, w) ==> !Antichain.Subsumes(r, w) && !Antichain.Subsumes(w, r)
  {
    forall r | r in kept - Antichain.Ousted(kept, w)
      ensures !Antichain.Subsumes(r, w) && !Antichain.Subsumes(w, r)
    {
      assert !Antichain.Beats(order, r, w);
    }
  }

  lemma MoreReportable(dependencies: map<DepKey, Dependency>, summaries: map<SumKey, Summary>, d: DepKey,
                       info: Dependency)
    requires AllReportable(dependencies, summaries) && DependencyFits(d, info)
    ensures AllReportable(dependencies[d := info], summaries)
  {
  }

  lemma MoreSummariesReportable(dependencies: map<DepKey, Dependency>, summaries: map<SumKey, Summary>, s: SumKey,
                                info: Summary)
    requires AllReportable(dependencies, summaries) && PathFits(s.entry, info.path, info.trail)
    ensures AllReportable(dependencies, summaries[s := info])
  {
  }

  lemma GivingUpIsReported(start: NodeId, reason: Reason, path: Path, w: Witness)
    requires Reportable(path, w) && (reason == Timeout || reason == StateBudget || reason == WitnessBudget)
    ensures GaveUp(start, GivingUp(start, reason, path, w))
  {
  }

  class Tabulator {
    const sys: System
    const limit: nat
    const discharged: set<Token>
    const clock: nat -> bool
    const order: Antichain.Order
    const smaller: Antichain.Order
    const lifo: bool

    ghost var started: nat
    var ticks: nat
    var workUnits: nat
    var pathEdges: nat
    var dependencyCount: nat
    var summaryCount: nat
    var summaryReuses: nat
    var budget: Option<PathResult>

    var retained: map<Key, map<Witness, Path>>
    var queue: seq<(Key, Witness)>
    var dependencies: map<DepKey, Dependency>
    var summaries: map<SumKey, Summary>
    var unsafe: Option<PathResult>
    var inconclusive: Option<PathResult>
    ghost var offers: map<Key, seq<Witness>>
    ghost var violations: seq<PathResult>
    ghost var doubts: seq<PathResult>

    ghost function View(): Table
      reads `retained, `queue, `dependencies, `summaries, `unsafe, `inconclusive, `offers, `violations, `doubts
    {
      Table(retained, queue, dependencies, summaries, unsafe, inconclusive, offers, violations, doubts)
    }

    ghost function Kept(k: Key): map<Witness, Path>
      reads `retained
    {
      if k in retained then retained[k] else map[]
    }

    /**
     The chosen results are what preferring one complaint after the other comes to, and
     none of the complaints was discharged.
     */
    ghost predicate Ranked()
      reads `unsafe, `inconclusive, `violations, `doubts
    {
      && unsafe == Preference.Reported(smaller, violations)
      && inconclusive == Preference.Reported(smaller, doubts)
      && (forall r :: r in violations ==> !WasDischarged(discharged, r))
      && (forall r :: r in doubts ==> !WasDischarged(discharged, r))
    }

    /** A reading of the clock since the propagation started was past the deadline. */
    ghost predicate Expired()
      reads `ticks, `started
    {
      exists i: nat :: started <= i < ticks && clock(i)
    }

    /** The budget is spent for a reason: an expired reading, or a unit past the limit; and only then. */
    ghost predicate Caused()
      reads `ticks, `started, `workUnits, `budget
    {
      && started <= ticks
      && (budget.None? ==> workUnits <= limit && !Expired())
      && (budget.Some? ==>
            && GaveUp(sys.start, budget.value)
            && (budget.value.reason == Timeout ==> Expired())
            && (budget.value.reason == StateBudget ==> workUnits > limit))
    }

    /** Accepted work never exceeds the limit, and while it is within the limit all work charged was accepted. */
    ghost predicate Counted()
      reads `pathEdges, `dependencyCount, `summaryCount, `workUnits
    {
      && pathEdges + dependencyCount + summaryCount <= limit
      && pathEdges + dependencyCount + summaryCount <= workUnits
      && (workUnits <= limit ==> pathEdges + dependencyCount + summaryCount == workUnits)
    }

    ghost predicate Accounted()
      reads `pathEdges, `dependencyCount, `summaryCount, `workUnits, `budget, `dependencies, `summaries
      reads `ticks, `started
    {
      && Counted()
      && Caused()
      && AllReportable(dependencies, summaries)
    }

    /** What is left to do: it shrinks whenever a queue entry is taken. */
    ghost function Load(): int
      reads `pathEdges, `dependencyCount, `summaryCount, `queue
    {
      limit - (pathEdges + dependencyCount + summaryCount) + |queue|
    }

    /** While the budget lasts the table invariant holds; once it is spent there is something to show for it. */
    ghost predicate Ready(hole: set<(Key, Witness, Path)>, gap: set<(DepKey, SumKey)>)
      reads `budget, `retained, `queue, `dependencies, `summaries, `unsafe, `inconclusive, `offers
      reads `violations, `doubts
    {
      if budget.None? then Inv(sys, discharged, order, View(), hole, gap)
      else Stopped(sys, budget.value)
    }

    constructor (sys: System, maxStates: int, discharged: set<Token>, clock: nat -> bool,
                 order: Antichain.Order, smaller: Antichain.Order, lifo: bool)
      ensures this.sys == sys && this.discharged == discharged && this.order == order
      ensures this.clock == clock && this.smaller == smaller && this.lifo == lifo && ticks == 0
      ensures limit == if maxStates <= 0 then 20000 else maxStates
      ensures limit > 0 && Accounted() && workUnits == 0 && budget.None?
      ensures View() == EMPTY_TABLE
    {
      this.sys, this.discharged, this.clock := sys, discharged, clock;
      this.order, this.smaller, this.lifo := order, smaller, lifo;
      limit := if maxStates <= 0 then DEFAULT_MAX_STATES else maxStates;
      ticks, workUnits, pathEdges, dependencyCount, summaryCount, summaryReuses := 0, 0, 0, 0, 0, 0;
      budget, unsafe, inconclusive := None, None, None;
      retained, queue, dependencies, summaries, offers := map[], [], map[], map[], map[];
      started, violations, doubts := 0, [], [];
    }

    /** Only the first reason to give up is remembered. */
    method SetBudgetExceeded(reason: Reason, path: Path, w: Witness)
      modifies `budget
      ensures budget == if old(budget).Some? then old(budget) else Some(GivingUp(sys.start, reason, path, w))
    {
      if budget.Some? {
        return;
      }
      budget := Some(GivingUp(sys.start, reason, path, w));
    }

    /** Gives up exactly when the clock has run out. */
    method Checkpoint(path: Path, w: Witness) returns (ok: bool)
      requires Accounted() && Reportable(path, w)
      modifies `ticks, `budget
      ensures Accounted() && ticks == old(ticks) + 1
      ensures ok <==> !clock(old(ticks))
      ensures ok ==> budget == old(budget)
      ensures !ok ==> budget == if old(budget).Some? then old(budget) else Some(GivingUp(sys.start, Timeout, path, w))
    {
      ok := !clock(ticks);
      ticks := ticks + 1;
      if !ok {
        SetBudgetExceeded(Timeout, path, w);
      }
    }

    /** Charges one unit, unless the clock has run out; the unit past the limit spends the budget. */
    method ReserveWorkUnit(path: Path, w: Witness) returns (ok: bool)
      requires Accounted() && Reportable(path, w)
      modifies `ticks, `budget, `workUnits
      ensures workUnits == if clock(old(ticks)) then old(workUnits) else old(workUnits) + 1
      ensures ok <==> !clock(old(ticks)) && workUnits <= limit
      ensures ticks == old(ticks) + 1 && Caused()
      ensures ok ==> budget == old(budget)
      ensures !ok ==> Accounted()
      ensures !ok ==> budget == if old(budget).Some? then old(budget)
                                else if clock(old(ticks)) then Some(GivingUp(sys.start, Timeout, path, w))
                                else Some(GivingUp(sys.start, StateBudget, path, w))
    {
      ok := Checkpoint(path, w);
      if !ok {
        return;
      }
      workUnits := workUnits + 1;
      ok := workUnits <= limit;
      if !ok {
        SetBudgetExceeded(StateBudget, path, w);
      }
    }

    /** Compares the candidate with every kept witness of its key, in any order. */
    method CompareWithKept(e: PathEdge) returns (ok: bool, beaten: bool, ousted: set<Witness>)
      requires Accounted() && PathFits(e.key.entry, e.path, e.trail)
      modifies `ticks, `budget
      ensures Accounted()
      ensures !ok && old(budget).None? ==> budget == Some(GivingUp(sys.start, Timeout, e.path, e.trail))
      ensures ok ==> budget == old(budget)
      ensures !ok ==> budget.Some?
      ensures old(budget).Some? ==> budget == old(budget)
      ensures ok ==> beaten == Antichain.Beaten(order, old(Kept(e.key)).Keys, e.trail)
      ensures ok && !beaten ==> ousted == Antichain.Ousted(old(Kept(e.key)).Keys, e.trail)
    {
      var kept := if e.key in retained then retained[e.key].Keys else {};
      var todo := kept;
      ok, beaten, ousted := true, false, {};
      while todo != {}
        invariant todo <= kept && budget == old(budget) && Accounted()
        invariant forall r :: r in kept - todo ==> !Antichain.Beats(order, r, e.trail)
        invariant ousted == Antichain.Ousted(kept - todo, e.trail)
      {
        var r :| r in todo;
        ok := Checkpoint(e.path, e.trail);
        if !ok {
          return;
        }
        if Antichain.Subsumes(r, e.trail) && (!Antichain.Subsumes(e.trail, r) || order(r, e.trail)) {
          beaten := true;
          return;
        }
        if Antichain.Subsumes(e.trail, r) {
          ousted := ousted + {r};
        }
        todo := todo - {r};
      }
      assert kept - todo == kept;
    }

    method RemoveOusted(e: PathEdge, ousted: set<Witness>) returns (ok: bool)
      requires Accounted() && PathFits(e.key.entry, e.path, e.trail)
      modifies `ticks, `budget, `retained
      ensures Accounted()
      ensures !ok && old(budget).None? ==> budget == Some(GivingUp(sys.start, Timeout, e.path, e.trail))
      ensures ok ==> budget == old(budget)
      ensures !ok ==> budget.Some?
      ensures old(budget).Some? ==> budget == old(budget)
      ensures ok ==> retained == old(retained)[e.key := old(Kept(e.key)) - ousted]
    {
      hide Accounted;
      var kept := if e.key in retained then retained[e.key] else map[];
      var todo := ousted;
      ok := true;
      assert kept - (ousted - todo) == kept;
      retained := retained[e.key := kept];
      while todo != {}
        invariant todo <= ousted && budget == old(budget) && Accounted()
        invariant retained == old(retained)[e.key := kept - (ousted - todo)]
      {
        ok := Checkpoint(e.path, e.trail);
        if !ok {
          return;
        }
        var r :| r in todo;
        assert kept - (ousted - todo) - {r} == kept - (ousted - (todo - {r}));
        retained := retained[e.key := retained[e.key] - {r}];
        todo := todo - {r};
      }
      assert ousted - todo == ousted;
    }

    method SpendWitnessBudget(e: PathEdge)
      requires Accounted() && PathFits(e.key.entry, e.path, e.trail)
      modifies `budget
      ensures Accounted()
      ensures budget
              == if old(budget).Some? then old(budget)
                 else Some(GivingUp(sys.start, WitnessBudget, e.path, e.trail))
    {
      hide AllReportable;
      SetBudgetExceeded(WitnessBudget, e.path, e.trail);
      GivingUpIsReported(sys.start, WitnessBudget, e.path, e.trail);
    }

    /** Adds the candidate and queues it, if the bound and the budget allow. */
    method Admit(e: PathEdge) returns (ok: bool)
      requires Accounted() && PathFits(e.key.entry, e.path, e.trail) && e.key in retained
      modifies `ticks, `budget, `workUnits, `retained, `queue, `pathEdges
      ensures Accounted() && Load() <= old(Load())
      ensures ok ==> budget == old(budget) && queue == old(queue) + [(e.key, e.trail)]
      ensures ok ==> retained == old(retained)[e.key := old(retained)[e.key][e.trail := e.path]]
      ensures ok ==> |retained[e.key]| <= Antichain.LIMIT
      ensures ok ==> pathEdges == old(pathEdges) + 1 && workUnits == old(workUnits) + 1
      ensures !ok ==> budget.Some? && queue == old(queue)
      ensures !ok && old(budget).None? ==>
        && Refused(budget.value.reason, old(workUnits), workUnits, limit, |old(retained)[e.key]|)
        && budget.value.path == e.path && budget.value.trail == e.trail
      ensures old(budget).Some? ==> budget == old(budget)
    {
      hide AllReportable, Caused, GaveUp;
      if |retained[e.key]| >= Antichain.LIMIT {
        SpendWitnessBudget(e);
        return false;
      }
      ok := ReserveWorkUnit(e.path, e.trail);
      if !ok {
        return;
      }
      assert AllReportable(dependencies, summaries) && Caused();
      retained := retained[e.key := retained[e.key][e.trail := e.path]];
      queue := queue + [(e.key, e.trail)];
      pathEdges := pathEdges + 1;
    }

    /** Replaces the ousted witnesses by the candidate, if the bound and the budget allow. */
    method Store(e: PathEdge, ousted: set<Witness>) returns (ok: bool)
      requires Accounted() && PathFits(e.key.entry, e.path, e.trail)
      modifies `ticks, `budget, `workUnits, `retained, `queue, `pathEdges
      ensures Accounted() && Load() <= old(Load())
      ensures ok ==> budget == old(budget) && queue == old(queue) + [(e.key, e.trail)]
      ensures ok ==> retained == old(retained)[e.key := (old(Kept(e.key)) - ousted)[e.trail := e.path]]
      ensures ok ==> |retained[e.key]| <= Antichain.LIMIT
      ensures ok ==> pathEdges == old(pathEdges) + 1 && workUnits == old(workUnits) + 1
      ensures !ok ==> budget.Some?
      ensures !ok && old(budget).None? ==>
        && Refused(budget.value.reason, old(workUnits), workUnits, limit, |old(Kept(e.key)) - ousted|)
        && budget.value.path == e.path && budget.value.trail == e.trail
      ensures old(budget).Some? ==> budget == old(budget)
    {
      hide Accounted, Kept, Antichain.Ousted, Load;
      ok := RemoveOusted(e, ousted);
      if !ok {
        return;
      }
      hide Refused;
      ok := Admit(e);
    }

    ghost method NoteOffer(e: PathEdge)
      modifies `offers
      ensures View()
              == old(View()).(offers := old(View()).offers[e.key := OffersAt(old(View()), e.key) + [e.trail]])
    {
      offers := offers[e.key := OffersAt(View(), e.key) + [e.trail]];
    }

    /** Stores the candidate, as a change of the tables. */
    method StoreInTable(e: PathEdge, ousted: set<Witness>) returns (ok: bool)
      requires Accounted() && PathFits(e.key.entry, e.path, e.trail)
      modifies `ticks, `budget, `workUnits, `retained, `queue, `pathEdges
      ensures Accounted() && Load() <= old(Load())
      ensures ok ==> budget == old(budget) && View() == Stored(old(View()), e, ousted)
      ensures ok ==> |KeptAt(View(), e.key)| <= Antichain.LIMIT
      ensures !ok ==> budget.Some?
      ensures old(budget).None? && budget.Some? && budget.value.reason == WitnessBudget ==>
                |old(Kept(e.key)) - ousted| >= Antichain.LIMIT
      ensures old(budget).None? && budget.Some? ==> budget.value.path == e.path && budget.value.trail == e.trail
      ensures old(budget).Some? ==> budget == old(budget)
    {
      hide Accounted, Load;
      ok := Store(e, ousted);
    }

    /** Offers a path edge: dropped when a kept witness beats it, otherwise kept and queued. */
    method Enqueue(e: PathEdge) returns (ok: bool)
      requires Accounted() && PathFits(e.key.entry, e.path, e.trail)
      modifies `ticks, `budget, `workUnits, `retained, `queue, `pathEdges, `offers
      ensures Accounted() && Load() <= old(Load())
      ensures ok ==> budget == old(budget) && View() == Offered(order, old(View()), e)
      ensures ok && |KeptAt(old(View()), e.key)| <= Antichain.LIMIT ==> |KeptAt(View(), e.key)| <= Antichain.LIMIT
      ensures !ok ==> budget.Some?
      ensures old(budget).None? && budget.Some? && budget.value.reason == WitnessBudget ==>
                var kept := old(Kept(e.key));
                && !Antichain.Beaten(order, kept.Keys, e.trail)
                && |kept - Antichain.Ousted(kept.Keys, e.trail)| >= Antichain.LIMIT
      ensures old(budget).None? && budget.Some? ==> budget.value.path == e.path && budget.value.trail == e.trail
      ensures old(budget).Some? ==> budget == old(budget)
    {
      hide Antichain.Beaten, Antichain.Ousted, Accounted, Load, Offered, Stored, View, Kept, KeptAt, OffersAt;
      ghost var t := View();
      KeptIs(e.key);
      ok := Checkpoint(e.path, e.trail);
      if !ok {
        return;
      }
      var beaten, ousted;
      ok, beaten, ousted := CompareWithKept(e);
      if !ok {
        return;
      }
      NoteOffer(e);
      if beaten {
        OfferedBeaten(order, t, e);
        return;
      }
      OfferedStored(order, t, e, ousted);
      ok := StoreInTable(e, ousted);
    }

    lemma KeptIs(k: Key)
      ensures Kept(k) == KeptAt(View(), k)
    {
    }

    /** Enqueue, for callers that keep the table invariant. */
    method EnqueueSound(e: PathEdge, ghost hole: set<(Key, Witness, Path)>, ghost gap: set<(DepKey, SumKey)>)
      returns (ok: bool)
      requires Accounted() && Ready(hole, gap)
      requires budget.None? ==> PathSound(sys, e.key, e.trail)
      requires PathFits(e.key.entry, e.path, e.trail)
      modifies `ticks, `budget, `workUnits, `retained, `queue, `pathEdges, `offers
      ensures Accounted() && Load() <= old(Load())
      ensures Ready(hole, gap)
      ensures budget.None? ==> old(budget).None? && Grew(old(View()), View())
      ensures budget.None? ==> CoveredAt(View(), e.key, e.trail) && KeptAt(View(), e.key) != map[]
      ensures !ok ==> budget.Some?
    {
      hide Inv, Grew, Offered, PathSound, KeptAt, CoveredAt, Antichain.Beaten, Antichain.Ousted, Stopped, Crowded;
      ghost var t := View();
      ghost var spent := budget;
      KeptIs(e.key);
      ok := Enqueue(e);
      if spent.None? && budget.Some? && budget.value.reason == WitnessBudget {
        CrowdFound(sys, discharged, order, t, e, hole, gap);
      }
      if spent.None? && budget.Some? {
        TurnedAway(sys, e, budget.value);
      }
      if budget.None? {
        InvSound(sys, discharged, order, t, hole, gap);
        OfferedInv(sys, discharged, order, t, e, hole, gap);
      }
    }

    lemma ViewHolds()
      ensures View().dependencies == dependencies && View().summaries == summaries
    {
    }

    lemma FitsReportable(d: DepKey, info: Dependency)
      requires DependencyFits(d, info)
      ensures Reportable(info.path, info.trail)
    {
    }

    lemma DependencyReportable(d: DepKey)
      requires Accounted() && d in dependencies
      ensures DependencyFits(d, dependencies[d]) && Reportable(dependencies[d].path, dependencies[d].trail)
    {
    }

    lemma SummaryReportable(s: SumKey)
      requires Accounted() && s in summaries
      ensures PathFits(s.entry, summaries[s].path, summaries[s].trail)
    {
    }

    lemma MergedFits(d: DepKey, info: Dependency, s: SumKey, sum: Summary)
      requires Matches(d, s) && DependencyFits(d, info) && PathFits(s.entry, sum.path, sum.trail)
      ensures PathFits(d.caller, MergePaths(info.path, sum.path, d.target.block), ReturnTrail(d, info, s, sum))
    {
      PathReturns(d.caller, d.callee, info.path, info.trail, sum.path, sum.trail,
                  Step(ReturnEdge(d.exit, d.target, d.site), NO_FACT, sum.before, s.state, sum.tag));
    }

    /** Offers what a summary makes of a waiting call: the caller's walk, the callee's, and the return. */
    method EnqueueReturn(d: DepKey, s: SumKey, ghost hole: set<(Key, Witness, Path)>, ghost gap: set<(DepKey, SumKey)>)
      returns (ok: bool)
      requires Accounted() && Ready(hole, gap) && PlainReturns(sys)
      requires d in dependencies && s in summaries && Matches(d, s)
      modifies `ticks, `budget, `workUnits, `retained, `queue, `pathEdges, `offers
      ensures Accounted() && Load() <= old(Load())
      ensures Ready(hole, gap)
      ensures budget.None? ==> old(budget).None? && Grew(old(View()), View())
      ensures budget.None? ==> Returned(View(), d, s)
      ensures !ok ==> budget.Some?
    {
      hide Accounted, Load, Inv, Grew, Offered, DepSound, SumSound, PathSound, KeptAt, CoveredAt, PlainReturns;
      hide Stopped, Kept;
      var info, sum := dependencies[d], summaries[s];
      DependencyReportable(d);
      SummaryReportable(s);
      if budget.None? {
        InvSound(sys, discharged, order, View(), hole, gap);
        ReturnSound(sys, d, info, s, sum);
      }
      MergedFits(d, info, s, sum);
      hide MergePaths, ReturnTrail, PathFits, DependencyFits, Reportable;
      ok := EnqueueSound(
        PathEdge(ReturnKey(d, s), MergePaths(info.path, sum.path, d.target.block), ReturnTrail(d, info, s, sum)),
        hole, gap);
    }

    /** Lets one summary answer one waiting call, provided the exits agree. */
    method ApplySummary(d: DepKey, s: SumKey, ghost hole: set<(Key, Witness, Path)>, ghost gap: set<(DepKey, SumKey)>)
      returns (ok: bool)
      requires Accounted() && Ready(hole, gap) && PlainReturns(sys)
      requires d in dependencies && s in summaries && d.callee == s.entry
      modifies `ticks, `budget, `workUnits, `retained, `queue, `pathEdges, `offers, `summaryReuses
      ensures Accounted() && Load() <= old(Load())
      ensures Ready(hole, gap - {(d, s)})
      ensures budget.None? ==> old(budget).None? && Grew(old(View()), View())
      ensures budget.None? && d.exit == s.exit ==> Returned(View(), d, s)
      ensures budget.None? ==> summaryReuses == old(summaryReuses) + if d.exit == s.exit then 1 else 0
      ensures !ok ==> budget.Some?
    {
      hide Accounted, Load, View, Inv, Grew, PlainReturns, Returned, Crowded, Walked;
      DependencyReportable(d);
      ghost var t := View();
      ok := Checkpoint(dependencies[d].path, dependencies[d].trail);
      if !ok {
        return;
      }
      assert View() == t;
      GrewReflexive(t);
      if d.exit == s.exit {
        ok := EnqueueReturn(d, s, hole, gap);
        if !ok {
          return;
        }
        summaryReuses := summaryReuses + 1;
      }
      if budget.None? {
        ViewHolds();
        FillInv(sys, discharged, order, View(), d, s, hole, gap);
      }
    }

    /** Answers one waiting call with each summary of its callee. */
    method AnswerDependency(d: DepKey, ghost hole: set<(Key, Witness, Path)>)
      returns (ok: bool)
      requires Accounted() && PlainReturns(sys) && d in dependencies
      requires Ready(hole, CallGap(d, KnownSummaries(summaries.Keys, d)))
      modifies `ticks, `budget, `workUnits, `retained, `queue, `pathEdges, `offers, `summaryReuses
      ensures Accounted() && Load() <= old(Load())
      ensures Ready(hole, {})
      ensures budget.None? ==> old(budget).None? && Grew(old(View()), View())
      ensures !ok ==> budget.Some?
    {
      hide View, Load, Accounted, Inv, Grew, Offered, DepSound;
      hide SumSound, PathSound, KeptAt, CoveredAt, PlainReturns, CallGap, SummaryGap;
      var todo := KnownSummaries(summaries.Keys, d);
      ok := true;
      GrewReflexive(View());
      while todo != {}
        invariant todo <= summaries.Keys && (forall s :: s in todo ==> s.entry == d.callee)
        invariant Accounted() && Load() <= old(Load()) && Ready(hole, CallGap(d, todo))
        invariant budget.None? ==> old(budget).None? && Grew(old(View()), View())
        decreases |todo|
      {
        var s :| s in todo;
        ghost var before := View();
        DependencyReportable(d);
        ok := Checkpoint(dependencies[d].path, dependencies[d].trail);
        if !ok {
          return;
        }
        assert View() == before;
        ok := ApplySummary(d, s, hole, CallGap(d, todo));
        if !ok {
          return;
        }
        if budget.None? {
          GrewTransitive(old(View()), before, View());
        }
        GapShrinks(d, s, todo, {});
        todo := todo - {s};
      }
      GapCloses();
    }

    /** Charges and stores a new dependency. */
    method StoreDependency(d: DepKey, info: Dependency) returns (ok: bool)
      requires Accounted() && d !in dependencies && DependencyFits(d, info)
      modifies `ticks, `budget, `workUnits, `dependencies, `dependencyCount
      ensures Accounted() && Load() <= old(Load())
      ensures ok ==> budget == old(budget)
      ensures ok ==> dependencies == old(dependencies)[d := info] && dependencyCount == old(dependencyCount) + 1
      ensures ok ==> workUnits == old(workUnits) + 1
      ensures !ok ==> dependencies == old(dependencies) && budget.Some?
      ensures !ok && old(budget).None? ==> budget.value.reason != WitnessBudget
      ensures !ok && old(budget).None? ==> budget.value.path == info.path && budget.value.trail == info.trail
      ensures old(budget).Some? ==> budget == old(budget)
    {
      hide AllReportable, Caused, DependencyFits, Reportable;
      FitsReportable(d, info);
      ok := ReserveWorkUnit(info.path, info.trail);
      if !ok {
        return;
      }
      MoreReportable(dependencies, summaries, d, info);
      dependencies := dependencies[d := info];
      dependencyCount := dependencyCount + 1;
    }

    /** A new dependency opens a gap for every summary already known. */
    method AddDependency(d: DepKey, info: Dependency, ghost hole: set<(Key, Witness, Path)>) returns (ok: bool)
      requires Accounted() && Ready(hole, {}) && d !in dependencies && DependencyFits(d, info)
      requires budget.None? ==> DepSound(sys, d, info.trail)
      modifies `ticks, `budget, `workUnits, `dependencies, `dependencyCount
      ensures Accounted() && Load() <= old(Load())
      ensures ok ==> budget == old(budget) && Ready(hole, CallGap(d, KnownSummaries(summaries.Keys, d)))
      ensures ok ==> dependencies == old(dependencies)[d := info] && dependencyCount == old(dependencyCount) + 1
      ensures ok ==> workUnits == old(workUnits) + 1
      ensures ok && budget.None? ==> Grew(old(View()), View())
      ensures !ok ==> budget.Some? && Ready(hole, {})
    {
      hide Accounted, Load, Inv, Grew, DepSound, CallGap, KnownSummaries, Stopped, DependencyFits;
      ghost var t := View();
      ghost var spent := budget;
      ok := StoreDependency(d, info);
      if spent.None? && budget.Some? {
        CallTurnedAway(sys, d, info, budget.value);
      }
      if budget.None? {
        RegisterInv(sys, discharged, order, t, d, info, hole);
      }
    }

    /** Remembers a call that waits for its callee, and answers it with every summary already known. */
    method RegisterDependency(d: DepKey, info: Dependency, ghost hole: set<(Key, Witness, Path)>)
      returns (ok: bool)
      requires Accounted() && Ready(hole, {}) && PlainReturns(sys)
      requires DependencyFits(d, info) && (budget.None? ==> DepSound(sys, d, info.trail))
      modifies `ticks, `budget, `workUnits, `retained, `queue, `pathEdges, `offers, `summaryReuses
      modifies `dependencies, `dependencyCount
      ensures Accounted() && Load() <= old(Load())
      ensures Ready(hole, {})
      ensures budget.None? ==> old(budget).None? && Grew(old(View()), View())
      ensures budget.None? ==>
                dependencies == if d in old(dependencies) then old(dependencies) else old(dependencies)[d := info]
      ensures budget.None? ==> dependencyCount == old(dependencyCount) + if d in old(dependencies) then 0 else 1
      ensures budget.None? && d in old(dependencies) ==> workUnits == old(workUnits)
      ensures !ok ==> budget.Some?
    {
      hide View, Load, Accounted, Inv, Grew, Offered, DepSound, SumSound, PathSound, KeptAt, CoveredAt, PlainReturns;
      hide CallGap, SummaryGap, KnownSummaries, WaitingCalls;
      ghost var t := View();
      GrewReflexive(t);
      ok := Checkpoint(info.path, info.trail);
      if !ok || d in dependencies {
        return;
      }
      ok := AddDependency(d, info, hole);
      if !ok {
        return;
      }
      ghost var u := View();
      ok := AnswerDependency(d, hole);
      if budget.None? {
        GrewTransitive(t, u, View());
      }
    }

    /** Gives one new summary to each call that waits for it. */
    method AnswerSummary(s: SumKey, ghost hole: set<(Key, Witness, Path)>)
      returns (ok: bool)
      requires Accounted() && PlainReturns(sys) && s in summaries
      requires Ready(hole, SummaryGap(s, WaitingCalls(dependencies.Keys, s)))
      modifies `ticks, `budget, `workUnits, `retained, `queue, `pathEdges, `offers, `summaryReuses
      ensures Accounted() && Load() <= old(Load())
      ensures Ready(hole, {})
      ensures budget.None? ==> old(budget).None? && Grew(old(View()), View())
      ensures !ok ==> budget.Some?
    {
      hide View, Load, Accounted, Inv, Grew, Offered, DepSound;
      hide SumSound, PathSound, KeptAt, CoveredAt, PlainReturns, CallGap, SummaryGap;
      var todo := WaitingCalls(dependencies.Keys, s);
      ok := true;
      GrewReflexive(View());
      while todo != {}
        invariant todo <= dependencies.Keys && (forall d :: d in todo ==> d.callee == s.entry)
        invariant Accounted() && Load() <= old(Load()) && Ready(hole, SummaryGap(s, todo))
        invariant budget.None? ==> old(budget).None? && Grew(old(View()), View())
        decreases |todo|
      {
        var d :| d in todo;
        ghost var before := View();
        SummaryReportable(s);
        ok := Checkpoint(summaries[s].path, summaries[s].trail);
        if !ok {
          return;
        }
        assert View() == before;
        ok := ApplySummary(d, s, hole, SummaryGap(s, todo));
        if !ok {
          return;
        }
        if budget.None? {
          GrewTransitive(old(View()), before, View());
        }
        GapShrinks(d, s, {}, todo);
        todo := todo - {d};
      }
      GapCloses();
    }

    /** Charges and stores a new summary. */
    method StoreSummary(s: SumKey, info: Summary) returns (ok: bool)
      requires Accounted() && s !in summaries && PathFits(s.entry, info.path, info.trail)
      modifies `ticks, `budget, `workUnits, `summaries, `summaryCount
      ensures Accounted() && Load() <= old(Load())
      ensures ok ==> budget == old(budget)
      ensures ok ==> summaries == old(summaries)[s := info] && summaryCount == old(summaryCount) + 1
      ensures ok ==> workUnits == old(workUnits) + 1
      ensures !ok ==> summaries == old(summaries) && budget.Some?
      ensures !ok && old(budget).None? ==> budget.value.reason != WitnessBudget
      ensures !ok && old(budget).None? ==> budget.value.path == info.path && budget.value.trail == info.trail
      ensures old(budget).Some? ==> budget == old(budget)
    {
      hide AllReportable, Caused;
      ok := ReserveWorkUnit(info.path, info.trail);
      if !ok {
        return;
      }
      MoreSummariesReportable(dependencies, summaries, s, info);
      summaries := summaries[s := info];
      summaryCount := summaryCount + 1;
    }

    /** A new summary opens a gap for every call already waiting. */
    method AddSummary(s: SumKey, info: Summary, ghost hole: set<(Key, Witness, Path)>) returns (ok: bool)
      requires Accounted() && Ready(hole, {}) && s !in summaries && PathFits(s.entry, info.path, info.trail)
      requires budget.None? ==> SumSound(sys, s, info)
      modifies `ticks, `budget, `workUnits, `summaries, `summaryCount
      ensures Accounted() && Load() <= old(Load())
      ensures ok ==> budget == old(budget) && Ready(hole, SummaryGap(s, WaitingCalls(dependencies.Keys, s)))
      ensures ok ==> summaries == old(summaries)[s := info] && summaryCount == old(summaryCount) + 1
      ensures ok ==> workUnits == old(workUnits) + 1
      ensures ok && budget.None? ==> Grew(old(View()), View())
      ensures !ok ==> budget.Some? && Ready(hole, {})
    {
      hide Accounted, Load, Inv, Grew, SumSound, SummaryGap, WaitingCalls, Stopped, PathFits;
      ghost var t := View();
      ghost var spent := budget;
      ok := StoreSummary(s, info);
      if spent.None? && budget.Some? {
        SummaryTurnedAway(sys, s, info, budget.value);
      }
      if budget.None? {
        PublishInv(sys, discharged, order, t, s, info, hole);
      }
    }

    /** Remembers how a procedure can finish, and tells every call that waits for it. */
    method PublishSummary(s: SumKey, info: Summary, ghost hole: set<(Key, Witness, Path)>)
      returns (ok: bool)
      requires Accounted() && Ready(hole, {}) && PlainReturns(sys)
      requires budget.None? ==> SumSound(sys, s, info)
      requires PathFits(s.entry, info.path, info.trail)
      modifies `ticks, `budget, `workUnits, `retained, `queue, `pathEdges, `offers, `summaryReuses
      modifies `summaries, `summaryCount
      ensures Accounted() && Load() <= old(Load())
      ensures Ready(hole, {})
      ensures budget.None? ==> old(budget).None? && Grew(old(View()), View())
      ensures budget.None? ==> summaries == if s in old(summaries) then old(summaries) else old(summaries)[s := info]
      ensures budget.None? ==> summaryCount == old(summaryCount) + if s in old(summaries) then 0 else 1
      ensures budget.None? && s in old(summaries) ==> workUnits == old(workUnits)
      ensures !ok ==> budget.Some?
    {
      hide View, Load, Accounted, Inv, Grew, Offered, DepSound, SumSound, PathSound, KeptAt, CoveredAt, PlainReturns;
      hide CallGap, SummaryGap, KnownSummaries, WaitingCalls;
      ghost var t := View();
      GrewReflexive(t);
      ok := Checkpoint(info.path, info.trail);
      if !ok || s in summaries {
        return;
      }
      ok := AddSummary(s, info, hole);
      if !ok {
        return;
      }
      ghost var u := View();
      ok := AnswerSummary(s, hole);
      if budget.None? {
        GrewTransitive(t, u, View());
      }
    }

    /** Registers a call with one return edge that matches it. */
    method RegisterReturn(k: Key, w: Witness, e: Edge, effect: EdgeFn, f: Flow, r: Edge, info: Dependency,
                          ghost hole: set<(Key, Witness, Path)>, ghost done: set<Edge>)
      returns (ok: bool)
      requires Accounted() && Ready(hole, {}) && PlainReturns(sys)
      requires budget.None? ==> PathSound(sys, k, w) && Registered(k, e, effect, f, done, dependencies.Keys)
      requires Calls(sys, k, e, effect, f) && info.trail == Extended(k, w, e, f)
               && PathFits(k.entry, info.path, info.trail)
      requires r in sys.edges && r.kind == Return && r.site == e.site && r.from.func == e.to.func
      modifies `ticks, `budget, `workUnits, `retained, `queue, `pathEdges, `offers, `summaryReuses
      modifies `dependencies, `dependencyCount
      ensures Accounted() && Load() <= old(Load())
      ensures Ready(hole, {})
      ensures budget.None? ==> old(budget).None? && Grew(old(View()), View())
      ensures budget.None? ==> Registered(k, e, effect, f, done + {r}, dependencies.Keys)
      ensures !ok ==> budget.Some?
    {
      hide Inv, Grew, Offered, DepSound, PathSound, KeptAt, CoveredAt, PlainReturns, RegistersAt, Calls, Registered;
      ghost var before := View();
      ok := Checkpoint(info.path, info.trail);
      if !ok {
        return;
      }
      assert View() == before;
      if budget.None? {
        CallSoundAt(sys, k, w, e, effect, f, r);
      }
      ok := RegisterDependency(CallKey(k, e, effect, f, r), info, hole);
      if budget.None? {
        GrewKeepsDependencies(before, View());
        RegisteredMore(k, e, effect, f, done, before.dependencies.Keys, r, dependencies.Keys);
      }
    }

    /** Registers a call with each return edge that matches it. */
    method RegisterReturns(k: Key, w: Witness, e: Edge, effect: EdgeFn, f: Flow, info: Dependency,
                           ghost hole: set<(Key, Witness, Path)>)
      returns (ok: bool)
      requires Accounted() && Ready(hole, {}) && PlainReturns(sys)
      requires budget.None? ==> PathSound(sys, k, w)
      requires Calls(sys, k, e, effect, f) && info.trail == Extended(k, w, e, f)
               && PathFits(k.entry, info.path, info.trail)
      modifies `ticks, `budget, `workUnits, `retained, `queue, `pathEdges, `offers, `summaryReuses
      modifies `dependencies, `dependencyCount
      ensures Accounted() && Load() <= old(Load())
      ensures Ready(hole, {})
      ensures budget.None? ==> old(budget).None? && Grew(old(View()), View())
      ensures budget.None? ==> AllRegistered(sys, k, e, dependencies.Keys)
      ensures !ok ==> budget.Some?
    {
      hide Inv, Grew, Offered, DepSound, PathSound, KeptAt, CoveredAt, AllRegistered, PathFits, Extended;
      hide PlainReturns, RegistersAt, Calls, Registered, View, Accounted, Ready, Load;
      var matching := set r | r in sys.edges && r.kind == Return && r.site == e.site && r.from.func == e.to.func;
      var todo := matching;
      ok := true;
      GrewReflexive(View());
      RegisteredNone(k, e, effect, f, dependencies.Keys);
      assert matching - todo == {};
      while todo != {}
        invariant todo <= matching
        invariant Accounted() && Load() <= old(Load()) && Ready(hole, {})
        invariant budget.None? ==> old(budget).None? && Grew(old(View()), View())
        invariant budget.None? ==> Registered(k, e, effect, f, matching - todo, dependencies.Keys)
        decreases |todo|
      {
        var r :| r in todo;
        ghost var before := View();
        ok := RegisterReturn(k, w, e, effect, f, r, info, hole, matching - todo);
        if !ok {
          return;
        }
        if budget.None? {
          GrewTransitive(old(View()), before, View());
          assert matching - todo + {r} == matching - (todo - {r});
        }
        todo := todo - {r};
      }
      if budget.None? {
        assert matching - todo == matching;
        RegisteredAll(sys, k, e, effect, f, dependencies.Keys);
      }
    }

    /** The call waits with the path and the witness that lead into the callee. */
    method RegisterCall(k: Key, path: Path, w: Witness, e: Edge, effect: EdgeFn, f: Flow,
                        ghost hole: set<(Key, Witness, Path)>)
      returns (ok: bool)
      requires Accounted() && Ready(hole, {}) && PlainReturns(sys)
      requires budget.None? ==> PathSound(sys, k, w)
      requires Calls(sys, k, e, effect, f) && PathFits(k.entry, path, w)
      modifies `ticks, `budget, `workUnits, `retained, `queue, `pathEdges, `offers, `summaryReuses
      modifies `dependencies, `dependencyCount
      ensures Accounted() && Load() <= old(Load())
      ensures Ready(hole, {})
      ensures budget.None? ==> old(budget).None? && Grew(old(View()), View())
      ensures budget.None? ==> AllRegistered(sys, k, e, dependencies.Keys)
      ensures !ok ==> budget.Some?
    {
      hide PathSound, PlainReturns, Calls, View, Accounted, Ready, Load, Grew, AllRegistered;
      var info := Dependency(AppendBlock(path, e.to.block), Extended(k, w, e, f));
      PathGrows(k.entry, path, w, info.trail[|w|]);
      ok := RegisterReturns(k, w, e, effect, f, info, hole);
    }

    /** Steps into a callee: waits for its summaries, and starts it from an empty witness. */
    method EnterCall(k: Key, path: Path, w: Witness, e: Edge, effect: EdgeFn, f: Flow,
                     ghost hole: set<(Key, Witness, Path)>)
      returns (ok: bool)
      requires Accounted() && Ready(hole, {}) && PlainReturns(sys)
      requires budget.None? ==> PathSound(sys, k, w)
      requires Calls(sys, k, e, effect, f) && PathFits(k.entry, path, w)
      modifies `ticks, `budget, `workUnits, `retained, `queue, `pathEdges, `offers, `summaryReuses
      modifies `dependencies, `dependencyCount
      ensures Accounted() && Load() <= old(Load())
      ensures Ready(hole, {})
      ensures budget.None? ==> old(budget).None? && Grew(old(View()), View())
      ensures budget.None? ==> CoveredAt(View(), EntryKey(Entry(e.to, f.moved)), [])
      ensures budget.None? ==> AllRegistered(sys, k, e, dependencies.Keys)
      ensures !ok ==> budget.Some?
    {
      hide Inv, Grew, Offered, DepSound, PathSound, KeptAt, CoveredAt, PlainReturns, RegistersAt, Calls, EntryReached;
      ghost var t := View();
      ok := RegisterCall(k, path, w, e, effect, f, hole);
      if budget.Some? {
        return false;
      }
      ghost var u := View();
      CallEntrySound(sys, k, w, e, effect, f);
      EmptyPathFits(Entry(e.to, f.moved));
      var _ := EnqueueSound(PathEdge(EntryKey(Entry(e.to, f.moved)), [e.to.block], []), hole, {});
      ok := true;
      if budget.None? {
        GrewKeepsDependencies(u, View());
        GrewTransitive(t, u, View());
      }
    }

    /** Follows one outgoing edge: skipped, into a callee, or on within the procedure. */
    method Follow(k: Key, path: Path, w: Witness, e: Edge, effect: EdgeFn, after: State,
                  ghost hole: set<(Key, Witness, Path)>)
      returns (ok: bool)
      requires Accounted() && Ready(hole, {}) && PlainReturns(sys) && PathFits(k.entry, path, w)
      requires budget.None? ==> PathSound(sys, k, w)
      requires Passes(sys, k, effect, after) && e in sys.edges && e.from == k.node
      modifies `ticks, `budget, `workUnits, `retained, `queue, `pathEdges, `offers, `summaryReuses
      modifies `dependencies, `dependencyCount
      ensures Accounted() && Load() <= old(Load())
      ensures Ready(hole, {})
      ensures budget.None? ==> old(budget).None? && Grew(old(View()), View())
      ensures budget.None? && e.kind != Return ==> EdgeDone(sys, View(), k, w, e, effect, after)
      ensures !ok ==> budget.Some?
    {
      hide Inv, Grew, Offered, DepSound, PathSound, KeptAt, CoveredAt, PlainReturns, AllRegistered, EdgeDone;
      ghost var t := View();
      GrewReflexive(t);
      ok := Checkpoint(path, w);
      if !ok {
        return;
      }
      assert View() == t;
      if e.kind == Return {
        return;
      }
      var flow := sys.follow(e, after);
      if flow.None? {
        EdgeDoneSkipped(sys, t, k, w, e, effect, after);
        return;
      }
      var f := flow.value;
      if e.kind == Call {
        ok := EnterCall(k, path, w, e, effect, f, hole);
        if budget.None? {
          EdgeDoneCalled(sys, View(), k, w, e, effect, after, f);
        }
        return;
      }
      if budget.None? {
        FollowSound(sys, k, w, e, effect, f);
      }
      PathGrows(k.entry, path, w, Extended(k, w, e, f)[|w|]);
      ok := EnqueueSound(
        PathEdge(FollowEdge(k, e, effect, f), AppendBlock(path, e.to.block), Extended(k, w, e, f)), hole, {});
      if budget.None? {
        EdgeDoneFollowed(sys, View(), k, w, e, effect, after, f);
      }
    }

    /** Follows every outgoing edge, in any order. */
    method FollowAll(k: Key, path: Path, w: Witness, effect: EdgeFn, after: State,
                     ghost hole: set<(Key, Witness, Path)>)
      requires Accounted() && Ready(hole, {}) && PlainReturns(sys) && PathFits(k.entry, path, w)
      requires budget.None? ==> PathSound(sys, k, w)
      requires Passes(sys, k, effect, after)
      modifies `ticks, `budget, `workUnits, `retained, `queue, `pathEdges, `offers, `summaryReuses
      modifies `dependencies, `dependencyCount
      ensures Accounted() && Load() <= old(Load())
      ensures Ready(hole, {})
      ensures budget.None? ==> old(budget).None? && Grew(old(View()), View())
      ensures budget.None? ==> EdgesDone(sys, View(), k, w, effect, after, sys.edges)
    {
      hide Inv, Grew, PathSound, PlainReturns, EdgeDone, EdgesDone, Accounted, Ready, Load, View, Passes;
      var outgoing := set e | e in sys.edges && e.from == k.node;
      var todo := outgoing;
      GrewReflexive(View());
      EdgesDoneNone(sys, View(), k, w, effect, after);
      assert outgoing - todo == {};
      while todo != {}
        invariant todo <= outgoing
        invariant Accounted() && Load() <= old(Load()) && Ready(hole, {})
        invariant budget.None? ==> old(budget).None? && Grew(old(View()), View())
        invariant budget.None? ==> EdgesDone(sys, View(), k, w, effect, after, outgoing - todo)
        decreases |todo|
      {
        var e :| e in todo;
        ghost var before := View();
        var ok := Follow(k, path, w, e, effect, after, hole);
        if !ok {
          return;
        }
        if budget.None? {
          GrewTransitive(old(View()), before, View());
          EdgesDoneMore(sys, before, View(), k, w, effect, after, outgoing - todo, e);
          assert outgoing - todo + {e} == outgoing - (todo - {e});
        }
        todo := todo - {e};
      }
      if budget.None? {
        assert outgoing - todo == outgoing;
        EdgesDoneAll(sys, View(), k, w, effect, after, outgoing);
      }
    }

    method RecordUnsafe(k: Key, path: Path, w: Witness, ghost hole: set<(Key, Witness, Path)>)
      requires Ready(hole, {}) && Ranked() && budget.None? && PathSound(sys, k, w) && PathFits(k.entry, path, w)
               && sys.visit(k.node, k.state).Violation?
               && !IsDischarged(discharged, path, w, k.node, UnsafeCandidate)
      modifies `unsafe, `violations
      ensures Ready(hole, {}) && Ranked() && unsafe.Some?
      ensures unsafe == Preference.Prefer(smaller, old(unsafe), PathResult(Unsafe, NoReason, path, w, k.node))
      ensures violations == old(violations) + [PathResult(Unsafe, NoReason, path, w, k.node)]
    {
      hide Inv, PathSound, ResultSound, PathFits, Preference.Prefer, Preference.Reported, Chosen, IsDischarged;
      hide Grew, Stopped;
      ghost var t := View();
      var r := PathResult(Unsafe, NoReason, path, w, k.node);
      Preference.ReportedMore(smaller, violations, r);
      unsafe := Preference.Prefer(smaller, unsafe, r);
      violations := violations + [r];
      ComplaintSound(sys, k, w, path, Unsafe, NoReason);
      RecordInv(sys, discharged, order, t, View(), r, hole, {});
    }

    method RecordInconclusive(k: Key, path: Path, w: Witness, reason: Reason, ghost hole: set<(Key, Witness, Path)>)
      requires Ready(hole, {}) && Ranked() && budget.None? && PathSound(sys, k, w) && PathFits(k.entry, path, w)
               && Complains(sys, k, Inconclusive, reason)
               && !IsDischarged(discharged, path, w, k.node, Uncertain(reason))
      modifies `inconclusive, `doubts
      ensures Ready(hole, {}) && Ranked() && inconclusive.Some?
      ensures inconclusive
              == Preference.Prefer(smaller, old(inconclusive), PathResult(Inconclusive, reason, path, w, k.node))
      ensures doubts == old(doubts) + [PathResult(Inconclusive, reason, path, w, k.node)]
    {
      hide Inv, PathSound, ResultSound, PathFits, Preference.Prefer, Preference.Reported, Chosen, IsDischarged;
      hide Grew, Stopped;
      ghost var t := View();
      var r := PathResult(Inconclusive, reason, path, w, k.node);
      Preference.ReportedMore(smaller, doubts, r);
      inconclusive := Preference.Prefer(smaller, inconclusive, r);
      doubts := doubts + [r];
      ComplaintSound(sys, k, w, path, Inconclusive, reason);
      RecordInv(sys, discharged, order, t, View(), r, hole, {});
    }

    /** A path edge that may go on: it either publishes a summary or follows its edges. */
    method Pass(k: Key, path: Path, w: Witness, after: State, tag: Tag)
      requires Accounted() && Ready({(k, w, path)}, {}) && PlainReturns(sys) && budget.None?
      requires PathSound(sys, k, w) && PathFits(k.entry, path, w)
      requires var v := sys.visit(k.node, k.state);
               v.Proceed? && v.after == after && v.tag == tag && DoubtFound(sys, doubts, k, w, path)
      modifies `ticks, `budget, `workUnits, `retained, `queue, `pathEdges, `offers, `summaryReuses
      modifies `dependencies, `dependencyCount, `summaries, `summaryCount
      ensures Accounted() && Load() <= old(Load())
      ensures Ready({}, {})
    {
      hide Inv, Grew, PathSound, SumSound, PlainReturns, EdgesDone, Expanded;
      var effect := k.effect.Then(tag);
      ghost var t := View();
      if HasReturn(sys, k.node) {
        SummarySound(sys, k, w, path);
        var _ := PublishSummary(SumKey(k.entry, k.node, after, effect), Summary(path, w, k.state, tag), {(k, w, path)});
        if budget.None? {
          ExpandedPublished(sys, discharged, View(), k, w, path);
          CloseInv(sys, discharged, order, View(), k, w, path);
        }
      } else {
        FollowAll(k, path, w, effect, after, {(k, w, path)});
        if budget.None? {
          ExpandedFollowed(sys, discharged, View(), k, w, path, effect, after);
          CloseInv(sys, discharged, order, View(), k, w, path);
        }
      }
    }

    /** Treats one path edge taken from the queue. */
    method Process(k: Key, path: Path, w: Witness)
      requires Accounted() && Ready({(k, w, path)}, {}) && PlainReturns(sys) && budget.None?
      requires Ranked() && PathSound(sys, k, w) && PathFits(k.entry, path, w)
      modifies `ticks, `budget, `workUnits, `retained, `queue, `pathEdges, `offers, `summaryReuses
      modifies `dependencies, `dependencyCount, `summaries, `summaryCount
      modifies `unsafe, `inconclusive, `violations, `doubts
      ensures Accounted() && Load() <= old(Load())
      ensures Ready({}, {}) && Ranked()
    {
      hide Inv, Grew, PathSound, PlainReturns, Expanded, Accounted, Load, PathFits;
      hide Preference.Prefer, Preference.Reported;
      match sys.visit(k.node, k.state)
      case Halt(why) =>
        if !IsDischarged(discharged, path, w, k.node, Uncertain(why)) {
          RecordInconclusive(k, path, w, why, {(k, w, path)});
        }
        ExpandedStopped(sys, discharged, View(), k, w, path);
        CloseInv(sys, discharged, order, View(), k, w, path);
      case Violation =>
        if !IsDischarged(discharged, path, w, k.node, UnsafeCandidate) {
          RecordUnsafe(k, path, w, {(k, w, path)});
        }
        ExpandedStopped(sys, discharged, View(), k, w, path);
        CloseInv(sys, discharged, order, View(), k, w, path);
      case Proceed(after, tag, doubt) =>
        if doubt.Some? {
          if IsDischarged(discharged, path, w, k.node, Uncertain(doubt.value)) {
            ExpandedStopped(sys, discharged, View(), k, w, path);
            CloseInv(sys, discharged, order, View(), k, w, path);
            return;
          }
          RecordInconclusive(k, path, w, doubt.value, {(k, w, path)});
        }
        Pass(k, path, w, after, tag);
    }

    /** First in, first out; last in, first out only under the test control. */
    method Take() returns (k: Key, w: Witness)
      requires queue != [] && budget.None? && Ready({}, {})
      modifies `queue
      ensures |queue| == |old(queue)| - 1 && Load() == old(Load()) - 1
      ensures (k, w) == if lifo then old(queue)[|old(queue)| - 1] else old(queue)[0]
      ensures queue == if lifo then old(queue)[..|old(queue)| - 1] else old(queue)[1..]
      ensures k in retained && w in retained[k] ==> Ready({(k, w, retained[k][w])}, {})
      ensures !(k in retained && w in retained[k]) ==> Ready({}, {})
    {
      hide Inv;
      ghost var t := View();
      if lifo {
        k, w := queue[|queue| - 1].0, queue[|queue| - 1].1;
        queue := queue[..|queue| - 1];
        assert t.queue == queue + [(k, w)];
      } else {
        k, w := queue[0].0, queue[0].1;
        queue := queue[1..];
        assert t.queue == [(k, w)] + queue;
      }
      TakeInv(sys, discharged, order, t, View(), k, w,
              if k in retained && w in retained[k] then {(k, w, retained[k][w])} else {});
    }

    /**
     The whole propagation. If it finishes, its table is saturated, and when nothing
     was discharged its outcome is exactly what the realizable runs of the system
     meet. If it does not finish, the outcome is inconclusive, whatever was found
     on the way. Either way the accepted work stays within the limit.
     */
    method Propagate() returns (result: PathResult, finished: bool)
      requires View() == EMPTY_TABLE && Accounted() && workUnits == 0 && budget.None? && PlainReturns(sys)
      modifies this
      ensures pathEdges + dependencyCount + summaryCount <= limit && old(ticks) <= ticks
      ensures finished <==> budget.None? && sys.start in sys.nodes && !clock(old(ticks))
      ensures finished ==>
                && workUnits <= limit
                && (forall i :: old(ticks) <= i < ticks ==> !clock(i))
                && result == Answer(sys.start, unsafe, inconclusive)
                && (result.outcome == Safe <==> NoComplaint(View()))
      ensures !finished ==> result.outcome == Inconclusive && Reportable(result.path, result.trail)
      ensures !finished ==>
                match result.reason
                case UnresolvedTarget => sys.start !in sys.nodes && !clock(old(ticks)) && budget.None?
                case Timeout => exists i :: old(ticks) <= i < ticks && clock(i)
                case StateBudget => workUnits > limit && result.path != [] && Walked(sys, result.trail)
                case WitnessBudget => Crowded(sys) && result.path != [] && Walked(sys, result.trail)
                case _ => false
      ensures budget.Some? ==> result == budget.value && GaveUp(sys.start, result)
      ensures workUnits > limit ==> budget.Some?
      ensures result.trail == [] ==> |result.path| <= 1
      ensures finished ==> Saturated(sys, discharged, View()) && KeepsTheBest(order, View()) && Ranked()
      ensures finished && result.outcome != Safe ==> ResultSound(sys, result) && !WasDischarged(discharged, result)
      ensures result.outcome == Safe ==> JustifiedSafe(sys, discharged)
      ensures finished && discharged == {} ==>
        && (result.outcome == Unsafe <==> ReachesViolation(sys))
        && (result.outcome == Inconclusive <==> !ReachesViolation(sys) && ReachesDoubt(sys))
        && (result.outcome == Safe <==> !ReachesViolation(sys) && !ReachesDoubt(sys))
    {
      hide Inv, Saturated, ResultSound, PlainReturns, Crowded, Walked, ReachesViolation, ReachesDoubt, Ranked;
      hide AllReportable;
      hide KeepsTheBest, JustifiedSafe, Answer, View;
      started := ticks;
      var expired := clock(ticks);
      ticks := ticks + 1;
      if expired {
        return PathResult(Inconclusive, Timeout, [], [], sys.start), false;
      }
      if sys.start !in sys.nodes {
        return PathResult(Inconclusive, UnresolvedTarget, [], [], sys.start), false;
      }
      Start();
      Drain();
      if budget.None? {
        var _ := Checkpoint([], []);
      }
      if budget.Some? {
        PathOfNothing(budget.value.path, budget.value.trail);
        return budget.value, false;
      }
      result := Conclude();
      finished := true;
    }

    /** Nothing is left to do: the table is finished, and its answer is exact. */
    method Conclude() returns (result: PathResult)
      requires Inv(sys, discharged, order, View(), {}, {}) && queue == [] && Ranked()
      ensures result == Answer(sys.start, unsafe, inconclusive)
      ensures result.outcome == Safe <==> NoComplaint(View())
      ensures Saturated(sys, discharged, View()) && KeepsTheBest(order, View())
      ensures result.outcome != Safe ==> ResultSound(sys, result) && !WasDischarged(discharged, result)
      ensures result.outcome == Safe ==> JustifiedSafe(sys, discharged)
      ensures result.trail == [] ==> |result.path| <= 1
      ensures discharged == {} ==>
        && (result.outcome == Unsafe <==> ReachesViolation(sys))
        && (result.outcome == Inconclusive <==> !ReachesViolation(sys) && ReachesDoubt(sys))
        && (result.outcome == Safe <==> !ReachesViolation(sys) && !ReachesDoubt(sys))
    {
      hide Inv, Saturated, ResultSound, ReachesViolation, ReachesDoubt;
      EmptyQueueSaturated(sys, discharged, order, View());
      if discharged == {} {
        ExactOutcome(sys, View());
      }
      InvResults(sys, discharged, order, View(), {}, {});
      ResultsFit(sys, Unsafe, violations, unsafe);
      ResultsFit(sys, Inconclusive, doubts, inconclusive);
      hide FoundSound;
      if unsafe.Some? {
        result := unsafe.value;
      } else if inconclusive.Some? {
        result := inconclusive.value;
      } else {
        result := PathResult(Safe, NoReason, [], [], sys.start);
      }
    }

    lemma PathOfNothing(path: Path, w: Witness)
      requires Reportable(path, w)
      ensures w == [] ==> |path| <= 1
    {
      if path != [] {
        PathStarts(path[0], path, w);
      }
    }

    method Start()
      requires View() == EMPTY_TABLE && Accounted() && budget.None?
      modifies `ticks, `budget, `workUnits, `retained, `queue, `pathEdges, `offers
      ensures Accounted() && Ready({}, {}) && Ranked()
    {
      hide Inv, Offered, PathSound;
      var edge := PathEdge(EntryKey(RootEntry(sys)), [sys.start.block], []);
      RootReached(sys);
      EmptyPathFits(RootEntry(sys));
      var _ := Enqueue(edge);
      if budget.None? {
        InitialInv(sys, discharged, order, edge);
      }
    }

    lemma LoadBounded()
      requires Accounted()
      ensures Load() >= 0
    {
    }

    lemma EntrySound(k: Key, w: Witness)
      requires budget.None? && k in retained && w in retained[k] ==> Ready({(k, w, retained[k][w])}, {})
      ensures budget.None? && k in retained && w in retained[k] ==>
                PathSound(sys, k, w) && PathFits(k.entry, retained[k][w], w)
    {
      hide Inv;
      if budget.None? && k in retained && w in retained[k] {
        InvSound(sys, discharged, order, View(), {(k, w, retained[k][w])}, {});
      }
    }

    method Drain()
      requires Accounted() && Ready({}, {}) && Ranked() && PlainReturns(sys)
      modifies `ticks, `budget, `workUnits, `retained, `queue, `pathEdges, `offers, `summaryReuses
      modifies `dependencies, `dependencyCount, `summaries, `summaryCount
      modifies `unsafe, `inconclusive, `violations, `doubts
      ensures Accounted() && Ready({}, {}) && Ranked()
      ensures budget.None? ==> queue == []
    {
      hide Inv, PathSound, PlainReturns, Accounted, Load, Ranked, View, Crowded, Walked, PathFits;
      LoadBounded();
      while |queue| > 0 && budget.None?
        invariant Accounted() && Ready({}, {}) && Ranked() && Load() >= 0
        decreases Load()
      {
        ghost var t := View();
        var ok := Checkpoint([], []);
        if !ok {
          break;
        }
        assert View() == t;
        var k, w := Take();
        LoadBounded();
        EntrySound(k, w);
        if k in retained && w in retained[k] {
          Process(k, retained[k][w], w);
          LoadBounded();
        }
      }
    }
  }
}
