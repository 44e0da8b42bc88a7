/**
 What a finished table means: exactly the realizable runs, whatever order the
 work was done in; and when discharging witnesses from it loses nothing else.
 */
module TabulationTheory {
  import opened Options
  import opened ProtocolDomain
  import opened Supergraph
  import opened Runs
  import opened Tables
  import Antichain

  /** Return edges of a built supergraph carry neither a reason nor predicates. */
  ghost predicate PlainReturns(sys: System) {
    forall e :: e in sys.edges && e.kind == Return ==> e == ReturnEdge(e.from, e.to, e.site)
  }

  // ---------------------------------------------------------------- every entry has a run

  lemma PathSoundReaches(sys: System, k: Key, w: Witness)
    requires PathSound(sys, k, w)
    ensures ReachesKey(sys, k)
  {
    var es, stack :| Run(sys, Initial(sys), es) == Some(Config(EntryKey(k.entry), stack));
    RunLift(sys, Config(EntryKey(k.entry), []), Edges(w), stack);
    assert stack + [] == stack;
    RunConcat(sys, Initial(sys), es, Edges(w));
  }

  lemma RootReached(sys: System)
    ensures EntryReached(sys, RootEntry(sys))
    ensures PathSound(sys, EntryKey(RootEntry(sys)), [])
  {
    assert Run(sys, Initial(sys), []) == Some(Initial(sys));
    assert Edges([]) == [];
  }

  lemma EntrySound(sys: System, entry: Entry)
    requires EntryReached(sys, entry)
    ensures PathSound(sys, EntryKey(entry), [])
  {
    assert Edges([]) == [];
  }

  lemma TracesAppend(sys: System, entry: Entry, w: Witness, c: Config, s: Step, d: Config)
    requires Traces(sys, entry, w, c) && Move(sys, c, s.edge) == Some(d) && StepSound(sys, s)
    requires s.before == c.key.state && s.after == d.key.state
    ensures Traces(sys, entry, w + [s], d)
  {
    EdgesAppend(w, s);
    RunAppend(sys, Config(EntryKey(entry), []), Edges(w), s.edge);
    ChainedAppend(w, s, entry.state);
  }

  lemma FlowSound(sys: System, k: Key, w: Witness, s: Step, next: Key)
    requires PathSound(sys, k, w) && StepSound(sys, s)
    requires Move(sys, Config(k, []), s.edge) == Some(Config(next, []))
    requires s.before == k.state && s.after == next.state && next.entry == k.entry
    ensures PathSound(sys, next, w + [s])
  {
    TracesAppend(sys, k.entry, w, Config(k, []), s, Config(next, []));
  }

  lemma CalleeReached(sys: System, k: Key, w: Witness, e: Edge, callee: Entry, frame: Frame)
    requires PathSound(sys, k, w)
    requires Move(sys, Config(k, []), e) == Some(Config(EntryKey(callee), [frame]))
    ensures EntryReached(sys, callee)
  {
    PathSoundReaches(sys, k, w);
    var es, stack :| Run(sys, Initial(sys), es) == Some(Config(k, stack));
    MoveLift(sys, Config(k, []), e, stack);
    assert stack + [] == stack;
    RunAppend(sys, Initial(sys), es, e);
  }

  /** Registering a call: its witness leads from the caller's entry into the callee, one frame up. */
  lemma CallSound(sys: System, k: Key, w: Witness, e: Edge, r: Edge, d: DepKey, s: Step)
    requires PathSound(sys, k, w) && RegistersAt(sys, k, e, r, d)
    requires s.edge == e && s.before == k.state && s.after == d.callee.state && StepSound(sys, s)
    ensures DepSound(sys, d, w + [s])
    ensures EntryReached(sys, d.callee)
  {
    var frame := Frame(d.site, d.caller, d.effect);
    var v := sys.visit(k.node, k.state);
    var f := sys.follow(e, v.after).value;
    assert [] + [frame] == [frame];
    assert Move(sys, Config(k, []), e) == Some(Config(EntryKey(d.callee), [frame]));
    TracesAppend(sys, k.entry, w, Config(k, []), s, Config(EntryKey(d.callee), [frame]));
    CalleeReached(sys, k, w, e, d.callee, frame);
    PathSoundReaches(sys, k, w);
  }

  /** `e` is a call edge the analysis follows from `k`, with this effect and flow. */
  ghost predicate Calls(sys: System, k: Key, e: Edge, effect: EdgeFn, f: Flow) {
    && e in sys.edges && e.from == k.node && e.kind == Call && !HasReturn(sys, k.node)
    && var v := sys.visit(k.node, k.state);
       v.Proceed? && effect == k.effect.Then(v.tag) && sys.follow(e, v.after) == Some(f)
  }

  function CallKey(k: Key, e: Edge, effect: EdgeFn, f: Flow, r: Edge): DepKey {
    DepKey(Entry(e.to, f.moved), r.from, k.entry, e.site, r.to, effect.Then(f.tag))
  }

  lemma CallSoundAt(sys: System, k: Key, w: Witness, e: Edge, effect: EdgeFn, f: Flow, r: Edge)
    requires PathSound(sys, k, w) && Calls(sys, k, e, effect, f)
    requires r in sys.edges && r.kind == Return && r.site == e.site && r.from.func == e.to.func
    ensures DepSound(sys, CallKey(k, e, effect, f, r), Extended(k, w, e, f))
  {
    assert RegistersAt(sys, k, e, r, CallKey(k, e, effect, f, r));
    CallSound(sys, k, w, e, r, CallKey(k, e, effect, f, r), Extended(k, w, e, f)[|w|]);
  }

  ghost predicate Registered(k: Key, e: Edge, effect: EdgeFn, f: Flow, returning: set<Edge>, known: set<DepKey>) {
    forall r :: r in returning ==> CallKey(k, e, effect, f, r) in known
  }

  lemma RegisteredMore(k: Key, e: Edge, effect: EdgeFn, f: Flow, returning: set<Edge>, known: set<DepKey>,
                       r: Edge, more: set<DepKey>)
    requires Registered(k, e, effect, f, returning, known)
    requires known <= more && CallKey(k, e, effect, f, r) in more
    ensures Registered(k, e, effect, f, returning + {r}, more)
  {
  }

  lemma RegisteredAll(sys: System, k: Key, e: Edge, effect: EdgeFn, f: Flow, known: set<DepKey>)
    requires Calls(sys, k, e, effect, f)
    requires Registered(k, e, effect, f,
                        (set r | r in sys.edges && r.kind == Return && r.site == e.site && r.from.func == e.to.func),
                        known)
    ensures AllRegistered(sys, k, e, known)
  {
    forall r, d | RegistersAt(sys, k, e, r, d)
      ensures d in known
    {
      assert d == CallKey(k, e, effect, f, r);
    }
  }

  lemma RegisteredNone(k: Key, e: Edge, effect: EdgeFn, f: Flow, known: set<DepKey>)
    ensures Registered(k, e, effect, f, {}, known)
  {
  }

  lemma CallEntrySound(sys: System, k: Key, w: Witness, e: Edge, effect: EdgeFn, f: Flow)
    requires PathSound(sys, k, w) && Calls(sys, k, e, effect, f)
    ensures PathSound(sys, EntryKey(Entry(e.to, f.moved)), [])
  {
    var callee := Entry(e.to, f.moved);
    var frame := Frame(e.site, k.entry, effect.Then(f.tag));
    assert [] + [frame] == [frame];
    CalleeReached(sys, k, w, e, callee, frame);
    EntrySound(sys, callee);
  }

  lemma FollowSound(sys: System, k: Key, w: Witness, e: Edge, effect: EdgeFn, f: Flow)
    requires PathSound(sys, k, w)
    requires e in sys.edges && e.from == k.node && e.kind != Call && e.kind != Return && !HasReturn(sys, k.node)
    requires var v := sys.visit(k.node, k.state);
             v.Proceed? && effect == k.effect.Then(v.tag) && sys.follow(e, v.after) == Some(f)
    ensures PathSound(sys, FollowEdge(k, e, effect, f), Extended(k, w, e, f))
  {
    FlowSound(sys, k, w, Extended(k, w, e, f)[|w|], FollowEdge(k, e, effect, f));
  }

  /** `effect` and `after` are what passing the node of `k` makes of it, and its edges are followed. */
  ghost predicate Passes(sys: System, k: Key, effect: EdgeFn, after: State) {
    && !HasReturn(sys, k.node)
    && var v := sys.visit(k.node, k.state);
       v.Proceed? && after == v.after && effect == k.effect.Then(v.tag)
  }

  lemma EdgesDoneMore(sys: System, t: Table, u: Table, k: Key, w: Witness, effect: EdgeFn, after: State,
                      done: set<Edge>, e: Edge)
    requires Grew(t, u) && EdgesDone(sys, t, k, w, effect, after, done)
    requires e.kind != Return ==> EdgeDone(sys, u, k, w, e, effect, after)
    ensures EdgesDone(sys, u, k, w, effect, after, done + {e})
  {
    EdgesDoneGrew(sys, t, u, k, w, effect, after, done);
  }

  lemma EdgesDoneNone(sys: System, t: Table, k: Key, w: Witness, effect: EdgeFn, after: State)
    ensures EdgesDone(sys, t, k, w, effect, after, {})
  {
  }

  lemma EdgesDoneAll(sys: System, t: Table, k: Key, w: Witness, effect: EdgeFn, after: State, outgoing: set<Edge>)
    requires EdgesDone(sys, t, k, w, effect, after, outgoing)
    requires outgoing == set e | e in sys.edges && e.from == k.node
    ensures EdgesDone(sys, t, k, w, effect, after, sys.edges)
  {
    forall e | e in sys.edges && e.from == k.node && e.kind != Return
      ensures EdgeDone(sys, t, k, w, e, effect, after)
    {
      assert e in outgoing;
    }
  }

  lemma EdgeDoneSkipped(sys: System, t: Table, k: Key, w: Witness, e: Edge, effect: EdgeFn, after: State)
    requires sys.follow(e, after).None?
    ensures EdgeDone(sys, t, k, w, e, effect, after)
  {
  }

  lemma EdgeDoneCalled(sys: System, t: Table, k: Key, w: Witness, e: Edge, effect: EdgeFn, after: State, f: Flow)
    requires sys.follow(e, after) == Some(f) && e.kind == Call
    requires CoveredAt(t, EntryKey(Entry(e.to, f.moved)), []) && AllRegistered(sys, k, e, t.dependencies.Keys)
    ensures EdgeDone(sys, t, k, w, e, effect, after)
  {
  }

  lemma EdgeDoneFollowed(sys: System, t: Table, k: Key, w: Witness, e: Edge, effect: EdgeFn, after: State, f: Flow)
    requires sys.follow(e, after) == Some(f) && e.kind != Call
    requires CoveredAt(t, FollowEdge(k, e, effect, f), Extended(k, w, e, f))
    ensures EdgeDone(sys, t, k, w, e, effect, after)
  {
  }

  lemma ExpandedStopped(sys: System, discharged: set<Token>, t: Table, k: Key, w: Witness, path: Path)
    requires match sys.visit(k.node, k.state)
             case Halt(why) =>
               || IsDischarged(discharged, path, w, k.node, Uncertain(why))
               || PathResult(Inconclusive, why, path, w, k.node) in t.doubts
             case Violation =>
               || IsDischarged(discharged, path, w, k.node, UnsafeCandidate)
               || PathResult(Unsafe, NoReason, path, w, k.node) in t.violations
             case Proceed(_, _, doubt) =>
               doubt.Some? && IsDischarged(discharged, path, w, k.node, Uncertain(doubt.value))
    ensures Expanded(sys, discharged, t, k, w, path)
  {
  }

  /** The doubt of an entry that goes on, if it has one, is among those found. */
  ghost predicate DoubtFound(sys: System, found: seq<PathResult>, k: Key, w: Witness, path: Path) {
    var v := sys.visit(k.node, k.state);
    v.Proceed? && (v.doubt.Some? ==> PathResult(Inconclusive, v.doubt.value, path, w, k.node) in found)
  }

  lemma ExpandedPublished(sys: System, discharged: set<Token>, t: Table, k: Key, w: Witness, path: Path)
    requires DoubtFound(sys, t.doubts, k, w, path)
    requires var v := sys.visit(k.node, k.state);
             && HasReturn(sys, k.node)
             && SumKey(k.entry, k.node, v.after, k.effect.Then(v.tag)) in t.summaries
    ensures Expanded(sys, discharged, t, k, w, path)
  {
  }

  lemma ExpandedFollowed(sys: System, discharged: set<Token>, t: Table, k: Key, w: Witness, path: Path,
                         effect: EdgeFn, after: State)
    requires DoubtFound(sys, t.doubts, k, w, path)
    requires Passes(sys, k, effect, after) && EdgesDone(sys, t, k, w, effect, after, sys.edges)
    ensures Expanded(sys, discharged, t, k, w, path)
  {
  }

  lemma SummarySound(sys: System, k: Key, w: Witness, path: Path)
    requires PathSound(sys, k, w) && HasReturn(sys, k.node) && sys.visit(k.node, k.state).Proceed?
    ensures var v := sys.visit(k.node, k.state);
            SumSound(sys, SumKey(k.entry, k.node, v.after, k.effect.Then(v.tag)), Summary(path, w, k.state, v.tag))
  {
    var v := sys.visit(k.node, k.state);
    assert SumSoundFrom(sys, SumKey(k.entry, k.node, v.after, k.effect.Then(v.tag)), Summary(path, w, k.state, v.tag),
                        k);
  }

  lemma ComplaintSound(sys: System, k: Key, w: Witness, path: Path, outcome: Outcome, reason: Reason)
    requires PathSound(sys, k, w) && PathFits(k.entry, path, w) && Complains(sys, k, outcome, reason)
    ensures ResultSound(sys, PathResult(outcome, reason, path, w, k.node))
  {
    assert ResultSoundAt(sys, PathResult(outcome, reason, path, w, k.node), k);
  }

  lemma ResultsFit(sys: System, outcome: Outcome, found: seq<PathResult>, r: Option<PathResult>)
    requires FoundSound(sys, outcome, found, r)
    ensures r.Some? ==> ResultSound(sys, r.value) && r.value.outcome == outcome
    ensures r.Some? ==> Reportable(r.value.path, r.value.trail) && (r.value.trail == [] ==> |r.value.path| == 1)
  {
    if r.Some? {
      var k :| ResultSoundAt(sys, r.value, k);
      PathStarts(k.entry.node.block, r.value.path, r.value.trail);
    }
  }

  lemma InvResults(sys: System, discharged: set<Token>, order: Antichain.Order, t: Table,
                   hole: set<(Key, Witness, Path)>, gap: set<(DepKey, SumKey)>)
    requires Inv(sys, discharged, order, t, hole, gap)
    ensures FoundSound(sys, Unsafe, t.violations, t.unsafe) && FoundSound(sys, Inconclusive, t.doubts, t.inconclusive)
  {
  }

  lemma GrewKeepsDependencies(t: Table, u: Table)
    requires Grew(t, u)
    ensures t.dependencies.Keys <= u.dependencies.Keys
  {
  }

  /** A callee's walk, put after the walk that called it, keeps the call open. */
  lemma CalleeWalk(sys: System, caller: Entry, w: Witness, callee: Entry, x: Witness, k: Key, frame: Frame)
    requires Traces(sys, caller, w, Config(EntryKey(callee), [frame]))
    requires Traces(sys, callee, x, Config(k, []))
    ensures Traces(sys, caller, w + x, Config(k, [frame]))
  {
    hide Move, StepSound;
    RunLift(sys, Config(EntryKey(callee), []), Edges(x), [frame]);
    assert [frame] + [] == [frame];
    RunConcat(sys, Config(EntryKey(caller), []), Edges(w), Edges(x));
    EdgesConcat(w, x);
    ChainedConcat(w, x, caller.state, callee.state, k.state);
  }

  lemma ReturnMoves(sys: System, d: DepKey, s: SumKey, sum: Summary, k: Key)
    requires PlainReturns(sys) && DepReached(sys, d) && SumSoundFrom(sys, s, sum, k) && Matches(d, s)
    ensures var r := ReturnEdge(d.exit, d.target, d.site);
            && Move(sys, Config(k, [Frame(d.site, d.caller, d.effect)]), r) == Some(Config(ReturnKey(d, s), []))
            && StepSound(sys, Step(r, NO_FACT, sum.before, s.state, sum.tag))
  {
    hide Traces, ReachesKey;
    var k0, e0, r :| ReachesKey(sys, k0) && RegistersAt(sys, k0, e0, r, d);
    assert r == ReturnEdge(d.exit, d.target, d.site);
    assert [Frame(d.site, d.caller, d.effect)][..0] == [];
  }

  /** Applying a summary to a waiting call: the callee's walk fits between the call and its own return. */
  lemma ReturnSound(sys: System, d: DepKey, info: Dependency, s: SumKey, sum: Summary)
    requires PlainReturns(sys)
    requires DepSound(sys, d, info.trail) && SumSound(sys, s, sum) && Matches(d, s)
    ensures PathSound(sys, ReturnKey(d, s), ReturnTrail(d, info, s, sum))
  {
    hide Traces, Move, PlainReturns, StepSound, DepReached;
    var k :| SumSoundFrom(sys, s, sum, k);
    ReturnMoves(sys, d, s, sum, k);
    var frame := Frame(d.site, d.caller, d.effect);
    CalleeWalk(sys, d.caller, info.trail, d.callee, sum.trail, k, frame);
    TracesAppend(sys, d.caller, info.trail + sum.trail, Config(k, [frame]),
                 Step(ReturnEdge(d.exit, d.target, d.site), NO_FACT, sum.before, s.state, sum.tag),
                 Config(ReturnKey(d, s), []));
  }

  // ---------------------------------------------------------------- every run has an entry

  lemma SaturatedExpanded(sys: System, discharged: set<Token>, t: Table, k: Key, w: Witness)
    requires Saturated(sys, discharged, t) && w in KeptAt(t, k)
    ensures Expanded(sys, discharged, t, k, w, KeptAt(t, k)[w])
  {
  }

  lemma SaturatedSound(sys: System, discharged: set<Token>, t: Table)
    requires Saturated(sys, discharged, t)
    ensures forall d :: d in t.dependencies ==> DepReached(sys, d)
    ensures FoundSound(sys, Unsafe, t.violations, t.unsafe) && FoundSound(sys, Inconclusive, t.doubts, t.inconclusive)
  {
  }

  function CalleeOf(c: Config, i: nat): Entry
    requires i < |c.stack|
  {
    if i + 1 < |c.stack| then c.stack[i + 1].caller else c.key.entry
  }

  ghost predicate FrameWaits(sys: System, t: Table, callee: Entry, frame: Frame) {
    forall r :: r in sys.edges && r.kind == Return && r.site == frame.site && r.from.func == callee.node.func ==>
      DepKey(callee, r.from, frame.caller, frame.site, r.to, frame.effect) in t.dependencies
  }

  /** The table knows this configuration: its key, and every call still open on its stack. */
  ghost predicate Represented(sys: System, t: Table, c: Config) {
    && KeptAt(t, c.key) != map[]
    && (forall i :: 0 <= i < |c.stack| ==> FrameWaits(sys, t, CalleeOf(c, i), c.stack[i]))
  }

  lemma CallRepresented(sys: System, t: Table, c: Config, w: Witness, e: Edge, d: Config)
    requires Saturated(sys, {}, t) && Represented(sys, t, c)
    requires w in KeptAt(t, c.key) && e.kind == Call && !HasReturn(sys, c.key.node)
    requires Move(sys, c, e) == Some(d)
    ensures Represented(sys, t, d)
  {
    hide Saturated;
    var v := sys.visit(c.key.node, c.key.state);
    SaturatedExpanded(sys, {}, t, c.key, w);
    assert EdgeDone(sys, t, c.key, w, e, c.key.effect.Then(v.tag), v.after);
    CoveredNonempty(t, d.key, []);
    forall i | 0 <= i < |d.stack|
      ensures FrameWaits(sys, t, CalleeOf(d, i), d.stack[i])
    {
      if i < |c.stack| {
        assert d.stack[i] == c.stack[i] && CalleeOf(d, i) == CalleeOf(c, i);
      } else {
        var frame := d.stack[i];
        forall r | r in sys.edges && r.kind == Return && r.site == frame.site && r.from.func == d.key.entry.node.func
          ensures DepKey(d.key.entry, r.from, frame.caller, frame.site, r.to, frame.effect) in t.dependencies
        {
          assert RegistersAt(sys, c.key, e, r,
                             DepKey(d.key.entry, r.from, frame.caller, frame.site, r.to, frame.effect));
        }
      }
    }
  }

  /** The summary of the finished procedure meets the call on top of the stack. */
  lemma ReturnKept(sys: System, t: Table, c: Config, w: Witness, e: Edge, d: Config)
    requires Saturated(sys, {}, t) && c.stack != []
    requires FrameWaits(sys, t, c.key.entry, c.stack[|c.stack| - 1])
    requires w in KeptAt(t, c.key) && HasReturn(sys, c.key.node)
    requires Move(sys, c, e) == Some(d)
    ensures KeptAt(t, d.key) != map[]
  {
    var v := sys.visit(c.key.node, c.key.state);
    SaturatedExpanded(sys, {}, t, c.key, w);
    var s := SumKey(c.key.entry, c.key.node, v.after, c.key.effect.Then(v.tag));
    var top := c.stack[|c.stack| - 1];
    var waiting := DepKey(c.key.entry, e.from, top.caller, top.site, e.to, top.effect);
    assert waiting in t.dependencies && s in t.summaries && Matches(waiting, s);
    CoveredNonempty(t, d.key, ReturnTrail(waiting, t.dependencies[waiting], s, t.summaries[s]));
  }

  lemma ReturnRepresented(sys: System, t: Table, c: Config, e: Edge, d: Config)
    requires Represented(sys, t, c) && HasReturn(sys, c.key.node) && Move(sys, c, e) == Some(d)
    ensures c.stack != [] && FrameWaits(sys, t, c.key.entry, c.stack[|c.stack| - 1])
    ensures forall i :: 0 <= i < |d.stack| ==> FrameWaits(sys, t, CalleeOf(d, i), d.stack[i])
  {
    var n := |c.stack| - 1;
    assert FrameWaits(sys, t, CalleeOf(c, n), c.stack[n]);
    forall i | 0 <= i < |d.stack|
      ensures FrameWaits(sys, t, CalleeOf(d, i), d.stack[i])
    {
      assert d.stack[i] == c.stack[i] && CalleeOf(d, i) == CalleeOf(c, i);
    }
  }

  lemma MoveRepresented(sys: System, t: Table, c: Config, e: Edge, d: Config)
    requires Saturated(sys, {}, t) && Represented(sys, t, c) && Move(sys, c, e) == Some(d)
    ensures Represented(sys, t, d)
  {
    hide Saturated;
    var w :| w in KeptAt(t, c.key);
    if HasReturn(sys, c.key.node) {
      ReturnRepresented(sys, t, c, e, d);
      ReturnKept(sys, t, c, w, e, d);
    } else if e.kind == Call {
      CallRepresented(sys, t, c, w, e, d);
    } else {
      assert e.kind != Return;
      var v := sys.visit(c.key.node, c.key.state);
      SaturatedExpanded(sys, {}, t, c.key, w);
      assert EdgeDone(sys, t, c.key, w, e, c.key.effect.Then(v.tag), v.after);
      CoveredNonempty(t, d.key, Extended(c.key, w, e, sys.follow(e, v.after).value));
      forall i | 0 <= i < |d.stack|
        ensures FrameWaits(sys, t, CalleeOf(d, i), d.stack[i])
      {
        assert d.stack[i] == c.stack[i] && CalleeOf(d, i) == CalleeOf(c, i);
      }
    }
  }

  /** Completeness: recursion and unfinished calls included, every reachable configuration is represented. */
  lemma {:induction false} RunRepresented(sys: System, t: Table, es: seq<Edge>, c: Config)
    requires Saturated(sys, {}, t)
    requires Run(sys, Initial(sys), es) == Some(c)
    ensures Represented(sys, t, c)
    decreases |es|
  {
    if es == [] {
      CoveredNonempty(t, EntryKey(RootEntry(sys)), []);
    } else {
      var k := |es| - 1;
      var m := Run(sys, Initial(sys), es[..k]).value;
      RunRepresented(sys, t, es[..k], m);
      MoveRepresented(sys, t, m, es[k], c);
    }
  }

  // ---------------------------------------------------------------- the table is exact

  lemma ExactKeys(sys: System, t: Table, k: Key)
    requires Saturated(sys, {}, t)
    ensures KeptAt(t, k) != map[] <==> ReachesKey(sys, k)
  {
    if KeptAt(t, k) != map[] {
      var w :| w in KeptAt(t, k);
      PathSoundReaches(sys, k, w);
    }
    if ReachesKey(sys, k) {
      var es, stack :| Run(sys, Initial(sys), es) == Some(Config(k, stack));
      RunRepresented(sys, t, es, Config(k, stack));
    }
  }

  lemma ExactDependencies(sys: System, t: Table, d: DepKey)
    requires Saturated(sys, {}, t)
    ensures d in t.dependencies <==> DepReached(sys, d)
  {
    hide Saturated;
    SaturatedSound(sys, {}, t);
    if DepReached(sys, d) {
      var k, e, r :| ReachesKey(sys, k) && RegistersAt(sys, k, e, r, d);
      ExactKeys(sys, t, k);
      var w :| w in KeptAt(t, k);
      var v := sys.visit(k.node, k.state);
      SaturatedExpanded(sys, {}, t, k, w);
      assert EdgeDone(sys, t, k, w, e, k.effect.Then(v.tag), v.after);
    }
  }

  lemma ExactSummaries(sys: System, t: Table, s: SumKey)
    requires Saturated(sys, {}, t)
    ensures s in t.summaries <==> SumReached(sys, s)
  {
    if s in t.summaries {
      var k :| SumSoundFrom(sys, s, t.summaries[s], k);
      PathSoundReaches(sys, k, t.summaries[s].trail);
    }
    if SumReached(sys, s) {
      var k :| ReachesKey(sys, k) && PublishesAt(sys, k, s);
      ExactKeys(sys, t, k);
      var w :| w in KeptAt(t, k);
      SaturatedExpanded(sys, {}, t, k, w);
    }
  }

  lemma ResultReached(sys: System, r: PathResult)
    requires ResultSound(sys, r)
    ensures r.outcome == Unsafe ==> ReachesViolation(sys)
    ensures r.outcome == Inconclusive ==> ReachesDoubt(sys)
  {
    var k :| ResultSoundAt(sys, r, k);
    PathSoundReaches(sys, k, r.trail);
  }

  lemma ExactUnsafe(sys: System, t: Table)
    requires Saturated(sys, {}, t)
    ensures t.unsafe.Some? <==> ReachesViolation(sys)
  {
    hide Saturated, ResultSound, KeptAt;
    SaturatedSound(sys, {}, t);
    if t.unsafe.Some? {
      ResultReached(sys, t.unsafe.value);
    }
    if ReachesViolation(sys) {
      var k :| ReachesKey(sys, k) && sys.visit(k.node, k.state).Violation?;
      ExactKeys(sys, t, k);
      var w :| w in KeptAt(t, k);
      SaturatedExpanded(sys, {}, t, k, w);
    }
  }

  lemma ExactInconclusive(sys: System, t: Table)
    requires Saturated(sys, {}, t)
    ensures t.inconclusive.Some? <==> ReachesDoubt(sys)
  {
    hide Saturated, ResultSound, KeptAt;
    SaturatedSound(sys, {}, t);
    if t.inconclusive.Some? {
      ResultReached(sys, t.inconclusive.value);
    }
    if ReachesDoubt(sys) {
      var k :| ReachesKey(sys, k) && Doubts(sys.visit(k.node, k.state));
      ExactKeys(sys, t, k);
      var w :| w in KeptAt(t, k);
      SaturatedExpanded(sys, {}, t, k, w);
    }
  }

  /** With nothing discharged, the recorded results are exactly the complaints realizable runs meet. */
  lemma ExactOutcome(sys: System, t: Table)
    requires Saturated(sys, {}, t)
    ensures t.unsafe.Some? <==> ReachesViolation(sys)
    ensures t.inconclusive.Some? <==> ReachesDoubt(sys)
  {
    ExactUnsafe(sys, t);
    ExactInconclusive(sys, t);
  }

  /** Any two finished tables of one system agree, however their work lists were scheduled. */
  lemma ScheduleIndependence(sys: System, t: Table, u: Table)
    requires Saturated(sys, {}, t) && Saturated(sys, {}, u)
    ensures forall k :: KeptAt(t, k) != map[] <==> KeptAt(u, k) != map[]
    ensures t.dependencies.Keys == u.dependencies.Keys
    ensures t.summaries.Keys == u.summaries.Keys
    ensures t.unsafe.Some? == u.unsafe.Some?
    ensures t.inconclusive.Some? == u.inconclusive.Some?
  {
    forall k
      ensures KeptAt(t, k) != map[] <==> KeptAt(u, k) != map[]
    {
      ExactKeys(sys, t, k);
      ExactKeys(sys, u, k);
    }
    forall d
      ensures d in t.dependencies <==> d in u.dependencies
    {
      ExactDependencies(sys, t, d);
      ExactDependencies(sys, u, d);
    }
    forall s
      ensures s in t.summaries <==> s in u.summaries
    {
      ExactSummaries(sys, t, s);
      ExactSummaries(sys, u, s);
    }
    ExactOutcome(sys, t);
    ExactOutcome(sys, u);
  }

  // ---------------------------------------------------------------- discharging

  ghost predicate CallFree(sys: System) {
    forall e :: e in sys.edges ==> e.kind != Call && e.kind != Return
  }

  /** A discharged witness asks no more of a valuation than this run does. */
  ghost predicate Excused(discharged: set<Token>, es: seq<Edge>) {
    exists token :: token in discharged && Predicates(token.trail) <= EdgePredicates(es)
  }

  ghost predicate NoComplaint(t: Table) {
    t.unsafe.None? && t.inconclusive.None?
  }

  /** What a Safe answer rests on: some finished table without a complaint. */
  ghost predicate JustifiedSafe(sys: System, discharged: set<Token>) {
    exists t :: Saturated(sys, discharged, t) && NoComplaint(t)
  }

  /**
   The returns a table has to offer: any kept witness of a call, then any kept witness of
   the callee's end. The table stores one of each for good, the first that came.
   */
  ghost predicate ReturnsThrough(sys: System, t: Table, k: Key, w: Witness, e: Edge, d: DepKey,
                                 end: Key, x: Witness, s: SumKey) {
    && w in KeptAt(t, k) && d in t.dependencies && (exists r :: RegistersAt(sys, k, e, r, d))
    && x in KeptAt(t, end) && s in t.summaries && PublishesAt(sys, end, s)
    && Matches(d, s)
  }

  /** A test on a finished table: where such a pair returns to, some kept witness asks no more than the two. */
  ghost predicate Recombined(sys: System, t: Table) {
    forall k, w, e, d, end, x, s :: ReturnsThrough(sys, t, k, w, e, d, end, x, s) ==>
      KeptWithin(t, ReturnKey(d, s), Predicates(w) + EdgePredicates([e]) + Predicates(x))
  }

  /** Without calls there is nothing to recombine. */
  lemma CallFreeRecombined(sys: System, t: Table)
    requires CallFree(sys)
    ensures Recombined(sys, t)
  {
  }

  lemma EdgePredicatesAppend(es: seq<Edge>, e: Edge)
    ensures EdgePredicates(es + [e]) == EdgePredicates(es) + EdgePredicates([e])
  {
    var all := es + [e];
    forall p
      ensures p in EdgePredicates(all) <==> p in EdgePredicates(es) + EdgePredicates([e])
    {
      if p in EdgePredicates(es) {
        var i :| 0 <= i < |es| && p in es[i].predicates;
        assert all[i] == es[i];
      }
      if p in EdgePredicates([e]) {
        assert [e][0] == e && all[|es|] == e;
      }
    }
  }

  lemma PredicatesOfEdges(w: Witness)
    ensures Predicates(w) == EdgePredicates(Edges(w))
  {
    var es := Edges(w);
    forall p
      ensures p in Predicates(w) <==> p in EdgePredicates(es)
    {
      if p in Predicates(w) {
        var i :| 0 <= i < |w| && p in w[i].edge.predicates;
        assert p in es[i].predicates;
      }
      if p in EdgePredicates(es) {
        var i :| 0 <= i < |es| && p in es[i].predicates;
        assert p in w[i].edge.predicates;
      }
    }
  }

  lemma StepPredicates(s: Step)
    ensures Predicates([s]) == EdgePredicates([s.edge])
  {
    PredicatesOfEdges([s]);
    assert Edges([s]) == [s.edge];
  }

  /** Some kept witness of the key has no predicate outside `asked`. */
  ghost predicate KeptWithin(t: Table, k: Key, asked: set<string>) {
    exists w :: w in KeptAt(t, k) && Predicates(w) <= asked
  }

  lemma CoveredWithin(t: Table, k: Key, w: Witness, asked: set<string>)
    requires CoveredAt(t, k, w) && Predicates(w) <= asked
    ensures KeptWithin(t, k, asked)
  {
  }

  /** The call edge leads from this key into the callee, and leaves this frame open. */
  ghost predicate Opens(sys: System, k: Key, e: Edge, callee: Entry, frame: Frame) {
    && e in sys.edges && e.from == k.node && e.kind == Call && !HasReturn(sys, k.node)
    && var v := sys.visit(k.node, k.state);
       v.Proceed?
       && var f := sys.follow(e, v.after);
          f.Some? && callee == Entry(e.to, f.value.moved)
          && frame == Frame(e.site, k.entry, k.effect.Then(v.tag).Then(f.value.tag))
  }

  /** A kept witness of the call has no predicate outside `asked`, and the call waits for each return. */
  ghost predicate OpenedBy(sys: System, t: Table, callee: Entry, frame: Frame, asked: set<string>,
                           k: Key, w: Witness, e: Edge) {
    && w in KeptAt(t, k) && Predicates(w) + EdgePredicates([e]) <= asked
    && Opens(sys, k, e, callee, frame) && AllRegistered(sys, k, e, t.dependencies.Keys)
  }

  ghost predicate OpenedWithin(sys: System, t: Table, callee: Entry, frame: Frame, asked: set<string>) {
    exists k, w, e :: OpenedBy(sys, t, callee, frame, asked, k, w, e)
  }

  ghost predicate StackWithin(sys: System, t: Table, c: Config, asked: set<string>) {
    forall i :: 0 <= i < |c.stack| ==> OpenedWithin(sys, t, CalleeOf(c, i), c.stack[i], asked)
  }

  /** The table follows a run: its key and its open calls, by witnesses that ask no more than the run. */
  ghost predicate Followed(sys: System, t: Table, c: Config, asked: set<string>) {
    KeptWithin(t, c.key, asked) && StackWithin(sys, t, c, asked)
  }

  lemma StackLater(sys: System, t: Table, c: Config, d: Config, asked: set<string>, more: set<string>)
    requires StackWithin(sys, t, c, asked) && asked <= more && |d.stack| <= |c.stack|
    requires forall i :: 0 <= i < |d.stack| ==> d.stack[i] == c.stack[i] && CalleeOf(d, i) == CalleeOf(c, i)
    ensures StackWithin(sys, t, d, more)
  {
    hide Opens, AllRegistered;
    forall i | 0 <= i < |d.stack|
      ensures OpenedWithin(sys, t, CalleeOf(d, i), d.stack[i], more)
    {
      assert OpenedWithin(sys, t, CalleeOf(c, i), c.stack[i], asked);
      var k, w, e :| OpenedBy(sys, t, CalleeOf(c, i), c.stack[i], asked, k, w, e);
      assert OpenedBy(sys, t, CalleeOf(d, i), d.stack[i], more, k, w, e);
    }
  }

  lemma CallFollowed(sys: System, t: Table, c: Config, w: Witness, e: Edge, d: Config, asked: set<string>)
    requires StackWithin(sys, t, c, asked) && w in KeptAt(t, c.key) && Predicates(w) <= asked
    requires e.kind == Call && !HasReturn(sys, c.key.node) && Move(sys, c, e) == Some(d)
    requires AllRegistered(sys, c.key, e, t.dependencies.Keys)
    ensures StackWithin(sys, t, d, asked + EdgePredicates([e]))
  {
    var more := asked + EdgePredicates([e]);
    assert Opens(sys, c.key, e, d.key.entry, d.stack[|c.stack|]);
    forall i | 0 <= i < |d.stack|
      ensures OpenedWithin(sys, t, CalleeOf(d, i), d.stack[i], more)
    {
      hide Opens, AllRegistered;
      if i < |c.stack| {
        assert d.stack[i] == c.stack[i] && CalleeOf(d, i) == CalleeOf(c, i);
        var k, x, f :| OpenedBy(sys, t, CalleeOf(c, i), c.stack[i], asked, k, x, f);
        assert OpenedBy(sys, t, CalleeOf(d, i), d.stack[i], more, k, x, f);
      } else {
        assert OpenedBy(sys, t, CalleeOf(d, i), d.stack[i], more, c.key, w, e);
      }
    }
  }

  lemma OpenedRegisters(sys: System, k: Key, e: Edge, callee: Entry, frame: Frame, r: Edge)
    requires Opens(sys, k, e, callee, frame)
    requires r in sys.edges && r.kind == Return && r.site == frame.site && r.from.func == callee.node.func
    ensures RegistersAt(sys, k, e, r, DepKey(callee, r.from, frame.caller, frame.site, r.to, frame.effect))
  {
  }

  /** A return combines a kept witness of the call with one of the callee's end. */
  lemma ReturnFollowed(sys: System, t: Table, c: Config, x: Witness, s: SumKey, e: Edge, d: Config, asked: set<string>)
    requires Recombined(sys, t) && Followed(sys, t, c, asked)
    requires x in KeptAt(t, c.key) && Predicates(x) <= asked
    requires Move(sys, c, e) == Some(d) && PublishesAt(sys, c.key, s) && s in t.summaries
    ensures KeptWithin(t, d.key, asked) && StackWithin(sys, t, d, asked)
  {
    var n := |c.stack| - 1;
    var top := c.stack[n];
    assert CalleeOf(c, n) == c.key.entry;
    var k, w, call :| OpenedBy(sys, t, c.key.entry, top, asked, k, w, call);
    var waiting := DepKey(c.key.entry, e.from, top.caller, top.site, e.to, top.effect);
    OpenedRegisters(sys, k, call, c.key.entry, top, e);
    assert waiting in t.dependencies && Matches(waiting, s) && ReturnKey(waiting, s) == d.key;
    StackLater(sys, t, c, d, asked, asked);
    hide RegistersAt, PublishesAt, Opens, AllRegistered, Move, StackWithin;
    assert ReturnsThrough(sys, t, k, w, call, waiting, c.key, x, s);
  }

  /** The witness is discharged for what its node says, so the run that asks all it asks is excused. */
  lemma DischargedExcuses(discharged: set<Token>, path: Path, w: Witness, n: NodeId, trigger: Trigger, es: seq<Edge>)
    requires IsDischarged(discharged, path, w, n, trigger) && Predicates(w) <= EdgePredicates(es)
    ensures Excused(discharged, es)
  {
    assert Token(path, w, n, trigger).trail == w;
  }

  lemma ExtendedAsks(k: Key, w: Witness, e: Edge, f: Flow)
    ensures Predicates(Extended(k, w, e, f)) == Predicates(w) + EdgePredicates([e])
  {
    var longer := Extended(k, w, e, f);
    PredicatesConcat(w, [longer[|w|]]);
    StepPredicates(longer[|w|]);
  }

  /** One move from a node whose entry was expanded, not discharged. */
  lemma ExpandedMove(sys: System, t: Table, c: Config, w: Witness, e: Edge, d: Config, asked: set<string>)
    requires Recombined(sys, t) && Followed(sys, t, c, asked)
    requires w in KeptAt(t, c.key) && Predicates(w) <= asked && Move(sys, c, e) == Some(d)
    requires var v := sys.visit(c.key.node, c.key.state);
             if HasReturn(sys, c.key.node) then
               SumKey(c.key.entry, c.key.node, v.after, c.key.effect.Then(v.tag)) in t.summaries
             else EdgesDone(sys, t, c.key, w, c.key.effect.Then(v.tag), v.after, sys.edges)
    ensures Followed(sys, t, d, asked + EdgePredicates([e]))
  {
    hide Recombined, StackWithin;
    var v := sys.visit(c.key.node, c.key.state);
    var more := asked + EdgePredicates([e]);
    if HasReturn(sys, c.key.node) {
      var s := SumKey(c.key.entry, c.key.node, v.after, c.key.effect.Then(v.tag));
      ReturnFollowed(sys, t, c, w, s, e, d, asked);
      StackLater(sys, t, d, d, asked, more);
    } else {
      var effect := c.key.effect.Then(v.tag);
      var f := sys.follow(e, v.after).value;
      assert EdgeDone(sys, t, c.key, w, e, effect, v.after);
      if e.kind == Call {
        CallFollowed(sys, t, c, w, e, d, asked);
        CoveredWithin(t, d.key, [], more);
      } else {
        ExtendedAsks(c.key, w, e, f);
        CoveredWithin(t, d.key, Extended(c.key, w, e, f), more);
        StackLater(sys, t, c, d, asked, more);
      }
    }
  }

  lemma StepFollowed(sys: System, discharged: set<Token>, t: Table, es: seq<Edge>, m: Config, e: Edge, c: Config)
    requires Saturated(sys, discharged, t) && Recombined(sys, t)
    requires Followed(sys, t, m, EdgePredicates(es)) && Move(sys, m, e) == Some(c)
    ensures Followed(sys, t, c, EdgePredicates(es + [e])) || Excused(discharged, es + [e])
  {
    hide Recombined, Paired, EdgesDone, Sound, StackWithin;
    EdgePredicatesAppend(es, e);
    var w :| w in KeptAt(t, m.key) && Predicates(w) <= EdgePredicates(es);
    SaturatedExpanded(sys, discharged, t, m.key, w);
    var v := sys.visit(m.key.node, m.key.state);
    hide EdgePredicates, Predicates, CoveredAt;
    if v.doubt.Some? && IsDischarged(discharged, KeptAt(t, m.key)[w], w, m.key.node, Uncertain(v.doubt.value)) {
      DischargedExcuses(discharged, KeptAt(t, m.key)[w], w, m.key.node, Uncertain(v.doubt.value), es + [e]);
    } else {
      ExpandedMove(sys, t, m, w, e, c, EdgePredicates(es));
    }
  }

  /** Every walk from a covered entry is followed, open calls and all, unless a discharge excuses it. */
  lemma {:induction false} RunFollowed(sys: System, discharged: set<Token>, t: Table, entry: Entry, es: seq<Edge>,
                                       c: Config)
    requires Saturated(sys, discharged, t) && Recombined(sys, t) && CoveredAt(t, EntryKey(entry), [])
    requires Run(sys, Config(EntryKey(entry), []), es) == Some(c)
    ensures Followed(sys, t, c, EdgePredicates(es)) || Excused(discharged, es)
    decreases |es|
  {
    hide Recombined, Move, Saturated;
    var start := Config(EntryKey(entry), []);
    if es == [] {
      CoveredWithin(t, c.key, [], EdgePredicates(es));
    } else {
      var k := |es| - 1;
      var m := Run(sys, start, es[..k]).value;
      assert es[..k] + [es[k]] == es;
      hide Followed, EdgePredicates, CoveredAt;
      RunFollowed(sys, discharged, t, entry, es[..k], m);
      EdgePredicatesAppend(es[..k], es[k]);
      if Followed(sys, t, m, EdgePredicates(es[..k])) {
        StepFollowed(sys, discharged, t, es[..k], m, es[k], c);
      }
    }
  }

  /**
   A finished table that reports nothing and recombines its witnesses loses no complaint:
   every run to a violating or doubtful configuration, through whatever calls, repeats
   the predicates of some discharged witness.
   */
  lemma SilentMeansExcused(sys: System, discharged: set<Token>, t: Table, es: seq<Edge>, c: Config)
    requires Saturated(sys, discharged, t) && NoComplaint(t) && Recombined(sys, t)
    requires Run(sys, Initial(sys), es) == Some(c)
    requires sys.visit(c.key.node, c.key.state).Violation? || Doubts(sys.visit(c.key.node, c.key.state))
    ensures Excused(discharged, es)
  {
    assert CoveredAt(t, EntryKey(RootEntry(sys)), []);
    hide Saturated, Recombined;
    RunFollowed(sys, discharged, t, RootEntry(sys), es, c);
    if Followed(sys, t, c, EdgePredicates(es)) {
      var w :| w in KeptAt(t, c.key) && Predicates(w) <= EdgePredicates(es);
      var path := KeptAt(t, c.key)[w];
      SaturatedExpanded(sys, discharged, t, c.key, w);
      var v := sys.visit(c.key.node, c.key.state);
      var trigger := match v case Halt(why) => Uncertain(why) case Violation => UnsafeCandidate
                             case Proceed(_, _, doubt) => Uncertain(doubt.value);
      DischargedExcuses(discharged, path, w, c.key.node, trigger, es);
    }
  }

  // ---------------------------------------------------------------- exactly what the test says

  /** For every walk of one procedure, calls it makes included, some kept witness asks no more than the walk. */
  ghost predicate WalksCovered(sys: System, t: Table) {
    forall entry, es, k :: EntryReached(sys, entry) && Run(sys, Config(EntryKey(entry), []), es) == Some(Config(k, []))
      ==> KeptWithin(t, k, EdgePredicates(es))
  }

  ghost predicate EntriesCovered(t: Table, c: Config) {
    && CoveredAt(t, EntryKey(c.key.entry), [])
    && forall i :: 0 <= i < |c.stack| ==> CoveredAt(t, EntryKey(c.stack[i].caller), [])
  }

  lemma {:induction false} RunEntriesCovered(sys: System, t: Table, es: seq<Edge>, c: Config)
    requires Saturated(sys, {}, t) && Run(sys, Initial(sys), es) == Some(c)
    ensures EntriesCovered(t, c)
    decreases |es|
  {
    hide Sound, Paired;
    if es != [] {
      var k := |es| - 1;
      var m, e := Run(sys, Initial(sys), es[..k]).value, es[k];
      RunEntriesCovered(sys, t, es[..k], m);
      RunRepresented(sys, t, es[..k], m);
      var w :| w in KeptAt(t, m.key);
      SaturatedExpanded(sys, {}, t, m.key, w);
      hide Run, CoveredAt, AllRegistered, FrameWaits;
      if e.kind == Call && !HasReturn(sys, m.key.node) {
        var v := sys.visit(m.key.node, m.key.state);
        assert EdgeDone(sys, t, m.key, w, e, m.key.effect.Then(v.tag), v.after);
      }
    }
  }

  lemma RecombinedCovers(sys: System, t: Table)
    requires Saturated(sys, {}, t) && Recombined(sys, t)
    ensures WalksCovered(sys, t)
  {
    hide Saturated, Recombined, Run, StackWithin, KeptWithin, CoveredAt;
    forall entry, es, k | EntryReached(sys, entry)
                          && Run(sys, Config(EntryKey(entry), []), es) == Some(Config(k, []))
      ensures KeptWithin(t, k, EdgePredicates(es))
    {
      var before, stack :| Run(sys, Initial(sys), before) == Some(Config(EntryKey(entry), stack));
      RunEntriesCovered(sys, t, before, Config(EntryKey(entry), stack));
      RunFollowed(sys, {}, t, entry, es, Config(k, []));
    }
  }

  /** The two kept witnesses and the return make a walk. */
  lemma RecombinedWalk(sys: System, t: Table, k: Key, w: Witness, e: Edge, d: DepKey, end: Key, x: Witness, s: SumKey)
    returns (trail: Witness)
    requires Sound(sys, t) && PlainReturns(sys) && ReturnsThrough(sys, t, k, w, e, d, end, x, s)
    ensures PathSound(sys, ReturnKey(d, s), trail)
    ensures Predicates(trail) == Predicates(w) + EdgePredicates([e]) + Predicates(x)
  {
    hide Traces, PlainReturns, StepsSound;
    var r :| RegistersAt(sys, k, e, r, d);
    var f := sys.follow(e, sys.visit(k.node, k.state).after).value;
    var info := Dependency([0], Extended(k, w, e, f));
    var sum := Summary([0], x, end.state, sys.visit(end.node, end.state).tag);
    CallSound(sys, k, w, e, r, d, Extended(k, w, e, f)[|w|]);
    assert SumSoundFrom(sys, s, sum, end);
    hide Sound, PathSound, DepSound, RegistersAt, PublishesAt, ReturnsThrough;
    ReturnSound(sys, d, info, s, sum);
    trail := ReturnTrail(d, info, s, sum);
    ReturnAsks(d, info, s, sum);
    ExtendedAsks(k, w, e, f);
  }

  lemma ReturnAsks(d: DepKey, info: Dependency, s: SumKey, sum: Summary)
    ensures Predicates(ReturnTrail(d, info, s, sum)) == Predicates(info.trail) + Predicates(sum.trail)
  {
    var back := Step(ReturnEdge(d.exit, d.target, d.site), NO_FACT, sum.before, s.state, sum.tag);
    PredicatesConcat(info.trail, sum.trail);
    PredicatesConcat(info.trail + sum.trail, [back]);
    assert Predicates([back]) == {};
  }

  /**
   With nothing discharged the test is exact: a finished table keeps, for every walk, a
   witness that asks no more, exactly when it does so for the walks made of a kept
   witness of a call and a kept witness of the callee's end.
   */
  lemma WalksCoveredExactly(sys: System, t: Table)
    requires Saturated(sys, {}, t) && PlainReturns(sys)
    ensures WalksCovered(sys, t) <==> Recombined(sys, t)
  {
    if Recombined(sys, t) {
      RecombinedCovers(sys, t);
    }
    if WalksCovered(sys, t) {
      hide Saturated, PlainReturns, ReturnsThrough, Predicates, EdgePredicates, KeptAt, Sound;
      forall k, w, e, d, end, x, s | ReturnsThrough(sys, t, k, w, e, d, end, x, s)
        ensures KeptWithin(t, ReturnKey(d, s), Predicates(w) + EdgePredicates([e]) + Predicates(x))
      {
        SaturatedIsSound(sys, {}, t);
        var trail := RecombinedWalk(sys, t, k, w, e, d, end, x, s);
        PredicatesOfEdges(trail);
      }
    }
  }

  lemma SaturatedIsSound(sys: System, discharged: set<Token>, t: Table)
    requires Saturated(sys, discharged, t)
    ensures Sound(sys, t)
  {
  }
}
