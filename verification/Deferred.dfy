/**
 Deferred calls of a constructor: which registrations a return may unwind, in
 which order, and what the error result can be after every possible unwinding.

 Which call a registration makes, and what running it does to a state, come from
 Go; here a registration carries whether it concerns the target and `exec` says
 what running it yields.
 */
module Deferred {
  import opened Options
  import opened ControlFlow
  import opened Dominators
  import opened ProtocolDomain

  datatype Location = Location(block: int, index: int)

  datatype Registration = Registration(id: nat, place: Option<Location>, relevant: bool)

  datatype Active = Active(id: nat, place: Location, optional: bool)

  /** The exit states of one deferred call, or a reason to give up. */
  datatype Executed = Executed(states: seq<State>, reason: Reason)

  type Execution = (nat, State) -> Executed

  datatype Planner = Planner(cfg: Cfg, dominators: DominatorMap, registrations: seq<Registration>, hasErrorResult: bool)

  /** As the planner is built: the table is the one of its graph, and every location is a place in it. */
  ghost predicate Built(planner: Planner, entry: int) {
    && WellFormed(planner.cfg)
    && Exact(planner.cfg, entry, planner.dominators)
    && forall r :: r in planner.registrations && r.place.Some? ==> r.place.value.block in planner.cfg.successors
  }

  // ---------------------------------------------------------------- places and their order

  predicate Before(dominators: DominatorMap, left: Location, right: Location) {
    if left.block == right.block then left.index < right.index
    else left.block in At(dominators, right.block)
  }

  predicate Comparable(dominators: DominatorMap, left: Location, right: Location) {
    Before(dominators, left, right) || Before(dominators, right, left)
  }

  lemma DominatesTransitive(c: Cfg, entry: int, a: int, b: int, d: int)
    requires Dominates(c, entry, a, b) && Dominates(c, entry, b, d)
    ensures Dominates(c, entry, a, d)
  {
    forall p | Leads(c, entry, {}, p, d)
      ensures a in p
    {
      var i :| 0 <= i < |p| && p[i] == b;
      assert Leads(c, entry, {}, p[..i + 1], b);
    }
  }

  lemma {:induction false} NoMutualDominance(c: Cfg, entry: int, a: int, b: int, p: seq<int>)
    requires Dominates(c, entry, a, b) && Dominates(c, entry, b, a) && a != b
    ensures !Leads(c, entry, {}, p, a) && !Leads(c, entry, {}, p, b)
    decreases |p|
  {
    if Leads(c, entry, {}, p, a) {
      var i :| 0 <= i < |p| && p[i] == b;
      assert Leads(c, entry, {}, p[..i + 1], b);
      NoMutualDominance(c, entry, a, b, p[..i + 1]);
    }
    if Leads(c, entry, {}, p, b) {
      var i :| 0 <= i < |p| && p[i] == a;
      assert Leads(c, entry, {}, p[..i + 1], a);
      NoMutualDominance(c, entry, a, b, p[..i + 1]);
    }
  }

  /** A strict order: no two places are before each other, and it passes along. */
  lemma BeforeIsStrict(c: Cfg, entry: int, dominators: DominatorMap, a: Location, b: Location)
    requires Exact(c, entry, dominators) && Before(dominators, a, b)
    ensures !Before(dominators, b, a)
  {
    if a.block != b.block && Before(dominators, b, a) {
      var p :| Leads(c, entry, {}, p, b.block);
      NoMutualDominance(c, entry, a.block, b.block, p);
    }
  }

  lemma BeforeTransitive(c: Cfg, entry: int, dominators: DominatorMap, a: Location, b: Location, d: Location)
    requires Exact(c, entry, dominators) && Before(dominators, a, b) && Before(dominators, b, d)
    ensures Before(dominators, a, d)
  {
    if a.block != b.block && b.block != d.block {
      DominatesTransitive(c, entry, a.block, b.block, d.block);
      if a.block == d.block {
        BeforeIsStrict(c, entry, dominators, a, b);
      }
    }
  }

  ghost predicate MayReach(c: Cfg, from: Location, returned: Location) {
    if from.block == returned.block then from.index < returned.index
    else Reaches(c, from.block, {}, returned.block)
  }

  /** Some way of at least one step leads back. */
  ghost predicate CanRepeat(c: Cfg, b: int) {
    exists a :: Reaches(c, b, {}, a) && HasEdge(c, a, b)
  }

  method ReachesReturn(c: Cfg, from: Location, returned: Location) returns (found: bool)
    requires WellFormed(c) && from.block in c.successors
    ensures found <==> MayReach(c, from, returned)
  {
    if from.block == returned.block {
      return from.index < returned.index;
    }
    var seen := {};
    var queue: seq<Option<int>> := [Some(from.block)];
    ReachesSelf(c, from.block, {});
    while |queue| > 0
      invariant seen <= c.successors.Keys && returned.block !in seen
      invariant Searching(c, from.block, {}, seen, queue)
      decreases |c.successors.Keys - seen|, |queue|
    {
      var block := queue[0];
      if block.None? || block.value in seen {
        SearchSkips(c, from.block, {}, seen, queue);
        queue := queue[1..];
        continue;
      }
      SearchVisits(c, from.block, {}, seen, queue);
      var b := block.value;
      if b == returned.block {
        return true;
      }
      assert c.successors.Keys - (seen + {b}) == (c.successors.Keys - seen) - {b};
      seen := seen + {b};
      queue := queue[1..] + c.successors[b];
    }
    SearchExact(c, from.block, {}, seen);
    found := false;
  }

  /** While looking for a way back: whatever leads back and was seen is still queued to be found. */
  ghost predicate ReturnQueued(c: Cfg, b: int, seen: set<int>, queue: seq<Option<int>>) {
    && (forall a :: a in seen && HasEdge(c, a, b) ==> Some(b) in queue)
    && (Some(b) in queue ==> CanRepeat(c, b))
  }

  lemma ReturnStarts(c: Cfg, b: int)
    requires WellFormed(c) && b in c.successors
    ensures Searching(c, b, {}, {b}, c.successors[b]) && ReturnQueued(c, b, {b}, c.successors[b])
  {
    ReachesSelf(c, b, {});
    SearchVisits(c, b, {}, {}, [Some(b)]);
    assert [Some(b)][1..] + c.successors[b] == c.successors[b];
    assert {} + {b} == {b};
  }

  lemma ReturnSkips(c: Cfg, b: int, seen: set<int>, queue: seq<Option<int>>)
    requires queue != [] && queue[0] != Some(b) && ReturnQueued(c, b, seen, queue)
    ensures ReturnQueued(c, b, seen, queue[1..])
  {
    assert queue == [queue[0]] + queue[1..];
  }

  lemma ReturnVisits(c: Cfg, b: int, seen: set<int>, queue: seq<Option<int>>, a: int)
    requires queue != [] && queue[0] == Some(a) && a != b && a in c.successors && Reaches(c, b, {}, a)
    requires ReturnQueued(c, b, seen, queue)
    ensures ReturnQueued(c, b, seen + {a}, queue[1..] + c.successors[a])
  {
    hide Reaches;
    assert queue == [queue[0]] + queue[1..];
  }

  lemma QueuedReached(c: Cfg, start: int, seen: set<int>, queue: seq<Option<int>>, a: int)
    requires queue != [] && queue[0] == Some(a) && Searching(c, start, {}, seen, queue)
    ensures a in c.successors && Reaches(c, start, {}, a)
  {
    hide Reaches;
    assert Some(a) in queue;
  }

  /** With nothing queued, nothing that is reached leads back. */
  lemma NoReturnLeft(c: Cfg, b: int, seen: set<int>)
    requires Searching(c, b, {}, seen, []) && ReturnQueued(c, b, seen, [])
    ensures !CanRepeat(c, b)
  {
    SearchExact(c, b, {}, seen);
    hide Searching, Reaches;
  }

  method RepeatsAt(c: Cfg, b: int) returns (found: bool)
    requires WellFormed(c) && b in c.successors
    ensures found <==> CanRepeat(c, b)
  {
    hide Searching, Reaches, CanRepeat;
    var seen := {};
    var queue: seq<Option<int>> := c.successors[b];
    ReturnStarts(c, b);
    assert {} + {b} == seen + {b} == {b};
    while |queue| > 0
      invariant seen <= c.successors.Keys && b !in seen
      invariant Searching(c, b, {}, seen + {b}, queue)
      invariant ReturnQueued(c, b, seen + {b}, queue)
      decreases |c.successors.Keys - seen|, |queue|
    {
      var block := queue[0];
      if block == Some(b) {
        return true;
      }
      if block.None? || block.value in seen {
        SearchSkips(c, b, {}, seen + {b}, queue);
        ReturnSkips(c, b, seen + {b}, queue);
        queue := queue[1..];
        continue;
      }
      var a := block.value;
      QueuedReached(c, b, seen + {b}, queue, a);
      SearchVisits(c, b, {}, seen + {b}, queue);
      ReturnVisits(c, b, seen + {b}, queue, a);
      assert c.successors.Keys - (seen + {a}) == (c.successors.Keys - seen) - {a};
      assert seen + {b} + {a} == seen + {a} + {b};
      seen := seen + {a};
      queue := queue[1..] + c.successors[a];
    }
    NoReturnLeft(c, b, seen + {b});
    found := false;
  }

  // ---------------------------------------------------------------- the active registrations

  /** A registration that cannot be placed, or may be made any number of times, and matters. */
  ghost predicate Hopeless(c: Cfg, returned: Location, r: Registration) {
    r.relevant && (r.place.None? || (MayReach(c, r.place.value, returned) && CanRepeat(c, r.place.value.block)))
  }

  /** Why the first registration about which nothing can be done stops the search. */
  ghost predicate HopelessFor(c: Cfg, returned: Location, registrations: seq<Registration>, reason: Reason) {
    exists k :: 0 <= k < |registrations| && Hopeless(c, returned, registrations[k])
                && (forall j :: 0 <= j < k ==> !Hopeless(c, returned, registrations[j]))
                && reason == if registrations[k].place.None? then CallMapping else FeasibilityUnknown
  }

  ghost function ActiveOf(c: Cfg, dominators: DominatorMap, returned: Location,
                          registrations: seq<Registration>): seq<Active> {
    if registrations == [] then []
    else
      var k := |registrations| - 1;
      var r := registrations[k];
      ActiveOf(c, dominators, returned, registrations[..k])
      + if r.place.Some? && MayReach(c, r.place.value, returned)
        then [Active(r.id, r.place.value, !Before(dominators, r.place.value, returned))]
        else []
  }

  method SelectActive(planner: Planner, ghost entry: int, returned: Location)
    returns (active: seq<Active>, reason: Reason)
    requires Built(planner, entry)
    ensures reason != NoReason <==> exists r :: r in planner.registrations && Hopeless(planner.cfg, returned, r)
    ensures reason == NoReason ==> active == ActiveOf(planner.cfg, planner.dominators, returned, planner.registrations)
    ensures reason != NoReason ==> HopelessFor(planner.cfg, returned, planner.registrations, reason)
  {
    active := [];
    var i := 0;
    while i < |planner.registrations|
      invariant 0 <= i <= |planner.registrations|
      invariant forall k :: 0 <= k < i ==> !Hopeless(planner.cfg, returned, planner.registrations[k])
      invariant active == ActiveOf(planner.cfg, planner.dominators, returned, planner.registrations[..i])
    {
      var r := planner.registrations[i];
      assert planner.registrations[..i + 1][..i] == planner.registrations[..i];
      i := i + 1;
      if r.place.None? {
        if r.relevant {
          assert Hopeless(planner.cfg, returned, r);
          return [], CallMapping;
        }
        continue;
      }
      var reaches := ReachesReturn(planner.cfg, r.place.value, returned);
      if !reaches {
        continue;
      }
      var repeats := RepeatsAt(planner.cfg, r.place.value.block);
      if repeats && r.relevant {
        assert Hopeless(planner.cfg, returned, r);
        return [], FeasibilityUnknown;
      }
      active := active + [Active(r.id, r.place.value, !Before(planner.dominators, r.place.value, returned))];
    }
    assert planner.registrations[..i] == planner.registrations;
    reason := NoReason;
  }

  predicate AllComparable(dominators: DominatorMap, active: seq<Active>) {
    forall i, j :: 0 <= i < j < |active| ==> Comparable(dominators, active[i].place, active[j].place)
  }

  /** Stable insertion: `x` came before everything in `s`. */
  function InsertActive(dominators: DominatorMap, x: Active, s: seq<Active>): (r: seq<Active>)
    ensures multiset(r) == multiset{x} + multiset(s)
  {
    if s == [] then [x]
    else if Before(dominators, s[0].place, x.place) then
      assert s == [s[0]] + s[1..];
      [s[0]] + InsertActive(dominators, x, s[1..])
    else [x] + s
  }

  function SortActive(dominators: DominatorMap, s: seq<Active>): (r: seq<Active>)
    ensures multiset(r) == multiset(s)
  {
    if s == [] then []
    else
      assert s == [s[0]] + s[1..];
      InsertActive(dominators, s[0], SortActive(dominators, s[1..]))
  }

  ghost predicate InOrder(dominators: DominatorMap, s: seq<Active>) {
    forall i, j :: 0 <= i < j < |s| ==> Before(dominators, s[i].place, s[j].place)
  }

  lemma {:induction false} InsertInOrder(c: Cfg, entry: int, dominators: DominatorMap, x: Active, s: seq<Active>)
    requires Exact(c, entry, dominators) && InOrder(dominators, s)
    requires forall y :: y in s ==> Comparable(dominators, x.place, y.place)
    ensures InOrder(dominators, InsertActive(dominators, x, s))
    decreases |s|
  {
    if s != [] {
      assert s[0] in s;
      if Before(dominators, s[0].place, x.place) {
        InsertInOrder(c, entry, dominators, x, s[1..]);
        var rest := InsertActive(dominators, x, s[1..]);
        forall j | 0 <= j < |rest|
          ensures Before(dominators, s[0].place, rest[j].place)
        {
          assert rest[j] in multiset(rest);
          assert rest[j] == x || rest[j] in s[1..];
        }
      } else {
        forall j | 0 <= j < |s|
          ensures Before(dominators, x.place, s[j].place)
        {
          if j > 0 {
            BeforeTransitive(c, entry, dominators, x.place, s[0].place, s[j].place);
          }
        }
      }
    }
  }

  /** Pairwise comparable registrations come out in the one order in which they can be made. */
  lemma {:induction false} SortActiveInOrder(c: Cfg, entry: int, dominators: DominatorMap, s: seq<Active>)
    requires Exact(c, entry, dominators) && AllComparable(dominators, s)
    ensures InOrder(dominators, SortActive(dominators, s))
    decreases |s|
  {
    if s != [] {
      var rest := SortActive(dominators, s[1..]);
      assert AllComparable(dominators, s[1..]);
      SortActiveInOrder(c, entry, dominators, s[1..]);
      forall y | y in rest
        ensures Comparable(dominators, s[0].place, y.place)
      {
        assert y in multiset(rest);
        assert y in s[1..];
        var j :| 0 <= j < |s[1..]| && s[1..][j] == y;
        assert s[j + 1] == y;
      }
      InsertInOrder(c, entry, dominators, s[0], rest);
    }
  }

  // ---------------------------------------------------------------- unwinding

  /**
   One way to unwind: `trace[|active|]` is the state at the return, and the state
   after running registration `i`, when it was made at all, is `trace[i]`. Later
   registrations run first; only optional ones may not have been made.
   */
  ghost predicate Unwinding(exec: Execution, active: seq<Active>, made: set<int>, trace: seq<State>, lo: nat) {
    && lo <= |active| && |trace| == |active| + 1
    && forall i :: lo <= i < |active| ==> UnwoundBy(exec, active[i], i in made, trace[i + 1], trace[i])
  }

  /** One registration unwound: run if it was made, passed over if it need not have been. */
  predicate UnwoundBy(exec: Execution, a: Active, made: bool, before: State, after: State) {
    if made then after in exec(a.id, before).states else a.optional && after == before
  }

  ghost predicate Possible(exec: Execution, active: seq<Active>, initial: State, lo: nat, s: State) {
    exists made, trace :: Unwinding(exec, active, made, trace, lo) && trace[|active|] == initial && trace[lo] == s
  }

  /** Some registration gives up on some state it can be run on. */
  ghost predicate GivesUp(exec: Execution, active: seq<Active>, initial: State) {
    exists i, s :: 0 <= i < |active| && Possible(exec, active, initial, i + 1, s)
      && exec(active[i].id, s).reason != NoReason
  }

  /** This is the reason of a possible execution that gives up, or no unwinding gets to the end. */
  ghost predicate StopsFor(exec: Execution, active: seq<Active>, initial: State, reason: Reason) {
    || (exists i, s :: 0 <= i < |active| && Possible(exec, active, initial, i + 1, s)
                       && exec(active[i].id, s).reason == reason)
    || (reason == FeasibilityUnknown && forall s :: !Possible(exec, active, initial, 0, s))
  }

  lemma StepPossible(exec: Execution, active: seq<Active>, initial: State, lo: nat, s: State, next: State)
    requires 0 < lo <= |active| && Possible(exec, active, initial, lo, s)
    requires next in exec(active[lo - 1].id, s).states || (active[lo - 1].optional && next == s)
    ensures Possible(exec, active, initial, lo - 1, next)
  {
    var made, trace :| Unwinding(exec, active, made, trace, lo) && trace[|active|] == initial && trace[lo] == s;
    var longer := trace[lo - 1 := next];
    var chosen := if next in exec(active[lo - 1].id, s).states then made + {lo - 1} else made - {lo - 1};
    forall i | lo - 1 <= i < |active|
      ensures UnwoundBy(exec, active[i], i in chosen, longer[i + 1], longer[i])
    {
      if i >= lo {
        assert UnwoundBy(exec, active[i], i in made, trace[i + 1], trace[i]);
      }
    }
    assert Unwinding(exec, active, chosen, longer, lo - 1);
  }

  lemma StepBack(exec: Execution, active: seq<Active>, initial: State, lo: nat, next: State) returns (s: State)
    requires 0 < lo <= |active| && Possible(exec, active, initial, lo - 1, next)
    ensures Possible(exec, active, initial, lo, s)
    ensures next in exec(active[lo - 1].id, s).states || (active[lo - 1].optional && next == s)
  {
    var made, trace :| Unwinding(exec, active, made, trace, lo - 1) && trace[|active|] == initial
      && trace[lo - 1] == next;
    s := trace[lo];
    assert UnwoundBy(exec, active[lo - 1], lo - 1 in made, trace[lo - 1 + 1], trace[lo - 1]);
    assert Unwinding(exec, active, made, trace, lo);
  }

  method Deduplicate(states: seq<State>) returns (result: seq<State>)
    ensures forall s :: s in result <==> s in states
    ensures forall i, j :: 0 <= i < j < |result| ==> result[i] != result[j]
  {
    var seen: set<State> := {};
    result := [];
    var i := 0;
    while i < |states|
      invariant 0 <= i <= |states|
      invariant forall s :: s in result <==> s in states[..i]
      invariant forall s :: s in seen <==> s in result
      invariant forall i, j :: 0 <= i < j < |result| ==> result[i] != result[j]
    {
      assert states[..i + 1] == states[..i] + [states[i]];
      if states[i] !in seen {
        seen := seen + {states[i]};
        result := result + [states[i]];
      }
      i := i + 1;
    }
    assert states[..i] == states;
  }

  /** Runs one registration on every state. */
  method RunOnAll(exec: Execution, id: nat, states: seq<State>, kept: seq<State>)
    returns (next: seq<State>, reason: Reason)
    ensures reason != NoReason <==> exists s :: s in states && exec(id, s).reason != NoReason
    ensures reason != NoReason ==> exists s :: s in states && exec(id, s).reason == reason
    ensures reason == NoReason ==>
              forall t :: t in next <==> t in kept || exists s :: s in states && t in exec(id, s).states
  {
    next := kept;
    var i := 0;
    while i < |states|
      invariant 0 <= i <= |states|
      invariant forall s :: s in states[..i] ==> exec(id, s).reason == NoReason
      invariant forall t :: t in next <==> t in kept || exists s :: s in states[..i] && t in exec(id, s).states
    {
      assert states[..i + 1] == states[..i] + [states[i]];
      var executed := exec(id, states[i]);
      if executed.reason != NoReason {
        return [], executed.reason;
      }
      next := next + executed.states;
      i := i + 1;
    }
    assert states[..i] == states;
    reason := NoReason;
  }

  /**
   The backward loop: it gives up exactly when some possible execution does, and
   otherwise holds exactly the states of all unwindings.
   */
  method Unwind(exec: Execution, active: seq<Active>, initial: State) returns (states: seq<State>, reason: Reason)
    ensures reason == NoReason <==> !GivesUp(exec, active, initial) && exists s :: Possible(exec, active, initial, 0, s)
    ensures reason == NoReason ==> forall s :: s in states <==> Possible(exec, active, initial, 0, s)
    ensures reason != NoReason ==> StopsFor(exec, active, initial, reason)
  {
    states := [initial];
    var i := |active|;
    StartPossible(exec, active, initial);
    while i > 0
      invariant 0 <= i <= |active| && states != []
      invariant forall s :: s in states <==> Possible(exec, active, initial, i, s)
      invariant forall k, s :: i <= k < |active| && Possible(exec, active, initial, k + 1, s) ==>
                  exec(active[k].id, s).reason == NoReason
    {
      ghost var before := states;
      var registration := active[i - 1];
      var kept := if registration.optional then states else [];
      var next, stop := RunOnAll(exec, registration.id, states, kept);
      if stop != NoReason {
        var s :| s in states && exec(registration.id, s).reason == stop;
        assert Possible(exec, active, initial, i - 1 + 1, s);
        assert GivesUp(exec, active, initial);
        return [], stop;
      }
      states := Deduplicate(next);
      NextPossible(exec, active, initial, i, registration, before, states);
      i := i - 1;
      if |states| == 0 {
        forall s
          ensures !Possible(exec, active, initial, i, s)
        {
          assert s !in states;
        }
        NothingPossible(exec, active, initial, i);
        assert forall s :: !Possible(exec, active, initial, 0, s);
        return [], FeasibilityUnknown;
      }
    }
    assert states[0] in states;
    reason := NoReason;
  }

  lemma StartPossible(exec: Execution, active: seq<Active>, initial: State)
    ensures forall s :: s in [initial] <==> Possible(exec, active, initial, |active|, s)
  {
    var trace := seq(|active| + 1, (i: int) => initial);
    assert Unwinding(exec, active, {}, trace, |active|);
  }

  lemma NextPossible(exec: Execution, active: seq<Active>, initial: State, i: nat, a: Active, before: seq<State>,
                     after: seq<State>)
    requires 0 < i <= |active| && a == active[i - 1]
    requires forall s :: s in before <==> Possible(exec, active, initial, i, s)
    requires forall t :: t in after <==>
               (a.optional && t in before) || exists s :: s in before && t in exec(a.id, s).states
    ensures forall s :: s in after <==> Possible(exec, active, initial, i - 1, s)
  {
    forall t
      ensures t in after <==> Possible(exec, active, initial, i - 1, t)
    {
      if t in after {
        if a.optional && t in before {
          StepPossible(exec, active, initial, i, t, t);
        } else {
          var s :| s in before && t in exec(a.id, s).states;
          StepPossible(exec, active, initial, i, s, t);
        }
      }
      if Possible(exec, active, initial, i - 1, t) {
        var s := StepBack(exec, active, initial, i, t);
        assert s in before;
      }
    }
  }

  lemma {:induction false} NothingPossible(exec: Execution, active: seq<Active>, initial: State, i: nat)
    requires i <= |active| && forall s :: !Possible(exec, active, initial, i, s)
    ensures forall s :: !Possible(exec, active, initial, 0, s)
  {
    if i > 0 {
      var lo: nat := i - 1;
      if s :| Possible(exec, active, initial, lo, s) {
        var t := StepBack(exec, active, initial, i, s);
      }
      NothingPossible(exec, active, initial, lo);
    }
  }

  // ---------------------------------------------------------------- the verdict at a return

  predicate Settled(s: State) {
    s.PathReason() == NoReason && (s.deferred == DeferredNil || s.deferred == DeferredValidation)
  }

  /** Either the value is validated or the error result is the one that validation gave. */
  predicate Passed(s: State) {
    s.IsProven() || s.deferred == DeferredValidation
  }

  /** What is unclear about a state. */
  function DoubtOf(s: State): Reason {
    if s.PathReason() != NoReason then s.PathReason() else UnresolvedTarget
  }

  method Judge(states: seq<State>, initiallyValidated: bool) returns (tag: Tag, reason: Reason)
    ensures reason == NoReason <==>
            forall s :: s in states ==> s.PathReason() == NoReason && s.deferred in {DeferredNil, DeferredValidation}
    ensures reason != NoReason ==>
              exists s :: s in states
                && (s.PathReason() != NoReason || s.deferred in {DeferredUnknown, DeferredOther})
                && reason == if s.PathReason() != NoReason then s.PathReason() else UnresolvedTarget
    ensures tag == TagDeferredUnknown <==> reason != NoReason
    ensures reason == NoReason ==>
              (tag == TagValidate <==>
               forall s :: s in states ==> s.validation == Proven || s.deferred == DeferredValidation)
    ensures reason == NoReason && tag != TagValidate ==>
              (initiallyValidated ==> tag == TagInvalidate) && (!initiallyValidated ==> tag == TagIdentity)
  {
    var allValidated := true;
    var i := 0;
    while i < |states|
      invariant 0 <= i <= |states|
      invariant forall k :: 0 <= k < i ==> Settled(states[k])
      invariant allValidated <==> forall k :: 0 <= k < i ==> Passed(states[k])
    {
      var s := states[i];
      assert s in states;
      var stop := s.PathReason();
      if stop != NoReason {
        return TagDeferredUnknown, stop;
      }
      var proven := s.IsProven();
      match s.deferred {
        case DeferredValidation => proven := true;
        case DeferredNil =>
        case _ => return TagDeferredUnknown, UnresolvedTarget;
      }
      if !proven {
        allValidated := false;
      }
      i := i + 1;
    }
    if allValidated {
      return TagValidate, NoReason;
    }
    assert exists s :: s in states && !Passed(s);
    tag := if initiallyValidated then TagInvalidate else TagIdentity;
    reason := NoReason;
  }

  /** At the return: the value is proven only if it was validated before, and the error result is nil. */
  function InitialState(initiallyValidated: bool): (s: State)
    ensures s.IsProven() <==> initiallyValidated
    ensures s.result == ResultNil && s.deferred == DeferredNil
    ensures s.hazards == {} && s.uncertainty == {} && s.effects == {} && s.identity == Unrelated
  {
    var validation := if initiallyValidated then Proven else Required;
    REQUIRED_STATE.(validation := validation, result := ResultNil, deferred := DeferredNil)
  }

  ghost predicate KeepsState(exec: Execution, id: nat) {
    forall s :: exec(id, s) == Executed([s], NoReason)
  }

  /** Whichever of these is run, every state comes out as it went in. */
  ghost predicate Neutral(exec: Execution, active: seq<Active>) {
    forall a :: a in active ==> KeepsState(exec, a.id)
  }

  lemma {:induction false} NeutralKeepsState(exec: Execution, active: seq<Active>, initial: State, lo: nat, s: State)
    requires lo <= |active| && Neutral(exec, active)
    ensures Possible(exec, active, initial, lo, s) <==> s == initial
    decreases |active| - lo
  {
    StartPossible(exec, active, initial);
    if lo == |active| {
      assert s in [initial] <==> s == initial;
    } else {
      assert active[lo] in active && KeepsState(exec, active[lo].id);
      NeutralKeepsState(exec, active, initial, lo + 1, initial);
      assert initial in exec(active[lo].id, initial).states;
      StepPossible(exec, active, initial, lo + 1, initial, initial);
      if Possible(exec, active, initial, lo, s) {
        var t := StepBack(exec, active, initial, lo + 1, s);
        NeutralKeepsState(exec, active, initial, lo + 1, t);
      }
    }
  }

  /** Deferred calls that change nothing leave the return as validated as it was. */
  lemma NeutralIsClear(exec: Execution, active: seq<Active>, initiallyValidated: bool)
    requires Neutral(exec, active)
    ensures var initial := InitialState(initiallyValidated);
            && !GivesUp(exec, active, initial) && !OutcomeUnclear(exec, active, initial)
            && (AllPass(exec, active, initial) <==> initiallyValidated)
  {
    var initial := InitialState(initiallyValidated);
    assert initial.PathReason() == NoReason;
    assert Settled(initial) && (Passed(initial) <==> initiallyValidated);
    hide Possible, Settled, Passed;
    forall lo: nat, s | lo <= |active|
      ensures Possible(exec, active, initial, lo, s) <==> s == initial
    {
      NeutralKeepsState(exec, active, initial, lo, s);
    }
    assert Possible(exec, active, initial, 0, initial);
    forall i, s | 0 <= i < |active|
      ensures exec(active[i].id, s).reason == NoReason
    {
      assert active[i] in active && KeepsState(exec, active[i].id);
    }
  }

  ghost function Registered(planner: Planner, returned: Location): seq<Active> {
    ActiveOf(planner.cfg, planner.dominators, returned, planner.registrations)
  }

  /** Nothing can be said: a registration cannot be placed, two cannot be ordered, or some unwinding is unclear. */
  ghost predicate Unclear(planner: Planner, returned: Location, exec: Execution, initial: State) {
    var active := Registered(planner, returned);
    var ordered := SortActive(planner.dominators, active);
    || (exists r :: r in planner.registrations && Hopeless(planner.cfg, returned, r))
    || (active != [] && (!AllComparable(planner.dominators, active) || GivesUp(exec, ordered, initial)
                         || OutcomeUnclear(exec, ordered, initial)))
  }

  ghost predicate OutcomeUnclear(exec: Execution, ordered: seq<Active>, initial: State) {
    (forall s :: !Possible(exec, ordered, initial, 0, s))
      || (exists s :: Possible(exec, ordered, initial, 0, s) && !Settled(s))
  }

  ghost predicate AllPass(exec: Execution, ordered: seq<Active>, initial: State) {
    forall s :: Possible(exec, ordered, initial, 0, s) ==> Passed(s)
  }

  /** What there is to judge, when the states are those of all unwindings. */
  lemma JudgedStates(exec: Execution, ordered: seq<Active>, initial: State, states: seq<State>)
    requires forall s :: s in states <==> Possible(exec, ordered, initial, 0, s)
    requires exists s :: Possible(exec, ordered, initial, 0, s)
    ensures OutcomeUnclear(exec, ordered, initial) <==>
            !forall s :: s in states ==> s.PathReason() == NoReason && s.deferred in {DeferredNil, DeferredValidation}
    ensures AllPass(exec, ordered, initial) <==>
            forall s :: s in states ==> s.validation == Proven || s.deferred == DeferredValidation
    ensures forall s :: s in states ==>
              Possible(exec, ordered, initial, 0, s)
              && (!Settled(s) <==> s.PathReason() != NoReason || s.deferred in {DeferredUnknown, DeferredOther})
              && DoubtOf(s) == if s.PathReason() != NoReason then s.PathReason() else UnresolvedTarget
  {
    hide Possible;
  }

  /** The reason given is that of something unclear. */
  ghost predicate UnclearFor(planner: Planner, returned: Location, exec: Execution, initial: State, reason: Reason) {
    var active := Registered(planner, returned);
    var ordered := SortActive(planner.dominators, active);
    || HopelessFor(planner.cfg, returned, planner.registrations, reason)
    || (!AllComparable(planner.dominators, active) && reason == FeasibilityUnknown)
    || StopsFor(exec, ordered, initial, reason)
    || (exists s :: Possible(exec, ordered, initial, 0, s) && reason == DoubtOf(s) && !Settled(s))
  }

  /**
   The effect of a return. It validates exactly when every way of unwinding every
   set of registrations that may have been made ends proven or with the error that
   validation gave.
   */
  method ReturnEffect(planner: Planner, ghost entry: int, returned: Option<Location>, exec: Execution,
                      initiallyValidated: bool)
    returns (tag: Tag, reason: Reason)
    requires Built(planner, entry)
    ensures !planner.hasErrorResult || planner.registrations == [] ==> tag == TagIdentity && reason == NoReason
    ensures planner.hasErrorResult && planner.registrations != [] && returned.None? ==>
              tag == TagDeferredUnknown && reason == CallMapping
    ensures planner.hasErrorResult && planner.registrations != [] && returned.Some? ==>
              (reason != NoReason <==> Unclear(planner, returned.value, exec, InitialState(initiallyValidated)))
    ensures planner.hasErrorResult && planner.registrations != [] && returned.Some? && reason != NoReason ==>
              UnclearFor(planner, returned.value, exec, InitialState(initiallyValidated), reason)
    ensures reason != NoReason <==> tag == TagDeferredUnknown
    ensures planner.hasErrorResult && planner.registrations != [] && returned.Some? && reason == NoReason ==>
              var active := Registered(planner, returned.value);
              var ordered := SortActive(planner.dominators, active);
              tag == if active == [] then TagIdentity
                     else if AllPass(exec, ordered, InitialState(initiallyValidated)) then TagValidate
                     else if initiallyValidated then TagInvalidate
                     else TagIdentity
    ensures planner.hasErrorResult && planner.registrations != [] && returned.Some?
            && (var active := Registered(planner, returned.value);
                && active != [] && AllComparable(planner.dominators, active) && Neutral(exec, active)
                && forall r :: r in planner.registrations ==> !Hopeless(planner.cfg, returned.value, r)) ==>
              reason == NoReason && tag == if initiallyValidated then TagValidate else TagIdentity
  {
    hide ActiveOf, SortActive, Possible, GivesUp, Hopeless, Comparable, Built, Settled, Passed, InitialState;
    hide HopelessFor, StopsFor, DoubtOf;
    if !planner.hasErrorResult || |planner.registrations| == 0 {
      return TagIdentity, NoReason;
    }
    if returned.None? {
      return TagDeferredUnknown, CallMapping;
    }
    var initial := InitialState(initiallyValidated);
    var active, stop := SelectActive(planner, entry, returned.value);
    if stop != NoReason {
      return TagDeferredUnknown, stop;
    }
    if |active| == 0 {
      return TagIdentity, NoReason;
    }
    if !AllComparable(planner.dominators, active) {
      return TagDeferredUnknown, FeasibilityUnknown;
    }
    var ordered := SortActive(planner.dominators, active);
    if Neutral(exec, active) {
      assert forall a :: a in ordered <==> a in active by {
        assert forall a :: a in ordered <==> a in multiset(ordered);
        assert forall a :: a in active <==> a in multiset(active);
      }
      NeutralIsClear(exec, ordered, initiallyValidated);
    }
    var states, gaveUp := Unwind(exec, ordered, initial);
    if gaveUp != NoReason {
      return TagDeferredUnknown, gaveUp;
    }
    JudgedStates(exec, ordered, initial, states);
    hide OutcomeUnclear, AllPass;
    tag, reason := Judge(states, initiallyValidated);
  }

  // ---------------------------------------------------------------- what happens on a path

  /** The registration at this place is made on the block path that ends at the return. */
  predicate MadeOn(p: seq<int>, returned: Location, place: Location) {
    place.block in p && (place.block == returned.block ==> place.index < returned.index)
  }

  function MadeAmong(p: seq<int>, returned: Location, active: seq<Active>): set<int> {
    set i | 0 <= i < |active| && MadeOn(p, returned, active[i].place)
  }

  lemma InActive(c: Cfg, dominators: DominatorMap, returned: Location, registrations: seq<Registration>, a: Active)
    ensures a in ActiveOf(c, dominators, returned, registrations) <==>
            && a.optional == !Before(dominators, a.place, returned)
            && MayReach(c, a.place, returned)
            && exists r :: r in registrations && r.id == a.id && r.place == Some(a.place)
    decreases |registrations|
  {
    if registrations != [] {
      var k := |registrations| - 1;
      InActive(c, dominators, returned, registrations[..k], a);
      assert registrations == registrations[..k] + [registrations[k]];
    }
  }

  /** What is made on some path to the return was selected, and what was selected as mandatory is made on every one. */
  lemma PathMakesActive(c: Cfg, entry: int, dominators: DominatorMap, returned: Location, p: seq<int>, place: Location)
    requires Exact(c, entry, dominators) && Leads(c, entry, {}, p, returned.block)
    ensures MadeOn(p, returned, place) ==> MayReach(c, place, returned)
    ensures Before(dominators, place, returned) ==> MadeOn(p, returned, place)
  {
    MadeIsReached(c, p, returned, place);
  }

  lemma MadeIsReached(c: Cfg, p: seq<int>, returned: Location, place: Location)
    requires IsPath(c, p) && p[|p| - 1] == returned.block
    ensures MadeOn(p, returned, place) ==> MayReach(c, place, returned)
  {
    if MadeOn(p, returned, place) && place.block != returned.block {
      var i :| 0 <= i < |p| && p[i] == place.block;
      var rest := p[i..];
      forall k | 0 < k < |rest|
        ensures HasEdge(c, rest[k - 1], rest[k])
      {
        assert HasEdge(c, p[i + k - 1], p[i + k]);
      }
      assert i < |p| - 1 && HasEdge(c, p[i], p[i + 1]);
      assert Leads(c, place.block, {}, rest, returned.block);
    }
  }

  /** From a place that is reached at all, the return may be reached exactly when some path makes what is there. */
  lemma MayReachExactly(c: Cfg, entry: int, returned: Location, place: Location)
    requires WellFormed(c) && Reaches(c, entry, {}, place.block)
    ensures MayReach(c, place, returned) <==>
            exists p :: Leads(c, entry, {}, p, returned.block) && MadeOn(p, returned, place)
  {
    if MayReach(c, place, returned) {
      var p :| Leads(c, entry, {}, p, place.block);
      if place.block == returned.block {
        assert MadeOn(p, returned, place);
      } else {
        var q :| Leads(c, place.block, {}, q, returned.block);
        var whole := p + q[1..];
        forall i | 0 < i < |whole|
          ensures HasEdge(c, whole[i - 1], whole[i])
        {
          if i >= |p| {
            assert HasEdge(c, q[i - |p|], q[i - |p| + 1]);
          }
        }
        assert whole[|p| - 1] == place.block;
        assert Leads(c, entry, {}, whole, returned.block) && MadeOn(whole, returned, place);
      }
    }
    if p :| Leads(c, entry, {}, p, returned.block) && MadeOn(p, returned, place) {
      MadeIsReached(c, p, returned, place);
    }
  }

  /** When nothing is hopeless, no path makes a registration that matters more than once. */
  lemma RelevantMadeOnce(c: Cfg, entry: int, dominators: DominatorMap, returned: Location,
                         registrations: seq<Registration>, p: seq<int>, r: Registration, i: nat, j: nat)
    requires Exact(c, entry, dominators) && Leads(c, entry, {}, p, returned.block)
    requires forall r :: r in registrations ==> !Hopeless(c, returned, r)
    requires r in registrations && r.relevant && r.place.Some? && MadeOn(p, returned, r.place.value)
    requires i < |p| && j < |p| && p[i] == r.place.value.block && p[j] == r.place.value.block
    ensures i == j
  {
    PathMakesActive(c, entry, dominators, returned, p, r.place.value);
    if i < j {
      WalkRepeats(c, p, i, j);
    } else if j < i {
      WalkRepeats(c, p, j, i);
    }
  }

  lemma WalkRepeats(c: Cfg, p: seq<int>, i: nat, j: nat)
    requires IsPath(c, p) && i < j < |p| && p[i] == p[j]
    ensures CanRepeat(c, p[i])
  {
    var way := p[i..j];
    forall k | 0 < k < |way|
      ensures HasEdge(c, way[k - 1], way[k])
    {
      assert HasEdge(c, p[i + k - 1], p[i + k]);
    }
    assert HasEdge(c, p[j - 1], p[j]) && HasEdge(c, p[i], p[i + 1]);
    assert Leads(c, p[i], {}, way, p[j - 1]);
  }

  /** Along any path from the entry, of two ordered registrations the earlier place is passed first. */
  lemma EarlierPassedFirst(c: Cfg, entry: int, dominators: DominatorMap, p: seq<int>, a: Location, b: Location, j: nat)
    requires Exact(c, entry, dominators) && Before(dominators, a, b)
    requires IsPath(c, p) && p[0] == entry && j < |p| && p[j] == b.block
    ensures a.block in p[..j + 1] && (a.block == b.block ==> a.index < b.index)
  {
    assert Leads(c, entry, {}, p[..j + 1], b.block);
    assert Reaches(c, entry, {}, b.block);
  }

  /**
   Whatever path is taken to the return, running what was registered on it, last
   first, is one of the unwindings considered.
   */
  lemma PathIsConsidered(planner: Planner, entry: int, returned: Location, exec: Execution, initial: State,
                         p: seq<int>, trace: seq<State>)
    requires Built(planner, entry) && Leads(planner.cfg, entry, {}, p, returned.block)
    requires var ordered := SortActive(planner.dominators, Registered(planner, returned));
             && |trace| == |ordered| + 1 && trace[|ordered|] == initial
             && forall i :: 0 <= i < |ordered| ==>
                  if MadeOn(p, returned, ordered[i].place) then trace[i] in exec(ordered[i].id, trace[i + 1]).states
                  else trace[i] == trace[i + 1]
    ensures Possible(exec, SortActive(planner.dominators, Registered(planner, returned)), initial, 0, trace[0])
  {
    var active := Registered(planner, returned);
    var ordered := SortActive(planner.dominators, active);
    var made := MadeAmong(p, returned, ordered);
    forall i | 0 <= i < |ordered|
      ensures UnwoundBy(exec, ordered[i], i in made, trace[i + 1], trace[i])
    {
      assert ordered[i] in multiset(ordered);
      assert ordered[i] in active;
      InActive(planner.cfg, planner.dominators, returned, planner.registrations, ordered[i]);
      PathMakesActive(planner.cfg, entry, planner.dominators, returned, p, ordered[i].place);
    }
    assert Unwinding(exec, ordered, made, trace, 0);
  }
}
