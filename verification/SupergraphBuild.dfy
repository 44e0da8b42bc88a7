/**
 The recursive construction of the supergraph, with its cache of procedures that
 are being built or have been built.

 On any program, mutual recursion included, it ends, expands each procedure once,
 and lays down exactly the parts of the procedures it reached.
 */
module SupergraphBuild {
  import opened Options
  import opened ProtocolDomain
  import opened Supergraph
  import opened ControlFlow
  import opened SupergraphSpec
  import Ordering
  import Runs
  import ProducedWitnesses
  import TabulationTheory

  datatype Summary = Summary(entry: Option<NodeId>, exits: seq<NodeId>, building: bool, built: bool)

  const UNBUILT := Summary(None, [], false, false)

  ghost function EdgeSet(edges: seq<Edge>): set<Edge> {
    set e | e in edges
  }

  predicate NodeOrder(env: Env, a: NodeId, b: NodeId) {
    Ordering.StringLeq(env.keyText(a), env.keyText(b))
  }

  lemma NodeOrderIsTotal(env: Env, order: (NodeId, NodeId) -> bool)
    requires Proper(env) && forall a, b :: order(a, b) == NodeOrder(env, a, b)
    ensures Ordering.TotalOrder(order)
  {
    Ordering.StringLeqIsTotalOrder();
    forall a, b
      ensures order(a, b) || order(b, a)
      ensures order(a, b) && order(b, a) ==> a == b
    {
      assert Ordering.StringLeq(env.keyText(a), env.keyText(b)) || Ordering.StringLeq(env.keyText(b), env.keyText(a));
    }
    forall a, b, c | order(a, b) && order(b, c)
      ensures order(a, c)
    {
      assert Ordering.StringLeq(env.keyText(a), env.keyText(b)) && Ordering.StringLeq(env.keyText(b), env.keyText(c));
    }
  }

  // ---------------------------------------------------------------- what the cache may hold

  ghost predicate CacheOk(env: Env, cache: map<string, Summary>, expanded: seq<string>) {
    && cache.Keys <= env.program.Keys
    && (forall k :: k in expanded <==> k in cache && cache[k].entry.Some?)
    && (forall k :: k in cache ==> cache[k].entry == EntryOf(env, k))
    && (forall k :: k in cache && cache[k].entry.Some? ==>
          cache[k].exits == ExitsOf(env, k) && (cache[k].building || cache[k].built))
    && (forall k :: k in cache && cache[k].entry.None? ==> !cache[k].building && !cache[k].built)
    && Ordering.Distinct(expanded)
  }

  function KeysOf(expanded: seq<string>): set<string> {
    set k | k in expanded
  }

  /** The procedures expanded since. */
  function Newly(before: seq<string>, after: seq<string>): set<string> {
    KeysOf(after) - KeysOf(before)
  }

  /** Everything a part enters has been expanded. */
  ghost predicate CalleesExpanded(part: Fragment, expanded: seq<string>) {
    forall e :: e in part.edges && e.kind == Call ==> e.to.func in expanded
  }

  ghost predicate AllCalleesExpanded(env: Env, keys: set<string>, expanded: seq<string>) {
    forall k :: k in keys ==> CalleesExpanded(ProcedurePart(env, k), expanded)
  }

  ghost predicate CalledIn(f: Fragment, key: string) {
    exists e :: e in f.edges && e.kind == Call && e.to.func == key
  }

  /** Nothing but `owed` has been expanded without a call to it. */
  ghost predicate OnlyCalled(f: Fragment, keys: set<string>, owed: set<string>) {
    forall k :: k in keys ==> k in owed || CalledIn(f, k)
  }

  /** A step of construction: what was laid down, on top of whole procedures reached on the way. */
  ghost predicate Laid(env: Env, before: Fragment, expandedBefore: seq<string>, after: Fragment,
                       expandedAfter: seq<string>, part: Fragment,
                       owed: set<string>) {
    && expandedBefore <= expandedAfter
    && OnlyCalled(after, Newly(expandedBefore, expandedAfter), owed)
    && after == before.Plus(part).Plus(Parts(env, Newly(expandedBefore, expandedAfter)))
    && CalleesExpanded(part, expandedAfter)
    && AllCalleesExpanded(env, Newly(expandedBefore, expandedAfter), expandedAfter)
  }

  lemma NewlyAdds(env: Env, a: seq<string>, b: seq<string>, c: seq<string>)
    requires a <= b <= c
    ensures Newly(a, c) == Newly(a, b) + Newly(b, c)
    ensures Parts(env, Newly(a, c)) == Parts(env, Newly(a, b)).Plus(Parts(env, Newly(b, c)))
  {
    hide ProcedurePart;
    assert forall k :: k in a ==> k in b;
    assert forall k :: k in b ==> k in c;
  }

  /** Steps in a row lay down both parts. */
  lemma LaidThen(env: Env, f: Fragment, a: seq<string>, g: Fragment, b: seq<string>, h: Fragment, c: seq<string>,
                 p: Fragment, q: Fragment,
                 owed: set<string>)
    requires Laid(env, f, a, g, b, p, owed) && Laid(env, g, b, h, c, q, {})
    ensures Laid(env, f, a, h, c, p.Plus(q), owed)
  {
    hide ProcedurePart, Parts;
    NewlyAdds(env, a, b, c);
    assert forall k :: k in b ==> k in c;
  }

  lemma LaidNothing(env: Env, f: Fragment, a: seq<string>, owed: set<string>)
    ensures Laid(env, f, a, f, a, NOTHING, owed)
  {
    hide ProcedurePart;
    assert Newly(a, a) == {};
  }

  lemma LaidSettled(env: Env, f: Fragment, a: seq<string>, g: Fragment, b: seq<string>, part: Fragment, key: string)
    requires Laid(env, f, a, g, b, part, {key}) && CalledIn(g, key)
    ensures Laid(env, f, a, g, b, part, {})
  {
    hide ProcedurePart, Parts;
  }

  lemma LaidExtends(env: Env, f: Fragment, a: seq<string>, g: Fragment, b: seq<string>, part: Fragment)
    requires Laid(env, f, a, g, b, part, {})
    ensures a <= b
  {
  }

  lemma LaidOnly(env: Env, f: Fragment, a: seq<string>, g: Fragment, part: Fragment)
    requires g == f.Plus(part) && CalleesExpanded(part, a)
    ensures Laid(env, f, a, g, a, part, {})
  {
    hide ProcedurePart;
    assert Newly(a, a) == {};
  }

  class Builder {
    const env: Env
    var nodes: set<NodeId>
    var edges: seq<Edge>
    var nonReturning: set<NodeId>
    var terminal: set<NodeId>
    var cache: map<string, Summary>
    ghost var expanded: seq<string>

    ghost predicate Valid()
      reads this
    {
      && Proper(env)
      && CacheOk(env, cache, expanded)
      && forall e :: e in edges ==> e.from in nodes && e.to in nodes
    }

    /** What has been laid down so far. */
    ghost function Built(): Fragment
      reads this
    {
      Fragment(EdgeSet(edges), nonReturning, terminal)
    }

    ghost function Fresh(): set<string>
      reads this
    {
      env.program.Keys - cache.Keys
    }

    constructor (env: Env)
      requires Proper(env)
      ensures Valid() && this.env == env && expanded == [] && Built() == NOTHING
    {
      this.env := env;
      nodes, edges, nonReturning, terminal, cache, expanded := {}, [], {}, {}, map[], [];
    }

    method AddEdge(e: Edge)
      requires Valid()
      modifies this`nodes, this`edges
      ensures Valid() && old(nodes) <= nodes
      ensures Built() == old(Built()).Plus(Fragment({e}, {}, {}))
    {
      nodes := nodes + {e.from, e.to};
      edges := edges + [e];
    }

    /** The call edge and one return edge from every exit, all at the call's site. */
    method Connect(call: NodeId, callee: Summary) returns (returns_: bool)
      requires Valid() && callee.entry.Some?
      modifies this`nodes, this`edges, this`nonReturning
      ensures Valid() && old(nodes) <= nodes
      ensures Built() == old(Built()).Plus(Fragment(
                {CallEdge(env, call, callee.entry.value)} + ReturnEdges(env, call, callee.exits),
                if callee.exits == [] then {call} else {}, {}))
      ensures returns_ == (callee.exits != [])
    {
      AddEdge(CallEdge(env, call, callee.entry.value));
      ghost var start := Built();
      var i := 0;
      while i < |callee.exits|
        invariant 0 <= i <= |callee.exits| && Valid() && old(nodes) <= nodes
        invariant nonReturning == old(nonReturning)
        invariant Built() == start.Plus(Fragment(ReturnEdges(env, call, callee.exits[..i]), {}, {}))
      {
        AddEdge(ReturnEdge(callee.exits[i], ReturnOf(call), env.keyText(call)));
        assert callee.exits[..i + 1] == callee.exits[..i] + [callee.exits[i]];
        i := i + 1;
      }
      assert callee.exits[..i] == callee.exits;
      if |callee.exits| == 0 {
        nonReturning := nonReturning + {call};
      }
      returns_ := |callee.exits| != 0;
    }

    method PassBy(call: NodeId, reason: Reason)
      requires Valid()
      modifies this`nodes, this`edges
      ensures Valid() && old(nodes) <= nodes
      ensures Built() == old(Built()).Plus(Fragment({PassEdge(env, call, reason)}, {}, {}))
    {
      AddEdge(PassEdge(env, call, reason));
    }

    /** Expands the callee if need be, then connects it; nothing happens if it has no body to build. */
    method EnterProcedure(call: NodeId, key: string) returns (entered: bool, returns_: bool)
      requires Valid()
      modifies this
      ensures Valid() && cache.Keys >= old(cache).Keys && old(nodes) <= nodes
      ensures entered <==> EntryOf(env, key).Some?
      ensures !entered ==> Built() == old(Built()) && expanded == old(expanded)
      ensures entered ==> returns_ == (ExitsOf(env, key) != [])
      ensures entered ==> Laid(env, old(Built()), old(expanded), Built(), expanded, CallPart(env, call, key), {})
      decreases Fresh(), 2
    {
      hide Laid, Parts, ProcedurePart, CacheOk, Proper, ReturnEdges;
      var callee, ok := AppendProcedure(key);
      if !ok {
        return false, false;
      }
      ghost var middle, known := Built(), expanded;
      returns_ := Connect(call, callee);
      entered := true;
      CallPartExpanded(env, call, key, known);
      LaidOnly(env, middle, known, Built(), CallPart(env, call, key));
      LaidThen(env, old(Built()), old(expanded), middle, known, Built(), known, NOTHING, CallPart(env, call, key),
               {key});
      assert NOTHING.Plus(CallPart(env, call, key)) == CallPart(env, call, key);
      EntryFunc(env, key);
      assert CallEdge(env, call, EntryOf(env, key).value) in Built().edges;
      LaidSettled(env, old(Built()), old(expanded), Built(), expanded, CallPart(env, call, key), key);
    }

    /** One call event, in the order in which the cases are tried; says whether control comes back. */
    method AppendCallEvent(call: NodeId, event: Event) returns (returns_: bool)
      requires Valid()
      modifies this
      ensures Valid() && cache.Keys >= old(cache).Keys && old(nodes) <= nodes
      ensures returns_ == Continues(env, event)
      ensures Laid(env, old(Built()), old(expanded), Built(), expanded, EventPart(env, event, call), {})
      decreases Fresh(), 4
    {
      hide ProcedurePart, Parts, ReturnEdges;
      LaidNothing(env, Built(), expanded, {});
      if !event.present {
        return false;
      }
      if event.phase != Sync {
        PassBy(call, NoReason);
        LaidOnly(env, old(Built()), expanded, Built(), EventPart(env, event, call));
        return true;
      }
      if event.builtin.Some? {
        if event.builtin.value == "panic" || !event.mayReturn {
          nonReturning := nonReturning + {call};
          LaidOnly(env, old(Built()), expanded, Built(), EventPart(env, event, call));
          return false;
        }
        PassBy(call, NoReason);
        LaidOnly(env, old(Built()), expanded, Built(), EventPart(env, event, call));
        return true;
      }
      if !event.mapped {
        PassBy(call, CallMapping);
        LaidOnly(env, old(Built()), expanded, Built(), EventPart(env, event, call));
        return true;
      }
      if !event.mayReturn {
        nonReturning := nonReturning + {call};
        LaidOnly(env, old(Built()), expanded, Built(), EventPart(env, event, call));
        return false;
      }
      if event.validates {
        PassBy(call, NoReason);
        LaidOnly(env, old(Built()), expanded, Built(), EventPart(env, event, call));
        return true;
      }
      returns_ := AppendResolvedCall(call, event);
    }

    /** The literal a call resolves to is tried first, then the declared function. */
    method AppendResolvedCall(call: NodeId, event: Event) returns (returns_: bool)
      requires Valid() && OutcomeOf(env, event) == Resolve(env, event)
      modifies this
      ensures Valid() && cache.Keys >= old(cache).Keys && old(nodes) <= nodes
      ensures returns_ == Continues(env, event)
      ensures Laid(env, old(Built()), old(expanded), Built(), expanded, EventPart(env, event, call), {})
      decreases Fresh(), 3
    {
      hide ProcedurePart, Parts, ReturnEdges;
      if event.literal.Some? {
        if !event.literal.value.exact {
          PassBy(call, AmbiguousIdentity);
          LaidOnly(env, old(Built()), expanded, Built(), EventPart(env, event, call));
          return true;
        }
        var entered, back := EnterProcedure(call, event.literal.value.key);
        if entered {
          return back;
        }
      }
      if event.declared.Some? {
        var entered, back := EnterProcedure(call, event.declared.value);
        if entered {
          return back;
        }
      }
      PassBy(call, event.unresolved);
      LaidOnly(env, old(Built()), expanded, Built(), EventPart(env, event, call));
      returns_ := true;
    }

    /** The call events of one node, in order, until one does not return. */
    method AppendNode(key: string, b: int, index: int, events: seq<Event>) returns (at: NodeId, alive: bool)
      requires Valid()
      modifies this
      ensures Valid() && cache.Keys >= old(cache).Keys && old(nodes) <= nodes
      ensures var walk := EventsWalk(env, key, b, index, events);
              at == walk.at && alive == walk.alive
              && Laid(env, old(Built()), old(expanded), Built(), expanded, walk.part, {})
      decreases Fresh(), 5
    {
      hide ProcedurePart, Parts, EventPart, Continues, Laid;
      LaidNothing(env, Built(), expanded, {});
      at, alive := CfgNodeId(key, b, index), true;
      var i := 0;
      while i < |events| && alive
        invariant 0 <= i <= |events| && Valid() && cache.Keys >= old(cache).Keys && old(nodes) <= nodes
        invariant at == EventsWalk(env, key, b, index, events[..i]).at
                  && alive == EventsWalk(env, key, b, index, events[..i]).alive
        invariant Laid(env, old(Built()), old(expanded), Built(), expanded,
                       EventsWalk(env, key, b, index, events[..i]).part, {})
        decreases |events| - i
      {
        ghost var before := EventsWalk(env, key, b, index, events[..i]);
        assert events[..i + 1][..i] == events[..i];
        var call := CallNodeId(key, b, index, i);
        nodes := nodes + {call, ReturnOf(call)};
        ghost var f0, x0 := Built(), expanded;
        AddEdge(IntraEdge(at, call, []));
        ghost var link := Fragment({IntraEdge(at, call, [])}, {}, {});
        LaidOnly(env, f0, x0, Built(), link);
        LaidThen(env, old(Built()), old(expanded), f0, x0, Built(), x0, before.part, link, {});
        ghost var f1 := Built();
        alive := AppendCallEvent(call, events[i]);
        LaidThen(env, old(Built()), old(expanded), f1, x0, Built(), expanded, before.part.Plus(link),
                 EventPart(env, events[i], call), {});
        if alive {
          at := ReturnOf(call);
        }
        i := i + 1;
      }
      StoppedEarly(env, key, b, index, events, i);
    }

    /** The nodes of one block, then its ways out. */
    method AppendBlock(key: string, b: int)
      requires Valid() && key in env.program && b in env.program[key].cfg.successors
      requires NodesOf(env.program[key], b) != []
      modifies this
      ensures Valid() && cache.Keys >= old(cache).Keys && old(nodes) <= nodes && CfgNodeId(key, b, 0) in nodes
      ensures Laid(env, old(Built()), old(expanded), Built(), expanded, BlockPart(env, key, b), {})
      decreases Fresh(), 7
    {
      hide ProcedurePart, Parts, Laid, NodesWalk, WaysOut;
      var at, alive := AppendNodes(key, b);
      if alive {
        ghost var f, x := Built(), expanded;
        var found := AddWaysOut(key, b, at);
        if !found {
          terminal := terminal + {at};
        }
        ghost var out := WaysOut(env, key, b, at);
        ghost var last := Fragment(out, {}, if out == {} then {at} else {});
        assert Built() == f.Plus(last);
        NoCallsOut(env, key, b, at, x);
        LaidOnly(env, f, x, Built(), last);
        LaidThen(env, old(Built()), old(expanded), f, x, Built(), x,
                 NodesWalk(env, key, b, NodesOf(env.program[key], b)).part, last, {});
      }
    }

    method AppendNodes(key: string, b: int) returns (at: NodeId, alive: bool)
      requires Valid() && key in env.program && b in env.program[key].cfg.successors
      requires NodesOf(env.program[key], b) != []
      modifies this
      ensures Valid() && cache.Keys >= old(cache).Keys && old(nodes) <= nodes && CfgNodeId(key, b, 0) in nodes
      ensures var walk := NodesWalk(env, key, b, NodesOf(env.program[key], b));
              at == walk.at && alive == walk.alive
                && Laid(env, old(Built()), old(expanded), Built(), expanded, walk.part, {})
      decreases Fresh(), 6
    {
      hide ProcedurePart, Parts, Laid, EventsWalk, NodesWalk, CacheOk, Proper;
      var listed := NodesOf(env.program[key], b);
      LaidNothing(env, Built(), expanded, {});
      NodesWalkStart(env, key, b, listed);
      at, alive := CfgNodeId(key, b, 0), true;
      var i := 0;
      while i < |listed| && alive
        invariant 0 <= i <= |listed| && Valid() && cache.Keys >= old(cache).Keys && old(nodes) <= nodes
        invariant i > 0 ==> CfgNodeId(key, b, 0) in nodes
        invariant i == 0 ==> alive
        invariant at == NodesWalk(env, key, b, listed[..i]).at && alive == NodesWalk(env, key, b, listed[..i]).alive
        invariant Laid(env, old(Built()), old(expanded), Built(), expanded, NodesWalk(env, key, b, listed[..i]).part,
                       {})
        decreases |listed| - i
      {
        ghost var before := NodesWalk(env, key, b, listed[..i]);
        NodesWalkStep(env, key, b, listed, i);
        ghost var f0, x0 := Built(), expanded;
        var node := CfgNodeId(key, b, i);
        nodes := nodes + {node};
        ghost var link := Fragment(if i == 0 then {} else {IntraEdge(at, node, [])}, {}, {});
        if i > 0 {
          AddEdge(IntraEdge(at, node, []));
        }
        assert Built() == f0.Plus(link);
        LaidOnly(env, f0, x0, Built(), link);
        LaidThen(env, old(Built()), old(expanded), f0, x0, Built(), x0, before.part, link, {});
        ghost var f1 := Built();
        at, alive := AppendNode(key, b, i, listed[i]);
        LaidThen(env, old(Built()), old(expanded), f1, x0, Built(), expanded, before.part.Plus(link),
                 EventsWalk(env, key, b, i, listed[i]).part, {});
        i := i + 1;
      }
      NodesStoppedEarly(env, key, b, listed, i);
    }

    method AddEdgesTo(at: NodeId, targets: seq<NodeId>, predicates: seq<string>) returns (any: bool)
      requires Valid()
      modifies this`nodes, this`edges
      ensures Valid() && old(nodes) <= nodes
      ensures Built() == old(Built()).Plus(Fragment(set x | x in targets :: IntraEdge(at, x, predicates), {}, {}))
      ensures any <==> (set x | x in targets :: IntraEdge(at, x, predicates)) != {}
    {
      hide CacheOk, Proper;
      any := false;
      var j := 0;
      while j < |targets|
        invariant 0 <= j <= |targets| && Valid() && old(nodes) <= nodes
        invariant Built() == old(Built()).Plus(
                               Fragment(set x | x in targets[..j] :: IntraEdge(at, x, predicates), {}, {}))
        invariant any <==> j > 0
      {
        any := true;
        AddEdge(IntraEdge(at, targets[j], predicates));
        assert targets[..j + 1] == targets[..j] + [targets[j]];
        j := j + 1;
      }
      assert targets[..j] == targets;
      ghost var laid := set x | x in targets :: IntraEdge(at, x, predicates);
      if any {
        assert IntraEdge(at, targets[0], predicates) in laid;
      } else {
        assert laid == {};
      }
    }

    /** Edges to the non-empty blocks past each successor; says whether there were any. */
    method AddWaysOut(key: string, b: int, at: NodeId) returns (found: bool)
      requires Valid() && key in env.program && b in env.program[key].cfg.successors
      modifies this`nodes, this`edges
      ensures Valid() && old(nodes) <= nodes
      ensures Built() == old(Built()).Plus(Fragment(WaysOut(env, key, b, at), {}, {}))
      ensures found <==> WaysOut(env, key, b, at) != {}
    {
      hide CacheOk, EntryMet, Entries, OutBy;
      hide WaysOut, NodeOrder, Ordering.TotalOrder, Ordering.Sorted, Ordering.Distinct;
      OutByEnds(env, key, b, at);
      var p := env.program[key];
      var entries := Entries(key, p);
      var here := env;
      var order := (x: NodeId, y: NodeId) => NodeOrder(here, x, y);
      NodeOrderIsTotal(env, order);
      found := false;
      ghost var out: set<Edge> := {};
      var i := 0;
      while i < |p.cfg.successors[b]|
        invariant 0 <= i <= |p.cfg.successors[b]| && Valid() && old(nodes) <= nodes
        invariant Built() == old(Built()).Plus(Fragment(out, {}, {}))
        invariant found <==> out != {}
        invariant out == OutBy(env, key, b, at, p.cfg.successors[b][..i])
      {
        var s := p.cfg.successors[b][i];
        SuccessorIsBlock(env, key, b, s);
        var targets := NonEmptySuccessorEntries(p.cfg, s, entries, order);
        ghost var more := set x | x in targets :: IntraEdge(at, x, env.provenance(key, b, s));
        OutGrows(env, key, b, at, i, targets, more);
        var any := AddEdgesTo(at, targets, env.provenance(key, b, s));
        found := found || any;
        out := out + more;
        i := i + 1;
      }
      assert p.cfg.successors[b][..i] == p.cfg.successors[b];
    }

    /**
     Expands a procedure unless it is cached, whether built or still being built.
     Ends because every expansion takes a key that was not cached before.
     */
    method AppendProcedure(key: string) returns (summary: Summary, ok: bool)
      requires Valid()
      modifies this
      ensures Valid() && cache.Keys >= old(cache).Keys && old(nodes) <= nodes
      ensures ok <==> EntryOf(env, key).Some?
      ensures ok ==> key in expanded && summary.entry == EntryOf(env, key) && summary.exits == ExitsOf(env, key)
      ensures ok && key !in old(expanded) ==> EntryOf(env, key).value in nodes && key in cache && cache[key].built
      ensures Laid(env, old(Built()), old(expanded), Built(), expanded, NOTHING, {key})
      ensures !ok || key in old(expanded) ==> expanded == old(expanded) && Built() == old(Built())
      decreases Fresh(), 1
    {
      hide Parts, ProcedurePart, Laid, BlocksPart, ExitsOf, EntryOf, CacheOk, Proper;
      LaidNothing(env, Built(), expanded, {key});
      NoEntry(env, key);
      if key !in env.program || key == "" {
        return UNBUILT, false;
      }
      if key in cache {
        CacheHit(env, cache, expanded, key);
        if cache[key].building {
          return cache[key], cache[key].entry.Some?;
        }
        if cache[key].built {
          return cache[key], true;
        }
      }
      NotExpanded(env, cache, expanded, key);
      if EntryOf(env, key).None? {
        CacheMiss(env, cache, expanded, key);
        cache := cache[key := UNBUILT];
        return UNBUILT, false;
      }
      summary := ExpandProcedure(key);
      ok := true;
    }

    method ExpandProcedure(key: string) returns (summary: Summary)
      requires Valid() && EntryOf(env, key).Some? && key !in cache
      modifies this
      ensures Valid() && cache.Keys >= old(cache).Keys && old(nodes) <= nodes
      ensures key in expanded && summary.entry == EntryOf(env, key) && summary.exits == ExitsOf(env, key)
      ensures EntryOf(env, key).value in nodes && key in cache && cache[key].built
      ensures Laid(env, old(Built()), old(expanded), Built(), expanded, NOTHING, {key})
      decreases Fresh(), 0
    {
      hide Parts, ProcedurePart, Laid, BlocksPart, ExitsOf, EntryOf, CacheOk, Proper;
      StartCache(env, cache, expanded, key);
      assert Fresh() - {key} < Fresh();
      cache := cache[key := Summary(EntryOf(env, key), ExitsOf(env, key), true, false)];
      expanded := expanded + [key];
      ghost var began := expanded;
      AppendBlocks(key);
      FinishProcedure(env, key, old(Built()), old(expanded), began, Built(), expanded);
      LaidExtends(env, old(Built()), began, Built(), expanded,
                  BlocksPart(env, key, env.program[key].cfg.successors.Keys));
      assert expanded[|old(expanded)|] == key;
      FinishCache(env, cache, expanded, key);
      cache := cache[key := cache[key].(building := false, built := true)];
      summary := cache[key];
    }

    method AppendBlocks(key: string)
      requires Valid() && key in env.program && EntryOf(env, key).Some?
      modifies this
      ensures Valid() && cache.Keys >= old(cache).Keys && old(nodes) <= nodes && EntryOf(env, key).value in nodes
      ensures Laid(env, old(Built()), old(expanded), Built(), expanded,
                   BlocksPart(env, key, env.program[key].cfg.successors.Keys), {})
      decreases Fresh(), 8
    {
      hide Parts, ProcedurePart, Laid, BlocksPart, BlockPart, CacheOk;
      var p := env.program[key];
      LaidNothing(env, Built(), expanded, {});
      ghost var walked: set<int> := {};
      NoBlocks(env, key);
      var i := 0;
      while i < |p.cfg.blocks|
        invariant 0 <= i <= |p.cfg.blocks| && Valid() && cache.Keys >= old(cache).Keys && old(nodes) <= nodes
        invariant forall b :: b in walked <==> Some(b) in p.cfg.blocks[..i]
        invariant walked <= p.cfg.successors.Keys
        invariant forall b :: b in walked && NodesOf(p, b) != [] ==> CfgNodeId(key, b, 0) in nodes
        invariant Laid(env, old(Built()), old(expanded), Built(), expanded, BlocksPart(env, key, walked), {})
        decreases |p.cfg.blocks| - i
      {
        var block := p.cfg.blocks[i];
        assert p.cfg.blocks[..i + 1] == p.cfg.blocks[..i] + [block];
        if block.Some? {
          var b := block.value;
          assert Some(b) in p.cfg.blocks;
          OneMoreBlock(env, key, walked, b);
          if |NodesOf(p, b)| > 0 {
            ghost var f, x := Built(), expanded;
            AppendBlock(key, b);
            LaidThen(env, old(Built()), old(expanded), f, x, Built(), expanded, BlocksPart(env, key, walked),
                     BlockPart(env, key, b), {});
          }
          walked := walked + {b};
        }
        i := i + 1;
      }
      assert p.cfg.blocks[..i] == p.cfg.blocks;
      BlocksListed(env, key);
      forall b
        ensures b in walked <==> b in p.cfg.successors.Keys
      {
        assert b in walked <==> Some(b) in p.cfg.blocks;
      }
      assert walked == p.cfg.successors.Keys;
      EntryIsBlock(env, key);
    }
  }

  // ---------------------------------------------------------------- lemmas used by the construction

  lemma {:induction false} StoppedEarly(env: Env, key: string, b: int, index: int, events: seq<Event>, i: nat)
    requires i <= |events| && (i == |events| || !EventsWalk(env, key, b, index, events[..i]).alive)
    ensures EventsWalk(env, key, b, index, events) == EventsWalk(env, key, b, index, events[..i])
    decreases |events|
  {
    if i == |events| {
      assert events[..i] == events;
    } else {
      var n := |events| - 1;
      assert events[..n][..i] == events[..i];
      StoppedEarly(env, key, b, index, events[..n], i);
    }
  }

  lemma NodesWalkStart(env: Env, key: string, b: int, nodes: seq<seq<Event>>)
    ensures NodesWalk(env, key, b, nodes[..0]) == Walk(NOTHING, CfgNodeId(key, b, 0), true)
  {
  }

  lemma NodesWalkStep(env: Env, key: string, b: int, nodes: seq<seq<Event>>, i: nat)
    requires i < |nodes| && NodesWalk(env, key, b, nodes[..i]).alive
    ensures var before := NodesWalk(env, key, b, nodes[..i]);
            var link := Fragment(if i == 0 then {} else {IntraEdge(before.at, CfgNodeId(key, b, i), [])}, {}, {});
            var walk := EventsWalk(env, key, b, i, nodes[i]);
            NodesWalk(env, key, b, nodes[..i + 1]) == Walk(before.part.Plus(link).Plus(walk.part), walk.at, walk.alive)
  {
    hide EventsWalk;
    assert nodes[..i + 1][..i] == nodes[..i];
  }

  lemma {:induction false} NodesStoppedEarly(env: Env, key: string, b: int, nodes: seq<seq<Event>>, i: nat)
    requires i <= |nodes| && (i == |nodes| || !NodesWalk(env, key, b, nodes[..i]).alive)
    ensures NodesWalk(env, key, b, nodes) == NodesWalk(env, key, b, nodes[..i])
    decreases |nodes|
  {
    if i == |nodes| {
      assert nodes[..i] == nodes;
    } else {
      var n := |nodes| - 1;
      assert nodes[..n][..i] == nodes[..i];
      NodesStoppedEarly(env, key, b, nodes[..n], i);
    }
  }

  ghost function OutBy(env: Env, key: string, b: int, at: NodeId, successors: seq<Option<int>>): set<Edge>
    requires key in env.program
    requires forall s :: Some(s) in successors ==> s in env.program[key].cfg.successors
  {
    var p := env.program[key];
    set s, x | s in successors && s.Some? && x in Entries(key, p)
      && EntryMet(p.cfg, s.value, Entries(key, p), Entries(key, p)[x]) ::
      IntraEdge(at, Entries(key, p)[x], env.provenance(key, b, s))
  }

  /** The edges one successor accounts for. */
  ghost function OutVia(env: Env, key: string, b: int, at: NodeId, s: Option<int>): set<Edge>
    requires key in env.program && (s.Some? ==> s.value in env.program[key].cfg.successors)
  {
    var p := env.program[key];
    if s.None? then {}
    else
      set x | x in Entries(key, p) && EntryMet(p.cfg, s.value, Entries(key, p), Entries(key, p)[x]) ::
        IntraEdge(at, Entries(key, p)[x], env.provenance(key, b, s))
  }

  lemma OutByEnds(env: Env, key: string, b: int, at: NodeId)
    requires Proper(env) && key in env.program && b in env.program[key].cfg.successors
    ensures forall s :: Some(s) in env.program[key].cfg.successors[b] ==> s in env.program[key].cfg.successors
    ensures OutBy(env, key, b, at, env.program[key].cfg.successors[b]) == WaysOut(env, key, b, at)
    ensures OutBy(env, key, b, at, env.program[key].cfg.successors[b][..0]) == {}
  {
    hide EntryMet, Entries;
    SuccessorsListed(env, key, b);
  }

  lemma OutByStep(env: Env, key: string, b: int, at: NodeId, successors: seq<Option<int>>, s: Option<int>)
    requires key in env.program
    requires forall x :: Some(x) in successors ==> x in env.program[key].cfg.successors
    requires s.Some? ==> s.value in env.program[key].cfg.successors
    ensures forall x :: Some(x) in successors + [s] ==> x in env.program[key].cfg.successors
    ensures OutBy(env, key, b, at, successors + [s]) == OutBy(env, key, b, at, successors) + OutVia(env, key, b, at, s)
  {
    hide EntryMet, Entries;
    var all := successors + [s];
    forall e
      ensures e in OutBy(env, key, b, at, all) <==>
              e in OutBy(env, key, b, at, successors) || e in OutVia(env, key, b, at, s)
    {
      assert s in all;
      assert forall t :: t in all <==> t in successors || t == s;
    }
  }

  lemma OutViaTargets(env: Env, key: string, b: int, at: NodeId, s: Option<int>, targets: seq<NodeId>)
    requires key in env.program && (s.Some? ==> s.value in env.program[key].cfg.successors)
    requires var p := env.program[key];
             forall n :: n in targets <==> s.Some? && EntryMet(p.cfg, s.value, Entries(key, p), n)
    ensures OutVia(env, key, b, at, s) == set x | x in targets :: IntraEdge(at, x, env.provenance(key, b, s))
  {
    var p := env.program[key];
    var entries := Entries(key, p);
    forall n | n in targets
      ensures exists x :: x in entries && entries[x] == n
    {
      MetIsEntry(p.cfg, s.value, entries, n);
    }
    hide EntryMet, Entries;
  }

  lemma OutGrows(env: Env, key: string, b: int, at: NodeId, i: nat, targets: seq<NodeId>, more: set<Edge>)
    requires Proper(env) && key in env.program && b in env.program[key].cfg.successors
             && i < |env.program[key].cfg.successors[b]|
    requires var p := env.program[key]; var s := p.cfg.successors[b][i];
             && (forall n :: n in targets <==> s.Some? && EntryMet(p.cfg, s.value, Entries(key, p), n))
             && more == set x | x in targets :: IntraEdge(at, x, env.provenance(key, b, s))
    ensures var all := env.program[key].cfg.successors[b];
            && (forall s :: Some(s) in all[..i + 1] ==> s in env.program[key].cfg.successors)
            && (forall s :: Some(s) in all[..i] ==> s in env.program[key].cfg.successors)
            && OutBy(env, key, b, at, all[..i + 1]) == OutBy(env, key, b, at, all[..i]) + more
  {
    var all := env.program[key].cfg.successors[b];
    SuccessorIsBlock(env, key, b, all[i]);
    SuccessorsListed(env, key, b);
    OutViaTargets(env, key, b, at, all[i], targets);
    hide EntryMet, Entries, Proper, OutBy, OutVia;
    assert all[..i + 1] == all[..i] + [all[i]];
    OutByStep(env, key, b, at, all[..i], all[i]);
  }

  lemma BlocksListed(env: Env, key: string)
    requires Proper(env) && key in env.program
    ensures forall b :: Some(b) in env.program[key].cfg.blocks <==> b in env.program[key].cfg.successors
  {
    assert WellFormed(env.program[key].cfg);
  }

  lemma SuccessorIsBlock(env: Env, key: string, b: int, s: Option<int>)
    requires Proper(env) && key in env.program && b in env.program[key].cfg.successors
             && s in env.program[key].cfg.successors[b]
    ensures s.Some? ==> s.value in env.program[key].cfg.successors
  {
    if s.Some? {
      SuccessorListed(env.program[key].cfg, b, s.value);
    }
  }

  lemma SuccessorsListed(env: Env, key: string, b: int)
    requires Proper(env) && key in env.program && b in env.program[key].cfg.successors
    ensures forall x :: Some(x) in env.program[key].cfg.successors[b] ==> x in env.program[key].cfg.successors
  {
  }

  lemma MetIsEntry(c: Cfg, start: int, entries: map<int, NodeId>, n: NodeId)
    requires EntryMet(c, start, entries, n)
    ensures exists x :: x in entries && entries[x] == n
  {
  }

  lemma StartCache(env: Env, cache: map<string, Summary>, expanded: seq<string>, key: string)
    requires CacheOk(env, cache, expanded) && key !in cache && EntryOf(env, key).Some?
    ensures CacheOk(env, cache[key := Summary(EntryOf(env, key), ExitsOf(env, key), true, false)], expanded + [key])
    ensures key in env.program && key !in expanded
  {
  }

  lemma CacheDistinct(env: Env, cache: map<string, Summary>, expanded: seq<string>)
    requires CacheOk(env, cache, expanded)
    ensures Ordering.Distinct(expanded)
  {
  }

  lemma NoEntry(env: Env, key: string)
    requires Proper(env)
    ensures key !in env.program || key == "" ==> EntryOf(env, key).None?
  {
  }

  lemma CacheHit(env: Env, cache: map<string, Summary>, expanded: seq<string>, key: string)
    requires CacheOk(env, cache, expanded) && key in cache
    ensures cache[key].entry == EntryOf(env, key)
    ensures cache[key].building || cache[key].built <==> cache[key].entry.Some?
    ensures cache[key].entry.Some? ==> cache[key].exits == ExitsOf(env, key) && key in expanded
  {
  }

  lemma NotExpanded(env: Env, cache: map<string, Summary>, expanded: seq<string>, key: string)
    requires CacheOk(env, cache, expanded) && (key !in cache || cache[key].entry.None?)
    ensures key !in expanded
  {
  }

  lemma CacheMiss(env: Env, cache: map<string, Summary>, expanded: seq<string>, key: string)
    requires CacheOk(env, cache, expanded) && key in env.program && EntryOf(env, key).None?
    ensures CacheOk(env, cache[key := UNBUILT], expanded)
  {
  }

  lemma FinishCache(env: Env, cache: map<string, Summary>, expanded: seq<string>, key: string)
    requires CacheOk(env, cache, expanded) && key in expanded
    ensures key in cache && cache[key].entry == EntryOf(env, key) && cache[key].exits == ExitsOf(env, key)
    ensures CacheOk(env, cache[key := cache[key].(building := false, built := true)], expanded)
  {
    hide EntryOf, ExitsOf, Ordering.Distinct;
  }

  lemma CallPartExpanded(env: Env, call: NodeId, key: string, expanded: seq<string>)
    requires key in expanded
    ensures CalleesExpanded(CallPart(env, call, key), expanded)
  {
    EntryFunc(env, key);
  }

  lemma NoCallsOut(env: Env, key: string, b: int, at: NodeId, expanded: seq<string>)
    requires key in env.program && b in env.program[key].cfg.successors
    ensures CalleesExpanded(Fragment(WaysOut(env, key, b, at), {}, if WaysOut(env, key, b, at) == {} then {at} else {}),
                            expanded)
  {
  }

  lemma NoBlocks(env: Env, key: string)
    requires key in env.program
    ensures BlocksPart(env, key, {}) == NOTHING
  {
  }

  lemma OneMoreBlock(env: Env, key: string, walked: set<int>, b: int)
    requires key in env.program && walked <= env.program[key].cfg.successors.Keys
             && b in env.program[key].cfg.successors
    ensures BlocksPart(env, key, walked + {b}) == BlocksPart(env, key, walked).Plus(BlockPart(env, key, b))
    ensures NodesOf(env.program[key], b) == [] ==> BlocksPart(env, key, walked + {b}) == BlocksPart(env, key, walked)
  {
    hide NodesWalk, WaysOut;
    assert NodesOf(env.program[key], b) == [] ==> BlockPart(env, key, b) == NOTHING by {
      NoNodes(env, key, b);
    }
    hide BlockPart;
  }

  lemma NoNodes(env: Env, key: string, b: int)
    ensures NodesWalk(env, key, b, []).part == NOTHING
  {
  }

  lemma {:induction false} FirstEntryIsBlock(key: string, p: Procedure, blocks: seq<Option<int>>)
    requires FirstEntry(key, p, blocks).Some?
    ensures exists b ::
              Some(b) in blocks && NodesOf(p, b) != [] && FirstEntry(key, p, blocks) == Some(CfgNodeId(key, b, 0))
  {
    if blocks[0].Some? && NodesOf(p, blocks[0].value) != [] {
      assert Some(blocks[0].value) in blocks;
    } else {
      FirstEntryIsBlock(key, p, blocks[1..]);
      var b :| Some(b) in blocks[1..] && NodesOf(p, b) != []
        && FirstEntry(key, p, blocks[1..]) == Some(CfgNodeId(key, b, 0));
      assert Some(b) in blocks;
    }
  }

  lemma EntryIsBlock(env: Env, key: string)
    requires Proper(env) && EntryOf(env, key).Some?
    ensures exists b ::
              && b in env.program[key].cfg.successors && NodesOf(env.program[key], b) != []
              && EntryOf(env, key) == Some(CfgNodeId(key, b, 0))
  {
    FirstEntryIsBlock(key, env.program[key], env.program[key].cfg.blocks);
  }

  /** The body laid down under way becomes the part of the procedure just expanded. */
  lemma FinishProcedure(env: Env, key: string, f: Fragment, x: seq<string>, y: seq<string>, h: Fragment, z: seq<string>)
    requires EntryOf(env, key).Some? && key !in x && y == x + [key]
    requires Laid(env, f, y, h, z, BlocksPart(env, key, env.program[key].cfg.successors.Keys), {})
    ensures Laid(env, f, x, h, z, NOTHING, {key})
  {
    var part := BlocksPart(env, key, env.program[key].cfg.successors.Keys);
    assert ProcedurePart(env, key) == part;
    hide BlocksPart, ProcedurePart, EntryOf;
    NewlyAdds(env, x, y, z);
    assert Newly(x, y) == {key};
    OnePart(env, key);
    FinishFragment(f, part, Parts(env, Newly(y, z)), Parts(env, Newly(x, z)));
    hide Parts;
    assert key in z by {
      assert z[|x|] == key;
    }
  }

  lemma OnePart(env: Env, key: string)
    ensures Parts(env, {key}) == ProcedurePart(env, key)
  {
    hide ProcedurePart;
  }

  lemma FinishFragment(f: Fragment, part: Fragment, rest: Fragment, all: Fragment)
    requires all == part.Plus(rest)
    ensures f.Plus(part).Plus(rest) == f.Plus(NOTHING).Plus(all)
  {
  }

  // ---------------------------------------------------------------- the whole graph

  /**
   The supergraph of a procedure: exactly the parts of a set of procedures that
   holds the one asked for and every procedure called from one of them, each
   expanded once, and no procedure that nothing calls.
   */
  method BuildSupergraph(env: Env, key: string) returns (builder: Builder, start: Option<NodeId>)
    requires Proper(env)
    ensures builder.Valid() && builder.env == env && start == EntryOf(env, key)
    ensures start.Some? ==> start.value in builder.nodes && key in builder.expanded
    ensures builder.Built() == Parts(env, KeysOf(builder.expanded))
    ensures AllCalleesExpanded(env, KeysOf(builder.expanded), builder.expanded)
    ensures OnlyCalled(builder.Built(), KeysOf(builder.expanded), {key})
    ensures Ordering.Distinct(builder.expanded)
  {
    hide Parts, ProcedurePart, CacheOk;
    builder := new Builder(env);
    var summary, ok := builder.AppendProcedure(key);
    start := if ok then summary.entry else None;
    assert Newly([], builder.expanded) == KeysOf(builder.expanded);
    CacheDistinct(env, builder.cache, builder.expanded);
  }

  /** Tabulation and replay may rely on what is built. */
  lemma BuiltGraphIsWellBracketed(builder: Builder, sys: Runs.System)
    requires builder.Valid() && builder.Built() == Parts(builder.env, KeysOf(builder.expanded))
    requires sys.nodes == builder.nodes && sys.edges == builder.Built().edges && sys.start in builder.nodes
    ensures ProducedWitnesses.WellBracketed(sys) && TabulationTheory.PlainReturns(sys)
  {
    PartsAreWellBracketed(builder.env, KeysOf(builder.expanded), sys);
  }
}
