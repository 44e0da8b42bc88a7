/**
 Where every edge of a built supergraph runs, by position in the source: into a call
 event or a node exactly when control gets through everything before it, from where
 control then stands.
 */
module Layout {
  import opened Options
  import opened ProtocolDomain
  import opened Supergraph
  import opened ControlFlow
  import opened SupergraphSpec
  import CutExits

  type Nodes = seq<seq<Event>>

  predicate Within(nodes: Nodes, n: int, o: int) {
    0 <= n < |nodes| && 0 <= o < |nodes[n]|
  }

  /** Every event before the `o`-th of node `n` lets control through. */
  ghost predicate Reached(env: Env, nodes: Nodes, n: int, o: int) {
    forall i, j :: Within(nodes, i, j) && (i < n || (i == n && j < o)) ==> Continues(env, nodes[i][j])
  }

  /** The node itself, or what the event before returns to. */
  function Before(key: string, b: int, n: int, o: int): NodeId {
    if o == 0 then CfgNodeId(key, b, n) else NodeId(key, b, n, o - 1, ReturnNode)
  }

  /** Into a call event, from where control stands before it. */
  ghost predicate IntoEvent(env: Env, key: string, b: int, nodes: Nodes, n: int, o: int, e: Edge) {
    && Within(nodes, n, o) && Reached(env, nodes, n, o)
    && e == IntraEdge(Before(key, b, n, o), CallNodeId(key, b, n, o), [])
  }

  /** Out of a call event, as the event says. */
  ghost predicate OfEvent(env: Env, key: string, b: int, nodes: Nodes, n: int, o: int, e: Edge) {
    && Within(nodes, n, o) && Reached(env, nodes, n, o)
    && e in EventPart(env, nodes[n][o], CallNodeId(key, b, n, o)).edges
  }

  /** Into the next node, from the end of this one. */
  ghost predicate IntoNode(env: Env, key: string, b: int, nodes: Nodes, n: int, e: Edge) {
    && 0 < n < |nodes| && Reached(env, nodes, n, 0)
    && e == IntraEdge(Before(key, b, n - 1, |nodes[n - 1]|), CfgNodeId(key, b, n), [])
  }

  ghost predicate Laid(env: Env, key: string, b: int, nodes: Nodes, e: Edge) {
    || (exists n, o :: IntoEvent(env, key, b, nodes, n, o, e))
    || (exists n, o :: OfEvent(env, key, b, nodes, n, o, e))
    || (exists n :: IntoNode(env, key, b, nodes, n, e))
  }

  // ---------------------------------------------------------------- within one node

  ghost predicate EventsReached(env: Env, events: seq<Event>, o: int) {
    forall j :: 0 <= j < o && j < |events| ==> Continues(env, events[j])
  }

  ghost predicate LaidAt(env: Env, key: string, b: int, n: int, events: seq<Event>, o: int, e: Edge) {
    && 0 <= o < |events| && EventsReached(env, events, o)
    && (|| e == IntraEdge(Before(key, b, n, o), CallNodeId(key, b, n, o), [])
        || e in EventPart(env, events[o], CallNodeId(key, b, n, o)).edges)
  }

  lemma {:induction false} EventsLaid(env: Env, key: string, b: int, n: int, events: seq<Event>)
    ensures var walk := EventsWalk(env, key, b, n, events);
            && (walk.alive <==> EventsReached(env, events, |events|))
            && (walk.alive ==> walk.at == Before(key, b, n, |events|))
            && forall e :: e in walk.part.edges <==> exists o :: LaidAt(env, key, b, n, events, o, e)
    decreases |events|
  {
    hide EventPart, Continues;
    if events != [] {
      var k := |events| - 1;
      var rest := events[..k];
      EventsLaid(env, key, b, n, rest);
      assert EventsReached(env, events, k) <==> EventsReached(env, rest, k);
      var walk := EventsWalk(env, key, b, n, events);
      forall e
        ensures e in walk.part.edges <==> exists o :: LaidAt(env, key, b, n, events, o, e)
      {
        EventsLaidMore(env, key, b, n, events, e);
        if EventsReached(env, rest, k) {
          assert walk.alive <==> Continues(env, events[k]);
        }
      }
    }
  }

  /** What one more event adds. */
  lemma EventsLaidMore(env: Env, key: string, b: int, n: int, events: seq<Event>, e: Edge)
    requires events != []
    ensures var k := |events| - 1;
            (exists o :: LaidAt(env, key, b, n, events, o, e)) <==>
            (exists o :: LaidAt(env, key, b, n, events[..k], o, e)) || LaidAt(env, key, b, n, events, k, e)
  {
    hide EventPart, Continues;
    var k := |events| - 1;
    var rest := events[..k];
    forall o | 0 <= o < k
      ensures LaidAt(env, key, b, n, events, o, e) <==> LaidAt(env, key, b, n, rest, o, e)
    {
      assert EventsReached(env, events, o) <==> EventsReached(env, rest, o);
    }
  }

  // ---------------------------------------------------------------- within one block

  ghost predicate AllContinue(env: Env, nodes: Nodes) {
    forall i, j :: Within(nodes, i, j) ==> Continues(env, nodes[i][j])
  }

  lemma ReachedBefore(env: Env, nodes: Nodes, n: int, o: int)
    requires nodes != [] && n < |nodes| - 1
    ensures Reached(env, nodes, n, o) <==> Reached(env, nodes[..|nodes| - 1], n, o)
    ensures Within(nodes, n, o) <==> Within(nodes[..|nodes| - 1], n, o)
  {
    hide Continues;
    var rest := nodes[..|nodes| - 1];
    assert forall i, j :: i <= n ==> (Within(nodes, i, j) <==> Within(rest, i, j));
  }

  lemma ReachedLast(env: Env, nodes: Nodes, o: int)
    requires nodes != []
    ensures var k := |nodes| - 1;
            Reached(env, nodes, k, o) <==> AllContinue(env, nodes[..k]) && EventsReached(env, nodes[k], o)
  {
    hide Continues;
    var k := |nodes| - 1;
    var rest := nodes[..k];
    forall i, j
      ensures i < k ==> (Within(nodes, i, j) <==> Within(rest, i, j))
    {
    }
    if Reached(env, nodes, k, o) {
      forall j | 0 <= j < o && j < |nodes[k]|
        ensures Continues(env, nodes[k][j])
      {
        assert Within(nodes, k, j);
      }
      forall i, j | Within(rest, i, j)
        ensures Continues(env, rest[i][j])
      {
        assert Within(nodes, i, j);
      }
    }
    if AllContinue(env, rest) && EventsReached(env, nodes[k], o) {
      forall i, j | Within(nodes, i, j) && (i < k || (i == k && j < o))
        ensures Continues(env, nodes[i][j])
      {
        if i < k {
          assert Within(rest, i, j);
        }
      }
    }
  }

  /** What one more node adds. */
  ghost predicate LaidLast(env: Env, key: string, b: int, nodes: Nodes, e: Edge)
    requires nodes != []
  {
    var k := |nodes| - 1;
    && AllContinue(env, nodes[..k])
    && (|| (k > 0 && e == IntraEdge(Before(key, b, k - 1, |nodes[k - 1]|), CfgNodeId(key, b, k), []))
        || exists o :: LaidAt(env, key, b, k, nodes[k], o, e))
  }

  lemma LaidMore(env: Env, key: string, b: int, nodes: Nodes, e: Edge)
    requires nodes != []
    ensures Laid(env, key, b, nodes, e) <==>
            Laid(env, key, b, nodes[..|nodes| - 1], e) || LaidLast(env, key, b, nodes, e)
  {
    hide EventPart, Continues, Reached, EventsReached, AllContinue;
    var k := |nodes| - 1;
    var rest := nodes[..k];
    forall n, o | n < k
      ensures IntoEvent(env, key, b, nodes, n, o, e) <==> IntoEvent(env, key, b, rest, n, o, e)
      ensures OfEvent(env, key, b, nodes, n, o, e) <==> OfEvent(env, key, b, rest, n, o, e)
    {
      ReachedBefore(env, nodes, n, o);
    }
    forall n | n < k
      ensures IntoNode(env, key, b, nodes, n, e) <==> IntoNode(env, key, b, rest, n, e)
    {
      ReachedBefore(env, nodes, n, 0);
    }
    forall o
      ensures LaidAt(env, key, b, k, nodes[k], o, e) && AllContinue(env, rest) <==>
              IntoEvent(env, key, b, nodes, k, o, e) || OfEvent(env, key, b, nodes, k, o, e)
    {
      ReachedLast(env, nodes, o);
    }
    ReachedLast(env, nodes, 0);
    NoEventsBefore(env, nodes[k]);
    assert IntoNode(env, key, b, nodes, k, e) <==>
           && k > 0 && AllContinue(env, rest)
           && e == IntraEdge(Before(key, b, k - 1, |nodes[k - 1]|), CfgNodeId(key, b, k), []);
    assert forall n, o :: IntoEvent(env, key, b, nodes, n, o, e) || OfEvent(env, key, b, nodes, n, o, e) ==> n <= k;
    assert forall n :: IntoNode(env, key, b, nodes, n, e) ==> n <= k;
    assert forall n, o :: IntoEvent(env, key, b, rest, n, o, e) || OfEvent(env, key, b, rest, n, o, e) ==> n < k;
    assert forall n :: IntoNode(env, key, b, rest, n, e) ==> n < k;
    hide IntoEvent, OfEvent, IntoNode, LaidAt;
    if n, o :| n < k && (IntoEvent(env, key, b, nodes, n, o, e) || OfEvent(env, key, b, nodes, n, o, e)) {
      assert Laid(env, key, b, rest, e);
    }
    if o :| LaidAt(env, key, b, k, nodes[k], o, e) && AllContinue(env, rest) {
      assert IntoEvent(env, key, b, nodes, k, o, e) || OfEvent(env, key, b, nodes, k, o, e);
    }
  }

  lemma NoEventsBefore(env: Env, events: seq<Event>)
    ensures EventsReached(env, events, 0)
  {
  }

  lemma AllContinueMore(env: Env, nodes: Nodes)
    requires nodes != []
    ensures var k := |nodes| - 1;
            AllContinue(env, nodes) <==> AllContinue(env, nodes[..k]) && EventsReached(env, nodes[k], |nodes[k]|)
  {
    var k := |nodes| - 1;
    ReachedLast(env, nodes, |nodes[k]|);
    hide Continues;
    assert AllContinue(env, nodes) <==> Reached(env, nodes, k, |nodes[k]|) by {
      assert forall i, j :: Within(nodes, i, j) ==> i < k || (i == k && j < |nodes[k]|);
    }
  }

  /** What walking a block lays down: edges by position, for every list of nodes. */
  lemma {:induction false} NodesLaid(env: Env, key: string, b: int, nodes: Nodes)
    ensures var walk := NodesWalk(env, key, b, nodes);
            && (walk.alive <==> AllContinue(env, nodes))
            && (walk.alive && nodes != [] ==> walk.at == Before(key, b, |nodes| - 1, |nodes[|nodes| - 1]|))
            && forall e :: e in walk.part.edges <==> Laid(env, key, b, nodes, e)
    decreases |nodes|
  {
    hide EventPart, Continues, EventsWalk;
    if nodes != [] {
      var k := |nodes| - 1;
      var rest := nodes[..k];
      NodesLaid(env, key, b, rest);
      EventsLaid(env, key, b, k, nodes[k]);
      AllContinueMore(env, nodes);
      hide AllContinue, EventsReached, Laid, LaidAt;
      forall e
        ensures e in NodesWalk(env, key, b, nodes).part.edges <==> Laid(env, key, b, nodes, e)
      {
        LaidMore(env, key, b, nodes, e);
      }
    }
  }

  // ---------------------------------------------------------------- whole blocks, whole graphs

  function NonEmptyBlocks(p: Procedure): set<int> {
    set t | t in p.cfg.successors && NodesOf(p, t) != []
  }

  /** A way out leads from one end to the first node of a block met past empty ones, under that way's own predicate. */
  ghost predicate WayOut(env: Env, key: string, b: int, at: NodeId, s: int, t: int, e: Edge)
    requires key in env.program && b in env.program[key].cfg.successors
  {
    var p := env.program[key];
    && Some(s) in p.cfg.successors[b] && t in NonEmptyBlocks(p)
    && ControlFlow.Reaches(p.cfg, s, NonEmptyBlocks(p), t)
    && e == IntraEdge(at, CfgNodeId(key, t, 0), env.provenance(key, b, Some(s)))
  }

  lemma WaysOutLaid(env: Env, key: string, b: int, at: NodeId, e: Edge)
    requires key in env.program && b in env.program[key].cfg.successors
    ensures e in WaysOut(env, key, b, at) <==> exists s, t :: WayOut(env, key, b, at, s, t, e)
  {
    var p := env.program[key];
    var entries := Entries(key, p);
    assert entries.Keys == NonEmptyBlocks(p);
    hide ControlFlow.Reaches;
    if e in WaysOut(env, key, b, at) {
      var s, x :| s in p.cfg.successors[b] && s.Some? && x in entries && EntryMet(p.cfg, s.value, entries, entries[x])
                  && e == IntraEdge(at, entries[x], env.provenance(key, b, s));
      var t :| t in entries && entries[t] == entries[x] && ControlFlow.Reaches(p.cfg, s.value, entries.Keys, t);
      assert WayOut(env, key, b, at, s.value, t, e);
    }
    if s, t :| WayOut(env, key, b, at, s, t, e) {
      assert EntryMet(p.cfg, s, entries, entries[t]);
      assert Some(s) in p.cfg.successors[b];
    }
  }

  /** On to the next non-empty blocks, from the end of a block that control gets through. */
  ghost predicate OutOfBlock(env: Env, key: string, b: int, e: Edge)
    requires key in env.program && b in env.program[key].cfg.successors
  {
    var nodes := NodesOf(env.program[key], b);
    && nodes != [] && AllContinue(env, nodes)
    && exists s, t :: WayOut(env, key, b, CutExits.EndOf(key, b, nodes), s, t, e)
  }

  lemma BlockLaid(env: Env, key: string, b: int, e: Edge)
    requires key in env.program && b in env.program[key].cfg.successors
    ensures e in BlockPart(env, key, b).edges <==>
            Laid(env, key, b, NodesOf(env.program[key], b), e) || OutOfBlock(env, key, b, e)
  {
    NodesLaid(env, key, b, NodesOf(env.program[key], b));
    var nodes := NodesOf(env.program[key], b);
    if nodes != [] {
      WaysOutLaid(env, key, b, CutExits.EndOf(key, b, nodes), e);
      assert Before(key, b, |nodes| - 1, |nodes[|nodes| - 1]|) == CutExits.EndOf(key, b, nodes);
    }
    BlockPartEdges(env, key, b, e);
    hide NodesWalk, Laid, AllContinue, WaysOut, WayOut, BlockPart, Before, CutExits.EndOf;
  }

  lemma BlockPartEdges(env: Env, key: string, b: int, e: Edge)
    requires key in env.program && b in env.program[key].cfg.successors
    ensures var nodes := NodesOf(env.program[key], b);
            var walk := NodesWalk(env, key, b, nodes);
            e in BlockPart(env, key, b).edges <==>
            e in walk.part.edges || (nodes != [] && walk.alive && e in WaysOut(env, key, b, walk.at))
  {
    hide NodesWalk, WaysOut;
  }

  ghost predicate LaidInBlock(env: Env, key: string, b: int, e: Edge) {
    && EntryOf(env, key).Some? && key in env.program && b in env.program[key].cfg.successors
    && (Laid(env, key, b, NodesOf(env.program[key], b), e) || OutOfBlock(env, key, b, e))
  }

  /** The edges of a built graph, all of them and no others. */
  lemma GraphLaid(env: Env, keys: set<string>, e: Edge)
    ensures e in Parts(env, keys).edges <==> exists key, b :: key in keys && LaidInBlock(env, key, b, e)
  {
    hide BlockPart, Laid, OutOfBlock;
    if e in Parts(env, keys).edges {
      var key :| key in keys && e in ProcedurePart(env, key).edges;
      var b :| b in env.program[key].cfg.successors && e in BlockPart(env, key, b).edges;
      BlockLaid(env, key, b, e);
      assert LaidInBlock(env, key, b, e);
    }
    if key, b :| key in keys && LaidInBlock(env, key, b, e) {
      BlockLaid(env, key, b, e);
      assert e in ProcedurePart(env, key).edges;
    }
  }

  /** The call event is that of an expanded procedure, and control gets to it. */
  ghost predicate EventReached(env: Env, keys: set<string>, key: string, b: int, n: int, o: int) {
    && key in keys && EntryOf(env, key).Some? && key in env.program && b in env.program[key].cfg.successors
    && var nodes := NodesOf(env.program[key], b);
       Within(nodes, n, o) && Reached(env, nodes, n, o)
  }

  /** One edge leads into a call event that control gets to, and none into any other. */
  lemma IntoCall(env: Env, keys: set<string>, key: string, b: int, n: int, o: int, e: Edge)
    ensures e in Parts(env, keys).edges && e.kind == Intra && e.to == CallNodeId(key, b, n, o) <==>
            EventReached(env, keys, key, b, n, o) && e == IntraEdge(Before(key, b, n, o), CallNodeId(key, b, n, o), [])
  {
    hide Reached, EventPart, AllContinue, EntryOf, Parts;
    GraphLaid(env, keys, e);
    if e in Parts(env, keys).edges && e.kind == Intra && e.to == CallNodeId(key, b, n, o) {
      var k, c :| k in keys && LaidInBlock(env, k, c, e);
      NotOfEvent(env, k, c, NodesOf(env.program[k], c), e);
      var m, p :| IntoEvent(env, k, c, NodesOf(env.program[k], c), m, p, e);
    }
    if EventReached(env, keys, key, b, n, o) && e == IntraEdge(Before(key, b, n, o), CallNodeId(key, b, n, o), []) {
      assert IntoEvent(env, key, b, NodesOf(env.program[key], b), n, o, e);
      assert LaidInBlock(env, key, b, e);
    }
  }

  /** What an event lays down itself is no ordinary step. */
  lemma NotOfEvent(env: Env, key: string, b: int, nodes: Nodes, e: Edge)
    requires e.kind == Intra
    ensures forall n, o :: !OfEvent(env, key, b, nodes, n, o, e)
  {
    forall n, o | OfEvent(env, key, b, nodes, n, o, e)
      ensures false
    {
      EventSite(env, nodes[n][o], CallNodeId(key, b, n, o), e);
    }
  }

  /** The node is one of an expanded procedure, past the first of its block, and control gets to it. */
  ghost predicate NodeReached(env: Env, keys: set<string>, key: string, b: int, n: int) {
    && key in keys && EntryOf(env, key).Some? && key in env.program && b in env.program[key].cfg.successors
    && var nodes := NodesOf(env.program[key], b);
       0 < n < |nodes| && Reached(env, nodes, n, 0)
  }

  /** So it is for the nodes of a block after the first, which only its ways in lead to. */
  lemma IntoLaterNode(env: Env, keys: set<string>, key: string, b: int, n: int, e: Edge)
    requires n > 0
    ensures e in Parts(env, keys).edges && e.kind == Intra && e.to == CfgNodeId(key, b, n) <==>
            && NodeReached(env, keys, key, b, n)
            && e == IntraEdge(Before(key, b, n - 1, |NodesOf(env.program[key], b)[n - 1]|), CfgNodeId(key, b, n), [])
  {
    hide Reached, EventPart, AllContinue, EntryOf, Parts;
    GraphLaid(env, keys, e);
    if e in Parts(env, keys).edges && e.kind == Intra && e.to == CfgNodeId(key, b, n) {
      var k, c :| k in keys && LaidInBlock(env, k, c, e);
      NotOfEvent(env, k, c, NodesOf(env.program[k], c), e);
      var m :| IntoNode(env, k, c, NodesOf(env.program[k], c), m, e);
    }
    if NodeReached(env, keys, key, b, n)
       && e == IntraEdge(Before(key, b, n - 1, |NodesOf(env.program[key], b)[n - 1]|), CfgNodeId(key, b, n), []) {
      assert IntoNode(env, key, b, NodesOf(env.program[key], b), n, e);
      assert LaidInBlock(env, key, b, e);
    }
  }

  // ---------------------------------------------------------------- nodes that are marked

  /** The call at this event is one that nothing comes back from. */
  predicate Dead(env: Env, ev: Event) {
    ev.present && !Continues(env, ev)
  }

  lemma EventDead(env: Env, ev: Event, call: NodeId)
    ensures EventPart(env, ev, call).dead == if Dead(env, ev) then {call} else {}
    ensures EventPart(env, ev, call).ends == {}
  {
  }

  lemma {:induction false} EventsDead(env: Env, key: string, b: int, n: int, events: seq<Event>, x: NodeId)
    ensures EventsWalk(env, key, b, n, events).part.ends == {}
    ensures x in EventsWalk(env, key, b, n, events).part.dead <==>
            && 0 <= x.ordinal < |events| && x == CallNodeId(key, b, n, x.ordinal)
            && EventsReached(env, events, x.ordinal) && Dead(env, events[x.ordinal])
    decreases |events|
  {
    hide EventPart, Continues, Dead;
    if events != [] {
      var k := |events| - 1;
      EventsDead(env, key, b, n, events[..k], x);
      EventsLaid(env, key, b, n, events[..k]);
      EventDead(env, events[k], CallNodeId(key, b, n, k));
      hide LaidAt;
      assert x.ordinal <= k ==> (EventsReached(env, events, x.ordinal) <==> EventsReached(env, events[..k], x.ordinal));
    }
  }

  lemma {:induction false} NodesDead(env: Env, key: string, b: int, nodes: Nodes, x: NodeId)
    ensures NodesWalk(env, key, b, nodes).part.ends == {}
    ensures x in NodesWalk(env, key, b, nodes).part.dead <==>
            && Within(nodes, x.index, x.ordinal) && x == CallNodeId(key, b, x.index, x.ordinal)
            && Reached(env, nodes, x.index, x.ordinal) && Dead(env, nodes[x.index][x.ordinal])
    decreases |nodes|
  {
    hide EventPart, Continues, EventsWalk, Dead;
    if nodes != [] {
      var k := |nodes| - 1;
      NodesDead(env, key, b, nodes[..k], x);
      NodesLaid(env, key, b, nodes[..k]);
      EventsDead(env, key, b, k, nodes[k], x);
      if x.index < k {
        ReachedBefore(env, nodes, x.index, x.ordinal);
      }
      ReachedLast(env, nodes, x.ordinal);
      hide Laid, Reached, EventsReached, AllContinue;
    }
  }

  /** The calls marked as not returning: those that control gets to and does not come back from. */
  lemma DeadExactly(env: Env, keys: set<string>, x: NodeId)
    ensures x in Parts(env, keys).dead <==>
            && x.kind == CallNode && EventReached(env, keys, x.func, x.block, x.index, x.ordinal)
            && Dead(env, NodesOf(env.program[x.func], x.block)[x.index][x.ordinal])
  {
    hide Reached, NodesWalk, WaysOut, Continues, Dead;
    if x in Parts(env, keys).dead {
      var key :| key in keys && x in ProcedurePart(env, key).dead;
      var b :| b in env.program[key].cfg.successors && x in BlockPart(env, key, b).dead;
      NodesDead(env, key, b, NodesOf(env.program[key], b), x);
    }
    if x.kind == CallNode && EventReached(env, keys, x.func, x.block, x.index, x.ordinal)
       && Dead(env, NodesOf(env.program[x.func], x.block)[x.index][x.ordinal]) {
      NodesDead(env, x.func, x.block, NodesOf(env.program[x.func], x.block), x);
      assert x in BlockPart(env, x.func, x.block).dead;
      assert x in ProcedurePart(env, x.func).dead;
    }
  }

  /** The nodes where control leaves a function: ends of blocks that it gets through and that lead nowhere. */
  lemma EndsExactly(env: Env, keys: set<string>, x: NodeId)
    ensures x in Parts(env, keys).ends <==> exists key, b :: key in keys && EndsHere(env, key, b, x)
  {
    hide Reached, NodesWalk, WaysOut, Continues, EndsHere;
    if x in Parts(env, keys).ends {
      var key :| key in keys && x in ProcedurePart(env, key).ends;
      var b :| b in env.program[key].cfg.successors && x in BlockPart(env, key, b).ends;
      BlockEnds(env, key, b, x);
    }
    if key, b :| key in keys && EndsHere(env, key, b, x) {
      EndIsPlaced(env, key, b, x);
      BlockEnds(env, key, b, x);
      assert x in ProcedurePart(env, key).ends;
    }
  }

  ghost predicate EndsHere(env: Env, key: string, b: int, x: NodeId) {
    && EntryOf(env, key).Some? && key in env.program && b in env.program[key].cfg.successors
    && var nodes := NodesOf(env.program[key], b);
       nodes != [] && AllContinue(env, nodes) && x == CutExits.EndOf(key, b, nodes)
       && forall s, t, e :: !WayOut(env, key, b, x, s, t, e)
  }

  lemma EndIsPlaced(env: Env, key: string, b: int, x: NodeId)
    requires EndsHere(env, key, b, x)
    ensures EntryOf(env, key).Some? && key in env.program && b in env.program[key].cfg.successors
  {
  }

  lemma BlockEnds(env: Env, key: string, b: int, x: NodeId)
    requires EntryOf(env, key).Some? && key in env.program && b in env.program[key].cfg.successors
    ensures x in BlockPart(env, key, b).ends <==> EndsHere(env, key, b, x)
  {
    var nodes := NodesOf(env.program[key], b);
    NodesDead(env, key, b, nodes, x);
    NodesLaid(env, key, b, nodes);
    if nodes != [] {
      var end := CutExits.EndOf(key, b, nodes);
      assert Before(key, b, |nodes| - 1, |nodes[|nodes| - 1]|) == end;
      forall e
        ensures e in WaysOut(env, key, b, end) <==> exists s, t :: WayOut(env, key, b, end, s, t, e)
      {
        WaysOutLaid(env, key, b, end, e);
      }
      hide WaysOut, WayOut;
      if WaysOut(env, key, b, end) != {} {
        var e :| e in WaysOut(env, key, b, end);
        assert exists s, t, e :: WayOut(env, key, b, end, s, t, e);
      }
      if s, t, e :| WayOut(env, key, b, end, s, t, e) {
        assert e in WaysOut(env, key, b, end);
      }
    }
    hide NodesWalk, WaysOut, WayOut, AllContinue, Laid, Reached, Dead, Before, CutExits.EndOf, EntryOf;
  }

  // ---------------------------------------------------------------- control gets through

  /** By an ordinary step, past a call, or through a callee: in by its call and out by a return at the same site. */
  ghost predicate Stepped(edges: set<Edge>, x: NodeId, y: NodeId) {
    || (exists e :: e in edges && e.from == x && e.to == y && (e.kind == Intra || e.kind == CallToReturn))
    || (exists c, r :: c in edges && r in edges && c.kind == Call && r.kind == Return
                       && c.from == x && r.to == y && c.site == r.site)
  }

  ghost predicate Joins(edges: set<Edge>, path: seq<NodeId>, x: NodeId, y: NodeId) {
    && path != [] && path[0] == x && path[|path| - 1] == y
    && forall i :: 0 < i < |path| ==> Stepped(edges, path[i - 1], path[i])
  }

  ghost predicate Through(edges: set<Edge>, x: NodeId, y: NodeId) {
    exists path :: Joins(edges, path, x, y)
  }

  lemma ThroughStep(edges: set<Edge>, x: NodeId, y: NodeId, z: NodeId)
    requires Through(edges, x, y) && Stepped(edges, y, z)
    ensures Through(edges, x, z)
  {
    hide Stepped;
    var path :| Joins(edges, path, x, y);
    assert Joins(edges, path + [z], x, z);
  }

  lemma EventPassed(env: Env, ev: Event, call: NodeId, edges: set<Edge>)
    requires Continues(env, ev) && EventPart(env, ev, call).edges <= edges
    ensures Stepped(edges, call, ReturnOf(call))
  {
    match OutcomeOf(env, ev)
    case PassOver(reason) => assert PassEdge(env, call, reason) in edges;
    case Enter(callee) =>
      var x := ExitsOf(env, callee)[0];
      assert ReturnEdge(x, ReturnOf(call), env.keyText(call)) in ReturnEdges(env, call, ExitsOf(env, callee));
      assert CallEdge(env, call, EntryOf(env, callee).value) in edges;
  }

  /** From the first node of a block to every place that control gets to. */
  lemma {:induction false} WalkedTo(env: Env, key: string, b: int, edges: set<Edge>, n: int, o: int)
    requires key in env.program && b in env.program[key].cfg.successors && BlockPart(env, key, b).edges <= edges
    requires var nodes := NodesOf(env.program[key], b);
             0 <= n < |nodes| && 0 <= o <= |nodes[n]| && Reached(env, nodes, n, o)
    ensures Through(edges, CfgNodeId(key, b, 0), Before(key, b, n, o))
    decreases n, o
  {
    hide EventPart, BlockPart, Continues;
    var nodes := NodesOf(env.program[key], b);
    var start := CfgNodeId(key, b, 0);
    if o > 0 {
      assert Within(nodes, n, o - 1);
      WalkedTo(env, key, b, edges, n, o - 1);
      var call := CallNodeId(key, b, n, o - 1);
      BlockHasEvent(env, key, b, n, o - 1);
      hide Through, Stepped;
      assert Stepped(edges, Before(key, b, n, o - 1), call) by {
        StepsAlong(edges, IntraEdge(Before(key, b, n, o - 1), call, []));
      }
      ThroughStep(edges, start, Before(key, b, n, o - 1), call);
      EventPassed(env, nodes[n][o - 1], call, edges);
      ThroughStep(edges, start, call, Before(key, b, n, o));
    } else if n > 0 {
      var m := |nodes[n - 1]|;
      WalkedTo(env, key, b, edges, n - 1, m);
      var link := IntraEdge(Before(key, b, n - 1, m), CfgNodeId(key, b, n), []);
      BlockHasLink(env, key, b, n);
      hide Through, Stepped;
      StepsAlong(edges, link);
      ThroughStep(edges, start, Before(key, b, n - 1, m), CfgNodeId(key, b, n));
    } else {
      assert Joins(edges, [start], start, start);
    }
  }

  lemma StepsAlong(edges: set<Edge>, e: Edge)
    requires e in edges && e.kind == Intra
    ensures Stepped(edges, e.from, e.to)
  {
  }

  lemma BlockHasEvent(env: Env, key: string, b: int, n: int, o: int)
    requires key in env.program && b in env.program[key].cfg.successors
    requires var nodes := NodesOf(env.program[key], b); Within(nodes, n, o) && Reached(env, nodes, n, o)
    ensures IntraEdge(Before(key, b, n, o), CallNodeId(key, b, n, o), []) in BlockPart(env, key, b).edges
    ensures EventPart(env, NodesOf(env.program[key], b)[n][o], CallNodeId(key, b, n, o)).edges
            <= BlockPart(env, key, b).edges
  {
    hide Reached, EventPart, BlockPart;
    var nodes := NodesOf(env.program[key], b);
    var link := IntraEdge(Before(key, b, n, o), CallNodeId(key, b, n, o), []);
    assert IntoEvent(env, key, b, nodes, n, o, link);
    BlockLaid(env, key, b, link);
    forall e | e in EventPart(env, nodes[n][o], CallNodeId(key, b, n, o)).edges
      ensures e in BlockPart(env, key, b).edges
    {
      assert OfEvent(env, key, b, nodes, n, o, e);
      BlockLaid(env, key, b, e);
    }
  }

  lemma BlockHasLink(env: Env, key: string, b: int, n: int)
    requires key in env.program && b in env.program[key].cfg.successors
    requires var nodes := NodesOf(env.program[key], b); 0 < n < |nodes| && Reached(env, nodes, n, 0)
    ensures IntraEdge(Before(key, b, n - 1, |NodesOf(env.program[key], b)[n - 1]|), CfgNodeId(key, b, n), [])
            in BlockPart(env, key, b).edges
  {
    hide Reached, BlockPart;
    var nodes := NodesOf(env.program[key], b);
    var link := IntraEdge(Before(key, b, n - 1, |nodes[n - 1]|), CfgNodeId(key, b, n), []);
    assert IntoNode(env, key, b, nodes, n, link);
    BlockLaid(env, key, b, link);
  }

  /** A block of which every event lets control through is walked from its first node to its end. */
  lemma BlockWalked(env: Env, keys: set<string>, key: string, b: int)
    requires key in keys && EntryOf(env, key).Some? && b in env.program[key].cfg.successors
    requires var nodes := NodesOf(env.program[key], b); nodes != [] && AllContinue(env, nodes)
    ensures Through(Parts(env, keys).edges, CfgNodeId(key, b, 0), CutExits.EndOf(key, b, NodesOf(env.program[key], b)))
  {
    hide BlockPart, Continues, Through;
    var nodes := NodesOf(env.program[key], b);
    assert BlockPart(env, key, b).edges <= Parts(env, keys).edges by {
      forall e | e in BlockPart(env, key, b).edges
        ensures e in Parts(env, keys).edges
      {
        assert e in ProcedurePart(env, key).edges;
      }
    }
    var n := |nodes| - 1;
    WalkedTo(env, key, b, Parts(env, keys).edges, n, |nodes[n]|);
  }

  // ---------------------------------------------------------------- what a call event says

  /** A call made here and now, to a function whose body could be looked into. */
  predicate MayEnter(ev: Event) {
    ev.present && ev.phase == Sync && ev.builtin.None? && ev.mapped && ev.mayReturn && !ev.validates
  }

  /** The literal the call resolves to decides, unless it has no body; then the declaration does. */
  predicate Enters(env: Env, ev: Event, callee: string) {
    && MayEnter(ev) && EntryOf(env, callee).Some?
    && if ev.literal.None? then ev.declared == Some(callee)
       else
         && ev.literal.value.exact
         && (ev.literal.value.key == callee
             || (EntryOf(env, ev.literal.value.key).None? && ev.declared == Some(callee)))
  }

  /** Control goes past the event, and why. */
  predicate PassesOver(env: Env, ev: Event, reason: Reason) {
    if !ev.present then false
    else if ev.phase != Sync then reason == NoReason
    else if ev.builtin.Some? then ev.builtin.value != "panic" && ev.mayReturn && reason == NoReason
    else if !ev.mapped then reason == CallMapping
    else if !ev.mayReturn then false
    else if ev.validates then reason == NoReason
    else if ev.literal.Some? && !ev.literal.value.exact then reason == AmbiguousIdentity
    else
      && (ev.literal.Some? ==> EntryOf(env, ev.literal.value.key).None?)
      && (ev.declared.Some? ==> EntryOf(env, ev.declared.value).None?)
      && reason == ev.unresolved
  }

  /** Which edges an event lays down, and when none comes back. */
  lemma EventEdges(env: Env, ev: Event, call: NodeId, e: Edge)
    ensures e in EventPart(env, ev, call).edges <==>
            || (exists reason :: PassesOver(env, ev, reason) && e == PassEdge(env, call, reason))
            || (exists callee :: Enters(env, ev, callee) && e == CallEdge(env, call, EntryOf(env, callee).value))
            || (exists callee, x :: Enters(env, ev, callee) && x in ExitsOf(env, callee)
                                    && e == ReturnEdge(x, ReturnOf(call), env.keyText(call)))
    ensures Continues(env, ev) <==>
            || (exists reason :: PassesOver(env, ev, reason))
            || (exists callee :: Enters(env, ev, callee) && ExitsOf(env, callee) != [])
  {
    hide ExitsOf, EntryOf;
    match OutcomeOf(env, ev)
    case Absent =>
    case Stop =>
    case PassOver(reason) =>
      assert PassesOver(env, ev, reason);
      assert forall r :: PassesOver(env, ev, r) ==> r == reason;
    case Enter(callee) =>
      assert Enters(env, ev, callee);
      assert forall k :: Enters(env, ev, k) ==> k == callee;
  }

  /** The entry of a procedure is the first node of the first listed block that has any. */
  lemma {:induction false} EntryIsFirst(key: string, p: Procedure, blocks: seq<Option<int>>, i: int)
    requires 0 <= i < |blocks| && blocks[i].Some? && NodesOf(p, blocks[i].value) != []
    requires forall j :: 0 <= j < i && blocks[j].Some? ==> NodesOf(p, blocks[j].value) == []
    ensures FirstEntry(key, p, blocks) == Some(CfgNodeId(key, blocks[i].value, 0))
    decreases i
  {
    if i > 0 {
      EntryIsFirst(key, p, blocks[1..], i - 1);
    }
  }

  /** The exits of a procedure that may return: ends of blocks without non-empty direct successors. */
  lemma ExitsExactly(env: Env, key: string, x: NodeId)
    ensures x in ExitsOf(env, key) <==>
            && key in env.program && (key in env.mayReturn ==> env.mayReturn[key])
            && var p := env.program[key];
               var nodes := NodesOf(p, x.block);
               && Some(x.block) in p.cfg.blocks && nodes != [] && x == CutExits.EndOf(key, x.block, nodes)
               && (forall e :: e in nodes[|nodes| - 1] && e.phase == Sync ==> e.mayReturn)
               && (x.block in p.cfg.successors ==>
                     forall s :: Some(s) in p.cfg.successors[x.block] && s in p.cfg.successors ==> NodesOf(p, s) == [])
  {
    if key in env.program {
      var p := env.program[key];
      CutExits.ExitsAmongAre(key, p, p.cfg.blocks, x);
    }
  }
}
