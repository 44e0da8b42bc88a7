/**
 Where a built supergraph has a return edge beside another edge. Exits look at
 direct successors only, edges look past empty blocks, so a block can be an exit of
 its procedure and go on in it; a run that has to return there never goes on.
 */
module CutExits {
  import opened Options
  import opened Supergraph
  import opened ControlFlow
  import opened SupergraphSpec
  import PlainRuns
  import Runs

  /** Where the walk of a block stands when control gets to its end. */
  function EndOf(key: string, b: int, nodes: seq<seq<Event>>): NodeId
    requires nodes != []
  {
    var last := |nodes| - 1;
    if nodes[last] == [] then CfgNodeId(key, b, last) else NodeId(key, b, last, |nodes[last]| - 1, ReturnNode)
  }

  /** Control gets to the end of the block, and from there past empty blocks to a non-empty one. */
  ghost predicate GoesOn(env: Env, key: string, b: int)
    requires key in env.program && b in env.program[key].cfg.successors
  {
    var p := env.program[key];
    && NodesWalk(env, key, b, NodesOf(p, b)).alive
    && exists s, x :: Some(s) in p.cfg.successors[b] && x in Entries(key, p)
                      && Reaches(p.cfg, s, Entries(key, p).Keys, x)
  }

  // ---------------------------------------------------------------- where the edges of a block start

  /** Edges laid down by the events of one node start at its calls, or where control stood before the last. */
  ghost predicate StartsInNode(key: string, b: int, index: int, n: nat, e: Edge) {
    && e.from.func == key && e.from.block == b && e.from.index == index
    && (|| e.from.kind == CallNode
        || (e.from == CfgNodeId(key, b, index) && n > 0)
        || (e.from.kind == ReturnNode && e.from.ordinal < n - 1))
  }

  lemma {:induction false} EventsStart(env: Env, key: string, b: int, index: int, events: seq<Event>)
    ensures var walk := EventsWalk(env, key, b, index, events);
            && (forall e :: e in walk.part.edges && e.kind != Return ==> StartsInNode(key, b, index, |events|, e))
            && (walk.alive ==>
                  walk.at == if events == [] then CfgNodeId(key, b, index)
                             else NodeId(key, b, index, |events| - 1, ReturnNode))
    decreases |events|
  {
    if events != [] {
      var n := |events| - 1;
      EventsStart(env, key, b, index, events[..n]);
      var call := CallNodeId(key, b, index, n);
      forall e | e in EventPart(env, events[n], call).edges && e.kind != Return
        ensures e.from == call
      {
      }
    }
  }

  ghost predicate StartsInBlock(key: string, b: int, nodes: seq<seq<Event>>, e: Edge) {
    && e.from.func == key && e.from.block == b && e.from.index < |nodes|
    && (nodes != [] ==> e.from != EndOf(key, b, nodes))
  }

  lemma {:induction false} NodesStart(env: Env, key: string, b: int, nodes: seq<seq<Event>>)
    ensures var walk := NodesWalk(env, key, b, nodes);
            && (forall e :: e in walk.part.edges && e.kind != Return ==> StartsInBlock(key, b, nodes, e))
            && (walk.alive && nodes != [] ==> walk.at == EndOf(key, b, nodes))
    decreases |nodes|
  {
    hide EventsWalk;
    if nodes != [] {
      var n := |nodes| - 1;
      NodesStart(env, key, b, nodes[..n]);
      EventsStart(env, key, b, n, nodes[n]);
    }
  }

  /** From the end of a block only its ways out start, and they do where control gets there. */
  lemma BlockEdgesFrom(env: Env, key: string, b: int)
    requires key in env.program && b in env.program[key].cfg.successors
    ensures forall e :: e in BlockPart(env, key, b).edges && e.kind != Return ==>
              e.from.func == key && e.from.block == b
    ensures var nodes := NodesOf(env.program[key], b);
            nodes != [] ==>
              forall e :: e in BlockPart(env, key, b).edges && e.kind != Return && e.from == EndOf(key, b, nodes) <==>
                          NodesWalk(env, key, b, nodes).alive && e in WaysOut(env, key, b, EndOf(key, b, nodes))
  {
    NodesStart(env, key, b, NodesOf(env.program[key], b));
    hide NodesWalk;
  }

  lemma WaysOutExist(env: Env, key: string, b: int, at: NodeId)
    requires key in env.program && b in env.program[key].cfg.successors
    ensures WaysOut(env, key, b, at) != {} <==>
            exists s, x :: Some(s) in env.program[key].cfg.successors[b] && x in Entries(key, env.program[key])
                           && Reaches(env.program[key].cfg, s, Entries(key, env.program[key]).Keys, x)
  {
    var p := env.program[key];
    var entries := Entries(key, p);
    hide Entries, Reaches;
    if s, x :| Some(s) in p.cfg.successors[b] && x in entries && Reaches(p.cfg, s, entries.Keys, x) {
      assert EntryMet(p.cfg, s, entries, entries[x]);
      assert IntraEdge(at, entries[x], env.provenance(key, b, Some(s))) in WaysOut(env, key, b, at);
    }
    if out :| out in WaysOut(env, key, b, at) {
      var s, x :| s in p.cfg.successors[b] && s.Some? && x in entries && EntryMet(p.cfg, s.value, entries, entries[x]);
      var y :| y in entries && entries[y] == entries[x] && Reaches(p.cfg, s.value, entries.Keys, y);
      assert Some(s.value) in p.cfg.successors[b];
    }
  }

  // ---------------------------------------------------------------- exits that also go on

  /** Some edge starts at this node, a return edge or another. */
  ghost predicate Leaves(edges: set<Edge>, n: NodeId, returning: bool) {
    exists e :: e in edges && e.from == n && (e.kind == Return <==> returning)
  }

  /**
   A block is an exit and goes on from that very node exactly when its direct successors
   are all empty, control gets to its end, and a path of empty blocks leads on.
   */
  lemma ExitAlsoContinues(env: Env, key: string, b: int)
    requires key in env.program && b in env.program[key].cfg.successors
    ensures var p, nodes := env.program[key], NodesOf(env.program[key], b);
            ExitOf(key, p, b).Some? && Leaves(BlockPart(env, key, b).edges, ExitOf(key, p, b).value, false) <==>
            && nodes != [] && !HasDirectSuccessor(p, b)
            && (forall x :: x in nodes[|nodes| - 1] && x.phase == Sync ==> x.mayReturn)
            && GoesOn(env, key, b)
  {
    var p, nodes := env.program[key], NodesOf(env.program[key], b);
    if nodes != [] {
      BlockEdgesFrom(env, key, b);
      WaysOutExist(env, key, b, EndOf(key, b, nodes));
      hide BlockPart, WaysOut, NodesWalk, Reaches;
      assert ExitOf(key, p, b).Some? ==> ExitOf(key, p, b) == Some(EndOf(key, b, nodes));
      if GoesOn(env, key, b) {
        var e :| e in WaysOut(env, key, b, EndOf(key, b, nodes));
        assert e in BlockPart(env, key, b).edges && e.kind != Return && e.from == EndOf(key, b, nodes);
      }
    }
  }

  lemma {:induction false} ExitsAmongAre(key: string, p: Procedure, blocks: seq<Option<int>>, n: NodeId)
    ensures n in ExitsAmong(key, p, blocks) <==>
            n.func == key && Some(n.block) in blocks && ExitOf(key, p, n.block) == Some(n)
    decreases |blocks|
  {
    if blocks != [] {
      var k := |blocks| - 1;
      ExitsAmongAre(key, p, blocks[..k], n);
      assert blocks == blocks[..k] + [blocks[k]];
      hide ExitOf;
      if blocks[k].Some? {
        ExitOfIsEnd(key, p, blocks[k].value);
      }
    }
  }

  lemma ExitOfIsEnd(key: string, p: Procedure, b: int)
    ensures ExitOf(key, p, b).Some? ==>
              NodesOf(p, b) != [] && ExitOf(key, p, b) == Some(EndOf(key, b, NodesOf(p, b)))
              && ExitOf(key, p, b).value.func == key && ExitOf(key, p, b).value.block == b
  {
  }

  // ---------------------------------------------------------------- in the whole graph

  ghost predicate IsCalled(edges: set<Edge>, key: string) {
    exists e :: e in edges && e.kind == Call && e.to.func == key
  }

  /** A return edge starts at a node exactly when it is an exit of a procedure that is called. */
  lemma ReturnsFrom(env: Env, keys: set<string>, n: NodeId)
    requires Proper(env)
    ensures Leaves(Parts(env, keys).edges, n, true) <==>
            IsCalled(Parts(env, keys).edges, n.func) && n in ExitsOf(env, n.func)
  {
    hide Parts;
    var edges := Parts(env, keys).edges;
    if Leaves(edges, n, true) {
      var r :| r in edges && r.from == n && r.kind == Return;
      ReturnsAreCalled(env, keys, r);
      var c :| c in edges && c.kind == Call && c.site == r.site;
      CallsAreBracketed(env, keys, c);
      assert n in ExitsOf(env, c.to.func);
      ExitsFunc(env, c.to.func, n);
    }
    if IsCalled(edges, n.func) && n in ExitsOf(env, n.func) {
      var c :| c in edges && c.kind == Call && c.to.func == n.func;
      CallsAreBracketed(env, keys, c);
      var r := ReturnEdge(n, ReturnOf(c.from), env.keyText(c.from));
      assert r in ReturnEdges(env, c.from, ExitsOf(env, c.to.func));
      CallSite(env, keys, c);
    }
  }

  lemma CallSite(env: Env, keys: set<string>, c: Edge)
    requires Proper(env) && c in Parts(env, keys).edges && c.kind == Call
    ensures c.site == env.keyText(c.from)
  {
    hide Parts;
    var call := SiteNamesEvent(env, keys, c);
  }

  lemma ExitsFunc(env: Env, key: string, n: NodeId)
    requires n in ExitsOf(env, key)
    ensures n.func == key && key in env.program && Some(n.block) in env.program[key].cfg.blocks
    ensures ExitOf(key, env.program[key], n.block) == Some(n)
  {
    ExitsAmongAre(key, env.program[key], env.program[key].cfg.blocks, n);
  }

  /** What starts at an exit without returning was laid down by that exit's own block. */
  lemma OnwardsFrom(env: Env, keys: set<string>, n: NodeId)
    requires Proper(env) && EntryOf(env, n.func).Some? && n in ExitsOf(env, n.func)
    ensures n.func in env.program && n.block in env.program[n.func].cfg.successors
    ensures Leaves(Parts(env, keys).edges, n, false) <==>
            n.func in keys && Leaves(BlockPart(env, n.func, n.block).edges, n, false)
  {
    ExitsFunc(env, n.func, n);
    hide BlockPart, ExitsOf, ExitOf;
    var edges := Parts(env, keys).edges;
    if Leaves(edges, n, false) {
      var e :| e in edges && e.from == n && e.kind != Return;
      var k :| k in keys && e in ProcedurePart(env, k).edges;
      var b :| b in env.program[k].cfg.successors && e in BlockPart(env, k, b).edges;
      BlockEdgesFrom(env, k, b);
    }
    if n.func in keys {
      if e :| e in BlockPart(env, n.func, n.block).edges && e.kind != Return && e.from == n {
        assert e in ProcedurePart(env, n.func).edges;
      }
    }
  }

  /** An exit of a called procedure whose block goes on past its empty direct successors. */
  ghost predicate Cut(env: Env, keys: set<string>, n: NodeId) {
    && IsCalled(Parts(env, keys).edges, n.func) && n in ExitsOf(env, n.func) && n.func in keys
    && n.func in env.program && n.block in env.program[n.func].cfg.successors
    && GoesOn(env, n.func, n.block)
  }

  /** The nodes where a return edge stands beside another edge, in terms of the source. */
  lemma CutExactly(env: Env, keys: set<string>, n: NodeId)
    requires Proper(env)
    ensures Leaves(Parts(env, keys).edges, n, true) && Leaves(Parts(env, keys).edges, n, false) <==> Cut(env, keys, n)
  {
    hide Parts, BlockPart, GoesOn, ExitsOf;
    ReturnsFrom(env, keys, n);
    if IsCalled(Parts(env, keys).edges, n.func) && n in ExitsOf(env, n.func) {
      var c :| c in Parts(env, keys).edges && c.kind == Call && c.to.func == n.func;
      CallsAreBracketed(env, keys, c);
      OnwardsFrom(env, keys, n);
      ExitsFunc(env, n.func, n);
      ExitAlsoContinues(env, n.func, n.block);
    }
  }

  /** Without such exits tabulation covers the plain runs of the built graph. */
  lemma UncutGraphsCovered(env: Env, keys: set<string>, sys: Runs.System)
    requires Proper(env) && sys.edges == Parts(env, keys).edges
    requires forall n :: !Cut(env, keys, n)
    ensures PlainRuns.AllPlainRunsAreRuns(sys)
  {
    hide Parts, Cut, PlainRuns.AllPlainRunsAreRuns;
    forall k, e | PlainRuns.Dropped(sys, k, e)
      ensures false
    {
      CutExactly(env, keys, k.node);
    }
    PlainRuns.PlainRunsCovered(sys);
  }
}
