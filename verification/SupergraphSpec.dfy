/**
 What an interprocedural supergraph has to contain, procedure by procedure, with
 no recursion, cache or order of construction; and what follows from that alone.

 How Go calls resolve is given: an event carries what the type checker and the
 SSA form say about its call.
 */
module SupergraphSpec {
  import opened Options
  import opened ProtocolDomain
  import opened Supergraph
  import opened ControlFlow
  import Runs
  import TabulationTheory
  import ProducedWitnesses

  datatype Phase = Sync | DeferRegistration | GoStatement

  /** A function literal a call resolves to, and whether what it captures is known exactly. */
  datatype Literal = Literal(key: string, exact: bool)

  datatype Event = Event(
    present: bool,
    phase: Phase,
    builtin: Option<string>,
    mapped: bool,
    mayReturn: bool,
    validates: bool,
    literal: Option<Literal>,
    declared: Option<string>,
    unresolved: Reason)

  /** The nodes of each block; a node lists its call events in order. */
  datatype Procedure = Procedure(cfg: Cfg, nodes: map<int, seq<seq<Event>>>)

  datatype Env = Env(
    program: map<string, Procedure>,
    mayReturn: map<string, bool>,
    keyText: NodeId -> string,
    provenance: (string, int, Option<int>) -> seq<string>)

  /** Node keys name nodes, and procedures are proper graphs. */
  ghost predicate Proper(env: Env) {
    && (forall a, b :: env.keyText(a) == env.keyText(b) ==> a == b)
    && (forall a :: env.keyText(a) != "")
    && (forall k :: k in env.program ==> k != "" && WellFormed(env.program[k].cfg))
  }

  // ---------------------------------------------------------------- fragments

  /** Edges, call nodes that do not return, and nodes where control leaves the function. */
  datatype Fragment = Fragment(edges: set<Edge>, dead: set<NodeId>, ends: set<NodeId>) {
    function Plus(other: Fragment): Fragment {
      Fragment(edges + other.edges, dead + other.dead, ends + other.ends)
    }

    predicate Within(other: Fragment) {
      edges <= other.edges && dead <= other.dead && ends <= other.ends
    }
  }

  const NOTHING := Fragment({}, {}, {})

  // ---------------------------------------------------------------- entries and exits of a procedure

  function NodesOf(p: Procedure, b: int): seq<seq<Event>> {
    if b in p.nodes then p.nodes[b] else []
  }

  function CfgNodeId(key: string, b: int, index: int): NodeId {
    NodeId(key, b, index, 0, CfgNode)
  }

  function Entries(key: string, p: Procedure): map<int, NodeId> {
    map b | b in p.cfg.successors && NodesOf(p, b) != [] :: CfgNodeId(key, b, 0)
  }

  /** The first node of the first block that has any. */
  function FirstEntry(key: string, p: Procedure, blocks: seq<Option<int>>): Option<NodeId> {
    if blocks == [] then None
    else if blocks[0].Some? && NodesOf(p, blocks[0].value) != [] then Some(CfgNodeId(key, blocks[0].value, 0))
    else FirstEntry(key, p, blocks[1..])
  }

  function EntryOf(env: Env, key: string): Option<NodeId> {
    if key !in env.program then None
    else FirstEntry(key, env.program[key], env.program[key].cfg.blocks)
  }

  predicate HasDirectSuccessor(p: Procedure, b: int) {
    && b in p.cfg.successors
    && exists s ::
         s in p.cfg.successors[b] && s.Some? && s.value in p.cfg.successors && NodesOf(p, s.value) != []
  }

  /** A block without a non-empty direct successor ends in an exit, unless its last node does not return. */
  function ExitOf(key: string, p: Procedure, b: int): Option<NodeId> {
    var nodes := NodesOf(p, b);
    if nodes == [] || HasDirectSuccessor(p, b) then None
    else
      var last := |nodes| - 1;
      var events := nodes[last];
      if exists e :: e in events && e.phase == Sync && !e.mayReturn then None
      else if events == [] then Some(CfgNodeId(key, b, last))
      else Some(NodeId(key, b, last, |events| - 1, ReturnNode))
  }

  function ExitsAmong(key: string, p: Procedure, blocks: seq<Option<int>>): seq<NodeId> {
    if blocks == [] then []
    else
      var rest := ExitsAmong(key, p, blocks[..|blocks| - 1]);
      var block := blocks[|blocks| - 1];
      if block.Some? && ExitOf(key, p, block.value).Some? then rest + [ExitOf(key, p, block.value).value] else rest
  }

  function ExitsOf(env: Env, key: string): seq<NodeId> {
    if key !in env.program || (key in env.mayReturn && !env.mayReturn[key]) then []
    else ExitsAmong(key, env.program[key], env.program[key].cfg.blocks)
  }

  // ---------------------------------------------------------------- what a call event contributes

  datatype Outcome = Absent | PassOver(reason: Reason) | Stop | Enter(callee: string)

  /** The callee that is expanded, if its body can be built. */
  function Resolve(env: Env, e: Event): Outcome {
    if e.literal.Some? && !e.literal.value.exact then PassOver(AmbiguousIdentity)
    else if e.literal.Some? && EntryOf(env, e.literal.value.key).Some? then Enter(e.literal.value.key)
    else if e.declared.Some? && EntryOf(env, e.declared.value).Some? then Enter(e.declared.value)
    else PassOver(e.unresolved)
  }

  function OutcomeOf(env: Env, e: Event): Outcome {
    if !e.present then Absent
    else if e.phase != Sync then PassOver(NoReason)
    else if e.builtin.Some? then
      if e.builtin.value == "panic" || !e.mayReturn then Stop else PassOver(NoReason)
    else if !e.mapped then PassOver(CallMapping)
    else if !e.mayReturn then Stop
    else if e.validates then PassOver(NoReason)
    else Resolve(env, e)
  }

  function ReturnOf(call: NodeId): NodeId {
    call.(kind := ReturnNode)
  }

  function IntraEdge(from: NodeId, to: NodeId, predicates: seq<string>): Edge {
    Edge(from, to, Intra, "", NoReason, predicates)
  }

  function PassEdge(env: Env, call: NodeId, reason: Reason): Edge {
    Edge(call, ReturnOf(call), CallToReturn, env.keyText(call), reason, [])
  }

  function CallEdge(env: Env, call: NodeId, entry: NodeId): Edge {
    Edge(call, entry, Call, env.keyText(call), NoReason, [])
  }

  function ReturnEdges(env: Env, call: NodeId, exits: seq<NodeId>): set<Edge> {
    set x | x in exits :: ReturnEdge(x, ReturnOf(call), env.keyText(call))
  }

  /** The call edge and one return edge per exit; a callee without exits does not return. */
  function CallPart(env: Env, call: NodeId, callee: string): Fragment {
    if EntryOf(env, callee).None? then NOTHING
    else Fragment({CallEdge(env, call, EntryOf(env, callee).value)} + ReturnEdges(env, call, ExitsOf(env, callee)),
                  if ExitsOf(env, callee) == [] then {call} else {}, {})
  }

  function EventPart(env: Env, e: Event, call: NodeId): Fragment {
    match OutcomeOf(env, e)
    case Absent => NOTHING
    case PassOver(reason) => Fragment({PassEdge(env, call, reason)}, {}, {})
    case Stop => Fragment({}, {call}, {})
    case Enter(k) => CallPart(env, call, k)
  }

  /** Whether control comes back from the event. */
  predicate Continues(env: Env, e: Event) {
    match OutcomeOf(env, e)
    case Absent => false
    case PassOver(_) => true
    case Stop => false
    case Enter(k) => ExitsOf(env, k) != []
  }

  // ---------------------------------------------------------------- walking a block

  /** How far a walk got: what it laid down, where it stands, and whether control is still running. */
  datatype Walk = Walk(part: Fragment, at: NodeId, alive: bool)

  function CallNodeId(key: string, b: int, index: int, ordinal: int): NodeId {
    NodeId(key, b, index, ordinal, CallNode)
  }

  function EventsWalk(env: Env, key: string, b: int, index: int, events: seq<Event>): Walk {
    if events == [] then Walk(NOTHING, CfgNodeId(key, b, index), true)
    else
      var n := |events| - 1;
      var before := EventsWalk(env, key, b, index, events[..n]);
      if !before.alive then before
      else
        var call := CallNodeId(key, b, index, n);
        var link := Fragment({IntraEdge(before.at, call, [])}, {}, {});
        var part := before.part.Plus(link).Plus(EventPart(env, events[n], call));
        if Continues(env, events[n]) then Walk(part, ReturnOf(call), true) else Walk(part, before.at, false)
  }

  function NodesWalk(env: Env, key: string, b: int, nodes: seq<seq<Event>>): Walk {
    if nodes == [] then Walk(NOTHING, CfgNodeId(key, b, 0), true)
    else
      var n := |nodes| - 1;
      var before := NodesWalk(env, key, b, nodes[..n]);
      if !before.alive then before
      else
        var link := Fragment(if n == 0 then {} else {IntraEdge(before.at, CfgNodeId(key, b, n), [])}, {}, {});
        var walk := EventsWalk(env, key, b, n, nodes[n]);
        Walk(before.part.Plus(link).Plus(walk.part), walk.at, walk.alive)
  }

  /** From the end of a block to the first nodes met past empty blocks, with the predicate of the way out. */
  ghost function WaysOut(env: Env, key: string, b: int, at: NodeId): set<Edge>
    requires key in env.program && b in env.program[key].cfg.successors
  {
    var p := env.program[key];
    set s, x | s in p.cfg.successors[b] && s.Some? && x in Entries(key, p)
      && EntryMet(p.cfg, s.value, Entries(key, p), Entries(key, p)[x]) ::
      IntraEdge(at, Entries(key, p)[x], env.provenance(key, b, s))
  }

  ghost function BlockPart(env: Env, key: string, b: int): Fragment
    requires key in env.program && b in env.program[key].cfg.successors
  {
    var walk := NodesWalk(env, key, b, NodesOf(env.program[key], b));
    if NodesOf(env.program[key], b) == [] || !walk.alive then walk.part
    else
      var out := WaysOut(env, key, b, walk.at);
      walk.part.Plus(Fragment(out, {}, if out == {} then {walk.at} else {}))
  }

  ghost function BlocksPart(env: Env, key: string, blocks: set<int>): Fragment
    requires key in env.program && blocks <= env.program[key].cfg.successors.Keys
  {
    Fragment(
      set b, e | b in blocks && e in BlockPart(env, key, b).edges :: e,
      set b, n | b in blocks && n in BlockPart(env, key, b).dead :: n,
      set b, n | b in blocks && n in BlockPart(env, key, b).ends :: n)
  }

  /** Everything a procedure's own body contributes. */
  ghost function ProcedurePart(env: Env, key: string): Fragment {
    if EntryOf(env, key).None? then NOTHING else BlocksPart(env, key, env.program[key].cfg.successors.Keys)
  }

  ghost function Parts(env: Env, keys: set<string>): Fragment {
    Fragment(
      set k, e | k in keys && e in ProcedurePart(env, k).edges :: e,
      set k, n | k in keys && n in ProcedurePart(env, k).dead :: n,
      set k, n | k in keys && n in ProcedurePart(env, k).ends :: n)
  }

  // ---------------------------------------------------------------- where an edge comes from

  /** The event behind a call node. */
  function EventAt(env: Env, call: NodeId): Option<Event> {
    if call.kind != CallNode || call.func !in env.program then None
    else
      var nodes := NodesOf(env.program[call.func], call.block);
      if 0 <= call.index < |nodes| && 0 <= call.ordinal < |nodes[call.index]| then Some(nodes[call.index][call.ordinal])
      else None
  }

  /**
   Every edge of a fragment is an ordinary step inside the procedure, or laid down whole by
   one of its call events.
   */
  ghost predicate Explained(env: Env, key: string, part: Fragment, e: Edge) {
    || (e.kind == Intra && e.site == "" && e.from.func == key && e.to.func == key)
    || (exists c: NodeId :: c.func == key && EventAt(env, c).Some?
                    && e in EventPart(env, EventAt(env, c).value, c).edges
                      && EventPart(env, EventAt(env, c).value, c).Within(part))
  }

  ghost predicate AllExplained(env: Env, key: string, part: Fragment) {
    forall e :: e in part.edges ==> Explained(env, key, part, e)
  }

  lemma ExplainedInMore(env: Env, key: string, part: Fragment, more: Fragment)
    requires AllExplained(env, key, part) && part.Within(more)
    ensures forall e :: e in part.edges ==> Explained(env, key, more, e)
  {
    hide EventPart, EventAt;
    forall e | e in part.edges
      ensures Explained(env, key, more, e)
    {
      assert Explained(env, key, part, e);
    }
  }

  lemma PlusExplained(env: Env, key: string, a: Fragment, b: Fragment)
    requires AllExplained(env, key, a) && AllExplained(env, key, b)
    ensures AllExplained(env, key, a.Plus(b))
  {
    hide EventPart, EventAt, Explained;
    ExplainedInMore(env, key, a, a.Plus(b));
    ExplainedInMore(env, key, b, a.Plus(b));
  }

  lemma {:induction false} EventsExplained(env: Env, key: string, b: int, index: nat, events: seq<Event>)
    requires key in env.program && index < |NodesOf(env.program[key], b)|
             && events <= NodesOf(env.program[key], b)[index]
    ensures AllExplained(env, key, EventsWalk(env, key, b, index, events).part)
    ensures EventsWalk(env, key, b, index, events).at.func == key
    decreases |events|
  {
    hide EventPart;
    if events != [] {
      var n := |events| - 1;
      EventsExplained(env, key, b, index, events[..n]);
      var before := EventsWalk(env, key, b, index, events[..n]);
      var call := CallNodeId(key, b, index, n);
      var link := Fragment({IntraEdge(before.at, call, [])}, {}, {});
      assert EventAt(env, call) == Some(events[n]);
      PlusExplained(env, key, before.part, link);
      PlusExplained(env, key, before.part.Plus(link), EventPart(env, events[n], call));
    }
  }

  lemma {:induction false} NodesExplained(env: Env, key: string, b: int, nodes: seq<seq<Event>>)
    requires key in env.program && nodes <= NodesOf(env.program[key], b)
    ensures AllExplained(env, key, NodesWalk(env, key, b, nodes).part)
    ensures NodesWalk(env, key, b, nodes).at.func == key
    decreases |nodes|
  {
    hide EventPart, EventsWalk;
    if nodes != [] {
      var n := |nodes| - 1;
      NodesExplained(env, key, b, nodes[..n]);
      EventsExplained(env, key, b, n, nodes[n]);
      var before := NodesWalk(env, key, b, nodes[..n]);
      var link := Fragment(if n == 0 then {} else {IntraEdge(before.at, CfgNodeId(key, b, n), [])}, {}, {});
      assert AllExplained(env, key, link);
      PlusExplained(env, key, before.part, link);
      PlusExplained(env, key, before.part.Plus(link), EventsWalk(env, key, b, n, nodes[n]).part);
    }
  }

  lemma BlockExplained(env: Env, key: string, b: int)
    requires key in env.program && b in env.program[key].cfg.successors
    ensures AllExplained(env, key, BlockPart(env, key, b))
  {
    hide EventPart, NodesWalk;
    var walk := NodesWalk(env, key, b, NodesOf(env.program[key], b));
    NodesExplained(env, key, b, NodesOf(env.program[key], b));
    var out := WaysOut(env, key, b, walk.at);
    var last := Fragment(out, {}, if out == {} then {walk.at} else {});
    assert AllExplained(env, key, last);
    PlusExplained(env, key, walk.part, last);
  }

  lemma PartsExplained(env: Env, keys: set<string>, e: Edge)
    requires e in Parts(env, keys).edges
    ensures exists k :: k in keys && Explained(env, k, Parts(env, keys), e)
  {
    hide EventPart, BlockPart, Explained, EventAt;
    var k :| k in keys && e in ProcedurePart(env, k).edges;
    var b :| b in env.program[k].cfg.successors && e in BlockPart(env, k, b).edges;
    BlockExplained(env, k, b);
    assert BlockPart(env, k, b).Within(ProcedurePart(env, k));
    assert ProcedurePart(env, k).Within(Parts(env, keys));
    ExplainedInMore(env, k, BlockPart(env, k, b), Parts(env, keys));
  }

  // ---------------------------------------------------------------- brackets

  lemma EventSite(env: Env, ev: Event, c: NodeId, e: Edge)
    requires e in EventPart(env, ev, c).edges
    ensures e.site == env.keyText(c) && e.kind != Intra
  {
  }

  /** An edge that is not an ordinary step names, by its site, the one call event that laid it down. */
  lemma SiteNamesEvent(env: Env, keys: set<string>, e: Edge) returns (c: NodeId)
    requires Proper(env) && e in Parts(env, keys).edges && e.kind != Intra
    ensures e.site == env.keyText(c) && EventAt(env, c).Some? && c.func in keys
    ensures e in EventPart(env, EventAt(env, c).value, c).edges
    ensures EventPart(env, EventAt(env, c).value, c).edges <= Parts(env, keys).edges
  {
    hide EventPart, EventAt, Parts;
    PartsExplained(env, keys, e);
    var k :| k in keys && Explained(env, k, Parts(env, keys), e);
    c :| c.func == k && EventAt(env, c).Some?
         && e in EventPart(env, EventAt(env, c).value, c).edges
           && EventPart(env, EventAt(env, c).value, c).Within(Parts(env, keys));
    EventSite(env, EventAt(env, c).value, c, e);
  }

  /**
   For each call edge, the return edges at its site are exactly those from its
   callee's recorded exits to the call's own return node.
   */
  lemma CallsAreBracketed(env: Env, keys: set<string>, e: Edge)
    requires Proper(env) && e in Parts(env, keys).edges && e.kind == Call
    ensures EntryOf(env, e.to.func) == Some(e.to)
    ensures forall r :: r in Parts(env, keys).edges && r.kind == Return && r.site == e.site <==>
                        r in ReturnEdges(env, e.from, ExitsOf(env, e.to.func))
  {
    hide Parts;
    var c := SiteNamesEvent(env, keys, e);
    var k := OutcomeOf(env, EventAt(env, c).value).callee;
    EntryFunc(env, k);
    forall r | r in Parts(env, keys).edges && r.kind == Return && r.site == e.site
      ensures r in ReturnEdges(env, e.from, ExitsOf(env, e.to.func))
    {
      var d := SiteNamesEvent(env, keys, r);
      assert d == c;
    }
  }

  lemma {:induction false} FirstEntryFunc(key: string, p: Procedure, blocks: seq<Option<int>>)
    ensures FirstEntry(key, p, blocks).Some? ==> FirstEntry(key, p, blocks).value.func == key
  {
    if blocks != [] {
      FirstEntryFunc(key, p, blocks[1..]);
    }
  }

  lemma EntryFunc(env: Env, key: string)
    ensures EntryOf(env, key).Some? ==> EntryOf(env, key).value.func == key
  {
    if key in env.program {
      FirstEntryFunc(key, env.program[key], env.program[key].cfg.blocks);
    }
  }

  /** No return edge without its call edge. */
  lemma ReturnsAreCalled(env: Env, keys: set<string>, r: Edge)
    requires Proper(env) && r in Parts(env, keys).edges && r.kind == Return
    ensures exists e :: e in Parts(env, keys).edges && e.kind == Call && e.site == r.site
    ensures r == ReturnEdge(r.from, r.to, r.site)
  {
    hide Parts;
    var c := SiteNamesEvent(env, keys, r);
    var k := OutcomeOf(env, EventAt(env, c).value).callee;
    assert CallEdge(env, c, EntryOf(env, k).value) in EventPart(env, EventAt(env, c).value, c).edges;
  }

  lemma EdgeShape(env: Env, keys: set<string>, e: Edge)
    requires Proper(env) && e in Parts(env, keys).edges
    ensures e.site == "" <==> e.kind == Intra
    ensures e.kind == Intra || e.kind == CallToReturn ==> e.from.func == e.to.func
  {
    hide Parts;
    if e.kind != Intra {
      var c := SiteNamesEvent(env, keys, e);
    } else {
      PartsExplained(env, keys, e);
    }
  }

  /** What tabulation and replay ask of a graph, met by every graph of this form. */
  lemma PartsAreWellBracketed(env: Env, keys: set<string>, sys: Runs.System)
    requires Proper(env) && sys.edges == Parts(env, keys).edges && sys.start in sys.nodes
    requires forall e :: e in sys.edges ==> e.from in sys.nodes && e.to in sys.nodes
    ensures ProducedWitnesses.WellBracketed(sys) && TabulationTheory.PlainReturns(sys)
  {
    hide Parts;
    forall e | e in sys.edges
      ensures (e.site == "" <==> e.kind == Intra)
              && (e.kind == Intra || e.kind == CallToReturn ==> e.from.func == e.to.func)
      ensures e.kind == Return ==> e == ReturnEdge(e.from, e.to, e.site)
    {
      EdgeShape(env, keys, e);
      if e.kind == Return {
        ReturnsAreCalled(env, keys, e);
      }
    }
    forall e, r | e in sys.edges && r in sys.edges && ProducedWitnesses.Brackets(e, r)
      ensures r.to.func == e.from.func
    {
      CallsAreBracketed(env, keys, e);
    }
  }
}
