/**
 The meaning of tabulation: matched call/return runs of a pushdown system.

 A configuration carries an explicit stack of open calls. A run is the sequence
 of graph edges it follows; the edges determine every state on the way. Nothing
 here mentions work lists, summaries or budgets.
 */
module Runs {
  import opened Options
  import opened ProtocolDomain
  import opened Supergraph

  datatype Entry = Entry(node: NodeId, state: State)

  /** What the analysis decides on arriving at a node in a state. */
  datatype Visit =
    | Halt(why: Reason)
    | Violation
    | Proceed(after: State, tag: Tag, doubt: Option<Reason>)

  /** What following an edge does to the state: before and after the unresolved-call reason. */
  datatype Flow = Flow(moved: State, tag: Tag, next: State)

  datatype System = System(
    nodes: set<NodeId>,
    edges: set<Edge>,
    start: NodeId,
    initial: State,
    visit: (NodeId, State) -> Visit,
    follow: (Edge, State) -> Option<Flow>)

  /** What one tabulated path edge says, apart from the witness that supports it. */
  datatype Key = Key(entry: Entry, node: NodeId, state: State, effect: EdgeFn)

  datatype Frame = Frame(site: string, caller: Entry, effect: EdgeFn)

  datatype Config = Config(key: Key, stack: seq<Frame>)

  function EntryKey(entry: Entry): Key {
    Key(entry, entry.node, entry.state, IDENTITY_EDGE)
  }

  function RootEntry(sys: System): Entry {
    Entry(sys.start, sys.initial)
  }

  function Initial(sys: System): Config {
    Config(EntryKey(RootEntry(sys)), [])
  }

  /** A node with an outgoing return edge only returns; its other edges are never followed. */
  predicate HasReturn(sys: System, node: NodeId) {
    exists e :: e in sys.edges && e.from == node && e.kind == Return
  }

  function FollowEdge(k: Key, e: Edge, effect: EdgeFn, f: Flow): Key {
    if e.kind == Call then EntryKey(Entry(e.to, f.moved))
    else Key(k.entry, e.to, f.next, effect.Then(f.tag))
  }

  /** One move: along an ordinary edge, into a callee, or back to the most recent open call. */
  function Move(sys: System, c: Config, e: Edge): Option<Config> {
    if e !in sys.edges || e.from != c.key.node then None
    else
      match sys.visit(c.key.node, c.key.state)
      case Halt(_) => None
      case Violation => None
      case Proceed(after, tag, _) =>
        var effect := c.key.effect.Then(tag);
        if HasReturn(sys, c.key.node) then
          if e.kind != Return || c.stack == [] then None
          else
            var top := c.stack[|c.stack| - 1];
            if top.site != e.site || e.from.func != c.key.entry.node.func then None
            else Some(Config(Key(top.caller, e.to, after, top.effect.ThenSummary(effect)), c.stack[..|c.stack| - 1]))
        else
          match sys.follow(e, after)
          case None => None
          case Some(f) =>
            var stack := if e.kind == Call then c.stack + [Frame(e.site, c.key.entry, effect.Then(f.tag))] else c.stack;
            Some(Config(FollowEdge(c.key, e, effect, f), stack))
  }

  function Run(sys: System, c: Config, es: seq<Edge>): Option<Config>
    decreases |es|
  {
    if es == [] then Some(c)
    else
      match Run(sys, c, es[..|es| - 1])
      case None => None
      case Some(m) => Move(sys, m, es[|es| - 1])
  }

  /** The configurations that some realizable run reaches. */
  ghost predicate Reaches(sys: System, c: Config) {
    exists es :: Run(sys, Initial(sys), es) == Some(c)
  }

  ghost predicate ReachesKey(sys: System, k: Key) {
    exists es, stack :: Run(sys, Initial(sys), es) == Some(Config(k, stack))
  }

  predicate Doubts(v: Visit) {
    v.Halt? || (v.Proceed? && v.doubt.Some?)
  }

  ghost predicate ReachesViolation(sys: System) {
    exists k :: ReachesKey(sys, k) && sys.visit(k.node, k.state).Violation?
  }

  ghost predicate ReachesDoubt(sys: System) {
    exists k :: ReachesKey(sys, k) && Doubts(sys.visit(k.node, k.state))
  }

  lemma RunAppend(sys: System, c: Config, es: seq<Edge>, e: Edge)
    ensures Run(sys, c, es + [e]) ==
            match Run(sys, c, es) case None => None case Some(m) => Move(sys, m, e)
  {
    assert (es + [e])[..|es|] == es;
  }

  /** Runs compose. */
  lemma {:induction false} RunConcat(sys: System, c: Config, a: seq<Edge>, b: seq<Edge>)
    ensures Run(sys, c, a + b) ==
            match Run(sys, c, a) case None => None case Some(m) => Run(sys, m, b)
    decreases |b|
  {
    hide Move;
    if b == [] {
      assert a + b == a;
    } else {
      var k := |b| - 1;
      RunConcat(sys, c, a, b[..k]);
      RunAppend(sys, c, a + b[..k], b[k]);
      assert a + b == (a + b[..k]) + [b[k]];
    }
  }

  lemma MoveLift(sys: System, c: Config, e: Edge, below: seq<Frame>)
    requires Move(sys, c, e).Some?
    ensures Move(sys, Config(c.key, below + c.stack), e) ==
            Some(Config(Move(sys, c, e).value.key, below + Move(sys, c, e).value.stack))
  {
    var lifted := below + c.stack;
    if c.stack != [] {
      assert lifted[|lifted| - 1] == c.stack[|c.stack| - 1];
      assert lifted[..|lifted| - 1] == below + c.stack[..|c.stack| - 1];
    }
    forall f: Frame
      ensures below + (c.stack + [f]) == lifted + [f]
    {
    }
  }

  /** A run never looks below the stack it starts with. */
  lemma {:induction false} RunLift(sys: System, c: Config, es: seq<Edge>, below: seq<Frame>)
    requires Run(sys, c, es).Some?
    ensures Run(sys, Config(c.key, below + c.stack), es) ==
            Some(Config(Run(sys, c, es).value.key, below + Run(sys, c, es).value.stack))
    decreases |es|
  {
    if es != [] {
      var k := |es| - 1;
      RunLift(sys, c, es[..k], below);
      MoveLift(sys, Run(sys, c, es[..k]).value, es[k], below);
    }
  }

  /** A prefix of a run is a run. */
  lemma RunPrefix(sys: System, c: Config, es: seq<Edge>, n: nat)
    requires n <= |es| && Run(sys, c, es).Some?
    ensures Run(sys, c, es[..n]).Some?
  {
    hide Run, Move;
    RunConcat(sys, c, es[..n], es[n..]);
    assert es[..n] + es[n..] == es;
  }
}
