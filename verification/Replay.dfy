/**
 Replaying a witness: the validator walks it with a stack of open calls. What it
 accepts is also said without any stack, and the two agree.
 */
module Replay {
  import opened Options
  import opened ProtocolDomain
  import opened Supergraph

  datatype Rejection =
    | MissingNode
    | NonEdge
    | Disconnected
    | CrossProcedure
    | UnmatchedReturn
    | ChangedFact
    | ChangedState
    | InvalidState
    | MissingCallSite

  datatype Graph = Graph(nodes: set<NodeId>, edges: set<Edge>, valid: State -> bool)

  /** What is replayed: the fact it is about, its steps, and where it claims to end. */
  datatype Claim = Claim(fact: Fact, trail: Witness, terminal: NodeId)

  datatype CallFrame = CallFrame(site: string, caller: string, callee: string)

  // ---------------------------------------------------------------- the clauses of one step

  function TransferFault(g: Graph, s: Step, fact: Fact): Option<Rejection> {
    if s.edge.from !in g.nodes || s.edge.to !in g.nodes then Some(MissingNode)
    else if s.fact != fact then Some(ChangedFact)
    else if !g.valid(s.before) || !g.valid(s.after) then Some(InvalidState)
    else if !TransferMatches(Transfer(s.tag, s.before), s.after) then Some(ChangedState)
    else None
  }

  function LinkFault(previous: Step, s: Step): Option<Rejection> {
    if previous.edge.to != s.edge.from then Some(Disconnected)
    else if previous.after != s.before then Some(ChangedState)
    else None
  }

  function KindFault(e: Edge): Option<Rejection> {
    match e.kind
    case Intra =>
      if e.from.func != e.to.func then Some(CrossProcedure)
      else if e.site != "" then Some(MissingCallSite)
      else None
    case CallToReturn =>
      if e.from.func != e.to.func then Some(CrossProcedure)
      else if e.site == "" then Some(MissingCallSite)
      else None
    case Call => if e.site == "" then Some(MissingCallSite) else None
    case Return => if e.site == "" then Some(MissingCallSite) else None
  }

  function StepFault(g: Graph, c: Claim, i: nat): Option<Rejection>
    requires i < |c.trail|
  {
    var s := c.trail[i];
    if TransferFault(g, s, c.fact).Some? then TransferFault(g, s, c.fact)
    else if i > 0 && LinkFault(c.trail[i - 1], s).Some? then LinkFault(c.trail[i - 1], s)
    else if s.edge !in g.edges then Some(NonEdge)
    else KindFault(s.edge)
  }

  function TerminalFault(g: Graph, c: Claim): Option<Rejection> {
    if c.terminal.func != "" && c.terminal !in g.nodes then Some(MissingNode)
    else if c.trail != [] && c.terminal.func != "" && c.trail[|c.trail| - 1].edge.to != c.terminal then
      Some(Disconnected)
    else None
  }

  function FrameOf(e: Edge): CallFrame {
    CallFrame(e.site, e.from.func, e.to.func)
  }

  /** The return edge leaves the frame's callee for its caller, at its call site. */
  predicate Ends(frame: CallFrame, e: Edge) {
    frame.site == e.site && frame.callee == e.from.func && frame.caller == e.to.func
  }

  /** The open calls after `n` steps, or nothing if some return did not match. */
  function StackAfter(w: Witness, n: nat): Option<seq<CallFrame>>
    requires n <= |w|
  {
    if n == 0 then Some([])
    else
      match StackAfter(w, n - 1)
      case None => None
      case Some(stack) =>
        var e := w[n - 1].edge;
        match e.kind
        case Call => Some(stack + [FrameOf(e)])
        case Return =>
          if stack != [] && Ends(stack[|stack| - 1], e) then Some(stack[..|stack| - 1]) else None
        case Intra => Some(stack)
        case CallToReturn => Some(stack)
  }

  /** The first thing wrong from step `i` on. */
  function FaultFrom(g: Graph, c: Claim, i: nat): Option<Rejection>
    requires i <= |c.trail| && StackAfter(c.trail, i).Some?
    decreases |c.trail| - i
  {
    if i == |c.trail| then None
    else if StepFault(g, c, i).Some? then StepFault(g, c, i)
    else if StackAfter(c.trail, i + 1).None? then Some(UnmatchedReturn)
    else FaultFrom(g, c, i + 1)
  }

  function Verdict(g: Graph, c: Claim): Option<Rejection> {
    if TerminalFault(g, c).Some? then TerminalFault(g, c) else FaultFrom(g, c, 0)
  }

  // ---------------------------------------------------------------- the same, without a stack

  function Weight(e: Edge): int {
    if e.kind == Call then 1 else if e.kind == Return then -1 else 0
  }

  /** Calls minus returns among the first `n` steps. */
  function Depth(w: Witness, n: nat): int
    requires n <= |w|
  {
    if n == 0 then 0 else Depth(w, n - 1) + Weight(w[n - 1].edge)
  }

  /** The return at `j` closes the call at `i`: in between, calls and returns balance and never dip. */
  ghost predicate Closes(w: Witness, i: nat, j: nat)
    requires j < |w|
  {
    && i < j
    && w[i].edge.kind == Call && w[j].edge.kind == Return
    && Depth(w, i + 1) == Depth(w, j)
    && forall k :: i < k <= j ==> Depth(w, k) >= Depth(w, j)
  }

  ghost predicate Bracketed(w: Witness, n: nat)
    requires n <= |w|
  {
    forall j :: 0 <= j < n && w[j].edge.kind == Return ==>
      exists i: nat :: Closes(w, i, j) && Ends(FrameOf(w[i].edge), w[j].edge)
  }

  /** Validation and hazards are the same, and nothing that was uncertain has become certain. */
  ghost predicate OnlyLessCertain(expected: State, observed: State) {
    && observed.validation == expected.validation && observed.hazards == expected.hazards
    && expected.uncertainty <= observed.uncertainty && expected.effects <= observed.effects
    && expected.identity.Rank() <= observed.identity.Rank()
  }

  ghost predicate Sound(g: Graph, fact: Fact, s: Step) {
    && s.edge.from in g.nodes && s.edge.to in g.nodes && s.edge in g.edges
    && s.fact == fact
    && g.valid(s.before) && g.valid(s.after)
    && OnlyLessCertain(Transfer(s.tag, s.before), s.after)
    && match s.edge.kind
       case Intra => s.edge.from.func == s.edge.to.func && s.edge.site == ""
       case CallToReturn => s.edge.from.func == s.edge.to.func && s.edge.site != ""
       case Call => s.edge.site != ""
       case Return => s.edge.site != ""
  }

  ghost predicate Linked(previous: Step, s: Step) {
    previous.edge.to == s.edge.from && previous.after == s.before
  }

  ghost predicate Connected(w: Witness) {
    forall i :: 0 < i < |w| ==> Linked(w[i - 1], w[i])
  }

  /** A connected walk of graph edges about one fact, with chained states, on which every return is matched. */
  ghost predicate Realizable(g: Graph, c: Claim) {
    && (c.terminal.func != "" ==>
          c.terminal in g.nodes && (c.trail != [] ==> c.trail[|c.trail| - 1].edge.to == c.terminal))
    && (forall i :: 0 <= i < |c.trail| ==> Sound(g, c.fact, c.trail[i]))
    && Connected(c.trail)
    && Bracketed(c.trail, |c.trail|)
  }

  // ---------------------------------------------------------------- stack and depth agree

  /** The step indices of the calls open after `n` steps. */
  ghost function OpenCalls(w: Witness, n: nat): seq<nat>
    requires n <= |w|
  {
    if n == 0 then []
    else
      var open := OpenCalls(w, n - 1);
      match w[n - 1].edge.kind
      case Call => open + [n - 1]
      case Return => if open == [] then [] else open[..|open| - 1]
      case Intra => open
      case CallToReturn => open
  }

  /** Open call number `d` was made at depth `d`, and the walk has stayed above that depth since. */
  ghost predicate OpenAt(w: Witness, n: nat, i: nat, d: nat)
    requires n <= |w|
  {
    && i < n && w[i].edge.kind == Call && Depth(w, i) == d
    && forall k :: i < k <= n ==> Depth(w, k) > d
  }

  ghost predicate StackIsOpenCalls(w: Witness, n: nat)
    requires n <= |w| && StackAfter(w, n).Some?
  {
    var open, stack := OpenCalls(w, n), StackAfter(w, n).value;
    && |open| == |stack| == Depth(w, n)
    && (forall d :: 0 <= d < |open| ==> OpenAt(w, n, open[d], d) && stack[d] == FrameOf(w[open[d]].edge))
    && (forall k :: 0 <= k <= n ==> Depth(w, k) >= 0)
  }

  lemma {:induction false} OpenCallsAreTheStack(w: Witness, n: nat)
    requires n <= |w| && StackAfter(w, n).Some?
    ensures StackIsOpenCalls(w, n)
  {
    if n > 0 {
      OpenCallsAreTheStack(w, n - 1);
      var open, stack := OpenCalls(w, n - 1), StackAfter(w, n - 1).value;
      forall d | 0 <= d < |OpenCalls(w, n)|
        ensures OpenAt(w, n, OpenCalls(w, n)[d], d)
        ensures StackAfter(w, n).value[d] == FrameOf(w[OpenCalls(w, n)[d]].edge)
      {
        if d < |open| {
          assert OpenAt(w, n - 1, open[d], d);
        }
      }
    }
  }

  /** The call a return closes is the most recent open one, and there is no other candidate. */
  lemma ClosesTheTop(w: Witness, j: nat, i: nat)
    requires j < |w| && w[j].edge.kind == Return && StackAfter(w, j).Some?
    ensures StackIsOpenCalls(w, j)
    ensures Closes(w, i, j) <==> OpenCalls(w, j) != [] && i == OpenCalls(w, j)[|OpenCalls(w, j)| - 1]
  {
    OpenCallsAreTheStack(w, j);
    var open := OpenCalls(w, j);
    if Closes(w, i, j) {
      assert Depth(w, i + 1) == Depth(w, i) + 1;
      assert Depth(w, i) >= 0;
      assert OpenAt(w, j, open[|open| - 1], |open| - 1);
    }
    if open != [] && i == open[|open| - 1] {
      assert OpenAt(w, j, i, |open| - 1);
      assert Depth(w, i + 1) == Depth(w, i) + 1;
    }
  }

  lemma ReturnMeansClosed(w: Witness, j: nat)
    requires j < |w| && w[j].edge.kind == Return && StackAfter(w, j).Some?
    ensures StackAfter(w, j + 1).Some? <==> exists i: nat :: Closes(w, i, j) && Ends(FrameOf(w[i].edge), w[j].edge)
  {
    OpenCallsAreTheStack(w, j);
    var open, stack := OpenCalls(w, j), StackAfter(w, j).value;
    if StackAfter(w, j + 1).Some? {
      var top := open[|open| - 1];
      ClosesTheTop(w, j, top);
      assert OpenAt(w, j, top, |open| - 1);
      assert Closes(w, top, j) && Ends(FrameOf(w[top].edge), w[j].edge);
    }
    if i: nat :| Closes(w, i, j) && Ends(FrameOf(w[i].edge), w[j].edge) {
      ClosesTheTop(w, j, i);
      assert OpenAt(w, j, i, |open| - 1);
    }
  }

  lemma {:induction false} StackMeansBracketed(w: Witness, n: nat)
    requires n <= |w|
    ensures StackAfter(w, n).Some? <==> Bracketed(w, n)
  {
    if n > 0 {
      StackMeansBracketed(w, n - 1);
      var j := n - 1;
      if Bracketed(w, n) {
        assert Bracketed(w, j);
      }
      if StackAfter(w, j).Some? && w[j].edge.kind == Return {
        ReturnMeansClosed(w, j);
      }
    }
  }

  lemma StepFaultMeaning(g: Graph, c: Claim, i: nat)
    requires i < |c.trail|
    ensures StepFault(g, c, i).None? <==> Sound(g, c.fact, c.trail[i]) && (i > 0 ==> Linked(c.trail[i - 1], c.trail[i]))
  {
  }

  lemma {:induction false} FaultFromMeaning(g: Graph, c: Claim, i: nat)
    requires i <= |c.trail| && StackAfter(c.trail, i).Some?
    ensures FaultFrom(g, c, i).None? <==>
      (forall k :: i <= k < |c.trail| ==> StepFault(g, c, k).None?) && StackAfter(c.trail, |c.trail|).Some?
    decreases |c.trail| - i
  {
    if i < |c.trail| {
      if StackAfter(c.trail, i + 1).Some? {
        FaultFromMeaning(g, c, i + 1);
      } else {
        StackNeverRecovers(c.trail, i + 1, |c.trail|);
      }
    }
  }

  lemma {:induction false} StackNeverRecovers(w: Witness, n: nat, m: nat)
    requires n <= m <= |w| && StackAfter(w, n).None?
    ensures StackAfter(w, m).None?
    decreases m
  {
    if n < m {
      StackNeverRecovers(w, n, m - 1);
    }
  }

  ghost predicate StepsClean(g: Graph, c: Claim) {
    forall i :: 0 <= i < |c.trail| ==> StepFault(g, c, i).None?
  }

  lemma StepsCleanMeaning(g: Graph, c: Claim)
    ensures StepsClean(g, c) <==>
      (forall i :: 0 <= i < |c.trail| ==> Sound(g, c.fact, c.trail[i])) && Connected(c.trail)
  {
    hide StepFault, Sound, Linked;
    if StepsClean(g, c) {
      forall i | 0 <= i < |c.trail|
        ensures Sound(g, c.fact, c.trail[i]) && (i > 0 ==> Linked(c.trail[i - 1], c.trail[i]))
      {
        assert StepFault(g, c, i).None?;
        StepFaultMeaning(g, c, i);
      }
    } else {
      var i: nat :| i < |c.trail| && StepFault(g, c, i).Some?;
      StepFaultMeaning(g, c, i);
    }
  }

  /** The validator's verdict is acceptance exactly for realizable witnesses. */
  lemma AcceptedIffRealizable(g: Graph, c: Claim)
    ensures Verdict(g, c).None? <==> Realizable(g, c)
  {
    hide Sound, Bracketed, Connected, StepFault, FaultFrom;
    FaultFromMeaning(g, c, 0);
    StackMeansBracketed(c.trail, |c.trail|);
    StepsCleanMeaning(g, c);
    assert StepsClean(g, c) <==> forall k :: 0 <= k < |c.trail| ==> StepFault(g, c, k).None?;
  }

  /**
   The validator itself. It reports the first fault met, and none exactly when the
   witness is realizable.
   */
  method Validate(g: Graph, c: Claim) returns (fault: Option<Rejection>)
    ensures fault.None? <==> Realizable(g, c)
    ensures fault == Verdict(g, c)
  {
    hide Realizable, TransferFault, LinkFault, KindFault;
    AcceptedIffRealizable(g, c);
    if c.terminal.func != "" && c.terminal !in g.nodes {
      return Some(MissingNode);
    }
    if c.trail != [] && c.terminal.func != "" && c.trail[|c.trail| - 1].edge.to != c.terminal {
      return Some(Disconnected);
    }
    var callStack: seq<CallFrame> := [];
    var index := 0;
    while index < |c.trail|
      invariant index <= |c.trail|
      invariant StackAfter(c.trail, index) == Some(callStack)
      invariant Verdict(g, c) == FaultFrom(g, c, index)
    {
      var s := c.trail[index];
      fault := TransferFault(g, s, c.fact);
      if fault.Some? {
        return;
      }
      if index > 0 {
        fault := LinkFault(c.trail[index - 1], s);
        if fault.Some? {
          return;
        }
      }
      if s.edge !in g.edges {
        return Some(NonEdge);
      }
      fault := KindFault(s.edge);
      if fault.Some? {
        return;
      }
      if s.edge.kind == Call {
        callStack := callStack + [CallFrame(s.edge.site, s.edge.from.func, s.edge.to.func)];
      } else if s.edge.kind == Return {
        if callStack == [] {
          return Some(UnmatchedReturn);
        }
        var frame := callStack[|callStack| - 1];
        if frame.site != s.edge.site || frame.callee != s.edge.from.func || frame.caller != s.edge.to.func {
          return Some(UnmatchedReturn);
        }
        callStack := callStack[..|callStack| - 1];
      }
      index := index + 1;
    }
    fault := None;
  }
}
