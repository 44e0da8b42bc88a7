/**
 Block dominators by iteration to a fixpoint, and why the result is exact: it
 lists for each reachable block precisely the blocks on all ways to it.
 */
module Dominators {
  import opened Options
  import opened ControlFlow

  type DominatorMap = map<int, set<int>>
  type PredecessorMap = map<int, seq<int>>

  /** Every path from the entry to `b` passes `d`. */
  ghost predicate Dominates(c: Cfg, entry: int, d: int, b: int) {
    forall p :: Leads(c, entry, {}, p, b) ==> d in p
  }

  /** Looking up an absent key gives the empty set. */
  function At(result: DominatorMap, b: int): set<int> {
    if b in result then result[b] else {}
  }

  function PredecessorsOf(predecessors: PredecessorMap, b: int): seq<int> {
    if b in predecessors then predecessors[b] else []
  }

  // ---------------------------------------------------------------- the equations

  ghost predicate IsReachable(c: Cfg, entry: int, reachable: set<int>) {
    forall b :: b in reachable <==> Reaches(c, entry, {}, b)
  }

  ghost predicate ArePredecessors(c: Cfg, reachable: set<int>, predecessors: PredecessorMap) {
    forall b, p :: p in PredecessorsOf(predecessors, b) <==> p in reachable && b in reachable && HasEdge(c, p, b)
  }

  ghost predicate Setting(c: Cfg, entry: int, reachable: set<int>, predecessors: PredecessorMap) {
    && WellFormed(c) && entry in reachable && entry in c.successors
    && IsReachable(c, entry, reachable)
    && ArePredecessors(c, reachable, predecessors)
  }

  /** What all predecessors agree on; nothing when there are none. */
  function Meet(result: DominatorMap, predecessors: seq<int>): set<int> {
    if predecessors == [] then {}
    else if |predecessors| == 1 then At(result, predecessors[0])
    else Meet(result, predecessors[..|predecessors| - 1]) * At(result, predecessors[|predecessors| - 1])
  }

  function NextOf(result: DominatorMap, predecessors: PredecessorMap, b: int): set<int> {
    Meet(result, PredecessorsOf(predecessors, b)) + {b}
  }

  lemma {:induction false} InMeet(result: DominatorMap, predecessors: seq<int>, d: int)
    requires predecessors != []
    ensures d in Meet(result, predecessors) <==> forall p :: p in predecessors ==> d in At(result, p)
    decreases |predecessors|
  {
    if |predecessors| > 1 {
      var k := |predecessors| - 1;
      InMeet(result, predecessors[..k], d);
      assert predecessors == predecessors[..k] + [predecessors[k]];
    }
  }

  ghost predicate Below(smaller: DominatorMap, larger: DominatorMap) {
    forall b :: At(smaller, b) <= At(larger, b)
  }

  lemma {:induction false} MeetMonotone(smaller: DominatorMap, larger: DominatorMap, predecessors: seq<int>)
    requires Below(smaller, larger)
    ensures Meet(smaller, predecessors) <= Meet(larger, predecessors)
    decreases |predecessors|
  {
    if |predecessors| > 1 {
      MeetMonotone(smaller, larger, predecessors[..|predecessors| - 1]);
    }
  }

  // ---------------------------------------------------------------- facts about dominance

  lemma HasPredecessor(c: Cfg, entry: int, reachable: set<int>, predecessors: PredecessorMap, b: int)
    requires Setting(c, entry, reachable, predecessors) && b in reachable && b != entry
    ensures PredecessorsOf(predecessors, b) != []
  {
    var p :| Leads(c, entry, {}, p, b);
    var k := |p| - 1;
    assert k > 0;
    assert Leads(c, entry, {}, p[..k], p[k - 1]);
    assert HasEdge(c, p[k - 1], b) && p[k - 1] in reachable;
    assert p[k - 1] in PredecessorsOf(predecessors, b);
  }

  lemma DominatesPredecessor(c: Cfg, entry: int, d: int, p: int, b: int)
    requires Dominates(c, entry, d, b) && d != b && HasEdge(c, p, b)
    ensures Dominates(c, entry, d, p)
  {
    forall q | Leads(c, entry, {}, q, p)
      ensures d in q
    {
      LeadsStep(c, entry, {}, q, p, b);
      assert d in q + [b];
    }
  }

  lemma DominatesSelf(c: Cfg, entry: int, b: int)
    ensures Dominates(c, entry, b, b)
  {
    forall p | Leads(c, entry, {}, p, b)
      ensures b in p
    {
      assert p[|p| - 1] == b;
    }
  }

  lemma OnlyEntryDominatesEntry(c: Cfg, entry: int, d: int)
    requires entry in c.successors && Dominates(c, entry, d, entry)
    ensures d == entry
  {
    assert Leads(c, entry, {}, [entry], entry);
  }

  lemma DominatorReachable(c: Cfg, entry: int, d: int, b: int)
    requires Dominates(c, entry, d, b) && Reaches(c, entry, {}, b)
    ensures Reaches(c, entry, {}, d)
  {
    var p :| Leads(c, entry, {}, p, b);
    var i :| 0 <= i < |p| && p[i] == d;
    assert Leads(c, entry, {}, p[..i + 1], d);
  }

  // ---------------------------------------------------------------- the state of the iteration

  /** No true dominator has been struck out. */
  ghost predicate Above(c: Cfg, entry: int, reachable: set<int>, result: DominatorMap) {
    forall b, d :: b in reachable && Dominates(c, entry, d, b) ==> d in At(result, b)
  }

  /** Each set is at least what its predecessors agree on now. */
  ghost predicate Descending(entry: int, reachable: set<int>, predecessors: PredecessorMap, result: DominatorMap) {
    forall b :: b in reachable && b != entry ==> NextOf(result, predecessors, b) <= At(result, b)
  }

  ghost predicate Shrinking(c: Cfg, entry: int, reachable: set<int>, predecessors: PredecessorMap,
                            result: DominatorMap) {
    && result.Keys == reachable
    && At(result, entry) == {entry}
    && Above(c, entry, reachable, result)
    && Descending(entry, reachable, predecessors, result)
  }

  lemma StartShrinking(c: Cfg, entry: int, reachable: set<int>, predecessors: PredecessorMap, result: DominatorMap)
    requires Setting(c, entry, reachable, predecessors)
    requires result == map b | b in reachable :: if b == entry then {entry} else reachable
    ensures Shrinking(c, entry, reachable, predecessors, result)
  {
    forall b, d | b in reachable && Dominates(c, entry, d, b)
      ensures d in At(result, b)
    {
      if b == entry {
        OnlyEntryDominatesEntry(c, entry, d);
      } else {
        DominatorReachable(c, entry, d, b);
      }
    }
    forall b | b in reachable && b != entry
      ensures NextOf(result, predecessors, b) <= At(result, b)
    {
      MeetWithin(result, reachable, PredecessorsOf(predecessors, b));
    }
  }

  lemma {:induction false} MeetWithin(result: DominatorMap, bound: set<int>, predecessors: seq<int>)
    requires forall b :: At(result, b) <= bound
    ensures Meet(result, predecessors) <= bound
    decreases |predecessors|
  {
    if |predecessors| > 1 {
      MeetWithin(result, bound, predecessors[..|predecessors| - 1]);
    }
  }

  // ---------------------------------------------------------------- one update

  lemma NextAbove(c: Cfg, entry: int, reachable: set<int>, predecessors: PredecessorMap, result: DominatorMap, b: int,
                  d: int)
    requires Setting(c, entry, reachable, predecessors) && Above(c, entry, reachable, result)
    requires b in reachable && b != entry && Dominates(c, entry, d, b)
    ensures d in NextOf(result, predecessors, b)
  {
    if d != b {
      HasPredecessor(c, entry, reachable, predecessors, b);
      InMeet(result, PredecessorsOf(predecessors, b), d);
      forall p | p in PredecessorsOf(predecessors, b)
        ensures d in At(result, p)
      {
        DominatesPredecessor(c, entry, d, p, b);
      }
    }
  }

  lemma UpdateDescends(entry: int, reachable: set<int>, predecessors: PredecessorMap, result: DominatorMap, b: int)
    requires Descending(entry, reachable, predecessors, result) && b in reachable && b != entry && b in result
    ensures Descending(entry, reachable, predecessors, result[b := NextOf(result, predecessors, b)])
  {
    var next := result[b := NextOf(result, predecessors, b)];
    assert Below(next, result);
    forall x | x in reachable && x != entry
      ensures NextOf(next, predecessors, x) <= At(next, x)
    {
      MeetMonotone(next, result, PredecessorsOf(predecessors, x));
    }
  }

  lemma UpdateShrinks(c: Cfg, entry: int, reachable: set<int>, predecessors: PredecessorMap, result: DominatorMap,
                      b: int)
    requires Setting(c, entry, reachable, predecessors) && Shrinking(c, entry, reachable, predecessors, result)
    requires b in reachable && b != entry
    ensures NextOf(result, predecessors, b) <= At(result, b)
    ensures Shrinking(c, entry, reachable, predecessors, result[b := NextOf(result, predecessors, b)])
  {
    UpdateDescends(entry, reachable, predecessors, result, b);
    forall d | Dominates(c, entry, d, b)
      ensures d in NextOf(result, predecessors, b)
    {
      NextAbove(c, entry, reachable, predecessors, result, b, d);
    }
  }

  // ---------------------------------------------------------------- the fixpoint

  ghost predicate IsFixpoint(entry: int, reachable: set<int>, predecessors: PredecessorMap, result: DominatorMap) {
    forall b :: b in reachable && b != entry ==> At(result, b) == NextOf(result, predecessors, b)
  }

  lemma {:induction false} FixpointOnPath(c: Cfg, entry: int, reachable: set<int>, predecessors: PredecessorMap,
                                         result: DominatorMap, d: int, p: seq<int>, b: int)
    requires Setting(c, entry, reachable, predecessors) && At(result, entry) == {entry}
    requires IsFixpoint(entry, reachable, predecessors, result)
    requires Leads(c, entry, {}, p, b) && d in At(result, b)
    ensures d in p
    decreases |p|
  {
    if b == entry {
      assert p[0] == d;
    } else if d == b {
      assert p[|p| - 1] == d;
    } else {
      var k := |p| - 1;
      var a := p[k - 1];
      assert b in reachable;
      assert Leads(c, entry, {}, p[..k], a);
      assert HasEdge(c, a, b) && a in reachable;
      assert a in PredecessorsOf(predecessors, b);
      InMeet(result, PredecessorsOf(predecessors, b), d);
      FixpointOnPath(c, entry, reachable, predecessors, result, d, p[..k], a);
    }
  }

  ghost predicate Exact(c: Cfg, entry: int, result: DominatorMap) {
    && (forall b :: b in result <==> Reaches(c, entry, {}, b))
    && (forall b, d :: b in result ==> (d in result[b] <==> Dominates(c, entry, d, b)))
  }

  lemma FixpointExact(c: Cfg, entry: int, reachable: set<int>, predecessors: PredecessorMap, result: DominatorMap)
    requires Setting(c, entry, reachable, predecessors) && Shrinking(c, entry, reachable, predecessors, result)
    requires IsFixpoint(entry, reachable, predecessors, result)
    ensures Exact(c, entry, result)
  {
    forall b, d | b in result && d in result[b]
      ensures Dominates(c, entry, d, b)
    {
      forall p | Leads(c, entry, {}, p, b)
        ensures d in p
      {
        FixpointOnPath(c, entry, reachable, predecessors, result, d, p, b);
      }
    }
    forall b, d | b in result && Dominates(c, entry, d, b)
      ensures d in result[b]
    {
      assert d in At(result, b);
    }
  }

  // ---------------------------------------------------------------- termination

  ghost function Size(result: DominatorMap, blocks: seq<int>): nat {
    if blocks == [] then 0 else |At(result, blocks[0])| + Size(result, blocks[1..])
  }

  lemma SubsetSize(a: set<int>, b: set<int>)
    requires a <= b
    ensures |a| <= |b| && (a != b ==> |a| < |b|)
  {
    assert b == a + (b - a);
    if a != b {
      assert b - a != {};
    }
  }

  lemma {:induction false} SizeShrinks(result: DominatorMap, b: int, smaller: set<int>, blocks: seq<int>)
    requires b in result && smaller <= result[b]
    ensures Size(result[b := smaller], blocks) <= Size(result, blocks)
    ensures smaller != result[b] && b in blocks ==> Size(result[b := smaller], blocks) < Size(result, blocks)
    decreases |blocks|
  {
    SubsetSize(smaller, result[b]);
    if blocks != [] {
      SizeShrinks(result, b, smaller, blocks[1..]);
      assert blocks == [blocks[0]] + blocks[1..];
    }
  }

  // ---------------------------------------------------------------- the algorithm

  /** `entry` is the first block listed. */
  ghost predicate IsEntry(c: Cfg, entry: int) {
    exists i :: 0 <= i < |c.blocks| && c.blocks[i] == Some(entry) && forall k :: 0 <= k < i ==> c.blocks[k].None?
  }

  method EntryBlock(c: Cfg) returns (entry: Option<int>)
    ensures entry.None? <==> forall b :: Some(b) !in c.blocks
    ensures entry.Some? ==> IsEntry(c, entry.value)
  {
    var i := 0;
    while i < |c.blocks|
      invariant 0 <= i <= |c.blocks|
      invariant forall k :: 0 <= k < i ==> c.blocks[k].None?
    {
      if c.blocks[i].Some? {
        entry := c.blocks[i];
        assert Some(entry.value) in c.blocks && IsEntry(c, entry.value);
        return;
      }
      i := i + 1;
    }
    return None;
  }

  method AddPredecessor(successors: seq<Option<int>>, reachable: set<int>, before: PredecessorMap, a: int)
    returns (after: PredecessorMap)
    ensures forall b, p :: p in PredecessorsOf(after, b) <==>
                           p in PredecessorsOf(before, b) || (p == a && b in reachable && Some(b) in successors)
  {
    after := before;
    var j := 0;
    while j < |successors|
      invariant 0 <= j <= |successors|
      invariant forall b, p :: p in PredecessorsOf(after, b) <==>
                               p in PredecessorsOf(before, b)
                                 || (p == a && b in reachable && Some(b) in successors[..j])
    {
      var s := successors[j];
      assert successors[..j + 1] == successors[..j] + [s];
      assert forall b :: Some(b) in successors[..j + 1] <==> Some(b) in successors[..j] || Some(b) == s;
      if s.Some? && s.value in reachable {
        ghost var known := after;
        after := after[s.value := PredecessorsOf(after, s.value) + [a]];
        assert forall b :: PredecessorsOf(after, b) ==
                           if b == s.value then PredecessorsOf(known, b) + [a] else PredecessorsOf(known, b);
        assert forall p :: p in PredecessorsOf(known, s.value) + [a] <==> p in PredecessorsOf(known, s.value) || p == a;
      }
      j := j + 1;
    }
    assert successors[..j] == successors;
  }

  /** Reachable blocks in listed order, and for each its reachable predecessors. */
  method ListBlocks(c: Cfg, entry: int, reachable: set<int>) returns (blocks: seq<int>, predecessors: PredecessorMap)
    requires WellFormed(c) && reachable <= c.successors.Keys
    ensures forall b :: b in blocks <==> b in reachable
    ensures ArePredecessors(c, reachable, predecessors)
  {
    blocks := [];
    predecessors := map[];
    var i := 0;
    while i < |c.blocks|
      invariant 0 <= i <= |c.blocks|
      invariant forall b :: b in blocks <==> Some(b) in c.blocks[..i] && b in reachable
      invariant forall b, p ::
        p in PredecessorsOf(predecessors, b) <==> p in blocks && b in reachable && HasEdge(c, p, b)
    {
      var block := c.blocks[i];
      assert c.blocks[..i + 1] == c.blocks[..i] + [block];
      if block.Some? && block.value in reachable {
        predecessors := AddPredecessor(c.successors[block.value], reachable, predecessors, block.value);
        blocks := blocks + [block.value];
      }
      i := i + 1;
    }
    assert c.blocks[..i] == c.blocks;
  }

  /** Copies the first predecessor's set and strikes out what the others lack. */
  method MeetOf(result: DominatorMap, predecessors: seq<int>) returns (next: set<int>)
    ensures next == Meet(result, predecessors)
  {
    next := {};
    var i := 0;
    while i < |predecessors|
      invariant 0 <= i <= |predecessors|
      invariant next == Meet(result, predecessors[..i])
    {
      var agreed := At(result, predecessors[i]);
      if i == 0 {
        next := agreed;
      } else {
        next := set d | d in next && d in agreed;
      }
      assert predecessors[..i + 1][..i] == predecessors[..i];
      i := i + 1;
    }
    assert predecessors[..i] == predecessors;
  }

  /** One pass over the blocks, in place; it changes nothing only at the fixpoint. */
  method Pass(c: Cfg, entry: int, blocks: seq<int>, predecessors: PredecessorMap, before: DominatorMap,
              ghost reachable: set<int>)
    returns (result: DominatorMap, changed: bool)
    requires Setting(c, entry, reachable, predecessors) && Shrinking(c, entry, reachable, predecessors, before)
    requires forall b :: b in blocks <==> b in reachable
    ensures Shrinking(c, entry, reachable, predecessors, result)
    ensures changed ==> Size(result, blocks) < Size(before, blocks)
    ensures !changed ==> result == before && IsFixpoint(entry, reachable, predecessors, result)
  {
    hide Setting, Above, Descending, Meet;
    result, changed := before, false;
    var i := 0;
    while i < |blocks|
      invariant 0 <= i <= |blocks|
      invariant Shrinking(c, entry, reachable, predecessors, result)
      invariant changed ==> Size(result, blocks) < Size(before, blocks)
      invariant !changed ==> result == before
      invariant !changed ==> forall k :: 0 <= k < i && blocks[k] != entry ==>
        At(result, blocks[k]) == NextOf(result, predecessors, blocks[k])
    {
      var b := blocks[i];
      if b != entry {
        var agreed := MeetOf(result, PredecessorsOf(predecessors, b));
        var next := agreed + {b};
        UpdateShrinks(c, entry, reachable, predecessors, result, b);
        if At(result, b) != next {
          SizeShrinks(result, b, next, blocks);
          result := result[b := next];
          changed := true;
        }
      }
      i := i + 1;
    }
  }

  /** Dominators of every reachable block, on any graph, loops into the entry included. */
  method BlockDominators(c: Cfg) returns (result: DominatorMap, entry: Option<int>)
    requires WellFormed(c)
    ensures entry.None? <==> forall b :: Some(b) !in c.blocks
    ensures entry.None? ==> result == map[]
    ensures entry.Some? ==> IsEntry(c, entry.value) && Exact(c, entry.value, result)
  {
    entry := EntryBlock(c);
    if entry.None? {
      return map[], None;
    }
    var root := entry.value;
    var reachable := Search(c, root, {});
    ReachesSelf(c, root, {});
    var blocks, predecessors := ListBlocks(c, root, reachable);
    result := map b | b in reachable :: if b == root then {root} else reachable;
    StartShrinking(c, root, reachable, predecessors, result);
    var changed := true;
    while changed
      invariant Shrinking(c, root, reachable, predecessors, result)
      invariant !changed ==> IsFixpoint(root, reachable, predecessors, result)
      decreases Size(result, blocks), changed
    {
      result, changed := Pass(c, root, blocks, predecessors, result, reachable);
    }
    FixpointExact(c, root, reachable, predecessors, result);
  }
}
