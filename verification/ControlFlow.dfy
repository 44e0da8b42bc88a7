/**
 Control-flow graphs as block indices with successor lists, paths through them,
 and the breadth-first searches the analysis runs on them.

 A block list or a successor list may hold nil entries; the searches skip them.
 */
module ControlFlow {
  import opened Options
  import Ordering

  datatype Cfg = Cfg(blocks: seq<Option<int>>, successors: map<int, seq<Option<int>>>)

  /** Every listed block and every successor is a block of the graph, and every block is listed. */
  ghost predicate WellFormed(c: Cfg) {
    && (forall b :: Some(b) in c.blocks <==> b in c.successors)
    && (forall b, s :: b in c.successors && Some(s) in c.successors[b] ==> s in c.successors)
  }

  predicate HasEdge(c: Cfg, a: int, b: int) {
    a in c.successors && Some(b) in c.successors[a]
  }

  ghost predicate IsPath(c: Cfg, p: seq<int>) {
    p != [] && p[0] in c.successors && forall i :: 0 < i < |p| ==> HasEdge(c, p[i - 1], p[i])
  }

  /** A path from `a` to `b` that passes no block of `stop` on the way; it may end in one. */
  ghost predicate Leads(c: Cfg, a: int, stop: set<int>, p: seq<int>, b: int) {
    && IsPath(c, p) && p[0] == a && p[|p| - 1] == b
    && forall i :: 0 <= i < |p| - 1 ==> p[i] !in stop
  }

  ghost predicate Reaches(c: Cfg, a: int, stop: set<int>, b: int) {
    exists p :: Leads(c, a, stop, p, b)
  }

  lemma SuccessorListed(c: Cfg, b: int, s: int)
    requires WellFormed(c) && b in c.successors && Some(s) in c.successors[b]
    ensures s in c.successors
  {
  }

  lemma LeadsStep(c: Cfg, a: int, stop: set<int>, p: seq<int>, b: int, s: int)
    requires Leads(c, a, stop, p, b) && HasEdge(c, b, s) && b !in stop
    ensures Leads(c, a, stop, p + [s], s)
  {
  }

  lemma ReachesStep(c: Cfg, a: int, stop: set<int>, b: int, s: int)
    requires Reaches(c, a, stop, b) && HasEdge(c, b, s) && b !in stop
    ensures Reaches(c, a, stop, s)
  {
    var p :| Leads(c, a, stop, p, b);
    LeadsStep(c, a, stop, p, b, s);
  }

  lemma ReachesSelf(c: Cfg, a: int, stop: set<int>)
    requires a in c.successors
    ensures Reaches(c, a, stop, a)
  {
    assert Leads(c, a, stop, [a], a);
  }

  /** What a search knows: everything seen or queued is reachable, and nothing reachable is forgotten. */
  ghost predicate Searching(c: Cfg, start: int, stop: set<int>, seen: set<int>, queue: seq<Option<int>>) {
    && (forall b :: b in seen ==> b in c.successors && Reaches(c, start, stop, b))
    && (forall b :: Some(b) in queue ==> b in c.successors && Reaches(c, start, stop, b))
    && (start in seen || Some(start) in queue)
    && (forall b, s :: b in seen && b !in stop && HasEdge(c, b, s) ==> s in seen || Some(s) in queue)
  }

  lemma {:induction false} SearchedAlong(c: Cfg, start: int, stop: set<int>, seen: set<int>, p: seq<int>, b: int)
    requires Searching(c, start, stop, seen, []) && Leads(c, start, stop, p, b)
    ensures b in seen
    decreases |p|
  {
    if |p| > 1 {
      var k := |p| - 1;
      SearchedAlong(c, start, stop, seen, p[..k], p[k - 1]);
      assert HasEdge(c, p[k - 1], p[k]);
    }
  }

  /** A finished search has seen exactly what is reachable. */
  lemma SearchExact(c: Cfg, start: int, stop: set<int>, seen: set<int>)
    requires Searching(c, start, stop, seen, [])
    ensures forall b :: b in seen <==> Reaches(c, start, stop, b)
  {
    forall b | Reaches(c, start, stop, b)
      ensures b in seen
    {
      var p :| Leads(c, start, stop, p, b);
      SearchedAlong(c, start, stop, seen, p, b);
    }
  }

  lemma SearchStarts(c: Cfg, start: int, stop: set<int>)
    requires start in c.successors
    ensures Searching(c, start, stop, {}, [Some(start)])
  {
    ReachesSelf(c, start, stop);
  }

  lemma SearchSkips(c: Cfg, start: int, stop: set<int>, seen: set<int>, queue: seq<Option<int>>)
    requires queue != [] && Searching(c, start, stop, seen, queue)
    requires queue[0].None? || queue[0].value in seen
    ensures Searching(c, start, stop, seen, queue[1..])
  {
    assert queue == [queue[0]] + queue[1..];
  }

  lemma SearchVisits(c: Cfg, start: int, stop: set<int>, seen: set<int>, queue: seq<Option<int>>)
    requires WellFormed(c) && queue != [] && Searching(c, start, stop, seen, queue)
    requires queue[0].Some?
    ensures var b := queue[0].value;
            Searching(c, start, stop, seen + {b}, queue[1..] + if b in stop then [] else c.successors[b])
  {
    var b := queue[0].value;
    var rest := queue[1..];
    var more := if b in stop then [] else c.successors[b];
    assert queue == [queue[0]] + rest;
    forall s | Some(s) in rest + more
      ensures s in c.successors && Reaches(c, start, stop, s)
    {
      if Some(s) in more {
        ReachesStep(c, start, stop, b, s);
      } else {
        assert Some(s) in rest;
      }
    }
  }

  /** Reachability from one block, through blocks outside `stop` only. */
  method Search(c: Cfg, start: int, stop: set<int>) returns (seen: set<int>)
    requires WellFormed(c) && start in c.successors
    ensures forall b :: b in seen <==> Reaches(c, start, stop, b)
    ensures seen <= c.successors.Keys
  {
    hide Searching, Reaches;
    seen := {};
    var queue: seq<Option<int>> := [Some(start)];
    SearchStarts(c, start, stop);
    while |queue| > 0
      invariant seen <= c.successors.Keys
      invariant Searching(c, start, stop, seen, queue)
      decreases |c.successors.Keys - seen|, |queue|
    {
      var block := queue[0];
      if block.None? || block.value in seen {
        SearchSkips(c, start, stop, seen, queue);
        queue := queue[1..];
        continue;
      }
      SearchVisits(c, start, stop, seen, queue);
      var b := block.value;
      assert c.successors.Keys - (seen + {b}) == (c.successors.Keys - seen) - {b};
      seen := seen + {b};
      assert queue[1..] + [] == queue[1..];
      queue := queue[1..];
      if b !in stop {
        queue := queue + c.successors[b];
      }
    }
    SearchExact(c, start, stop, seen);
  }

  /** The successors worth queueing: neither nil nor seen. */
  function Unseen(seen: set<int>, successors: seq<Option<int>>): seq<Option<int>> {
    if successors == [] then []
    else
      var rest := Unseen(seen, successors[..|successors| - 1]);
      var s := successors[|successors| - 1];
      if s.Some? && s.value !in seen then rest + [s] else rest
  }

  lemma {:induction false} InUnseen(seen: set<int>, successors: seq<Option<int>>, s: Option<int>)
    ensures s in Unseen(seen, successors) <==> s in successors && s.Some? && s.value !in seen
    decreases |successors|
  {
    if successors != [] {
      var k := |successors| - 1;
      InUnseen(seen, successors[..k], s);
      assert successors == successors[..k] + [successors[k]];
    }
  }

  lemma SearchVisitsUnseen(c: Cfg, start: int, seen: set<int>, queue: seq<Option<int>>, b: int)
    requires WellFormed(c) && queue != [] && queue[0] == Some(b) && Searching(c, start, {}, seen, queue)
    ensures b in c.successors
    ensures Searching(c, start, {}, seen + {b}, queue[1..] + Unseen(seen + {b}, c.successors[b]))
  {
    SearchVisits(c, start, {}, seen, queue);
    var less, more := queue[1..] + Unseen(seen + {b}, c.successors[b]), queue[1..] + c.successors[b];
    forall s: int
      ensures Some(s) in less ==> Some(s) in more
      ensures Some(s) in more ==> Some(s) in less || s in seen + {b}
    {
      InUnseen(seen + {b}, c.successors[b], Some(s));
    }
  }

  predicate IntLeq(a: int, b: int) {
    a <= b
  }

  /** The blocks reachable from `start`, listed in index order without repetition. */
  method CollectReachable(c: Cfg, start: int) returns (listed: seq<int>)
    requires WellFormed(c) && start in c.successors
    ensures forall b :: b in listed <==> Reaches(c, start, {}, b)
    ensures forall i, j :: 0 <= i < j < |listed| ==> listed[i] < listed[j]
  {
    hide Searching, Reaches;
    var seen := {};
    var queue: seq<Option<int>> := [Some(start)];
    listed := [];
    SearchStarts(c, start, {});
    while |queue| > 0
      invariant seen <= c.successors.Keys
      invariant Searching(c, start, {}, seen, queue)
      invariant (forall b :: b in listed <==> b in seen) && Ordering.Distinct(listed)
      decreases |c.successors.Keys - seen|, |queue|
    {
      var block := queue[0];
      if block.None? || block.value in seen {
        SearchSkips(c, start, {}, seen, queue);
        queue := queue[1..];
        continue;
      }
      var b := block.value;
      SearchVisitsUnseen(c, start, seen, queue, b);
      assert c.successors.Keys - (seen + {b}) == (c.successors.Keys - seen) - {b};
      seen := seen + {b};
      listed := listed + [b];
      queue := queue[1..] + Unseen(seen, c.successors[b]);
    }
    SearchExact(c, start, {}, seen);
    assert Ordering.TotalOrder(IntLeq);
    Ordering.SortSorted(IntLeq, listed);
    Ordering.SortKeepsElements(IntLeq, listed);
    listed := Ordering.Sort(IntLeq, listed);
  }

  /** The first node of some non-empty block that is met when empty blocks are passed over. */
  ghost predicate EntryMet<Node(!new)>(c: Cfg, start: int, entries: map<int, Node>, n: Node) {
    exists b :: b in entries && entries[b] == n && Reaches(c, start, entries.Keys, b)
  }

  ghost predicate EntriesSeen<Node(!new)>(entries: map<int, Node>, seen: set<int>, found: seq<Node>) {
    && (forall n :: n in found <==> exists b :: b in entries && entries[b] == n && b in seen)
    && Ordering.Distinct(found)
  }

  lemma EntriesMet<Node(!new)>(c: Cfg, start: int, entries: map<int, Node>, seen: set<int>, found: seq<Node>)
    requires Searching(c, start, entries.Keys, seen, []) && EntriesSeen(entries, seen, found)
    ensures forall n :: n in found <==> EntryMet(c, start, entries, n)
  {
    SearchExact(c, start, entries.Keys, seen);
  }

  /**
   The entries of exactly the non-empty blocks reachable through empty blocks only,
   each once, in node order; it ends on cyclic graphs too.
   */
  method NonEmptySuccessorEntries<Node(==, !new)>(c: Cfg, start: Option<int>, entries: map<int, Node>,
                                                  order: (Node, Node) -> bool)
    returns (result: seq<Node>)
    requires WellFormed(c) && (start.Some? ==> start.value in c.successors) && Ordering.TotalOrder(order)
    ensures forall n :: n in result <==> start.Some? && EntryMet(c, start.value, entries, n)
    ensures Ordering.Distinct(result) && Ordering.Sorted(order, result)
  {
    hide Searching, Reaches, EntriesSeen, EntryMet, Ordering.TotalOrder, Ordering.Sorted, Ordering.Distinct, WellFormed;
    if start.None? {
      result := [];
      assert Ordering.Distinct(result) && Ordering.Sorted(order, result) by {
        NothingListed(order);
      }
      return;
    }
    var seen := {};
    var found := [];
    var queue: seq<Option<int>> := [start];
    SearchStarts(c, start.value, entries.Keys);
    NoEntriesSeen(entries);
    while |queue| > 0
      invariant seen <= c.successors.Keys
      invariant Searching(c, start.value, entries.Keys, seen, queue)
      invariant EntriesSeen(entries, seen, found)
      decreases |c.successors.Keys - seen|, |queue|
    {
      var block := queue[0];
      if block.None? || block.value in seen {
        SearchSkips(c, start.value, entries.Keys, seen, queue);
        queue := queue[1..];
        continue;
      }
      SearchVisits(c, start.value, entries.Keys, seen, queue);
      var b := block.value;
      assert c.successors.Keys - (seen + {b}) == (c.successors.Keys - seen) - {b};
      ghost var before, known := found, seen;
      seen := seen + {b};
      assert queue[1..] + [] == queue[1..];
      queue := queue[1..];
      if b in entries {
        if entries[b] !in found {
          found := found + [entries[b]];
        }
      } else {
        queue := queue + c.successors[b];
      }
      MoreEntriesSeen(entries, known, before, b, found);
    }
    EntriesListed(c, start.value, entries, seen, found, order);
    result := Ordering.Sort(order, found);
  }

  lemma EntriesListed<Node(!new)>(c: Cfg, start: int, entries: map<int, Node>, seen: set<int>, found: seq<Node>,
                                  order: (Node, Node) -> bool)
    requires Searching(c, start, entries.Keys, seen, []) && EntriesSeen(entries, seen, found)
             && Ordering.TotalOrder(order)
    ensures forall n :: n in Ordering.Sort(order, found) <==> EntryMet(c, start, entries, n)
    ensures Ordering.Distinct(Ordering.Sort(order, found)) && Ordering.Sorted(order, Ordering.Sort(order, found))
  {
    EntriesMet(c, start, entries, seen, found);
    Ordering.SortSorted(order, found);
    Ordering.SortKeepsElements(order, found);
  }

  lemma MoreEntriesSeen<Node(!new)>(entries: map<int, Node>, seen: set<int>, found: seq<Node>, b: int, more: seq<Node>)
    requires EntriesSeen(entries, seen, found)
    requires more == if b in entries && entries[b] !in found then found + [entries[b]] else found
    ensures EntriesSeen(entries, seen + {b}, more)
  {
  }

  lemma NothingListed<Node>(order: (Node, Node) -> bool)
    ensures Ordering.Distinct<Node>([]) && Ordering.Sorted(order, [])
  {
  }

  lemma NoEntriesSeen<Node(!new)>(entries: map<int, Node>)
    ensures EntriesSeen(entries, {}, [])
  {
  }
}
