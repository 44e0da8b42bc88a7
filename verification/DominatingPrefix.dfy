/**
 The mandatory prefix of a fact's origin: branch edges read off the dominators of
 the origin block, when such an edge really is on every way there, and why the
 extracted formula then holds on every execution that reaches the origin.
 */
module DominatingPrefix {
  import opened Options
  import opened ControlFlow
  import opened Dominators
  import opened Constraints
  import opened Conditions
  import opened Branches

  // ---------------------------------------------------------------- when an edge is on every path

  ghost predicate Crosses(p: seq<int>, b: int, s: int) {
    exists i :: 0 <= i < |p| - 1 && p[i] == b && p[i + 1] == s
  }

  /** Every path from the entry to `target` takes the edge from `b` to `s`. */
  ghost predicate OnEveryPath(c: Cfg, entry: int, b: int, s: int, target: int) {
    forall p :: Leads(c, entry, {}, p, target) ==> Crosses(p, b, s)
  }

  /** Whoever else leads to `s` is itself behind `s`: there is no first way in but from `b`. */
  ghost predicate SoleEntrance(c: Cfg, entry: int, b: int, s: int) {
    && s != entry
    && forall q :: Reaches(c, entry, {}, q) && HasEdge(c, q, s) && q != b ==> Dominates(c, entry, s, q)
  }

  lemma {:induction false} FirstOccurrence(p: seq<int>, s: int) returns (i: nat)
    requires s in p
    ensures i < |p| && p[i] == s && s !in p[..i]
  {
    if p[0] == s {
      return 0;
    }
    i := FirstOccurrence(p[1..], s);
    i := i + 1;
    assert p[..i] == [p[0]] + p[1..][..i - 1];
  }

  lemma {:induction false} LastOccurrence(p: seq<int>, s: int) returns (i: nat)
    requires s in p
    ensures i < |p| && p[i] == s && s !in p[i + 1..]
  {
    var k := |p| - 1;
    if p[k] == s {
      return k;
    }
    assert s in p[..k];
    i := LastOccurrence(p[..k], s);
    assert p[i + 1..] == p[..k][i + 1..] + [p[k]];
  }

  lemma EntranceCrossed(c: Cfg, entry: int, b: int, s: int, p: seq<int>, target: int)
    requires SoleEntrance(c, entry, b, s) && Leads(c, entry, {}, p, target) && s in p
    ensures Crosses(p, b, s)
  {
    var i := FirstOccurrence(p, s);
    assert i > 0;
    var q := p[i - 1];
    assert Leads(c, entry, {}, p[..i], q);
    assert HasEdge(c, p[i - 1], p[i]);
    if q != b {
      assert Dominates(c, entry, s, q);
    }
  }

  /** From `s` on without meeting `s` again. */
  lemma WayWithoutReturn(c: Cfg, entry: int, s: int, target: int) returns (p: seq<int>)
    requires WellFormed(c) && Reaches(c, entry, {}, target) && Dominates(c, entry, s, target)
    ensures Leads(c, s, {}, p, target) && s !in p[1..]
  {
    var whole :| Leads(c, entry, {}, whole, target);
    var i := LastOccurrence(whole, s);
    if i > 0 {
      assert HasEdge(c, whole[i - 1], s);
    }
    p := whole[i..];
    assert p[1..] == whole[i + 1..];
    forall k | 0 < k < |p|
      ensures HasEdge(c, p[k - 1], p[k])
    {
      assert HasEdge(c, whole[i + k - 1], whole[i + k]);
    }
  }

  lemma OtherEntranceAvoids(c: Cfg, entry: int, b: int, s: int, target: int, q: int, approach: seq<int>)
    requires WellFormed(c) && Reaches(c, entry, {}, target) && Dominates(c, entry, s, target)
    requires Leads(c, entry, {}, approach, q) && s !in approach && HasEdge(c, q, s) && q != b
    ensures !OnEveryPath(c, entry, b, s, target)
  {
    var tail := WayWithoutReturn(c, entry, s, target);
    var p := approach + tail;
    var n := |approach|;
    forall i | 0 < i < |p|
      ensures HasEdge(c, p[i - 1], p[i])
    {
      if i > n {
        assert HasEdge(c, tail[i - n - 1], tail[i - n]);
      }
    }
    assert Leads(c, entry, {}, p, target);
    forall i | 0 <= i < |p| && i != n
      ensures p[i] != s
    {
      assert p[i] == if i < n then approach[i] else tail[1..][i - n - 1];
    }
    assert p[n - 1] == q && !Crosses(p, b, s);
  }

  /**
   Given that `s` is passed on every way to `target`: the edge from `b` is taken on
   every way exactly when `b` is the only entrance of `s`.
   */
  lemma EdgeOnEveryPath(c: Cfg, entry: int, b: int, s: int, target: int)
    requires WellFormed(c) && Reaches(c, entry, {}, target) && Dominates(c, entry, s, target)
    ensures OnEveryPath(c, entry, b, s, target) <==> SoleEntrance(c, entry, b, s)
  {
    if SoleEntrance(c, entry, b, s) {
      forall p | Leads(c, entry, {}, p, target)
        ensures Crosses(p, b, s)
      {
        EntranceCrossed(c, entry, b, s, p, target);
      }
    } else if s == entry {
      var p := WayWithoutReturn(c, entry, s, target);
      forall i | 0 < i < |p|
        ensures p[i] != s
      {
        assert p[i] == p[1..][i - 1];
      }
      assert Leads(c, entry, {}, p, target) && !Crosses(p, b, s);
    } else {
      var q :| Reaches(c, entry, {}, q) && HasEdge(c, q, s) && q != b && !Dominates(c, entry, s, q);
      var approach :| Leads(c, entry, {}, approach, q) && s !in approach;
      OtherEntranceAvoids(c, entry, b, s, target, q, approach);
    }
  }

  /** In particular a successor with the branch block as its only reachable predecessor. */
  lemma SolePredecessorSuffices(c: Cfg, entry: int, b: int, s: int, target: int)
    requires WellFormed(c) && Reaches(c, entry, {}, target) && Dominates(c, entry, s, target) && s != entry
    requires forall q :: Reaches(c, entry, {}, q) && HasEdge(c, q, s) ==> q == b
    ensures OnEveryPath(c, entry, b, s, target)
  {
    EdgeOnEveryPath(c, entry, b, s, target);
  }

  // ---------------------------------------------------------------- what the extractor picks

  predicate Within(target: set<int>, b: Option<int>) {
    b.Some? && b.value in target
  }

  /** The polarity admitted at a block: exactly one of its two successors dominates the target. */
  function Picked(c: Cfg, branches: BranchMap, over: set<int>, target: int, b: int): Option<bool> {
    if b == target || b !in over || !TwoWay(c, b) || b !in branches then None
    else
      var whenTrue, whenFalse := Within(over, c.successors[b][0]), Within(over, c.successors[b][1]);
      if whenTrue == whenFalse then None else Some(whenTrue)
  }

  /**
   In terms of dominance: one that dominates the target, ends in a two-way branch, and of
   whose successors the one that was picked dominates the target and the other does not.
   */
  lemma PickedExactly(c: Cfg, entry: int, branches: BranchMap, dominators: DominatorMap, target: int, b: int,
                      truthy: bool)
    requires Exact(c, entry, dominators) && target in dominators
    ensures Picked(c, branches, dominators[target], target, b) == Some(truthy) <==>
            && b != target && Dominates(c, entry, b, target)
            && b in c.successors && |c.successors[b]| == 2 && b in branches
            && LeadsOnlyThrough(c, entry, c.successors[b][if truthy then 0 else 1], target)
            && !LeadsOnlyThrough(c, entry, c.successors[b][if truthy then 1 else 0], target)
  {
  }

  ghost predicate LeadsOnlyThrough(c: Cfg, entry: int, s: Option<int>, target: int) {
    s.Some? && Dominates(c, entry, s.value, target)
  }

  /** The predicates that the picked branches contribute, in the order of the blocks. */
  function PickPredicates(c: Cfg, branches: BranchMap, over: set<int>, target: int,
                          blocks: seq<Option<int>>): seq<Formula> {
    if blocks == [] then []
    else
      var k := |blocks| - 1;
      PickPredicates(c, branches, over, target, blocks[..k])
      + if blocks[k].Some? && Picked(c, branches, over, target, blocks[k].value).Some?
        then [Predicate(branches[blocks[k].value], Picked(c, branches, over, target, blocks[k].value).value)] else []
  }

  lemma PickPredicatesMore(c: Cfg, branches: BranchMap, over: set<int>, target: int, blocks: seq<Option<int>>, i: nat)
    requires i < |blocks|
    ensures PickPredicates(c, branches, over, target, blocks[..i + 1])
            == PickPredicates(c, branches, over, target, blocks[..i])
               + if blocks[i].Some? && Picked(c, branches, over, target, blocks[i].value).Some?
                 then [Predicate(branches[blocks[i].value], Picked(c, branches, over, target, blocks[i].value).value)]
                 else []
  {
    assert blocks[..i + 1][..i] == blocks[..i];
  }

  /** The branch is taken the way that was picked. */
  predicate AgreesWithPick(rd: Reading, w: World, c: Cfg, branches: BranchMap, over: set<int>, target: int, b: int) {
    var pick := Picked(c, branches, over, target, b);
    pick.Some? && !branches[b].Statement? ==> BranchTruth(rd, w, branches[b]) == pick.value
  }

  /** So the reading of the branch says. */
  predicate ReadAgreesWithPick(rd: Reading, w: World, c: Cfg, branches: BranchMap, over: set<int>, target: int,
                               b: int) {
    var pick := Picked(c, branches, over, target, b);
    pick.Some? && !branches[b].Statement? ==> ReadAgrees(rd, w, branches[b], pick.value)
  }

  ghost predicate ReadAgreesWithPicks(rd: Reading, w: World, c: Cfg, branches: BranchMap, over: set<int>, target: int,
                                      blocks: seq<Option<int>>) {
    forall b :: Some(b) in blocks ==> ReadAgreesWithPick(rd, w, c, branches, over, target, b)
  }

  lemma StatementRepresents(branches: BranchMap, agrees: (Reading, World) -> bool)
    requires forall rd, w :: agrees(rd, w)
    ensures Represents(UNSUPPORTED_FORMULA, branches, agrees)
  {
    forall rd: Reading, w: World
      ensures Holds(rd, w.values, UNSUPPORTED_FORMULA)
    {
      TrivialMeaning(rd, w.values);
    }
  }

  /** One block's contribution: its predicate, or the mark when it does not end in an expression. */
  method Contribute(c: Cfg, branches: BranchMap, over: set<int>, target: int, block: Option<int>, f: Formula,
                    ghost before: (Reading, World) -> bool, ghost after: (Reading, World) -> bool)
    returns (g: Formula)
    requires Represents(f, branches, before)
    requires forall rd, w :: after(rd, w) <==>
               before(rd, w) && (block.Some? ==> ReadAgreesWithPick(rd, w, c, branches, over, target, block.value))
    ensures Represents(g, branches, after)
    ensures g == if block.Some? && Picked(c, branches, over, target, block.value).Some?
                 then AndFormula(f, Predicate(branches[block.value],
                                              Picked(c, branches, over, target, block.value).value))
                 else f
  {
    if block.None? || Picked(c, branches, over, target, block.value).None? {
      return f;
    }
    var b := block.value;
    var truthy := Picked(c, branches, over, target, b).value;
    ghost var here := (rd: Reading, w: World) => ReadAgreesWithPick(rd, w, c, branches, over, target, b);
    if branches[b].Statement? {
      StatementRepresents(branches, here);
    } else {
      RepresentsBranch(branches[b], truthy, branches, b, here);
    }
    RepresentsAnd(f, Predicate(branches[b], truthy), branches, before, here, after);
    g := Conjoin(f, Predicate(branches[b], truthy));
  }

  lemma PicksStep(rd: Reading, w: World, c: Cfg, branches: BranchMap, over: set<int>, target: int,
                  blocks: seq<Option<int>>, i: nat)
    requires i < |blocks|
    ensures ReadAgreesWithPicks(rd, w, c, branches, over, target, blocks[..i + 1]) <==>
            && ReadAgreesWithPicks(rd, w, c, branches, over, target, blocks[..i])
            && (blocks[i].Some? ==> ReadAgreesWithPick(rd, w, c, branches, over, target, blocks[i].value))
  {
    hide ReadAgreesWithPick;
    assert blocks[..i + 1] == blocks[..i] + [blocks[i]];
    assert forall b :: Some(b) in blocks[..i + 1] <==> Some(b) in blocks[..i] || blocks[i] == Some(b);
  }

  /** The prefix of an origin block: stands for the worlds that the readings of all picked branches allow. */
  method PrefixFormula(c: Cfg, branches: BranchMap, target: int)
    returns (f: Formula, ghost dominators: DominatorMap, ghost entry: Option<int>)
    requires WellFormed(c)
    ensures entry.None? <==> forall b :: Some(b) !in c.blocks
    ensures entry.Some? ==> IsEntry(c, entry.value) && Exact(c, entry.value, dominators)
    ensures entry.Some? && target !in dominators ==> f == UNSUPPORTED_FORMULA
    ensures entry.Some? && target in dominators ==> StandsForPicks(f, c, branches, dominators[target], target)
    ensures entry.Some? && target in dominators ==>
              (f.unsupported <==> AnyMark(PickPredicates(c, branches, dominators[target], target, c.blocks)))
    ensures |c.blocks| == 0 ==> f == TRUE_FORMULA
  {
    var table, first := BlockDominators(c);
    dominators, entry := table, first;
    if |c.blocks| == 0 {
      return TRUE_FORMULA, table, first;
    }
    if target !in table {
      return UNSUPPORTED_FORMULA, table, first;
    }
    var over := table[target];
    f := PicksFormula(c, branches, over, target);
  }

  ghost predicate StandsForPicks(f: Formula, c: Cfg, branches: BranchMap, over: set<int>, target: int) {
    Represents(f, branches, (rd: Reading, w: World) => ReadAgreesWithPicks(rd, w, c, branches, over, target, c.blocks))
  }

  lemma NoPicks(c: Cfg, branches: BranchMap, over: set<int>, target: int)
    ensures AndAll(PickPredicates(c, branches, over, target, c.blocks[..0])) == TRUE_FORMULA
  {
  }

  lemma NextPick(c: Cfg, branches: BranchMap, over: set<int>, target: int, i: nat, f: Formula)
    requires i < |c.blocks| && f == AndAll(PickPredicates(c, branches, over, target, c.blocks[..i]))
    ensures AndAll(PickPredicates(c, branches, over, target, c.blocks[..i + 1])) ==
            if c.blocks[i].Some? && Picked(c, branches, over, target, c.blocks[i].value).Some?
            then AndFormula(f, Predicate(branches[c.blocks[i].value],
                                         Picked(c, branches, over, target, c.blocks[i].value).value))
            else f
  {
    hide PickPredicates, AndFormula, Predicate, AndAll;
    PickPredicatesMore(c, branches, over, target, c.blocks, i);
    var parts := PickPredicates(c, branches, over, target, c.blocks[..i]);
    assert parts + [] == parts;
    if c.blocks[i].Some? && Picked(c, branches, over, target, c.blocks[i].value).Some? {
      AndAllMore(parts, Predicate(branches[c.blocks[i].value],
                                  Picked(c, branches, over, target, c.blocks[i].value).value));
    }
  }

  method PicksFormula(c: Cfg, branches: BranchMap, over: set<int>, target: int) returns (f: Formula)
    ensures StandsForPicks(f, c, branches, over, target)
    ensures f.unsupported <==> AnyMark(PickPredicates(c, branches, over, target, c.blocks))
  {
    AndAllMarked(PickPredicates(c, branches, over, target, c.blocks));
    hide Represents, ReadAgreesWithPick, PickPredicates, AnyMark, AndFormula;
    NoPicks(c, branches, over, target);
    f := TRUE_FORMULA;
    TrueRepresents(branches,
                   (rd: Reading, w: World) => ReadAgreesWithPicks(rd, w, c, branches, over, target, c.blocks[..0]));
    var i := 0;
    while i < |c.blocks|
      invariant 0 <= i <= |c.blocks|
      invariant Represents(f, branches,
                           (rd: Reading, w: World) => ReadAgreesWithPicks(rd, w, c, branches, over, target,
                                                                          c.blocks[..i]))
      invariant f == AndAll(PickPredicates(c, branches, over, target, c.blocks[..i]))
    {
      ghost var before := (rd: Reading, w: World) => ReadAgreesWithPicks(rd, w, c, branches, over, target,
                                                                         c.blocks[..i]);
      ghost var after := (rd: Reading, w: World) => ReadAgreesWithPicks(rd, w, c, branches, over, target,
                                                                        c.blocks[..i + 1]);
      forall rd, w
        ensures after(rd, w) <==>
                before(rd, w)
                  && (c.blocks[i].Some? ==> ReadAgreesWithPick(rd, w, c, branches, over, target, c.blocks[i].value))
      {
        PicksStep(rd, w, c, branches, over, target, c.blocks, i);
      }
      NextPick(c, branches, over, target, i, f);
      f := Contribute(c, branches, over, target, c.blocks[i], f, before, after);
      i := i + 1;
    }
    assert c.blocks[..i] == c.blocks;
    RepresentsNormalize(f, branches,
                        (rd: Reading, w: World) => ReadAgreesWithPicks(rd, w, c, branches, over, target, c.blocks));
    f := Normalize(f);
  }

  // ---------------------------------------------------------------- the prefix is necessary

  function PickedSuccessor(c: Cfg, b: int, truthy: bool): Option<int>
    requires TwoWay(c, b)
  {
    c.successors[b][if truthy then 0 else 1]
  }

  /** The hypothesis under which a dominating successor shows that the branch was taken. */
  ghost predicate PicksAreEntrances(c: Cfg, entry: int, branches: BranchMap, over: set<int>, target: int) {
    forall b :: Picked(c, branches, over, target, b).Some? ==>
      SoleEntrance(c, entry, b, PickedSuccessor(c, b, Picked(c, branches, over, target, b).value).value)
  }

  lemma PathAgreesWithPick(rd: Reading, w: World, c: Cfg, entry: int, branches: BranchMap, dominators: DominatorMap,
                           target: int, p: seq<int>, b: int)
    requires WellFormed(c) && Exact(c, entry, dominators) && target in dominators
    requires PicksAreEntrances(c, entry, branches, dominators[target], target)
    requires Leads(c, entry, {}, p, target) && Follows(rd, w, c, branches, p)
    ensures AgreesWithPick(rd, w, c, branches, dominators[target], target, b)
  {
    var pick := Picked(c, branches, dominators[target], target, b);
    if pick.Some? {
      var s := PickedSuccessor(c, b, pick.value).value;
      assert s in dominators[target];
      EdgeOnEveryPath(c, entry, b, s, target);
      assert Crosses(p, b, s);
      var i :| 0 <= i < |p| - 1 && p[i] == b && p[i + 1] == s;
      assert AgreesAt(rd, w, c, branches, p[i], p[i + 1]);
    }
  }

  /** Every picked branch is read for what it is. */
  ghost predicate PicksReadRight(c: Cfg, branches: BranchMap, over: set<int>, target: int) {
    forall b :: Picked(c, branches, over, target, b).Some? ==> ReadsRight(branches[b])
  }

  /** Every execution that reaches the origin satisfies the prefix formula. */
  lemma PrefixIsNecessary(rd: Reading, w: World, c: Cfg, entry: int, branches: BranchMap, dominators: DominatorMap,
                          target: int, p: seq<int>, f: Formula)
    requires WellFormed(c) && Exact(c, entry, dominators) && target in dominators
    requires StandsForPicks(f, c, branches, dominators[target], target)
    requires PicksAreEntrances(c, entry, branches, dominators[target], target)
    requires PicksReadRight(c, branches, dominators[target], target)
    requires AllTyped(rd, w, branches) && Leads(c, entry, {}, p, target) && Follows(rd, w, c, branches, p)
    ensures Holds(rd, w.values, f)
  {
    forall b | Some(b) in c.blocks
      ensures ReadAgreesWithPick(rd, w, c, branches, dominators[target], target, b)
    {
      var pick := Picked(c, branches, dominators[target], target, b);
      if pick.Some? && !branches[b].Statement? {
        PathAgreesWithPick(rd, w, c, entry, branches, dominators, target, p, b);
        RightReadingAgrees(rd, w, branches[b], pick.value);
      }
    }
    var agrees := (rd: Reading, w: World) => ReadAgreesWithPicks(rd, w, c, branches, dominators[target], target,
                                                                 c.blocks);
    assert agrees(rd, w);
  }

  // ---------------------------------------------------------------- the hypothesis is needed

  /** `if x { body }` followed by a join: block 0 branches to the body 1 or past it to 2. */
  const IF_WITHOUT_ELSE := Cfg([Some(0), Some(1), Some(2)], map[0 := [Some(1), Some(2)], 1 := [Some(2)], 2 := []])

  lemma JoinDominators()
    ensures Dominates(IF_WITHOUT_ELSE, 0, 0, 2) && Dominates(IF_WITHOUT_ELSE, 0, 2, 2)
            && !Dominates(IF_WITHOUT_ELSE, 0, 1, 2)
    ensures Leads(IF_WITHOUT_ELSE, 0, {}, [0, 1, 2], 2)
  {
    DominatesSelf(IF_WITHOUT_ELSE, 0, 2);
    forall p | Leads(IF_WITHOUT_ELSE, 0, {}, p, 2)
      ensures 0 in p
    {
      assert p[0] == 0;
    }
    assert Leads(IF_WITHOUT_ELSE, 0, {}, [0, 2], 2) && 1 !in [0, 2];
    assert Leads(IF_WITHOUT_ELSE, 0, {}, [0, 1, 2], 2);
  }

  /** Without an else the join dominates itself, so the branch is read as not taken, though the body leads there too. */
  lemma IfWithoutElseMisread(rd: Reading, w: World, condition: Condition, dominators: DominatorMap)
    requires Exact(IF_WITHOUT_ELSE, 0, dominators) && Truth(rd, w, condition)
    ensures 2 in dominators && Picked(IF_WITHOUT_ELSE, map[0 := If(condition)], dominators[2], 2, 0) == Some(false)
    ensures Follows(rd, w, IF_WITHOUT_ELSE, map[0 := If(condition)], [0, 1, 2])
    ensures !AgreesWithPick(rd, w, IF_WITHOUT_ELSE, map[0 := If(condition)], dominators[2], 2, 0)
    ensures !SoleEntrance(IF_WITHOUT_ELSE, 0, 0, 2)
  {
    JoinDominators();
    assert 2 in dominators;
    assert 0 in dominators[2] && 2 in dominators[2] && 1 !in dominators[2];
    EdgeOnEveryPath(IF_WITHOUT_ELSE, 0, 0, 2, 2);
    assert !Crosses([0, 1, 2], 0, 2);
  }
}
