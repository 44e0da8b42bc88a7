/**
 The tables of the tabulation algorithm as values, what they must satisfy, and
 how offering one more path edge changes them.
 */
module Tables {
  import opened Options
  import opened ProtocolDomain
  import opened Supergraph
  import opened Runs
  import Antichain

  type Path = seq<int>

  datatype PathEdge = PathEdge(key: Key, path: Path, trail: Witness)

  /** An open call waiting for the summaries of its callee. Keys carry no witness. */
  datatype DepKey = DepKey(callee: Entry, exit: NodeId, caller: Entry, site: string, target: NodeId, effect: EdgeFn)

  datatype Dependency = Dependency(path: Path, trail: Witness)

  datatype SumKey = SumKey(entry: Entry, exit: NodeId, state: State, effect: EdgeFn)

  datatype Summary = Summary(path: Path, trail: Witness, before: State, tag: Tag)

  datatype Trigger = UnsafeCandidate | Uncertain(reason: Reason)

  /** What a discharge names: one witness, at one node, for one complaint. */
  datatype Token = Token(path: Path, trail: Witness, terminal: NodeId, trigger: Trigger)

  datatype Outcome = Safe | Unsafe | Inconclusive

  datatype PathResult = PathResult(outcome: Outcome, reason: Reason, path: Path, trail: Witness, terminal: NodeId)

  datatype Table = Table(
    retained: map<Key, map<Witness, Path>>,
    queue: seq<(Key, Witness)>,
    dependencies: map<DepKey, Dependency>,
    summaries: map<SumKey, Summary>,
    unsafe: Option<PathResult>,
    inconclusive: Option<PathResult>,
    offers: map<Key, seq<Witness>>,
    violations: seq<PathResult>,
    doubts: seq<PathResult>)

  predicate IsDischarged(discharged: set<Token>, path: Path, w: Witness, terminal: NodeId, trigger: Trigger) {
    path != [] && Token(path, w, terminal, trigger) in discharged
  }

  /** What the tabulation asks for when it looks whether a complaint was discharged. */
  function ComplaintOf(r: PathResult): Trigger {
    if r.outcome == Unsafe then UnsafeCandidate else Uncertain(r.reason)
  }

  predicate WasDischarged(discharged: set<Token>, r: PathResult) {
    IsDischarged(discharged, r.path, r.trail, r.terminal, ComplaintOf(r))
  }

  function Targets(w: Witness): (bs: seq<int>)
    ensures |bs| == |w|
    ensures forall i :: 0 <= i < |w| ==> bs[i] == w[i].edge.to.block
  {
    seq(|w|, i requires 0 <= i < |w| => w[i].edge.to.block)
  }

  /** The sequence without immediate repetitions. */
  function Destutter(bs: seq<int>): seq<int> {
    if |bs| <= 1 then bs
    else if bs[0] == bs[1] then Destutter(bs[1..])
    else [bs[0]] + Destutter(bs[1..])
  }

  /** The block path of a witness: where it starts and where each edge leads, without immediate repetitions. */
  predicate PathFrom(start: int, path: Path, w: Witness) {
    path != [] && path[0] == start && path == Destutter([start] + Targets(w))
  }

  /** What can be reported: nothing at all, or the block path of the witness from somewhere. */
  predicate Reportable(path: Path, w: Witness) {
    (path == [] && w == []) || (path != [] && PathFrom(path[0], path, w))
  }

  predicate PathFits(entry: Entry, path: Path, w: Witness) {
    PathFrom(entry.node.block, path, w)
  }

  function AppendBlock(path: Path, block: int): (r: Path)
    ensures r != []
  {
    if path == [] then [block]
    else if path[|path| - 1] == block then path
    else path + [block]
  }

  /** Joins a callee's block path to its caller's, dropping immediate repetitions. */
  function MergePaths(prefix: Path, local: Path, last: int): (r: Path)
    ensures r != []
    decreases |local|
  {
    if local == [] then AppendBlock(prefix, last)
    else MergePaths(AppendBlock(prefix, local[0]), local[1..], last)
  }

  ghost predicate NoStutter(path: Path) {
    forall i :: 0 < i < |path| ==> path[i - 1] != path[i]
  }

  /** A merged path extends its prefix, ends where it should, visits the local blocks and repeats none at once. */
  lemma {:induction false} MergePathsMeaning(prefix: Path, local: Path, last: int)
    requires NoStutter(prefix)
    ensures var r := MergePaths(prefix, local, last);
            prefix <= r && r[|r| - 1] == last && NoStutter(r)
            && forall b :: b in r <==> b in prefix || b in local || b == last
    decreases |local|
  {
    if local != [] {
      MergePathsMeaning(AppendBlock(prefix, local[0]), local[1..], last);
      assert local == [local[0]] + local[1..];
    }
  }

  lemma {:induction false} DestutterEnds(bs: seq<int>)
    requires bs != []
    ensures var r := Destutter(bs); r != [] && r[0] == bs[0] && r[|r| - 1] == bs[|bs| - 1]
    ensures |bs| == 1 ==> |Destutter(bs)| == 1
    decreases |bs|
  {
    if |bs| > 1 {
      DestutterEnds(bs[1..]);
    }
  }

  /** Appending a block to a path, the way the code does, is appending it to what the path stands for. */
  lemma {:induction false} DestutterAppend(bs: seq<int>, b: int)
    requires bs != []
    ensures Destutter(bs + [b]) == AppendBlock(Destutter(bs), b)
    decreases |bs|
  {
    DestutterEnds(bs);
    if |bs| == 1 {
      assert bs + [b] == [bs[0], b];
      assert [bs[0], b][1..] == [b];
    } else {
      DestutterAppend(bs[1..], b);
      DestutterEnds(bs[1..]);
      assert (bs + [b])[1..] == bs[1..] + [b];
    }
  }

  /** A repeated block does not show. */
  lemma {:induction false} DestutterRepeated(front: seq<int>, b: int, rest: seq<int>)
    ensures Destutter(front + [b] + ([b] + rest)) == Destutter(front + ([b] + rest))
    decreases |front|
  {
    var all, once := front + [b] + ([b] + rest), front + ([b] + rest);
    if front == [] {
      assert all[0] == all[1] == b && all[1..] == once;
    } else {
      DestutterRepeated(front[1..], b, rest);
      assert all[1..] == front[1..] + [b] + ([b] + rest) && once[1..] == front[1..] + ([b] + rest);
      assert all[0] == once[0] && all[1] == once[1];
    }
  }

  lemma DestutterMoves(bs: seq<int>)
    requires bs != [] && (|bs| > 1 ==> bs[0] != bs[1])
    ensures Destutter(bs) == [bs[0]] + Destutter(bs[1..])
    ensures Destutter(bs)[1..] == Destutter(bs[1..])
  {
    if |bs| == 1 {
      assert bs == [bs[0]] && bs[1..] == [];
    }
  }

  lemma DestutterSkips(bs: seq<int>)
    requires |bs| > 1 && bs[0] == bs[1]
    ensures Destutter(bs) == Destutter(bs[1..])
  {
  }

  lemma RepeatedHead(front: seq<int>, bs: seq<int>, last: int)
    requires |bs| > 1 && bs[0] == bs[1]
    ensures Destutter(front + bs[1..] + [last]) == Destutter(front + bs + [last])
  {
    var b, tail := bs[0], bs[2..] + [last];
    DestutterRepeated(front, b, tail);
    hide Destutter;
    assert front + bs[1..] + [last] == front + ([b] + tail);
    assert front + bs + [last] == front + [b] + ([b] + tail);
  }

  lemma MergeStep(path: Path, local: Path, last: int, b: int, more: Path, rest: Path)
    requires local != [] && local[0] == b && local[1..] == rest && AppendBlock(path, b) == more
    ensures MergePaths(path, local, last) == MergePaths(more, rest, last)
  {
  }

  lemma MergeMoves(front: seq<int>, more: seq<int>, bs: seq<int>, rest: seq<int>, last: int)
    requires front != [] && bs != [] && more == front + [bs[0]] && rest == bs[1..] && (rest != [] ==> bs[0] != rest[0])
    ensures MergePaths(Destutter(front), Destutter(bs), last) == MergePaths(Destutter(more), Destutter(rest), last)
  {
    DestutterAppend(front, bs[0]);
    DestutterMoves(bs);
    hide Destutter, AppendBlock, MergePaths;
    MergeStep(Destutter(front), Destutter(bs), last, bs[0], Destutter(more), Destutter(rest));
  }

  /** Merging two block paths is running through the blocks of both. */
  lemma {:induction false} MergeDestutters(front: seq<int>, bs: seq<int>, last: int)
    requires front != []
    ensures MergePaths(Destutter(front), Destutter(bs), last) == Destutter(front + bs + [last])
    decreases |bs|
  {
    if bs == [] {
      DestutterAppend(front, last);
      assert front + bs == front && Destutter(bs) == [];
    } else {
      var rest := bs[1..];
      if rest != [] && bs[0] == rest[0] {
        MergeDestutters(front, rest, last);
        DestutterSkips(bs);
        RepeatedHead(front, bs, last);
      } else {
        var more := front + [bs[0]];
        MergeDestutters(more, rest, last);
        MergeMoves(front, more, bs, rest, last);
        assert more + rest == front + bs;
      }
    }
  }

  lemma PathStarts(start: int, path: Path, w: Witness)
    requires PathFrom(start, path, w)
    ensures Reportable(path, w) && (w == [] ==> |path| == 1)
  {
    DestutterEnds([start] + Targets(w));
  }

  lemma EmptyPathFits(entry: Entry)
    ensures PathFits(entry, [entry.node.block], [])
  {
    assert [entry.node.block] + Targets([]) == [entry.node.block];
  }

  /** One more edge, one more block at most. */
  lemma PathGrows(entry: Entry, path: Path, w: Witness, s: Step)
    requires PathFits(entry, path, w)
    ensures PathFits(entry, AppendBlock(path, s.edge.to.block), w + [s])
  {
    DestutterAppend([entry.node.block] + Targets(w), s.edge.to.block);
    DestutterEnds([entry.node.block] + Targets(w + [s]));
    assert [entry.node.block] + Targets(w + [s]) == [entry.node.block] + Targets(w) + [s.edge.to.block];
  }

  lemma TargetsMore(w: Witness, x: Witness, s: Step)
    ensures Targets(w + x + [s]) == Targets(w) + (Targets(x) + [s.edge.to.block])
  {
  }

  lemma ReturnedPathStarts(bs: seq<int>)
    requires bs != []
    ensures Destutter(bs) != [] && Destutter(bs)[0] == bs[0]
  {
    DestutterEnds(bs);
  }

  /** A callee's path between its caller's and the block returned to. */
  lemma PathReturns(caller: Entry, callee: Entry, path: Path, w: Witness, local: Path, x: Witness, back: Step)
    requires PathFits(caller, path, w) && w != [] && w[|w| - 1].edge.to == callee.node
    requires PathFits(callee, local, x)
    ensures PathFits(caller, MergePaths(path, local, back.edge.to.block), w + x + [back])
  {
    var first, ws, b, xs, last := caller.node.block, Targets(w), callee.node.block, Targets(x), back.edge.to.block;
    MergeDestutters([first] + ws, [b] + xs, last);
    DestutterRepeated(([first] + ws)[..|ws|], b, xs + [last]);
    hide Destutter, Targets, MergePaths;
    TurnsAround(first, ws, b, xs, last);
    TargetsMore(w, x, back);
    ReturnedPathStarts([first] + Targets(w + x + [back]));
  }

  /** Where a callee starts its caller has just arrived. */
  lemma TurnsAround(first: int, ws: seq<int>, b: int, xs: seq<int>, last: int)
    requires ws != [] && ws[|ws| - 1] == b
    ensures ([first] + ws)[..|ws|] + [b] + ([b] + (xs + [last])) == [first] + ws + ([b] + xs) + [last]
    ensures ([first] + ws)[..|ws|] + ([b] + (xs + [last])) == [first] + (ws + (xs + [last]))
  {
    assert ([first] + ws)[..|ws|] + [b] == [first] + ws;
  }

  // ---------------------------------------------------------------- antichains

  function KeptAt(t: Table, k: Key): map<Witness, Path> {
    if k in t.retained then t.retained[k] else map[]
  }

  function OffersAt(t: Table, k: Key): seq<Witness> {
    if k in t.offers then t.offers[k] else []
  }

  function Offered(order: Antichain.Order, t: Table, e: PathEdge): Table {
    var kept := KeptAt(t, e.key);
    var offers := t.offers[e.key := OffersAt(t, e.key) + [e.trail]];
    if Antichain.Beaten(order, kept.Keys, e.trail) then t.(offers := offers)
    else
      t.(retained := t.retained[e.key := (kept - Antichain.Ousted(kept.Keys, e.trail))[e.trail := e.path]],
         queue := t.queue + [(e.key, e.trail)],
         offers := offers)
  }

  /** The table after what the newcomer ousts has given way to it. */
  function Stored(t: Table, e: PathEdge, ousted: set<Witness>): Table {
    t.(retained := t.retained[e.key := (KeptAt(t, e.key) - ousted)[e.trail := e.path]],
       queue := t.queue + [(e.key, e.trail)])
  }

  lemma OfferedBeaten(order: Antichain.Order, t: Table, e: PathEdge)
    requires Antichain.Beaten(order, KeptAt(t, e.key).Keys, e.trail)
    ensures Offered(order, t, e) == t.(offers := t.offers[e.key := OffersAt(t, e.key) + [e.trail]])
    ensures KeptAt(Offered(order, t, e), e.key) == KeptAt(t, e.key)
  {
  }

  lemma OfferedStored(order: Antichain.Order, t: Table, e: PathEdge, ousted: set<Witness>)
    requires !Antichain.Beaten(order, KeptAt(t, e.key).Keys, e.trail)
    requires ousted == Antichain.Ousted(KeptAt(t, e.key).Keys, e.trail)
    ensures Offered(order, t, e) == Stored(t.(offers := t.offers[e.key := OffersAt(t, e.key) + [e.trail]]), e, ousted)
  {
  }

  ghost predicate CoveredAt(t: Table, k: Key, w: Witness) {
    Antichain.Covers(KeptAt(t, k).Keys, w)
  }

  /** Nothing already established is lost. */
  ghost predicate Grew(t: Table, u: Table) {
    && (forall k, w :: CoveredAt(t, k, w) ==> CoveredAt(u, k, w))
    && (forall k :: KeptAt(t, k) != map[] ==> KeptAt(u, k) != map[])
    && t.dependencies.Keys <= u.dependencies.Keys
    && t.summaries.Keys <= u.summaries.Keys
    && (forall r :: r in t.violations ==> r in u.violations)
    && (forall r :: r in t.doubts ==> r in u.doubts)
    && (t.unsafe.Some? ==> u.unsafe.Some?)
    && (t.inconclusive.Some? ==> u.inconclusive.Some?)
  }

  // ---------------------------------------------------------------- soundness of entries

  ghost predicate EntryReached(sys: System, entry: Entry) {
    exists es, stack :: Run(sys, Initial(sys), es) == Some(Config(EntryKey(entry), stack))
  }

  /** A step records what the system does along its edge: the state left behind and the tag that says so. */
  ghost predicate StepSound(sys: System, s: Step) {
    && s.fact == NO_FACT
    && var v := sys.visit(s.edge.from, s.before);
       v.Proceed?
       && if s.edge.kind == Return then s.tag == v.tag && s.after == v.after
          else
            var f := sys.follow(s.edge, v.after);
            && f.Some?
            && s.tag == TransitionTag(s.before, f.value.moved)
            && s.after == if s.edge.kind == Call then f.value.moved else f.value.next
  }

  ghost predicate StepsSound(sys: System, w: Witness) {
    forall i :: 0 <= i < |w| ==> StepSound(sys, w[i])
  }

  ghost predicate Traces(sys: System, entry: Entry, w: Witness, c: Config) {
    && StepsSound(sys, w)
    && Run(sys, Config(EntryKey(entry), []), Edges(w)) == Some(c)
    && Chained(w, entry.state, c.key.state)
  }

  /** The witness is a matched walk from the procedure entry, with its states in a chain. */
  ghost predicate PathSound(sys: System, k: Key, w: Witness) {
    EntryReached(sys, k.entry) && Traces(sys, k.entry, w, Config(k, []))
  }

  ghost predicate RegistersAt(sys: System, k: Key, e: Edge, r: Edge, d: DepKey) {
    && e in sys.edges && e.from == k.node && e.kind == Call
    && r in sys.edges && r.kind == Return && r.site == e.site && r.from.func == e.to.func
    && !HasReturn(sys, k.node)
    && var v := sys.visit(k.node, k.state);
       v.Proceed?
       && var f := sys.follow(e, v.after);
          f.Some?
          && d == DepKey(Entry(e.to, f.value.moved), r.from, k.entry, e.site, r.to,
                         k.effect.Then(v.tag).Then(f.value.tag))
  }

  ghost predicate PublishesAt(sys: System, k: Key, s: SumKey) {
    && HasReturn(sys, k.node)
    && var v := sys.visit(k.node, k.state);
       v.Proceed? && s == SumKey(k.entry, k.node, v.after, k.effect.Then(v.tag))
  }

  ghost predicate DepReached(sys: System, d: DepKey) {
    exists k, e, r :: ReachesKey(sys, k) && RegistersAt(sys, k, e, r, d)
  }

  ghost predicate SumReached(sys: System, s: SumKey) {
    exists k :: ReachesKey(sys, k) && PublishesAt(sys, k, s)
  }

  ghost predicate DepSound(sys: System, d: DepKey, w: Witness) {
    && EntryReached(sys, d.caller)
    && DepReached(sys, d)
    && Traces(sys, d.caller, w, Config(EntryKey(d.callee), [Frame(d.site, d.caller, d.effect)]))
  }

  ghost predicate SumSoundFrom(sys: System, s: SumKey, info: Summary, k: Key) {
    && PathSound(sys, k, info.trail)
    && PublishesAt(sys, k, s)
    && k.state == info.before
    && sys.visit(k.node, k.state).tag == info.tag
  }

  ghost predicate SumSound(sys: System, s: SumKey, info: Summary) {
    exists k :: SumSoundFrom(sys, s, info, k)
  }

  /** What the system complains of here, and with which reason. */
  ghost predicate Complains(sys: System, k: Key, outcome: Outcome, reason: Reason) {
    var v := sys.visit(k.node, k.state);
    match outcome
    case Safe => false
    case Unsafe => v.Violation? && reason == NoReason
    case Inconclusive => v == Halt(reason) || (v.Proceed? && v.doubt == Some(reason))
  }

  /** Every complaint of the system has a reason to its name. */
  ghost predicate ComplaintsNamed(sys: System) {
    forall n, s :: sys.visit(n, s) != Halt(NoReason) &&
                   (sys.visit(n, s).Proceed? ==> sys.visit(n, s).doubt != Some(NoReason))
  }

  ghost predicate ResultSoundAt(sys: System, r: PathResult, k: Key) {
    && PathSound(sys, k, r.trail)
    && PathFits(k.entry, r.path, r.trail)
    && r.terminal == k.node
    && Complains(sys, k, r.outcome, r.reason)
  }

  /** The result repeats, at the node it names, what the system says at the end of its witness. */
  ghost predicate ResultSound(sys: System, r: PathResult) {
    exists k :: ResultSoundAt(sys, r, k)
  }

  /** All results are sound and of one outcome, and the chosen one is among them. */
  ghost predicate FoundSound(sys: System, outcome: Outcome, found: seq<PathResult>, chosen: Option<PathResult>) {
    && (forall r :: r in found ==> r.outcome == outcome && ResultSound(sys, r))
    && (chosen.None? <==> found == [])
    && (chosen.Some? ==> chosen.value in found)
  }

  ghost predicate Sound(sys: System, t: Table) {
    && (forall k, w :: w in KeptAt(t, k) ==> PathSound(sys, k, w) && PathFits(k.entry, t.retained[k][w], w))
    && (forall d :: d in t.dependencies ==> DepSound(sys, d, t.dependencies[d].trail))
    && (forall s :: s in t.summaries ==> SumSound(sys, s, t.summaries[s]))
    && FoundSound(sys, Unsafe, t.violations, t.unsafe)
    && FoundSound(sys, Inconclusive, t.doubts, t.inconclusive)
  }

  // ---------------------------------------------------------------- closure

  /** The witness of the next entry: a step into a callee ends in the state before any unresolved-call reason. */
  function Extended(k: Key, w: Witness, e: Edge, f: Flow): Witness {
    w + [Step(e, NO_FACT, k.state, if e.kind == Call then f.moved else f.next, TransitionTag(k.state, f.moved))]
  }

  /** The call waits once for each return edge that can end it. */
  ghost predicate AllRegistered(sys: System, k: Key, e: Edge, known: set<DepKey>) {
    forall r, d :: RegistersAt(sys, k, e, r, d) ==> d in known
  }

  /** The consequences of following one non-return edge are in the table. */
  ghost predicate EdgeDone(sys: System, t: Table, k: Key, w: Witness, e: Edge, effect: EdgeFn, after: State) {
    sys.follow(e, after).Some? ==>
      var f := sys.follow(e, after).value;
      if e.kind == Call then
        && CoveredAt(t, FollowEdge(k, e, effect, f), [])
        && AllRegistered(sys, k, e, t.dependencies.Keys)
      else CoveredAt(t, FollowEdge(k, e, effect, f), Extended(k, w, e, f))
  }

  ghost predicate EdgesDone(sys: System, t: Table, k: Key, w: Witness, effect: EdgeFn, after: State, es: set<Edge>) {
    forall e :: e in es && e.from == k.node && e.kind != Return ==> EdgeDone(sys, t, k, w, e, effect, after)
  }

  /** Everything that follows from one retained path edge is in the table, or it was discharged. */
  ghost predicate Expanded(sys: System, discharged: set<Token>, t: Table, k: Key, w: Witness, path: Path) {
    match sys.visit(k.node, k.state)
    case Halt(why) =>
      || IsDischarged(discharged, path, w, k.node, Uncertain(why))
      || PathResult(Inconclusive, why, path, w, k.node) in t.doubts
    case Violation =>
      || IsDischarged(discharged, path, w, k.node, UnsafeCandidate)
      || PathResult(Unsafe, NoReason, path, w, k.node) in t.violations
    case Proceed(after, tag, doubt) =>
      || (doubt.Some? && IsDischarged(discharged, path, w, k.node, Uncertain(doubt.value)))
      || (&& (doubt.Some? ==> PathResult(Inconclusive, doubt.value, path, w, k.node) in t.doubts)
          && if HasReturn(sys, k.node) then SumKey(k.entry, k.node, after, k.effect.Then(tag)) in t.summaries
             else EdgesDone(sys, t, k, w, k.effect.Then(tag), after, sys.edges))
  }

  ghost predicate Pending(sys: System, discharged: set<Token>, t: Table, hole: set<(Key, Witness, Path)>) {
    forall k, w :: w in KeptAt(t, k) && (k, w, KeptAt(t, k)[w]) !in hole ==>
      (k, w) in t.queue || Expanded(sys, discharged, t, k, w, KeptAt(t, k)[w])
  }

  predicate Matches(d: DepKey, s: SumKey) {
    d.callee == s.entry && d.exit == s.exit
  }

  function KnownSummaries(known: set<SumKey>, d: DepKey): set<SumKey> {
    set s | s in known && s.entry == d.callee
  }

  function WaitingCalls(known: set<DepKey>, s: SumKey): set<DepKey> {
    set d | d in known && d.callee == s.entry
  }

  /** The pairings of one call, or of one summary, that are still to be made. */
  ghost function CallGap(d: DepKey, todo: set<SumKey>): set<(DepKey, SumKey)> {
    set s | s in todo :: (d, s)
  }

  ghost function SummaryGap(s: SumKey, todo: set<DepKey>): set<(DepKey, SumKey)> {
    set d | d in todo :: (d, s)
  }

  lemma GapShrinks(d: DepKey, s: SumKey, sums: set<SumKey>, deps: set<DepKey>)
    ensures CallGap(d, sums) - {(d, s)} == CallGap(d, sums - {s})
    ensures SummaryGap(s, deps) - {(d, s)} == SummaryGap(s, deps - {d})
  {
  }

  lemma GapCloses()
    ensures forall d :: CallGap(d, {}) == {}
    ensures forall s :: SummaryGap(s, {}) == {}
  {
  }

  function ReturnKey(d: DepKey, s: SumKey): Key {
    Key(d.caller, d.target, s.state, d.effect.ThenSummary(s.effect))
  }

  /** The caller's walk into the callee, the callee's own walk, and the return. */
  function ReturnTrail(d: DepKey, info: Dependency, s: SumKey, sum: Summary): Witness {
    info.trail + sum.trail + [Step(ReturnEdge(d.exit, d.target, d.site), NO_FACT, sum.before, s.state, sum.tag)]
  }

  /** What the pairing of a waiting call and a summary produces is kept, or something better is. */
  ghost predicate Returned(t: Table, d: DepKey, s: SumKey)
    requires d in t.dependencies && s in t.summaries
  {
    CoveredAt(t, ReturnKey(d, s), ReturnTrail(d, t.dependencies[d], s, t.summaries[s]))
  }

  /** Every summary has been applied to every call that waits for it. */
  ghost predicate Paired(t: Table, gap: set<(DepKey, SumKey)>) {
    forall d, s :: d in t.dependencies && s in t.summaries && Matches(d, s) && (d, s) !in gap ==> Returned(t, d, s)
  }

  ghost predicate KeepsTheBestAt(order: Antichain.Order, t: Table, k: Key) {
    && KeptAt(t, k).Keys == Antichain.AdmitAll(order, OffersAt(t, k))
    && |KeptAt(t, k)| <= Antichain.LIMIT
  }

  /** Per key, exactly the best of everything ever offered is kept, and no more than the limit. */
  ghost predicate KeepsTheBest(order: Antichain.Order, t: Table) {
    forall k :: KeepsTheBestAt(order, t, k)
  }

  ghost predicate Inv(sys: System, discharged: set<Token>, order: Antichain.Order, t: Table,
                      hole: set<(Key, Witness, Path)>, gap: set<(DepKey, SumKey)>)
  {
    && Sound(sys, t)
    && Pending(sys, discharged, t, hole)
    && Paired(t, gap)
    && KeepsTheBest(order, t)
    && CoveredAt(t, EntryKey(RootEntry(sys)), [])
  }

  /** A finished table: nothing is waiting and nothing is missing. */
  ghost predicate Saturated(sys: System, discharged: set<Token>, t: Table) {
    && Sound(sys, t)
    && (forall k, w :: w in KeptAt(t, k) ==> Expanded(sys, discharged, t, k, w, KeptAt(t, k)[w]))
    && Paired(t, {})
    && CoveredAt(t, EntryKey(RootEntry(sys)), [])
  }

  // ---------------------------------------------------------------- growth

  lemma GrewReflexive(t: Table)
    ensures Grew(t, t)
  {
  }

  lemma GrewTransitive(t: Table, u: Table, v: Table)
    requires Grew(t, u) && Grew(u, v)
    ensures Grew(t, v)
  {
  }

  lemma OfferedCovers(order: Antichain.Order, t: Table, e: PathEdge, k: Key, w: Witness)
    requires CoveredAt(t, k, w) || (k == e.key && w == e.trail)
    ensures CoveredAt(Offered(order, t, e), k, w)
  {
    if k == e.key {
      Antichain.AdmitCovers(order, KeptAt(t, k).Keys, e.trail, w);
      assert KeptAt(Offered(order, t, e), k).Keys == Antichain.Admit(order, KeptAt(t, k).Keys, e.trail);
    } else {
      assert KeptAt(Offered(order, t, e), k) == KeptAt(t, k);
    }
  }

  lemma CoveredNonempty(t: Table, k: Key, w: Witness)
    requires CoveredAt(t, k, w)
    ensures KeptAt(t, k) != map[]
  {
  }

  lemma OfferedGrew(order: Antichain.Order, t: Table, e: PathEdge)
    ensures Grew(t, Offered(order, t, e))
    ensures CoveredAt(Offered(order, t, e), e.key, e.trail)
    ensures KeptAt(Offered(order, t, e), e.key) != map[]
  {
    var u := Offered(order, t, e);
    forall k, w | CoveredAt(t, k, w)
      ensures CoveredAt(u, k, w)
    {
      OfferedCovers(order, t, e, k, w);
    }
    OfferedCovers(order, t, e, e.key, e.trail);
    CoveredNonempty(u, e.key, e.trail);
  }

  lemma EdgesDoneGrew(sys: System, t: Table, u: Table, k: Key, w: Witness, effect: EdgeFn, after: State, es: set<Edge>)
    requires Grew(t, u) && EdgesDone(sys, t, k, w, effect, after, es)
    ensures EdgesDone(sys, u, k, w, effect, after, es)
  {
    forall e | e in es && e.from == k.node && e.kind != Return
      ensures EdgeDone(sys, u, k, w, e, effect, after)
    {
      assert EdgeDone(sys, t, k, w, e, effect, after);
    }
  }

  lemma ExpandedGrew(sys: System, discharged: set<Token>, t: Table, u: Table, k: Key, w: Witness, path: Path)
    requires Grew(t, u) && Expanded(sys, discharged, t, k, w, path)
    ensures Expanded(sys, discharged, u, k, w, path)
  {
    var v := sys.visit(k.node, k.state);
    if v.Proceed? && !HasReturn(sys, k.node) && EdgesDone(sys, t, k, w, k.effect.Then(v.tag), v.after, sys.edges) {
      EdgesDoneGrew(sys, t, u, k, w, k.effect.Then(v.tag), v.after, sys.edges);
    }
  }

  /** A kept entry of the new table was kept before, unchanged, or is the one just offered. */
  lemma OfferedKept(order: Antichain.Order, t: Table, e: PathEdge, k: Key, w: Witness)
    requires w in KeptAt(Offered(order, t, e), k)
    ensures (w in KeptAt(t, k) && KeptAt(Offered(order, t, e), k)[w] == KeptAt(t, k)[w]) ||
            (k == e.key && w == e.trail && KeptAt(Offered(order, t, e), k)[w] == e.path
             && (k, w) in Offered(order, t, e).queue)
  {
    var u := Offered(order, t, e);
    if k == e.key && w == e.trail && !Antichain.Beaten(order, KeptAt(t, k).Keys, w) {
      assert u.queue[|u.queue| - 1] == (k, w);
    }
  }

  lemma OfferedSound(sys: System, order: Antichain.Order, t: Table, e: PathEdge)
    requires Sound(sys, t) && PathSound(sys, e.key, e.trail) && PathFits(e.key.entry, e.path, e.trail)
    ensures Sound(sys, Offered(order, t, e))
  {
    var u := Offered(order, t, e);
    forall k, w | w in KeptAt(u, k)
      ensures PathSound(sys, k, w) && PathFits(k.entry, u.retained[k][w], w)
    {
      OfferedKept(order, t, e, k, w);
    }
  }

  lemma OfferedPending(sys: System, discharged: set<Token>, order: Antichain.Order, t: Table, e: PathEdge,
                       hole: set<(Key, Witness, Path)>)
    requires Pending(sys, discharged, t, hole)
    ensures Pending(sys, discharged, Offered(order, t, e), hole)
  {
    var u := Offered(order, t, e);
    OfferedGrew(order, t, e);
    assert t.queue <= u.queue;
    forall k, w | w in KeptAt(u, k) && (k, w, KeptAt(u, k)[w]) !in hole
      ensures (k, w) in u.queue || Expanded(sys, discharged, u, k, w, KeptAt(u, k)[w])
    {
      OfferedKept(order, t, e, k, w);
      if (k, w) !in u.queue {
        assert (k, w) !in t.queue;
        ExpandedGrew(sys, discharged, t, u, k, w, KeptAt(t, k)[w]);
      }
    }
  }

  lemma OfferedKeepsTheBestAt(order: Antichain.Order, t: Table, e: PathEdge)
    requires KeepsTheBestAt(order, t, e.key)
    requires |KeptAt(Offered(order, t, e), e.key)| <= Antichain.LIMIT
    ensures KeepsTheBestAt(order, Offered(order, t, e), e.key)
  {
    hide Antichain.AdmitAll;
    OfferedAdmits(order, t, e);
    Antichain.AdmitOneMore(order, OffersAt(t, e.key), e.trail);
  }

  lemma OfferedAdmits(order: Antichain.Order, t: Table, e: PathEdge)
    ensures OffersAt(Offered(order, t, e), e.key) == OffersAt(t, e.key) + [e.trail]
    ensures KeptAt(Offered(order, t, e), e.key).Keys == Antichain.Admit(order, KeptAt(t, e.key).Keys, e.trail)
  {
    hide Antichain.Beats, Antichain.Subsumes;
  }

  lemma OfferedElsewhere(order: Antichain.Order, t: Table, e: PathEdge, k: Key)
    requires KeepsTheBestAt(order, t, k) && k != e.key
    ensures KeepsTheBestAt(order, Offered(order, t, e), k)
  {
    assert OffersAt(Offered(order, t, e), k) == OffersAt(t, k);
    assert KeptAt(Offered(order, t, e), k) == KeptAt(t, k);
  }

  lemma OfferedKeepsTheBest(order: Antichain.Order, t: Table, e: PathEdge)
    requires KeepsTheBest(order, t)
    requires |KeptAt(Offered(order, t, e), e.key)| <= Antichain.LIMIT
    ensures KeepsTheBest(order, Offered(order, t, e))
  {
    hide KeepsTheBestAt, Offered;
    var u := Offered(order, t, e);
    forall k
      ensures KeepsTheBestAt(order, u, k)
    {
      assert KeepsTheBestAt(order, t, k);
      if k == e.key {
        OfferedKeepsTheBestAt(order, t, e);
      } else {
        OfferedElsewhere(order, t, e, k);
      }
    }
  }

  lemma OfferedPaired(order: Antichain.Order, t: Table, e: PathEdge, gap: set<(DepKey, SumKey)>)
    requires Paired(t, gap)
    ensures Paired(Offered(order, t, e), gap)
  {
    var u := Offered(order, t, e);
    OfferedGrew(order, t, e);
    hide CoveredAt;
    assert u.dependencies == t.dependencies && u.summaries == t.summaries;
    forall d, s | d in u.dependencies && s in u.summaries && Matches(d, s) && (d, s) !in gap
      ensures Returned(u, d, s)
    {
      assert Returned(t, d, s);
    }
  }

  lemma OfferedInv(sys: System, discharged: set<Token>, order: Antichain.Order, t: Table, e: PathEdge,
                   hole: set<(Key, Witness, Path)>, gap: set<(DepKey, SumKey)>)
    requires Inv(sys, discharged, order, t, hole, gap)
    requires PathSound(sys, e.key, e.trail) && PathFits(e.key.entry, e.path, e.trail)
    requires |KeptAt(Offered(order, t, e), e.key)| <= Antichain.LIMIT
    ensures Inv(sys, discharged, order, Offered(order, t, e), hole, gap)
    ensures Grew(t, Offered(order, t, e))
    ensures CoveredAt(Offered(order, t, e), e.key, e.trail)
    ensures KeptAt(Offered(order, t, e), e.key) != map[]
  {
    OfferedGrew(order, t, e);
    OfferedSound(sys, order, t, e);
    OfferedPending(sys, discharged, order, t, e, hole);
    OfferedKeepsTheBest(order, t, e);
    OfferedPaired(order, t, e, gap);
  }

  lemma InvSound(sys: System, discharged: set<Token>, order: Antichain.Order, t: Table,
                 hole: set<(Key, Witness, Path)>, gap: set<(DepKey, SumKey)>)
    requires Inv(sys, discharged, order, t, hole, gap)
    ensures forall d :: d in t.dependencies ==> DepSound(sys, d, t.dependencies[d].trail)
    ensures forall s :: s in t.summaries ==> SumSound(sys, s, t.summaries[s])
    ensures forall k, w :: k in t.retained && w in t.retained[k] ==>
              PathSound(sys, k, w) && PathFits(k.entry, t.retained[k][w], w)
    ensures forall k :: |KeptAt(t, k)| <= Antichain.LIMIT
  {
    forall k, w | k in t.retained && w in t.retained[k]
      ensures PathSound(sys, k, w) && PathFits(k.entry, t.retained[k][w], w)
    {
      assert w in KeptAt(t, k);
    }
    forall k
      ensures |KeptAt(t, k)| <= Antichain.LIMIT
    {
      assert KeepsTheBestAt(order, t, k);
    }
  }

  // ---------------------------------------------------------------- the other table changes

  const EMPTY_TABLE := Table(map[], [], map[], map[], None, None, map[], [], [])

  lemma InitialInv(sys: System, discharged: set<Token>, order: Antichain.Order, e: PathEdge)
    requires e.key == EntryKey(RootEntry(sys)) && e.trail == [] && PathFits(e.key.entry, e.path, e.trail)
    requires PathSound(sys, e.key, [])
    ensures Inv(sys, discharged, order, Offered(order, EMPTY_TABLE, e), {}, {})
  {
    var t := EMPTY_TABLE;
    forall k
      ensures KeepsTheBestAt(order, t, k)
    {
      assert KeptAt(t, k) == map[];
    }
    OfferedGrew(order, t, e);
    OfferedSound(sys, order, t, e);
    OfferedPending(sys, discharged, order, t, e, {});
    OfferedKeepsTheBest(order, t, e);
  }

  lemma PendingGrew(sys: System, discharged: set<Token>, t: Table, u: Table, hole: set<(Key, Witness, Path)>)
    requires Pending(sys, discharged, t, hole) && Grew(t, u) && t.retained == u.retained && t.queue == u.queue
    ensures Pending(sys, discharged, u, hole)
  {
    forall k, w | w in KeptAt(u, k) && (k, w, KeptAt(u, k)[w]) !in hole
      ensures (k, w) in u.queue || Expanded(sys, discharged, u, k, w, KeptAt(u, k)[w])
    {
      assert KeptAt(u, k) == KeptAt(t, k);
      if (k, w) !in t.queue {
        ExpandedGrew(sys, discharged, t, u, k, w, KeptAt(t, k)[w]);
      }
    }
  }

  lemma KeptUnchanged(order: Antichain.Order, t: Table, u: Table)
    requires t.retained == u.retained && t.offers == u.offers
    ensures forall k, w :: CoveredAt(t, k, w) <==> CoveredAt(u, k, w)
    ensures KeepsTheBest(order, t) ==> KeepsTheBest(order, u)
  {
    forall k
      ensures KeptAt(t, k) == KeptAt(u, k) && OffersAt(t, k) == OffersAt(u, k)
    {
    }
    if KeepsTheBest(order, t) {
      forall k
        ensures KeepsTheBestAt(order, u, k)
      {
        assert KeepsTheBestAt(order, t, k);
      }
    }
  }

  /** Adding a waiting call leaves exactly its pairings with known summaries open. */
  lemma RegisterInv(sys: System, discharged: set<Token>, order: Antichain.Order, t: Table,
                    d: DepKey, info: Dependency, hole: set<(Key, Witness, Path)>)
    requires Inv(sys, discharged, order, t, hole, {}) && DepSound(sys, d, info.trail)
    ensures Inv(sys, discharged, order, t.(dependencies := t.dependencies[d := info]), hole,
                CallGap(d, KnownSummaries(t.summaries.Keys, d)))
    ensures Grew(t, t.(dependencies := t.dependencies[d := info]))
  {
    hide Expanded, KeepsTheBest, PathSound, DepSound, SumSound, ResultSound;
    var u := t.(dependencies := t.dependencies[d := info]);
    var gap := CallGap(d, KnownSummaries(t.summaries.Keys, d));
    KeptUnchanged(order, t, u);
    PendingGrew(sys, discharged, t, u, hole);
    assert Sound(sys, u) by {
      assert forall k :: KeptAt(u, k) == KeptAt(t, k);
    }
    forall x, s | x in u.dependencies && s in u.summaries && Matches(x, s) && (x, s) !in gap
      ensures Returned(u, x, s)
    {
      assert x != d && x in t.dependencies;
      assert Returned(t, x, s);
    }
  }

  lemma PublishInv(sys: System, discharged: set<Token>, order: Antichain.Order, t: Table,
                   s: SumKey, info: Summary, hole: set<(Key, Witness, Path)>)
    requires Inv(sys, discharged, order, t, hole, {}) && SumSound(sys, s, info)
    ensures Inv(sys, discharged, order, t.(summaries := t.summaries[s := info]), hole,
                SummaryGap(s, WaitingCalls(t.dependencies.Keys, s)))
    ensures Grew(t, t.(summaries := t.summaries[s := info]))
  {
    hide Expanded, KeepsTheBest, PathSound, DepSound, SumSound, ResultSound;
    var u := t.(summaries := t.summaries[s := info]);
    var gap := SummaryGap(s, WaitingCalls(t.dependencies.Keys, s));
    KeptUnchanged(order, t, u);
    PendingGrew(sys, discharged, t, u, hole);
    assert Sound(sys, u) by {
      assert forall k :: KeptAt(u, k) == KeptAt(t, k);
    }
    forall d, x | d in u.dependencies && x in u.summaries && Matches(d, x) && (d, x) !in gap
      ensures Returned(u, d, x)
    {
      assert x != s && x in t.summaries;
      assert Returned(t, d, x);
    }
  }

  lemma FillInv(sys: System, discharged: set<Token>, order: Antichain.Order, t: Table,
                d: DepKey, s: SumKey, hole: set<(Key, Witness, Path)>, gap: set<(DepKey, SumKey)>)
    requires Inv(sys, discharged, order, t, hole, gap)
    requires d in t.dependencies && s in t.summaries && (Matches(d, s) ==> Returned(t, d, s))
    ensures Inv(sys, discharged, order, t, hole, gap - {(d, s)})
  {
    forall x, y | x in t.dependencies && y in t.summaries && Matches(x, y) && (x, y) !in gap - {(d, s)}
      ensures Returned(t, x, y)
    {
      if (x, y) != (d, s) {
        assert (x, y) !in gap;
      }
    }
  }

  /** A result found and chosen by some preference. */
  ghost predicate Chosen(before: Option<PathResult>, r: PathResult, now: Option<PathResult>) {
    now == Some(r) || (before.Some? && now == before)
  }

  /** Recording a result loses nothing and makes no earlier entry less complete. */
  lemma RecordInv(sys: System, discharged: set<Token>, order: Antichain.Order, t: Table, u: Table, r: PathResult,
                  hole: set<(Key, Witness, Path)>, gap: set<(DepKey, SumKey)>)
    requires Inv(sys, discharged, order, t, hole, gap)
    requires ResultSound(sys, r)
    requires r.outcome == Unsafe ==>
               u == t.(unsafe := u.unsafe, violations := t.violations + [r]) && Chosen(t.unsafe, r, u.unsafe)
    requires r.outcome != Unsafe ==>
               && r.outcome == Inconclusive
               && u == t.(inconclusive := u.inconclusive, doubts := t.doubts + [r])
               && Chosen(t.inconclusive, r, u.inconclusive)
    ensures Inv(sys, discharged, order, u, hole, gap) && Grew(t, u)
  {
    hide Expanded, KeepsTheBest, PathSound, PathFits, DepSound, SumSound, ResultSound, FoundSound, CoveredAt;
    KeptUnchanged(order, t, u);
    FoundMore(sys, r.outcome, if r.outcome == Unsafe then t.violations else t.doubts,
              if r.outcome == Unsafe then t.unsafe else t.inconclusive, r,
              if r.outcome == Unsafe then u.unsafe else u.inconclusive);
    RecordGrew(t, u, r);
    PendingGrew(sys, discharged, t, u, hole);
    assert forall k :: KeptAt(u, k) == KeptAt(t, k);
    forall d, s | d in u.dependencies && s in u.summaries && Matches(d, s) && (d, s) !in gap
      ensures Returned(u, d, s)
    {
      assert Returned(t, d, s);
    }
  }

  lemma FoundMore(sys: System, outcome: Outcome, found: seq<PathResult>, before: Option<PathResult>, r: PathResult,
                  now: Option<PathResult>)
    requires FoundSound(sys, outcome, found, before) && r.outcome == outcome && ResultSound(sys, r)
    requires Chosen(before, r, now)
    ensures FoundSound(sys, outcome, found + [r], now)
  {
    hide ResultSound;
  }

  lemma RecordGrew(t: Table, u: Table, r: PathResult)
    requires r.outcome == Unsafe ==>
               u == t.(unsafe := u.unsafe, violations := t.violations + [r]) && Chosen(t.unsafe, r, u.unsafe)
    requires r.outcome != Unsafe ==>
               && u == t.(inconclusive := u.inconclusive, doubts := t.doubts + [r])
               && Chosen(t.inconclusive, r, u.inconclusive)
    ensures Grew(t, u)
  {
    assert forall k :: KeptAt(u, k) == KeptAt(t, k);
  }

  /** Taking a queue entry leaves a hole only for that entry, and none if it is no longer kept. */
  lemma TakeInv(sys: System, discharged: set<Token>, order: Antichain.Order, t: Table, u: Table, k: Key, w: Witness,
                hole: set<(Key, Witness, Path)>)
    requires Inv(sys, discharged, order, t, {}, {})
    requires u == t.(queue := u.queue)
    requires forall x :: x in t.queue ==> x in u.queue || x == (k, w)
    requires w in KeptAt(t, k) ==> hole == {(k, w, KeptAt(t, k)[w])}
    ensures Inv(sys, discharged, order, u, hole, {})
  {
    hide Expanded, PathSound, DepSound, SumSound, ResultSound;
    KeptUnchanged(order, t, u);
    assert forall x :: KeptAt(u, x) == KeptAt(t, x);
    assert Grew(t, u);
    forall x, v | v in KeptAt(u, x) && (x, v, KeptAt(u, x)[v]) !in hole
      ensures (x, v) in u.queue || Expanded(sys, discharged, u, x, v, KeptAt(u, x)[v])
    {
      if (x, v) !in t.queue {
        ExpandedGrew(sys, discharged, t, u, x, v, KeptAt(t, x)[v]);
      }
    }
    forall d, s | d in u.dependencies && s in u.summaries && Matches(d, s)
      ensures Returned(u, d, s)
    {
      assert Returned(t, d, s);
    }
  }

  lemma CloseInv(sys: System, discharged: set<Token>, order: Antichain.Order, t: Table, k: Key, w: Witness, path: Path)
    requires Inv(sys, discharged, order, t, {(k, w, path)}, {})
    requires Expanded(sys, discharged, t, k, w, path)
    ensures Inv(sys, discharged, order, t, {}, {})
  {
    forall x, v | v in KeptAt(t, x)
      ensures (x, v) in t.queue || Expanded(sys, discharged, t, x, v, KeptAt(t, x)[v])
    {
      if (x, v, KeptAt(t, x)[v]) == (k, w, path) {
        assert Expanded(sys, discharged, t, x, v, KeptAt(t, x)[v]);
      }
    }
  }

  lemma EmptyQueueSaturated(sys: System, discharged: set<Token>, order: Antichain.Order, t: Table)
    requires Inv(sys, discharged, order, t, {}, {}) && t.queue == []
    ensures Saturated(sys, discharged, t) && KeepsTheBest(order, t)
  {
    forall k, w | w in KeptAt(t, k)
      ensures Expanded(sys, discharged, t, k, w, KeptAt(t, k)[w])
    {
      assert (k, w) !in t.queue;
    }
  }
}
