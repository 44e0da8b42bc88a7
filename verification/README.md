# Protocol-proof kernel of goplint, verified

goplint decides whether a validation obligation is met on every path of a Go
function. The part of it that decides Safe, Unsafe or Inconclusive, and that then
tries to discharge infeasible counterexamples, is modelled and proved here:

- **Tabulation** (`Supergraph`, `Runs`, `Tables`, `TabulationTheory`, `Tabulation`,
  `Antichain`, `Protocol`, `Relevance`, `Preference`). A work list over path edges, call
  dependencies and procedure summaries, as an object updated in place under a work
  budget and a clock. Its meaning, `Runs`, is the set of matched call/return runs of
  a pushdown system and mentions no work list. A finished table equals that set.
- **Witness replay** (`Replay`, `ProducedWitnesses`). The validator with its stack of
  open calls accepts exactly the realizable witnesses, and what tabulation stores
  is accepted as far as one tag can explain a step.
- **Graphs** (`ControlFlow`, `Dominators`, `SupergraphSpec`, `SupergraphBuild`, `Layout`,
  `PlainRuns`, `CutExits`). Searches through empty blocks, dominators by fixpoint, and
  the recursive construction of the supergraph with its cache, against a declarative
  description of what each procedure contributes; where every edge runs, by position
  in the source; and what a return edge cuts off.
- **Deferred calls** (`Deferred`). Last-registered-first unwinding with optional
  registrations.
- **Feasibility** (`Constraints`, `Conditions`, `Branches`, `DominatingPrefix`,
  `WitnessFormulas`, `Evidence`, `Domains`, `PairSearch`). Conditions compiled to a
  bounded disjunctive normal form, mandatory prefixes read off dominators,
  certificates, a separate checker, and what the pairwise search overlooks among the
  values Go has.
- **Refinement** (`Refinement`, `RefinementSoundness`). Query, discharge, rerun, under
  two budgets; it fails closed; and the end-to-end statement, with the counterexample
  where a stored call hides a witness (`CallDischarge`).

`Options` and `Ordering` hold an option type, lexicographic order and sorting;
`ProtocolDomain` holds the states and tags.

## Properties that fail, and when they hold

- **Contradictions are judged by texts.** Two spellings of one number, string or rune
  are reported contradictory, and a text such as `010` is parsed for another number
  (`Evidence.HexadecimalRespelling`, `StringRespelling`, `RuneRespelling`,
  `OctalMisparse`). A reading therefore keeps what a text means apart from what the
  parser makes of it, and `ContradictionExact` says which reported pairs have a common
  solution. `MisjudgedPairDischargesFeasibleWitness` shows it reach refinement; the
  end-to-end theorem asks for canonical texts.
- **A dominating successor** does not show that the branch edge was taken
  (`DominatingPrefix.IfWithoutElseMisread`). `EdgeOnEveryPath` gives the exact
  condition on the successor's other predecessors.
- **Switch labels** are read as conditions before they are read as labels
  (`Branches.BooleanCaseMisread`). `CaseReadRightExactly` says for which labels and
  tags both edges are read soundly, and `BooleanReadingExact` says it edge by edge.
  The formulas themselves are described for any graph by what is read.
- **A node transfer and an edge transfer in one step** may be beyond any single tag,
  and replay then refuses a witness that every finished run keeps
  (`DoubleTransferRefused`). A stored witness replays iff its tags explain its steps.
- **Pairwise checking** compares bounds as rational numbers and inequalities and
  strings as texts, so conflicts are overlooked and SAT is claimed of an unsatisfiable
  alternative: integer bounds with no integer between, three atoms of which one is an
  inequality, an inequality in another spelling, both booleans excluded, strings
  compared by order (`PairSearch.AdjacentBoundsOverlooked` and the four lemmas after
  it). `Domains.AlternativeDecided` says by a finite test when atoms have a solution
  among Go's values, `PairSearch.DecisionExact` exactly when the search gets it wrong,
  and `IntegersDecided`, `PairsDecide`, `BooleansDecided`, `StringEqualitiesDecided`
  and `ReferencesDecided` say it type by type.
- **Discharging where calls meet** can hide a feasible violation
  (`CallDischarge.DischargeHidesAnotherWitness`): a dependency and a summary keep the
  first witness for good. It hides none on a table that recombines its witnesses, a
  test that `TabulationTheory.WalksCoveredExactly` shows to be exact, that every graph
  without calls passes, and that the counterexample fails (`NothingRecombined`).
- **Exits that go on.** A block whose direct successors are all empty but lead on is an
  exit of its procedure and continued as well; tabulation only returns from it, so what
  comes after in the callee is never met and a violation there is not found
  (`PlainRuns.ViolationCutOff`). `PlainRunsCovered` says exactly when nothing is lost,
  and `CutExits.CutExactly` which nodes of a built graph are at fault. `Runs` follows
  the code.

`spec/ssa-constraints.md` lists only equality and inequality contradictions; the
code also uses ordered bounds, and so does the model.

## Hypotheses

Text keys, hashes and digests are injective. Values are rational numbers or symbols;
`Domains` narrows them to the values of each subject's Go type, with strings ordered
character by character from a least one, and asks that constants are of that type and
in its range, as Go's compiler does. A world gives every SSA key one value for a whole
path, and a two-way block leaves by the successor its condition selects.
`BooleansDiffer`, `Typed` and `OperandConsistent` say that the two boolean constants
differ and that conditions respect Go's types. `RerunsTabulate`, about the graph and
the table each override leads to, is what `RefinementSoundness.Rerun` ensures.
`CandidateFits` is met because callers pass a one-block synthetic path and because a
hashed result without edges has one block, which `Rerun` ensures. `Accounted` asks of
an initial state that its possible effects and its identity are those of the reasons
recorded in it; one with nothing recorded and no effects is. Witnesses are
compared by a strict total order over all their fields. In `Refinement`, `replays` is
the verdict of `Replay.Validate`, and the functions of `Extraction` are what
`DominatingPrefix.PrefixFormula`, `Branches.PathFormula` and the decoded texts of
`Branches.ProvenanceFormula` compute.

## Model

| member | source | states |
|---|---|---|
| Tabulation.Tabulator.Propagate | goplint/cfa_ifds_tabulation.go:189-654 | it finishes exactly when the start is a node, the clock has not run out at the start and no budget is spent, and each reason for not finishing has its cause: an expired reading, a unit past the limit, or a key with more than 64 incomparable sound witnesses; out of work or of room it shows the sound walk that was turned away. Accepted work never exceeds the limit. A finished run had no expired reading, is saturated, keeps exactly the best witnesses, and reports the preferred violation, else the preferred doubt, else Safe; the report carries a sound witness that was not discharged, the block path of that witness and what the system says at its end. With nothing discharged the outcome is Unsafe, Inconclusive or Safe exactly as realizable runs meet a violation, only a doubt, or neither |
| Tabulation.Tabulator.Drain | goplint/cfa_ifds_tabulation.go:413-633 | the work list empties or the budget is spent; the table invariant holds throughout |
| Tabulation.Tabulator.Take | goplint/cfa_ifds_tabulation.go:143-166 | first in first out, or last in first out under the control; taking an entry turns it into the one obligation in progress |
| Tabulation.Tabulator.Process | goplint/cfa_ifds_tabulation.go:424-532 | one popped path edge is classified, its complaint recorded for its own reason or found discharged, and expanded; the invariant and the rank of the complaints are restored |
| Tabulation.Tabulator.Pass | goplint/cfa_ifds_tabulation.go:518-633 | a node with return edges only publishes its summary, any other follows all its edges |
| Tabulation.Tabulator.Follow | goplint/cfa_ifds_tabulation.go:539-632 | the consequences of one edge are in the table afterwards, the witness extended by the edge and the block path by the block it enters |
| Tabulation.Tabulator.FollowAll | goplint/cfa_ifds_tabulation.go:534-633 | so are those of all outgoing edges, in whatever order they are taken |
| Tabulation.Tabulator.RegisterCall | goplint/cfa_ifds_tabulation.go:578-601 | one waiting dependency per matching return edge, with the path and the witness that lead into the callee |
| Tabulation.Tabulator.RegisterReturns | goplint/cfa_ifds_tabulation.go:578-601 | so for each of them, in whatever order they are taken |
| Tabulation.Tabulator.RegisterDependency | goplint/cfa_ifds_tabulation.go:348-373 | a new dependency is stored and charged once, a known one changes and costs nothing; a new one is answered by every summary already published for its entry |
| Tabulation.Tabulator.AddDependency | goplint/cfa_ifds_tabulation.go:355-363 | one unit and one entry, and a gap for every summary already known |
| Tabulation.Tabulator.PublishSummary | goplint/cfa_ifds_tabulation.go:375-403 | a new summary is stored and charged once, a known one changes and costs nothing; a new one answers every dependency already waiting on its entry |
| Tabulation.Tabulator.AddSummary | goplint/cfa_ifds_tabulation.go:385-393 | one unit and one entry, and a gap for every call already waiting |
| Tabulation.Tabulator.ApplySummary | goplint/cfa_ifds_tabulation.go:313-346 | provided the exits agree, the caller's walk, the callee's walk and the return, put together, are covered by what is kept at the return configuration, and one reuse is counted |
| Tabulation.Tabulator.EnqueueReturn | goplint/cfa_ifds_tabulation.go:317-343 | that walk is offered with the merged block path, which is the block path of the whole walk |
| Tabulation.Tabulator.Enqueue | goplint/cfa_ifds_tabulation.go:262-311 | the table afterwards is the offered table: rejected if beaten, else stored after ousting what it subsumes, at most 64 kept; giving up names this path edge's own path and witness |
| Tabulation.Tabulator.Store | goplint/cfa_ifds_tabulation.go:290-310 | what is stored, charged and queued; a refusal is the clock's, or the state budget's with the unit past the limit charged, or the witness budget's with a full antichain |
| Tabulation.Tabulator.Admit | goplint/cfa_ifds_tabulation.go:298-310 | the newcomer is added, charged one unit and queued, unless the antichain is full or the budget is spent |
| Tabulation.Tabulator.CompareWithKept | goplint/cfa_ifds_tabulation.go:266-289 | which kept witnesses beat the newcomer and which it ousts, whatever order they are met in |
| Tabulation.Tabulator.ReserveWorkUnit | goplint/cfa_ifds_tabulation.go:251-261 | charges one unit unless the clock has run out; succeeds iff the unit is within the limit, and otherwise the first reason recorded is the state budget, or the timeout |
| Tabulation.Tabulator.Checkpoint | goplint/cfa_ifds_tabulation.go:244-250 | fails exactly when the clock has run out, and then the first reason recorded is a timeout; nothing else changes |
| Tabulation.Tabulator.SetBudgetExceeded | goplint/cfa_ifds_tabulation.go:232-243 | only the first reason is kept, with the terminal read off the witness |
| Tabulation.Tabulator.RecordUnsafe | goplint/cfa_ifds_tabulation.go:471-492 | the preferred unsafe result, still supported by a sound witness; one complaint, of this walk at this node, is added to those found |
| Tabulation.Tabulator.RecordInconclusive | goplint/cfa_ifds_tabulation.go:428-437 | the preferred inconclusive result, still supported by a sound witness; one complaint, for the reason the system gives, is added to those found |
| Tables.OfferedInv | goplint/cfa_ifds_tabulation.go:262-311 | accepting or rejecting an offer keeps soundness, closure, pairing and the antichain |
| Tables.RegisterInv | goplint/cfa_ifds_tabulation.go:348-373 | so does registering a dependency |
| Tables.PublishInv | goplint/cfa_ifds_tabulation.go:375-403 | so does publishing a summary |
| Tables.FillInv | goplint/cfa_ifds_tabulation.go:313-346 | answering a dependency closes one gap between dependencies and summaries and keeps the rest |
| Tables.CloseInv | goplint/cfa_ifds_tabulation.go:413-633 | an expanded entry stays expanded for ever |
| Tables.EmptyQueueSaturated | goplint/cfa_ifds_tabulation.go:413-654 | with nothing queued the invariant is saturation |
| Tables.MergePathsMeaning | goplint/cfa_ifds_tabulation.go:697-705 | a merged block path extends the caller's, ends at the return block, visits exactly the callee's blocks in between and never repeats one at once |
| Tables.MergeDestutters | goplint/cfa_ifds_tabulation.go:697-716 | merging the block paths of two walks gives the block path of the two walks in a row: the blocks met, without immediate repetitions |
| Tables.PathReturns | goplint/cfa_ifds_tabulation.go:317-328 | so the path of a caller's walk, a callee's and the return is that of the combined witness |
| TabulationTheory.ReturnSound | goplint/cfa_ifds_tabulation.go:313-346 | the callee's balanced walk fits between a call and its own return: no fact returns to the wrong call site |
| TabulationTheory.CallSound | goplint/cfa_ifds_tabulation.go:578-601 | entering a callee keeps the caller's walk and opens exactly one call |
| TabulationTheory.RunRepresented | goplint/cfa_ifds_tabulation.go:413-633 | completeness: in a saturated table every configuration of every matched run, recursive and unfinished calls included, is represented, with a dependency for every open call |
| TabulationTheory.ExactKeys | goplint/cfa_ifds_tabulation.go:77-85 | a path edge key is in the table exactly when some matched run reaches it |
| TabulationTheory.ExactDependencies | goplint/cfa_ifds_tabulation.go:98-107 | a dependency key is in the table exactly when some matched run makes that call |
| TabulationTheory.ExactSummaries | goplint/cfa_ifds_tabulation.go:120-127 | a summary key is in the table exactly when some matched run ends there |
| TabulationTheory.ExactOutcome | goplint/cfa_ifds_tabulation.go:641-654 | the recorded complaints are exactly those some run reaches |
| TabulationTheory.ScheduleIndependence | goplint/cfa_ifds_tabulation.go:143-166 | any two finished runs have the same path-edge, dependency and summary keys and the same kind of complaint |
| TabulationTheory.SilentMeansExcused | goplint/cfa_ifds_tabulation.go:424-516 | on any graph, calls and recursion included: a finished table that complains of nothing and recombines its witnesses loses no complaint, every run to a violation or doubt repeats the predicates of some discharged witness |
| TabulationTheory.WalksCoveredExactly | goplint/cfa_ifds_tabulation.go:348-403 | the test behind it is exact: a finished table keeps, for every walk of a procedure and its calls, a witness that asks no more, iff it does so for each kept witness of a call followed by each kept witness of the callee's end, of which dependencies and summaries store only the first |
| Protocol.SafeMeansClean | goplint/cfa_ifds_tabulation.go:424-516 | Safe in the analysis' terms: no stuck transfer, no unsafe terminal, no relevant uncertainty on any realizable run, and conversely |
| Protocol.ProtocolNamesComplaints | goplint/cfa_ifds_tabulation.go:427-435 | a stuck transfer and a relevant doubt always carry a reason |
| Relevance.DoubtExactly | goplint/protocol_relevance.go:41-61 | where the value is observed, a doubt is reported exactly when one of seven disturbing reasons is recorded and the value counts as proven or its identity is in doubt |
| Relevance.UncertaintyNeverLost | goplint/protocol_domain.go:146-154 | what is recorded at the end of a run is exactly what its steps recorded at nodes, on edges and past unresolved calls, through calls and returns; the identity is no more certain than that allows |
| Relevance.DisturbanceIsReported | goplint/protocol_relevance.go:41-61 | so a run disturbed on its way that comes to a sink with a value that counts as proven is a doubt, and with an identity in doubt a doubt or a violation |
| Relevance.ViolationExactly | goplint/cfa_ifds_tabulation.go:462-515 | an unsafe report needs an unsafe terminal met with a definite obligation, or unobserved, or undisturbed, and there it is made |
| ProtocolDomain.HistoryDecides | goplint/cfa_ide_edgefunc.go:64-107 | after any transfers a state is proven iff its last validation was not undone since, or it was from the start and nothing undid it; nothing uncertain becomes certain |
| ProtocolDomain.HistoryDecidesHazards | goplint/cfa_ide_edgefunc.go:64-107 | escaped or consumed iff that came while it was unproven, or it was from the start |
| ProtocolDomain.HistoryDecidesErrors | goplint/cfa_ide_edgefunc.go:64-107 | result and deferred error are those of the last transfer that sets or undoes them |
| ProtocolDomain.MostSevereNamed | goplint/protocol_domain.go:254-277 | the reason named is recorded, and nothing recorded is more severe |
| ProtocolDomain.ComposedEqualsStepwise | goplint/cfa_ifds_tabulation.go:19-50 | composed on two states only, an edge function gives every state the validation and hazards that its transfers give one by one, and the result once one of them has set it |
| Protocol.TakenUnlessPruned | goplint/cfa_ifds_tabulation.go:534-546 | where nothing returns, a run goes on along exactly the edges that the state at the node does not prune |
| Protocol.DefiniteViolationIsReported | goplint/cfa_ifds_tabulation.go:462-492 | an unproven obligation on a definite identity, reached by any run, leaves an unsafe result in every finished table, whatever uncertainty is about |
| Protocol.EdgeFunctionsTrackValidation | goplint/cfa_ifds_tabulation.go:19-50 | composed edge functions applied to the entry state give the current validation and hazards, through calls, recursion and summaries, for every open frame |
| Antichain.AdmitAllKeepsTheBest | goplint/cfa_ifds_tabulation.go:262-311 | what is kept is exactly the best of all that was ever offered, whatever the order of offers or of map iteration |
| Antichain.AdmitAllCovers | goplint/cfa_witness_contribution.go:197-213 | every witness ever offered is subsumed by a kept one |
| Antichain.AdmitAllIncomparable | goplint/cfa_ifds_tabulation.go:262-311 | kept witnesses never subsume one another |
| Preference.ReportedIsLeast | goplint/cfa_ifds_solver.go:486-500 | a complaint is reported iff there is one, and none found is better |
| Preference.ReportIgnoresOrder | goplint/cfa_ifds_solver.go:486-500 | the same length and witness are reported in whatever order complaints are found |
| Preference.NoKeptViolationIsBetter | goplint/cfa_ifds_tabulation.go:471-492 | in a finished table no kept witness of a violation that was not discharged is better than the one reported |
| Preference.NoKeptDoubtIsBetter | goplint/cfa_ifds_tabulation.go:428-437 | nor any kept witness of a doubt |
| Tabulation.CrowdFound | goplint/cfa_ifds_tabulation.go:298-301 | a full antichain and a newcomer that is neither beaten nor makes room are 65 sound witnesses of one key of which none makes another superfluous |
| Replay.Validate | goplint/cfa_witness_contribution.go:228-318 | the stack-based validator accepts exactly the realizable witnesses, and names the first fault |
| Replay.AcceptedIffRealizable | goplint/cfa_witness_contribution.go:228-318 | acceptance is: connected graph edges about one fact, chained states, matching transfers, the claimed last node, and every return closing the latest open call at the same site, caller and callee, said without a stack |
| Replay.StackMeansBracketed | goplint/cfa_witness_contribution.go:270-316 | the stack never underflows or mismatches iff every return closes a call in between which calls and returns balance |
| ProducedWitnesses.ProducedWitnessReplays | goplint/cfa_witness_contribution.go:59-98 | on a well-bracketed graph a stored witness, qualified, is realizable iff its tags explain its steps |
| ProducedWitnesses.QuietWitnessesReplay | goplint/cfa_ifds_tabulation.go:664-695 | when edge transfers change nothing every stored witness is accepted by replay |
| ProducedWitnesses.SingleTransferExplained | goplint/cfa_ifds_tabulation.go:664-695 | one transfer followed by any uncertainty is explained by the tag computed from its end states |
| ProtocolDomain.TagRecovers | goplint/cfa_ifds_tabulation.go:664-695 | that tag does to the first state exactly what the transfer did, unless the transfer left validation, hazards and deferred error as they were |
| ProducedWitnesses.DoubleTransferRefused | goplint/cfa_witness_contribution.go:320-326 | for an analysis that escapes at a node and validates along its edge, every finished run keeps a one-step witness that replay refuses as a changed state |
| ProducedWitnesses.DoubleStepIsStored | goplint/cfa_ifds_tabulation.go:539-560 | that witness is in the antichain of its path edge in any finished table over the two nodes |
| ControlFlow.NonEmptySuccessorEntries | goplint/cfa_interproc_cfg_graph.go:165-196 | ends on cyclic graphs and returns, sorted and without duplicates, exactly the entries of non-empty blocks reachable through empty blocks only |
| ControlFlow.CollectReachable | goplint/cfa_interproc_cfg_graph.go:198-220 | exactly the reachable blocks, each once, in index order |
| ControlFlow.Search | goplint/constructor_deferred.go:351-361 | breadth-first search returns exactly the reachable blocks |
| Dominators.BlockDominators | goplint/constructor_deferred.go:336-417 | ends on any graph, loops into the entry included; for each reachable block exactly the blocks on all entry-to-block paths |
| Dominators.Pass | goplint/constructor_deferred.go:388-415 | one pass in place shrinks the sets strictly or is at the fixpoint, and never strikes out a true dominator |
| Dominators.MeetOf | goplint/constructor_deferred.go:394-408 | what all predecessors agree on |
| Dominators.ListBlocks | goplint/constructor_deferred.go:362-376 | reachable blocks in order and exactly their reachable predecessors |
| Dominators.EntryBlock | goplint/constructor_deferred.go:341-350 | the first block that is not nil |
| Dominators.FixpointExact | goplint/constructor_deferred.go:388-417 | a fixpoint above the dominators is the dominators |
| SupergraphBuild.BuildSupergraph | goplint/cfa_interproc_graph.go:215-239 | the graph is exactly the union of the parts of a set of procedures closed under calls, each expanded once, none that nothing calls; `Layout` says edge by edge what those parts are |
| SupergraphBuild.Builder.AppendProcedure | goplint/cfa_interproc_graph.go:266-424 | ends on mutually recursive procedures; a cached procedure, built or being built, adds nothing |
| SupergraphBuild.Builder.ExpandProcedure | goplint/cfa_interproc_graph.go:290-424 | takes a fresh key and lays down exactly that procedure's part, on top of those of procedures newly reached |
| SupergraphBuild.Builder.AppendBlocks | goplint/cfa_interproc_graph.go:341-421 | every block's part is laid down |
| SupergraphBuild.Builder.AppendBlock | goplint/cfa_interproc_graph.go:341-421 | nodes, call events and ways out of one block; a block with no way out ends the function |
| SupergraphBuild.Builder.AppendNodes | goplint/cfa_interproc_graph.go:347-397 | nodes in order until control stops |
| SupergraphBuild.Builder.AppendNode | goplint/cfa_interproc_graph.go:361-393 | call events in order until one does not return, each entered from where control stands |
| SupergraphBuild.Builder.AppendCallEvent | goplint/cfa_interproc_graph.go:426-533 | each event lays down exactly its part and reports whether control comes back |
| SupergraphBuild.Builder.AppendResolvedCall | goplint/cfa_interproc_graph.go:481-532 | literal first, then declaration, else an unresolved call is passed over with its reason |
| SupergraphBuild.Builder.Connect | goplint/cfa_interproc_graph.go:493-506 | the call edge and one return edge per exit at the call's site; no exits means no return |
| SupergraphBuild.Builder.AddWaysOut | goplint/cfa_interproc_graph.go:399-413 | edges to exactly the entries past empty blocks, with the predicate of the successor taken |
| SupergraphBuild.Builder.AddEdge | goplint/cfa_interproc_graph.go:109-116 | adds the edge and both its ends |
| SupergraphBuild.BuiltGraphIsWellBracketed | goplint/cfa_interproc_graph.go:481-526 | what tabulation and replay ask of a graph holds of every graph built |
| Layout.GraphLaid | goplint/cfa_interproc_graph.go:341-421 | every edge of the graph by position, and no others: into call event `o` of node `n` or into node `n` exactly when every event before lets control through, out of an event as the event says, and from the end of a block past empty blocks |
| Layout.IntoCall | goplint/cfa_interproc_graph.go:375-379 | exactly one ordinary edge leads into each call that control gets to, from the node or what the event before returned to, and none into any other |
| Layout.IntoLaterNode | goplint/cfa_interproc_graph.go:355-357 | so it is for every node of a block after the first |
| Layout.WalkedTo | goplint/cfa_interproc_graph.go:347-397 | from the first node of a block there is a way, by steps and matched calls, to every place that control gets to |
| Layout.BlockWalked | goplint/cfa_interproc_graph.go:347-413 | a block of which every event lets control through is walked from its first node to its end |
| Layout.WaysOutLaid | goplint/cfa_interproc_graph.go:399-413 | the ways out lead to the first nodes of exactly the blocks met past empty ones, each with the predicate of the successor taken |
| Layout.EventEdges | goplint/cfa_interproc_graph.go:426-533 | which edges an event lays down and whether control comes back, from its fields alone: entered by an exact literal with a body or else by the declaration, passed over for a stated reason, or stopped at |
| Layout.DeadExactly | goplint/cfa_interproc_graph.go:441-524 | the calls marked as not returning are those that control gets to and does not come back from |
| Layout.EndsExactly | goplint/cfa_interproc_graph.go:415-420 | control leaves a function exactly at ends of blocks that it gets through and that lead nowhere |
| Layout.EntryIsFirst | goplint/cfa_interproc_graph.go:301-328 | the entry is the first node of the first block that has any |
| Layout.ExitsExactly | goplint/cfa_interproc_graph.go:643-690 | the exits are the ends of blocks without non-empty direct successors whose last node may return, of procedures that may return |
| SupergraphSpec.CallsAreBracketed | goplint/cfa_interproc_graph.go:493-506 | for each call edge, the return edges at its site are exactly those from its callee's recorded exits to that call's return node |
| SupergraphSpec.ReturnsAreCalled | goplint/cfa_interproc_graph.go:497-501 | no return edge without a call edge at its site; return edges carry no reason and no predicate |
| SupergraphSpec.EdgeShape | goplint/cfa_interproc_graph.go:355-357 | only ordinary steps lack a site, and they stay inside one procedure |
| CutExits.ExitAlsoContinues | goplint/cfa_interproc_graph.go:643-690 | an edge that is no return starts at a block's exit node exactly when the block's direct successors are all empty, its last node may return, control gets to its end alive and a path of empty blocks leads on |
| CutExits.CutExactly | goplint/cfa_interproc_graph.go:481-526 | in the whole graph, a return edge and another edge start at one node exactly when it is such an exit of a procedure that some call enters |
| CutExits.UncutGraphsCovered | goplint/cfa_interproc_graph.go:643-690 | a built graph without such exits loses no run of the graph as drawn |
| PlainRuns.PlainRunsCovered | goplint/cfa_ifds_tabulation.go:518-533 | let a node with return edges also follow its other edges: every run is then still one that tabulation covers iff no reached configuration proceeds at such a node with another edge that is followed |
| PlainRuns.DroppedShowsInTable | goplint/cfa_ifds_tabulation.go:518-533 | the finished table itself tells: it is so iff none of its keys is such a configuration |
| PlainRuns.PlainViolationsReported | goplint/cfa_ifds_tabulation.go:641-654 | then a finished table is unsafe iff a run of the graph as drawn violates |
| PlainRuns.ViolationCutOff | goplint/cfa_ifds_tabulation.go:518-533 | otherwise not: in a graph of two procedures a violation in the callee, past an exit, is on no run that tabulation covers |
| Deferred.ReturnEffect | goplint/constructor_deferred.go:115-213 | Validate exactly when every unwinding of every possible set of made registrations ends proven or with the validation error; inconclusive exactly when something is unclear, and for its reason; otherwise Invalidate or Identity; deferred calls that change nothing leave a return that validates validating and any other as it is |
| Deferred.NeutralIsClear | goplint/constructor_deferred.go:165-212 | unwinding starts from the return's own validation and a nil error: if every call yields the state it got, all passes iff the return validates |
| Deferred.Unwind | goplint/constructor_deferred.go:171-188 | the backward loop holds exactly the states of running the mandatory and any subset of the optional registrations, last registered first; it stops exactly when a possible execution gives up or nothing is left, for that reason |
| Deferred.RunOnAll | goplint/constructor_deferred.go:173-183 | one registration run on every state, kept states first; gives up iff some execution does |
| Deferred.Deduplicate | goplint/constructor_deferred.go:322-334 | the same states, each once |
| Deferred.Judge | goplint/constructor_deferred.go:190-212 | by field: clear iff no state carries a reason and each deferred error is nil or the validation's; then Validate iff each state is proven or has the validation's error, else Invalidate or Identity as the return was; the reason is that of an unclear state |
| Deferred.SelectActive | goplint/constructor_deferred.go:131-150 | exactly the registrations that may reach the return, marked optional unless they dominate it; stops iff a relevant one is unplaced or repeatable, for the first such one's reason |
| Deferred.ReachesReturn | goplint/constructor_deferred.go:257-282 | in the same block by position, otherwise by a path |
| Deferred.RepeatsAt | goplint/constructor_deferred.go:284-306 | true iff some way of at least one step leads back to the block |
| Deferred.SortActiveInOrder | goplint/constructor_deferred.go:154-163 | pairwise comparable registrations sort into the one order in which they can be made |
| Deferred.BeforeIsStrict | goplint/constructor_deferred.go:308-316 | no two places are before each other |
| Deferred.BeforeTransitive | goplint/constructor_deferred.go:308-316 | before passes along |
| Deferred.PathMakesActive | goplint/constructor_deferred.go:244-282 | what is made on a path to the return was selected; what dominates the return is made on every path |
| Deferred.MayReachExactly | goplint/constructor_deferred.go:257-282 | the return may be reached from a registration exactly when some path to it makes the registration |
| Deferred.RelevantMadeOnce | goplint/constructor_deferred.go:143-146 | when the search did not stop, no path makes a relevant registration twice |
| Deferred.EarlierPassedFirst | goplint/constructor_deferred.go:308-316 | on any path, of two ordered registrations the earlier place is passed first |
| Deferred.PathIsConsidered | goplint/constructor_deferred.go:171-188 | whatever path is taken, running what was registered on it last first is one of the unwindings considered |
| Conditions.CompileMeaning | goplint/cfa_ssa_constraints.go:400-482 | for every condition, polarity and world: a condition with that truth value makes the formula hold, and an unmarked formula holds for no other |
| Conditions.MarksExact | goplint/cfa_ssa_constraints.go:400-541 | a condition is marked exactly when a leaf is no literal, tracked boolean or fitting comparison, or some part of it comes to more than 256 alternatives; otherwise it has as many as counted |
| Conditions.OperatorLaws | goplint/cfa_ssa_constraints.go:593-625 | reversal swaps operands, negation complements, for every operator |
| Conditions.CompileBounded | goplint/cfa_ssa_constraints.go:491-541 | however large the condition, at most 256 alternatives |
| Constraints.Conjoin | goplint/cfa_ssa_constraints.go:491-522 | the nested loops compute the bounded product |
| Constraints.AndMeaning | goplint/cfa_ssa_constraints.go:491-522 | never stronger than the conjunction, exact unless marked, through the cut-off |
| Constraints.OrMeaning | goplint/cfa_ssa_constraints.go:524-541 | never stronger than the disjunction, exact unless marked, through the cut-off |
| Constraints.AndAllMarked | goplint/cfa_ssa_constraints.go:491-522 | a conjunction of many is marked exactly when a part is, or when at some point there would be more than 256 alternatives |
| Constraints.NormalizeMeaning | goplint/cfa_ssa_constraints.go:888-912 | normal order changes no meaning, mark or size |
| Constraints.NormalizeCanonical | goplint/cfa_ssa_constraints.go:888-912 | two formulas have one normal form iff they have the same alternatives up to order |
| Branches.PredicateMeaning | goplint/cfa_ssa_constraints.go:106-115 | for every branch, label and tag: the predicate holds wherever what the extractor reads agrees with the edge, and nowhere else if unmarked |
| Branches.PredicateMarked | goplint/cfa_ssa_constraints.go:106-115 | it is marked exactly when the branch can be read neither as a condition nor as a case whose tag stands in the block |
| Branches.RightReadingAgrees | goplint/cfa_ssa_constraints.go:106-115 | where the test `ReadsRight` succeeds, what is read is what the branch does |
| Branches.CaseReadRightExactly | goplint/cfa_ssa_constraints.go:355-378 | a case is read soundly on both edges exactly when the test succeeds: its label is outside the fragment, or it is boolean and the tag is the constant true |
| Branches.BooleanReadingExact | goplint/cfa_ssa_constraints.go:410-418 | edge by edge, and for partly supported labels too: a boolean label is read soundly exactly when its predicate holds anyway wherever the tag is not true |
| Branches.FreeTagCanBeFalse | goplint/cfa_ssa_constraints.go:355-378 | a tag that is neither tracked nor constant can be false, so that its boolean labels are misread |
| Branches.TrackedTagCanBeFalse | goplint/cfa_ssa_constraints.go:355-378 | so can a tracked tag that the label does not speak of |
| Branches.BooleanCaseMisread | goplint/cfa_ssa_constraints.go:410-418 | concretely, the other edge of `case true` on a boolean variable is declared impossible, though every false value takes it |
| Branches.PathFormula | goplint/cfa_ssa_constraints.go:88-128 | for any graph: the formula of a block path stands for exactly the worlds that the readings of its branches allow, and for exactly those that follow the path if its own branches are read right; it is marked exactly when a contributed predicate is or there are too many alternatives |
| Branches.ExecutionFollows | goplint/cfa_ssa_constraints.go:380-388 | an execution that leaves every branch by the successor its condition selects follows its path |
| Branches.ProvenanceHolds | goplint/cfa_ssa_constraints.go:753-809 | whoever takes a step satisfies the predicate written on it, provided this step's own branch is read right or not as a condition |
| Branches.ProvenanceExact | goplint/cfa_ssa_constraints.go:753-809 | a branch that can be read is written down unmarked and for what is read; one that cannot is marked, or says nothing if it is known not to be a condition |
| DominatingPrefix.EdgeOnEveryPath | goplint/cfa_ssa_constraints.go:187-192 | given a dominating successor, its edge from the branch is on every path to the origin iff every other reachable predecessor of the successor is itself dominated by it (and it is not the entry) |
| DominatingPrefix.SolePredecessorSuffices | goplint/cfa_ssa_constraints.go:187-192 | in particular when the branch block is its only reachable predecessor |
| DominatingPrefix.PrefixFormula | goplint/cfa_ssa_constraints.go:193-266 | for any graph: the extracted prefix stands for exactly the worlds that the readings of all picked branches allow, and is marked exactly when a picked predicate is or there are too many alternatives; an origin that is not reachable gives the mark |
| DominatingPrefix.PickedExactly | goplint/cfa_ssa_constraints.go:223-233 | a branch is picked, and for this polarity, exactly when it dominates the origin and of its two successors this one does and the other does not |
| DominatingPrefix.PrefixIsNecessary | goplint/cfa_ssa_constraints.go:187-266 | when picked edges are sole entrances and picked branches are read right, every execution that reaches the origin satisfies the prefix |
| DominatingPrefix.IfWithoutElseMisread | goplint/cfa_ssa_constraints.go:227-231 | without an else the join is read as the branch not taken, though the body leads there too: a followed path disagrees with the pick, and the entrance condition fails |
| Evidence.ContradictionExact | goplint/cfa_feasibility_ssa_constraints.go:298-372 | a reported contradiction has a common solution exactly when it is misjudged: one value is spelled in two ways, or a text is parsed for another number and by their true values the atoms do not conflict |
| Evidence.CoexistMeaning | goplint/cfa_feasibility_ssa_constraints.go:298-372 | the test by true values decides whether the two atoms have a common solution |
| Evidence.FindContradiction | goplint/cfa_feasibility_ssa_constraints.go:278-296 | found iff there is one, and it is the first pair |
| Evidence.Build | goplint/cfa_feasibility_ssa_constraints.go:240-276 | evidence iff every alternative is contradictory; completed with path and subjects it certifies |
| Evidence.Check | goplint/cfa_feasibility_ssa_constraints.go:428-474 | accepts exactly what certifies |
| Evidence.CertificateIsSpecific | goplint/cfa_feasibility_ssa_constraints.go:436-463 | certificates of one formula differ in nothing but their pairs, and those of different paths are told apart |
| Evidence.Decide | goplint/cfa_feasibility_ssa_constraints.go:140-202 | UNSAT iff every alternative is contradictory, always with a certificate the checker accepts; marked formulas are never SAT |
| Evidence.ListSubjects | goplint/cfa_feasibility_ssa_constraints.go:209-233 | the subjects, sorted, once each |
| Evidence.ListedUnique | goplint/cfa_feasibility_ssa_constraints.go:227-231 | sorting a set's elements gives one list, in whatever order the set is walked |
| Evidence.CertifiedIsUnsatisfiable | goplint/cfa_feasibility_ssa_constraints.go:428-474 | a certificate without misjudged pairs proves that no valuation satisfies the formula |
| Evidence.CanonicalTextsSuffice | goplint/cfa_feasibility_ssa_constraints.go:302-303 | canonically written constants that are parsed for what they are leave no misjudged pair |
| Evidence.MisjudgedPairIsCertified | goplint/cfa_feasibility_ssa_constraints.go:302-303 | conversely every misjudged pair gives a certified formula that has a solution |
| Evidence.HexadecimalRespelling | goplint/cfa_feasibility_ssa_constraints.go:302-303 | `x == 0x10` against `x == 16` |
| Evidence.StringRespelling | goplint/cfa_feasibility.go:352-353 | an interpreted string literal against a raw one |
| Evidence.RuneRespelling | goplint/cfa_feasibility.go:352-362 | a rune literal against a named constant for it, written as its number |
| Evidence.OctalMisparse | goplint/cfa_feasibility_ssa_constraints.go:365-372 | `x == 010` against `x < 9`: the parser reads ten |
| Domains.AlternativeDecided | goplint/cfa_ssa_constraints.go:636-662 | no Go values, integers in the range of their type, booleans, strings and references, satisfy a conjunction of atoms exactly when some subject fails a finite test: an equality is refused by another atom, or from the least value that meets the lower bounds on, as many values as there are atoms and one more are excluded |
| Domains.SubjectDecided | goplint/cfa_ssa_constraints.go:636-662 | the same for one subject of any type and atoms with any operators |
| Domains.StepsReach | goplint/cfa_ssa_constraints.go:651-661 | from a value on, integers and strings have a next value: any later one is reached in so many steps or lies beyond them all |
| Domains.Spared | goplint/cfa_feasibility_ssa_constraints.go:317-322 | among more values than there are atoms one is excluded by no inequality |
| PairSearch.DecisionExact | goplint/cfa_feasibility_ssa_constraints.go:240-276 | for formulas over Go values with canonical constants: what is unsatisfiable is refuted except exactly where the finite test fails on an alternative in which no pair conflicts |
| PairSearch.ContradictionCloses | goplint/cfa_feasibility_ssa_constraints.go:278-315 | a contradiction found between canonical atoms means that no Go values satisfy the alternative |
| PairSearch.IntegersDecided | goplint/cfa_feasibility_ssa_constraints.go:298-372 | on an integer subject: unsatisfiable exactly when a pair conflicts, or an inequality spells an equality's number otherwise, or no integer between the tightest bounds is left by the inequalities |
| PairSearch.PairsDecide | goplint/cfa_feasibility_ssa_constraints.go:339-361 | without inequalities: exactly when a pair conflicts, or strict bounds are one apart, or a strict bound is at the end of the type |
| PairSearch.BooleansDecided | goplint/cfa_feasibility_ssa_constraints.go:298-315 | on a boolean subject: exactly when a pair conflicts or both values are excluded |
| PairSearch.StringEqualitiesDecided | goplint/cfa_feasibility_ssa_constraints.go:298-322 | on a string that is only compared for equality the pairwise search is a decision |
| PairSearch.ReferencesDecided | goplint/cfa_feasibility_ssa_constraints.go:298-322 | and on a reference, which is only compared with nil |
| PairSearch.AdjacentBoundsOverlooked | goplint/cfa_feasibility_ssa_constraints.go:339-361 | `x > 5` and `x < 6`: an overlooked conflict |
| PairSearch.InequalityBreaksPairs | goplint/cfa_feasibility_ssa_constraints.go:298-315 | at most five, at least five and not five: another |
| PairSearch.RespelledInequalityOverlooked | goplint/cfa_feasibility_ssa_constraints.go:317-322 | `x == 16` and `x != 0x10` |
| PairSearch.NoBooleanOverlooked | goplint/cfa_feasibility_ssa_constraints.go:310-312 | a boolean neither true nor false |
| PairSearch.StringOrderOverlooked | goplint/cfa_feasibility_ssa_constraints.go:317-332 | a string equal to `b` and less than `a` |
| WitnessFormulas.ExtractFormula | goplint/cfa_ssa_constraints.go:130-185 | the loops compute the formula of a witness record |
| WitnessFormulas.FormulaMeaning | goplint/cfa_ssa_constraints.go:130-185 | it holds wherever the prefix and all predicates of the witness do, and, unmarked, nowhere else |
| WitnessFormulas.FormulaMarked | goplint/cfa_ssa_constraints.go:130-185 | it is marked exactly when its prefix or a part is, or when there would be more than 256 alternatives |
| Refinement.Refine | goplint/cfa_refinement.go:77-239 | within both budgets for any clock and any backend. The candidate that comes back is the one last asked about or brought by the last rerun, as it is, or with outcome and reason alone replaced when it ends undecided. Safe only for Safe input or from a rerun whose whole discharge set stands on checked refutations; Unsafe only on a last SAT (or no backend); unreplayable witnesses are undecided; a single expired reading ends undecided, at the first reading without a rerun, and without one the outcome is that of the chase |
| Refinement.TakeTurn | goplint/cfa_refinement.go:125-187 | one turn of the loop: an end, nothing new to try, or the next candidate, with the whole history of overrides and answers kept |
| Refinement.Continue | goplint/cfa_refinement.go:156-198 | after a rerun: an end if it is Safe or time is up, otherwise the next question |
| Refinement.ChaseTurns | goplint/cfa_refinement.go:125-187 | on time, a refutation that is new is spent while fewer than 3 reruns and 16 queries, or what was set, are used up; the rerun discharges it with all before, with 20000 states after a state budget and targets resolved after an unresolved one |
| Refinement.ChaseEnds | goplint/cfa_refinement.go:200-216 | otherwise what is confirmed or was not asked stays as it is, and what is refuted or unknown ends undecided |
| Refinement.Deadline.Reached | goplint/cfa_refinement.go:117-121 | exactly what the clock says at this reading; without a clock never |
| Refinement.CheckFeasibility | goplint/cfa_refinement.go:320-368 | an UNSAT that is let through is certified for this witness' formula on its path, whatever the backend says; an expired reading makes it unknown and a timeout, and otherwise the decision and its note are those of the check |
| Refinement.Ask | goplint/cfa_refinement.go:115-123 | a decision overtaken by the clock counts as unknown and names no discharge |
| Refinement.Conclude | goplint/cfa_refinement.go:200-238 | an unusable refutation and an unknown end undecided, anything else stays as it is; the report agrees with the outcome and names the limit that was met |
| Refinement.AnswerQuery | goplint/cfa_feasibility_ssa_constraints.go:140-202 | the production backend's UNSAT is never turned away by the checker |
| Refinement.RefinementCache.Record | goplint/cfa_refinement_cache.go:13-22 | each non-empty token is admitted exactly once |
| Refinement.StandingRuns | goplint/cfa_refinement.go:140-186 | a rerun spends one fresh token and runs with earned discharges only |
| RefinementSoundness.Rerun | goplint/cfa_cast_shared.go:71-82 | a rerun, under the override's state limit if it has one, on the graph its override leads to, answers Safe only with a finished table of that graph that has no complaint under its discharges, and what it reports is sound and not discharged, or says why it did not finish; a hashed result without edges has one block |
| RefinementSoundness.TokenNamesComplaint | goplint/cfa_feasibility.go:171-179 | the token named for a candidate discharges exactly the complaints with its path, witness, node and trigger, and the trigger is what the system says there |
| RefinementSoundness.SameDischargeExactly | goplint/cfa_refinement.go:274-297 | two refutations are one discharge token exactly when witness (or record), alternatives up to order, and certificate agree |
| RefinementSoundness.RefutedNeverReturns | goplint/cfa_refinement.go:131-147 | the discharge of a hashed candidate names its token to the rerun, and a complaint that the rerun finds was not discharged for it: what is refuted does not come back |
| RefinementSoundness.RefutedWitnessExcludesRuns | goplint/cfa_ifds_solver.go:515-537 | no run with the predicates of a refuted witness is feasible |
| RefinementSoundness.RefinedSafeIsSafe | goplint/cfa_refinement.go:125-187 | end to end, calls included and whatever graphs the reruns were on: when refinement ends Safe with a last table that recombines its witnesses, no feasible run of that last graph reaches a violation or a doubt |
| RefinementSoundness.MisjudgedPairDischargesFeasibleWitness | goplint/cfa_feasibility_ssa_constraints.go:302-303 | without canonical texts a feasible witness can be discharged: any misjudged pair is admitted by the checker |
| CallDischarge.DischargeHidesAnotherWitness | goplint/cfa_ifds_tabulation.go:352-355 | where a stored call hides a later witness the covering fails: a finished table justifies Safe under one discharge although a run violates that shares no predicate with the discharged witness |
| CallDischarge.NothingRecombined | goplint/cfa_ifds_tabulation.go:352-355 | and that table fails the test |
| RefinementSoundness.CallsBreakThePromise | goplint/cfa_ifds_tabulation.go:352-355 | so Safe may be justified there, the discharged witness infeasible, and a feasible run violate all the same |

## Left out

- Preference.ReportIgnoresOrder: fixes the length of the reported block path and the whole witness, not the blocks of the path, because the comparison it models looks at nothing else.
- TabulationTheory.SilentMeansExcused: asks that the table recombines its witnesses; otherwise it can be false (`CallDischarge.DischargeHidesAnotherWitness`), because dependencies are deduplicated by keys that carry no witness. The test is exact for tables without discharges (`WalksCoveredExactly`), and sufficient with them.
- RefinementSoundness.RefinedSafeIsSafe: asks the same of the last table, and canonical constant texts; without either it can be false (`CallsBreakThePromise`, `MisjudgedPairDischargesFeasibleWitness`). It is about the runs of the last graph analysed.
- RefinementSoundness.Rerun: which graph an override leads to, with its call targets resolved or not, is a parameter.
- Branches.BooleanReadingExact: for a label that is supported in part its condition is the validity of a formula, which no test on the label's shape decides.
- Go syntax, types, SSA construction, aliasing and target matching: transfers, terminal, sink, relevance and pruning tests, operands, call resolution and deferred executions are parameters.
- Which calls may return (`computeProtocolMayReturn`) and how events are found in a node: given with each event and procedure.
- Text formats: JSON, base64 and hashing of predicates, witnesses and evidence; a provenance text is decoded by a parameter.
- Order of iteration where the code walks sorted keys: sets are walked in any order and the results do not depend on it; the antichain and the path edges stored under it are one map.
- Reusing immutable witness slices: witnesses are values, so sharing is not visible.
- Observation of exit states, evidence-injection seams, statistics other than the counts of path edges, dependencies, summaries and reuses, report texts and traces.
- A missing deadline with a non-positive timeout: options never produce it.
- Clocks inside extraction, building and checking: one reading stands for all readings of a step, and a step that times out answers unknown.
- Structural, directive, path, enum, baseline and configuration analyses: many shallow cases or wire formats.
