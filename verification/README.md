# Verified models of the equality-saturation lab

Dafny models of the self-contained algorithms around the lab's patched egglog
engine, with proofs of what each of them is for. The engine appears as a
database of tables whose outputs are functions of their keys, as an arbitrary
leaf of a schedule, or as a step with a stated footprint; the loops, stacks,
union-finds, buffers and registries of the lab keep their own form.

`dafny verify dfyconfig.toml` checks everything.

| component | source | files |
|---|---|---|
| factored conjunctive queries | `src/native_factored_query.rs`, `egglog/src/fact_query.rs` | `FactQueries.dfy`, `FactoredQuery.dfy`, `FactoredEvaluation.dfy` |
| materialised views over rules and schedules | `examples/eggcc_marker.rs` | `MarkerRewrite.dfy`, `MarkerOccurrences.dfy`, `MarkerView.dfy`, `MarkerSchedule.dfy`, `MarkerTransform.dfy`, `MarkerProgram.dfy` |
| schedule debugger | `examples/rule_repl.rs`, `src/cell_schedule.rs` | `ScheduleFlattening.dfy` |
| local closure scopes | `src/native_ripen_scope.rs` | `LocalScope.dfy` |
| evidence leases | `src/closure_contract.rs` | `ClosureContract.dfy` |
| fragment matching | `src/reuse_fragment.rs` | `ReuseFragment.dfy` |
| dependency layers | `src/coarse_smooth.rs` | `LayerGraph.dfy`, `LayerNames.dfy`, `LayerStore.dfy`, `LayerRests.dfy` |
| body transport | `src/native_cell_ports.rs` | `BodyTransport.dfy` |
| job scheduler | `src/native_saturated_rule_composition_pipeline.rs` | `Scheduler.dfy` |
| prefix reuse of replays | `src/native_ripen_graft.rs`, `src/native_ripen_entry.rs`, `src/cell_graft_interfaces.rs` | `ReplayClosure.dfy`, `GraftPlan.dfy`, `GraftLayout.dfy`, `GraftExtension.dfy` |
| parameter bindings | `src/cc_merge.rs` | `ParameterBindings.dfy` |
| shared types and facts | | `Wrappers.dfy`, `Collections.dfy` |

## Main results

- **Factorisation is exact.** `Compile` succeeds on exactly the queries that the
  engine accepts for the flat conjunction; the answers of the flat conjunction
  are the product of the answers of the factors; `Difference` finds a match and
  a fresh answer exactly when there is one, and its last search compares at
  most |excluded| + 1 distinct tuples with the exclusions.
- **View transformation preserves programs.** The transformed program
  terminates exactly when the source program does and ends with the same
  original tables, although refreshes count as updates and loops run longer.
  Underneath: the builder emits exactly the join, and a rewritten body has the
  same matches whenever the view is the join. No occurrence of the motif is left
  in a rewritten rule, at any depth, and the reported number is the number of
  occurrences replaced in the rule as it was.
- **Flattened schedules run the same leaves.** A debugging session, paused
  anywhere, ends in the state of the intact program after the same leaves. A
  request pauses at the first settled cursor at or beyond its stop, and runs no
  packet from there on.
- **Scopes are least and framed.** The effects of a head are exactly the tables
  that some run of its actions changes. The discovered scope is the least one; over
  every run interleaved with outside changes no excluded rule has a match, the
  frontier stays empty, and the local tables are as in isolation. While the
  lease on the scope is valid the certified closure stays complete.
- **Leases are exact.** A lease is reported valid exactly when nothing it
  watches was touched since, and the leases woken by a change are exactly those
  that it touches. Searches for a root take at most log2 of the class size.
- **Fragment search decides homomorphism.** The explicit-stack search returns
  true exactly when a homomorphism exists, which is exactly when the fragment
  holds in every database in which the body holds, and terminates.
- **Layers are convex and definitions shared by equivalence.** `Push` admits
  exactly the applications with resolved bindings and supported requirements; in
  every reachable store an occurrence is smooth only over a convex layer of its
  own coarse ancestors, two occurrences share a definition exactly when a renaming
  of tokens and a reordering of parents turns one into the other, and the layer
  left by a consumer of unrelated supports is convex if the supports are. An
  application that takes anything from outside its parents is never smooth.
- **Transport is forced propagation.** `RetainBody` succeeds exactly when
  propagation grounds every retained row and some map carries them all; it
  returns the least such map.
- **Every job ends.** Each unfinished job is in exactly one of the live work, the
  aliases and the pending list, no waiting goes in circles, every turn sweeps
  every live session once, and the loop ends with every job finished when
  sessions do.
- **Prefix reuse preserves meaning.** There is a plan exactly if the child's
  replay is the parent's with more boundary terms and stages (`PlanMeans`); several
  parents are extended exactly if each fits after its port terms are exchanged
  for the child's terms of the same tokens (`FitsMeans`). A session grafted on its saturated parent
  saturates to the facts of a cold one and passes every check that passes cold;
  the same holds for replays that extend several rebased parents.
- **Bindings are enumerated once.** Each assignment of parameters is visited
  exactly once up to renaming of fresh variables.

## Findings

Where the code does less than one might expect, the exact condition is proved.

- A port that is a literal found in the target goes to that literal, not where
  the interface map sends it (`PortOverridden`); `PortsKept` says when the
  transport extends the interface map.
- A literal that the target lacks can be carried to another literal
  (`LiteralChanged`); `LiteralsKept` says when a literal is kept.
- Port terms are exchanged from the inside out, so of nested port terms the
  inner one is exchanged and the outer one is no longer found
  (`NestedTermsMissed`); `RebaseExchanges` says that every occurrence is
  exchanged when no port term contains a port term or the term that one is
  exchanged for.
- `plan` accepts a plain check inside a stage, and a graft then makes it earlier
  than a cold session does (`EarlyCheckFails`). The program that writes the
  replays leaves no plain check there, so for replays as they are written no
  check is lost (`GraftPasses`); `GraftPassesIff` is the condition for all others.

## Model

| member | source | states |
|---|---|---|
| FactQueries.Scan | egglog/src/fact_query.rs:143-164 | the callback keeps a row iff there is one, a row outside the exclusions iff there is one, and otherwise all rows |
| FactoredQuery.FixValues | src/native_factored_query.rs:50-69 | the values determined by literals and functional tables: closed, and each with a derivation |
| FactoredQuery.FixedIsLeast | src/native_factored_query.rs:50-69 | the determined values lie in every closed set |
| FactoredQuery.Root | src/native_factored_query.rs:16-21 | path compression returns the root and keeps all classes |
| FactoredQuery.UnifyFree | src/native_factored_query.rs:70-80 | the classes are the finest in which each atom's free columns are together |
| FactoredQuery.GroupAtoms | src/native_factored_query.rs:81-89 | every atom is in the group of its class, or ground, and nowhere else |
| FactoredQuery.TakeColumns | src/native_factored_query.rs:108-125 | a factor takes the free columns of its class and the determined columns it binds that no earlier factor took |
| FactoredQuery.Split | src/native_factored_query.rs:99-139 | one accepted factor for each group in ascending order, or the flat query is not acceptable |
| FactoredQuery.Compile | src/native_factored_query.rs:23-144 | succeeds iff the engine accepts the flat query, and returns its factorisation |
| FactoredEvaluation.FixedAgree | src/native_factored_query.rs:50-69 | solutions of factors agree on every determined value |
| FactoredEvaluation.ColumnsPartition | src/native_factored_query.rs:108-125 | the columns of the factors partition the projection |
| FactoredEvaluation.Factorisation | src/native_factored_query.rs:81-144 | a tuple answers the flat conjunction iff each factor answers its columns |
| FactoredEvaluation.Put | src/native_factored_query.rs:153-157 | writes one factor's row into the buffer and nothing else |
| FactoredEvaluation.All | src/native_factored_query.rs:158-178 | the answers of the flat conjunction, without repetition when there are several factors |
| FactoredEvaluation.Gather | src/native_factored_query.rs:194-224 | one factor's match, its fresh component if wanted, or its complete rows |
| FactoredEvaluation.Collect | src/native_factored_query.rs:191-224 | a match of all factors, or there is no answer |
| FactoredEvaluation.Search | src/native_factored_query.rs:233-252 | a completion outside the exclusions iff there is one; all distinct tuples seen before are excluded |
| FactoredEvaluation.Decide | src/native_factored_query.rs:225-255 | a match and an answer outside the exclusions, each iff there is one |
| FactoredEvaluation.Difference | src/native_factored_query.rs:179-255 | match and fresh answer, each iff there is one; error iff several factors and an exclusion of the wrong width; at most one more tuple inspected than excluded |
| MarkerRewrite.SplicedMeansNested | examples/eggcc_marker.rs:188-201 | flattened arguments evaluate to a row with a root iff the nested call evaluates, and to that root |
| MarkerRewrite.RewriteSound | examples/eggcc_marker.rs:169-204 | if the added facts hold over an exact view, the rewritten expression has the value of the original |
| MarkerRewrite.RewriteComplete | examples/eggcc_marker.rs:169-204 | if the original evaluates, the generated variables can be bound so that the added facts hold and the value is the same |
| MarkerRewrite.NestedSameMatches | examples/eggcc_marker.rs:231-245 | rewriting every nested occurrence keeps the matches over an exact view |
| MarkerRewrite.RootSameMatches | examples/eggcc_marker.rs:208-230 | a projected root fact means what the nested fact did over an exact view |
| MarkerRewrite.FusedSameMatches | examples/eggcc_marker.rs:246-288 | replacing a pair by the view keeps the solutions of the body |
| MarkerRewrite.BindingInjective | examples/eggcc_marker.rs:197-198 | generated variables are distinct |
| MarkerView.MotifVariables | examples/eggcc_marker.rs:125-168 | fields, sorts and body of the builder |
| MarkerView.BuilderBuildsJoin | examples/eggcc_marker.rs:125-168 | the builder emits exactly the rows of the join |
| MarkerView.Rewriter.Expression | examples/eggcc_marker.rs:169-204 | the in-place edit computes the rewritten expression, its facts and its counter |
| MarkerOccurrences.CountMeans | examples/eggcc_marker.rs:169-204 | something is replaced exactly in the expressions that nest the motif at some depth |
| MarkerOccurrences.ExprReplaces | examples/eggcc_marker.rs:169-204 | no nested call is left; the numbers and the added facts are as many as the replaced calls of the original |
| MarkerOccurrences.Tally | examples/eggcc_marker.rs:349-373 | as many nested calls as root facts iff the motif is nested at roots only |
| MarkerView.EditedRule.Rewrite | examples/eggcc_marker.rs:205-291 | no occurrence is left, at any depth of the original facts and, for another view than the outer constructor, in the added ones; the result is the number of replaced occurrences of the original body, zero iff there is none, and then nothing changes |
| MarkerView.EditedRule.Fuse | examples/eggcc_marker.rs:246-288 | the loop terminates with no pair left and one fact fewer for each replacement |
| MarkerView.NothingLeft | examples/eggcc_marker.rs:205-291 | no occurrence is left at any depth, with the projected view too if the motif is nested at roots only |
| MarkerView.RewriteSameMatches | examples/eggcc_marker.rs:205-291 | whenever the view is the join a rewritten body has exactly the matches of the original |
| MarkerSchedule.OneRefreshEach | examples/eggcc_marker.rs:292-329 | a refresh right before each run of a consumer, none anywhere else, and otherwise the runs of the source |
| MarkerSchedule.MoreFuel | egglog/src/lib.rs:911-946 | a schedule that terminates does so with one result |
| MarkerSchedule.Quiet | examples/eggcc_marker.rs:292-329 | where the source changes nothing the transformed schedule only makes the view exact, and only that counts as an update |
| MarkerSchedule.Simulate | examples/eggcc_marker.rs:292-329 | a terminating source schedule is followed by the transformed one, with one more iteration at most |
| MarkerSchedule.Reflect | examples/eggcc_marker.rs:292-329 | a terminating transformed schedule comes from a terminating source schedule |
| MarkerSchedule.RefreshPreserves | examples/eggcc_marker.rs:292-329 | refreshes change neither termination nor the original state, for every nested schedule without until |
| MarkerTransform.JoinGrows | examples/eggcc_marker.rs:655-696 | steps that keep the motif's rows up to canonical values keep the view inside the join |
| MarkerTransform.DeletionBreaksView | examples/eggcc_marker.rs:655-696 | a deletion from a motif table leaves a stale row, so mutable tables are refused |
| MarkerTransform.LeavesSound | examples/eggcc_marker.rs:292-329 | refreshed consumers and other rulesets fire on the same matches in both programs |
| MarkerProgram.ValidateScope | examples/eggcc_marker.rs:62-109 | accepts exactly the programs without unsupported commands, without until in any run, and with no rule or schema after a schedule |
| MarkerProgram.NoLateRules | examples/eggcc_marker.rs:91-103 | in a program in scope every schedule runs with all rules |
| MarkerProgram.FreshName | examples/eggcc_marker.rs:342-345 | terminates with a name that does not occur in the text |
| MarkerProgram.Projects | examples/eggcc_marker.rs:347-375 | the value of the outer constructor is left out iff some active rule nests the motif and all do so only at the roots of facts |
| MarkerProgram.Transform | examples/eggcc_marker.rs:330-470 | active rules in which the motif occurs rewritten, the declarations right in front of the first of them, a refresh before exactly their rulesets, nothing else changed |
| MarkerProgram.NoOccurrenceLeft | examples/eggcc_marker.rs:347-412 | no active rule of the transformed program has an occurrence left, at any depth |
| MarkerProgram.ProgramPreserved | examples/eggcc_marker.rs:330-470 | transformed and source program terminate together with the same original tables |
| MarkerProgram.TransformPreserves | examples/eggcc_marker.rs:330-470 | the same, from names that occur in the text and a view name that does not |
| ScheduleFlattening.Simulates | examples/rule_repl.rs:28-59 | from the first packet of a schedule the machine reaches its end as the interpreter does |
| ScheduleFlattening.SimulatesRepeat | examples/rule_repl.rs:35-53 | iterations run until one can stop, and the jump leads behind the last |
| ScheduleFlattening.FlagIsJoined | src/cell_schedule.rs:183-206 | an iteration can stop iff all its leaves could |
| ScheduleFlattening.FlatteningPreserves | examples/rule_repl.rs:227-245 | the cursor machine ends in the state of the intact program after the same leaves |
| ScheduleFlattening.Debugger.Schedule | examples/rule_repl.rs:28-59 | appends the packets and jump records of one schedule |
| ScheduleFlattening.Debugger.Load | examples/rule_repl.rs:227-245 | packets and jump records of a whole program |
| ScheduleFlattening.Advance | examples/rule_repl.rs:157-179 | follows jump records to a fixpoint |
| ScheduleFlattening.Debugger.Drive | examples/rule_repl.rs:295-298 | runs packets only from cursors before the stop, up to the first settled cursor that is not, without changing the outcome |
| ScheduleFlattening.Debugger.Handle | examples/rule_repl.rs:275-298 | pauses at the first settled cursor at or beyond the cursor plus the count, the first packet whose label fits, or the end; without such a packet nothing changes; the session stays faithful and finishing ends as the intact program after the same leaves |
| ScheduleFlattening.PausesOnce | examples/rule_repl.rs:295-298 | there is only one configuration in which a request can pause |
| ScheduleFlattening.RowsOfRun | examples/rule_repl.rs:295-298 | the packets run are all before the stop, in order, the first at the cursor |
| ScheduleFlattening.CountIsKept | examples/rule_repl.rs:285-298 | a request for n packets runs at least one and at most n; with n = 1 exactly one |
| ScheduleFlattening.PausesSettled | examples/rule_repl.rs:157-179 | the prompt does not stand at the end of an iteration that could stop and has an exit |
| LocalScope.Reads | src/native_ripen_scope.rs:116-128 | the tables that a body mentions |
| LocalScope.Effects | src/native_ripen_scope.rs:129-156 | exactly the declared tables that some action of the head subsumes in or changes in some run |
| LocalScope.HeadWrites | src/native_ripen_scope.rs:129-156 | whatever the engine, the tables and the match, a run of the head changes only tables among its effects |
| LocalScope.WritesMeans | src/native_ripen_scope.rs:129-156 | an action is listed with a table iff some engine, tables and match make it change the table, or it subsumes a row there |
| LocalScope.EmptyReadBlocks | src/native_ripen_scope.rs:222-233 | a rule that reads an empty table has no match |
| LocalScope.Fixpoint | src/native_ripen_scope.rs:197-217 | the least set of tables closed under enabled rules and callbacks, and exactly the enabled rules |
| LocalScope.Discover | src/native_ripen_scope.rs:197-233 | the least scope, its frontier and the blocked rules with what they miss |
| LocalScope.Certify | src/native_ripen_scope.rs:158-233 | the scope of a session in a given state |
| LocalScope.MatchesLocal | src/native_ripen_scope.rs:116-128 | the matches of a rule depend only on the tables it reads |
| LocalScope.ExcludedHasNoMatch | src/native_ripen_scope.rs:218-233 | a rule outside the scope has no match while the frontier is empty |
| LocalScope.Frame | src/native_ripen_scope.rs:158-233 | over every run of rulesets in which changes from outside, callbacks of outside tables included, leave the scope and its frontier alone: the frontier stays empty, excluded rules never match and the local tables are as in isolation |
| LocalScope.LeaseKeepsClosure | src/closure_contract.rs:25-44 | while the lease is valid the certified closure stays complete |
| ClosureContract.ValidIffUntouched | src/closure_contract.rs:100-105 | not stale iff watched once and untouched since |
| ClosureContract.StaleStays | src/closure_contract.rs:100-105 | an invalid lease stays invalid |
| ClosureContract.SameIsRep | src/closure_contract.rs:65-73 | roots coincide iff the tokens are linked by the unions applied so far |
| ClosureContract.MergeForest | src/closure_contract.rs:116-128 | union by size keeps chains acyclic and short, and sizes true |
| ClosureContract.MergeGenerated | src/closure_contract.rs:116-128 | the joined classes are the equivalence closure with the new link |
| ClosureContract.ShortSearch | src/closure_contract.rs:65-73 | a search for a root takes at most log2 of the class size, and sizes count the linked tokens |
| ClosureContract.WokenIsTouched | src/closure_contract.rs:142-150 | the leases subscribed to changed classes are exactly the touched ones |
| ClosureContract.Registry.Watch | src/closure_contract.rs:80-96 | records a lease at the current versions |
| ClosureContract.Registry.WatchLocal | src/closure_contract.rs:57-64 | records a lease on a scope and its tokens |
| ClosureContract.Registry.IsValid | src/closure_contract.rs:100-105 | true iff watched and nothing watched was touched since |
| ClosureContract.Registry.Apply | src/closure_contract.rs:109-153 | wakes exactly the leases that the change touches; they are invalid from then on, the others as before |
| ReuseFragment.Candidates | src/reuse_fragment.rs:27-45 | the rows that fit an atom, in order |
| ReuseFragment.BindRow | src/reuse_fragment.rs:77-88 | binds a row or stops at a clash; the trail lists what was bound |
| ReuseFragment.Undo | src/reuse_fragment.rs:70-72 | the trail restores the mapping of before |
| ReuseFragment.TraceForces | src/reuse_fragment.rs:53-58 | whatever extends the live choices extends the mapping |
| ReuseFragment.MeasureTry | src/reuse_fragment.rs:75-76 | trying a candidate makes progress |
| ReuseFragment.LevelsDecide | src/reuse_fragment.rs:51-52 | the sorted levels are solvable iff a homomorphism exists |
| ReuseFragment.Search | src/reuse_fragment.rs:53-96 | the explicit-stack search terminates and decides solvability |
| ReuseFragment.HomomorphismMeansImplied | src/reuse_fragment.rs:10-97 | a homomorphism exists iff the fragment holds in every database in which the body holds |
| ReuseFragment.Contains | src/reuse_fragment.rs:10-97 | an error iff malformed; otherwise true iff a homomorphism exists, iff the body implies the fragment |
| LayerGraph.Connected | src/coarse_smooth.rs:417-438 | true iff the two tokens are equal in the equivalence closure of the effects |
| LayerGraph.Restarts | src/coarse_smooth.rs:256-281 | true iff the members are not convex in the dependency graph |
| LayerGraph.ConvexIffNoReturn | src/coarse_smooth.rs:258-281 | looking back from every member, across the outside, decides convexity |
| LayerNames.NamesComplete | src/coarse_smooth.rs:17-27 | first-occurrence names agree iff an injective renaming relates the token lists |
| LayerNames.OrderPermutes | src/coarse_smooth.rs:445-458 | first uses and the rest by definition list every parent once |
| LayerNames.SameDefinition | src/coarse_smooth.rs:442-500 | equal definitions iff a renaming of tokens and a reordering of parents that respects definitions relates the applications |
| LayerStore.Provides | src/coarse_smooth.rs:400-414 | exactly the effects of the roots and their ancestors |
| LayerStore.Supports | src/coarse_smooth.rs:415-439 | a row fact by ancestry, an equality by the closure of all ancestors' equalities |
| LayerStore.Disjoint | src/coarse_smooth.rs:282-318 | true iff some layers share no token with the others |
| LayerStore.LayerStore.Push | src/coarse_smooth.rs:199-398 | succeeds iff the event is new, bindings resolve and requirements are supported; smooth iff it has parents, takes everything from them, its supports have no gap and hang together; records the definition, the layer and the joint, and keeps the store valid |
| LayerStore.InPlainTerms | src/coarse_smooth.rs:239-281 | in every valid store an occurrence is smooth iff it has parents, is bound through them only, imports no external fact, and its supports have no gap and hang together; its members are itself or what its parents rest on |
| LayerStore.RecordedIsValid | src/coarse_smooth.rs:331-397 | recording an admitted application keeps everything the store says about all occurrences |
| LayerStore.SmoothIsConvex | src/coarse_smooth.rs:254-281 | in every valid store smooth occurrences rest on convex layers |
| LayerStore.SharedDefinition | src/coarse_smooth.rs:331-341 | two occurrences share a definition iff they have the same role and are equivalent |
| LayerRests.RestsOnCoarse | src/coarse_smooth.rs:246-253 | a smooth occurrence rests on coarse occurrences among its proper ancestors, and on at least one |
| LayerRests.JointInPlainTerms | src/coarse_smooth.rs:319-330 | the joint of a consumer is itself, the supports, and what a walk from its parents reaches without passing a support |
| LayerRests.JointIsConvex | src/coarse_smooth.rs:319-330 | the joint of convex supports is convex in the new graph |
| BodyTransport.NewIndex | src/native_cell_ports.rs:34-77 | finds exactly the visible rows and the literals of the target |
| BodyTransport.Propagate | src/native_cell_ports.rs:198-246 | the worklist with its counters carries all rows iff propagation grounds them and some map carries them, and then by the least map |
| BodyTransport.RetainBody | src/native_cell_ports.rs:140-250 | succeeds iff the body is transportable; returns the least transport over all retained rows |
| BodyTransport.MarkersCarried | src/native_cell_ports.rs:182-194 | a visible marker row names a source port by marker and parameter, and its result goes to the target's port of that place, or to its literal |
| BodyTransport.LiteralsKept | src/native_cell_ports.rs:164-170 | a mapped literal keeps its literal iff it occurs in the target |
| BodyTransport.LiteralChanged | src/native_cell_ports.rs:164-170 | a literal that the target lacks is carried to another one |
| BodyTransport.PortOverridden | src/native_cell_ports.rs:152-170 | a port that is a literal of the target does not go where the interface sends it |
| Scheduler.BestIsFirstBest | src/native_saturated_rule_composition_pipeline.rs:142-178 | the chosen parent is the first whose graft skips most stages, none iff none is eligible |
| Scheduler.Pipeline.ChooseParent | src/native_saturated_rule_composition_pipeline.rs:133-180 | chooses that parent, or none if reuse is off |
| Scheduler.ExactlyOnePlace | src/native_saturated_rule_composition_pipeline.rs:301-354 | an unfinished job is in exactly one of the live work, the aliases and the pending list |
| Scheduler.ChainEnds | src/native_saturated_rule_composition_pipeline.rs:189-207 | waiting ends at a job with live work or a finished one |
| Scheduler.PlaceKeeps | src/native_saturated_rule_composition_pipeline.rs:182-284 | aliasing, waiting and starting keep every job accounted for |
| Scheduler.TurnKeeps | src/native_saturated_rule_composition_pipeline.rs:354-505 | a turn keeps everything; finished jobs, entries and live sessions stay |
| Scheduler.TurnProgresses | src/native_saturated_rule_composition_pipeline.rs:354-505 | with unfinished jobs and nothing new, a turn takes load off |
| Scheduler.TurnIsFair | src/native_saturated_rule_composition_pipeline.rs:361-400 | a turn sweeps every live session exactly once |
| Scheduler.StartsFrom | src/native_saturated_rule_composition_pipeline.rs:182-284 | a pending job starts from its parent iff the job that did the parent's work is saturated with a certificate, waits if that is unfinished, and starts cold otherwise |
| Scheduler.Outcome | src/native_saturated_rule_composition_pipeline.rs:401-462 | a job is running until its session ends, then saturated, unfinished or rejected as the session completed, stopped or failed; a graft rests on a certified job |
| Scheduler.AliasEndsAlike | src/native_saturated_rule_composition_pipeline.rs:463-505 | an alias waits while its owner runs and then ends as its owner did |
| Scheduler.Pipeline.HasWork | src/native_saturated_rule_composition_pipeline.rs:107-111 | true iff some job is unfinished |
| Scheduler.Pipeline.ActivatePending | src/native_saturated_rule_composition_pipeline.rs:181-284 | places every pending entry in order |
| Scheduler.Pipeline.Step | src/native_saturated_rule_composition_pipeline.rs:285-505 | registers, activates, sweeps and shares, keeping the pipeline valid |
| Scheduler.Pipeline.Drain | src/native_analyze.rs:1205-1213 | the loop over unfinished work terminates with every job finished |
| ReplayClosure.SaturateEarly | src/cell_graft_interfaces.rs:1-4 | saturating a part first does not change the closure |
| ReplayClosure.ReplayGrows | src/native_ripen_graft.rs:37-48 | positive replays pass from more facts whenever they pass, and know more |
| GraftPlan.Plan | src/native_ripen_graft.rs:50-159 | a plan iff the child's replay extends the parent's, with exactly the rest of the child |
| GraftLayout.PlanMeans | src/native_ripen_graft.rs:50-159 | a plan iff the child is laid out as the parent with more boundary terms and stages, of declared operators that only add, with the same records and tokens, and checks at the ends; the plan is those terms and stages |
| GraftPlan.ParentMade | src/native_ripen_graft.rs:107-133 | the parent's replay is the shared environment, parameters and stages, then checks |
| GraftPlan.ChildMade | src/native_ripen_graft.rs:107-152 | the child's replay is the same with more parameters and stages |
| GraftPlan.GraftEndsAlike | src/native_ripen_graft.rs:47-49 | grafted or cold, the child saturates to the same facts |
| GraftPlan.Write | src/native_ripen_entry.rs:939-952 | stages without plain checks, in order, between the boundary terms and the final checks |
| GraftPlan.GraftPasses | src/native_ripen.rs:180-230 | for replays as they are written, what passes cold passes after the graft |
| GraftPlan.GraftPassesIff | src/native_ripen.rs:180-230 | for any accepted replays, exactly if the facts of the early plain checks follow by then |
| GraftPlan.EarlyCheckFails | src/native_ripen_graft.rs:37-46 | an accepted child with a plain check inside a stage, which passes cold and fails grafted |
| GraftExtension.FitsMeans | src/cell_graft_interfaces.rs:184-233 | a parent fits iff tokens, environment and validation agree and its commands, with port terms exchanged for the child's terms of the same tokens, occur in the child in order |
| GraftExtension.RebaseExchanges | src/cell_graft_interfaces.rs:196-216 | when no port term contains another or its replacement, every outermost occurrence of a port term is exchanged |
| GraftExtension.NestedTermsMissed | src/cell_graft_interfaces.rs:196-216 | of nested port terms the inner one is exchanged first and the outer one is missed |
| GraftExtension.SameReplayLeavesNothing | src/cell_graft_interfaces.rs:170-252 | a child whose commands are the parent's with the terms exchanged extends it with nothing left |
| GraftExtension.FirstFit | src/cell_graft_interfaces.rs:217-222 | finds an ordered occurrence iff there is one |
| GraftExtension.Match | src/cell_graft_interfaces.rs:184-233 | succeeds iff the child extends the rebased parent |
| GraftExtension.Extension | src/cell_graft_interfaces.rs:170-252 | succeeds iff there are parents and all fit; keeps the other commands in order |
| GraftExtension.ExtensionEndsAlike | src/cell_graft_interfaces.rs:1-4 | saturating all rebased parents and running the rest reaches the facts of the whole child |
| GraftExtension.ExtensionPasses | src/cell_graft_interfaces.rs:43-53 | the rest passes from the saturated parents whenever the whole passes from nothing |
| GraftExtension.SaturateThenRebase | src/cell_graft_interfaces.rs:196-216 | saturating a parent before rewriting its terms or after makes no difference to the end |
| ParameterBindings.Enumeration.Bindings | src/cc_merge.rs:212-228 | visits the extensions of the prefix in order up to the first refusal; otherwise all, with the prefix restored |
| ParameterBindings.VisitsAreCompletions | src/cc_merge.rs:223-227 | the visits below a prefix are its canonical completions with their fresh counts |
| ParameterBindings.ExactlyOnce | src/cc_merge.rs:211-228 | every assignment is visited once up to renaming of fresh variables |
| ParameterBindings.VisitCount | src/cc_merge.rs:223-227 | the number of visits satisfies the recurrence over classes and fresh variables |

## Left out

- Integers: `usize` and `u64` widths (ticks, notification counters, table values) are unbounded here.
- Order: the engine may enumerate rows in any order, and `FactoredEvaluation.Listed` fixes no order, so the order in which `All` returns tuples is not modelled.
- Resources: freeing compiled queries and collecting garbage have no counterpart.
- FactQueries.Scan: stops exactly at the first fresh row, where the native stop flag may let a few more rows through; no caller can tell.
- Native errors: a failing leaf of a schedule, a failing run of a compiled query and i/o errors of the tools end the program and are not modelled.
- Prompt commands: `.egg` text typed into the schedule debugger changes the session outside the packets.
- Labels and reports: texts, timings, row counts and JSON output.
- Saturate in the debugger: one native packet, as in the source, with arbitrary behaviour.
- Shadow mode and motif mining: the view theorems hold for every valid motif.
- Subsumption and deletion of motif tables: refused by the source; `MarkerTransform.DeletionBreaksView` shows why.
- MarkerTransform.LeavesSound: a native step is a function of the tables and the matches that keeps the rows of the motif's tables up to canonical values; semi-naive evaluation is not modelled.
- LocalScope.Frame: that a native firing is runs of heads on matches and rebuilds, and depends only on its matches and the local contents, is an assumption (`Conforms`); subsumption is counted as a write but leaves the row in place; the rebuild of tables outside the scope, with their callbacks, counts as an outside change, so a callback that fills a frontier table is one of the changes that the theorem excludes and the lease reports.
- MarkerProgram.Transform: rulesets that combine others get no refresh in the source even when a part is a consumer, and no combined ruleset is modelled.
- Types, container sorts and the JSON contract of a scope, and `compatible_query`.
- Serialised stamps of leases.
- LayerStore.LayerStore.Push: coarse layers hold their members as sets instead of sorted lists, error texts are shortened, and ripen feedback and reports are left out.
- BodyTransport.RetainBody: bodies are parsed values; the failures of reading malformed JSON, the extraction of ports from a trigger and the report are left out.
- Chains of instances (`displacement`, `components`) and the other censuses over cells.
- Scheduler.Pipeline.Step: sessions are given by how many sweeps they make and how they end, cold or grafted; sweeps happen one after the other; files, the catalog, queries between cells, counters and fallback reasons are left out, and so are i/o errors that end the program.
- Scheduler.Pipeline.Drain: ends because every session does; a session that never saturates and is never stopped keeps the source running.
- GraftPlan.Plan: replay plans are parsed values; commands are compared as values where the source compares their text, and error texts are shortened.
- ReplayClosure.RunState: the facts of a replay are ground, with names bound by let as constants; the kernel's congruence and equality laws are arbitrary clauses.
- GraftExtension.Extension: splitting a source into environment, commands and validation, and the list of external injections.
- ParameterBindings.Enumeration.Bindings: the callback is the list of its visits and a fixed set of refused ones.
- Alpha-normalised replay contracts (`src/cell_binding_normalize.rs`), marker relations emitted by producers (`examples/delta_marker.rs`), covering by templates (`examples/ripsat_coverage.rs`), query signatures and prefix stores of compositions.
