# Static analysis engine: a Dafny model

This project models the static-analysis engine of CBMC (`src/analyses`): the
abstract interpreter with its pluggable histories, domains and storage, and the
analyses that ride on it.  The theorems quantify over all programs, all domains
that keep the documented contracts, and all executions.

## What is proved

- **The interpreter terminates** on every program, recursive ones included, for
  domains of finite height and finitely many histories, and computes a pure
  fixed point (`AiEngine`).
- **It goes where control goes**, on every program, recursive ones included: every
  reachable state is passed on to all successors, over calls or into callees as
  the interpreter demands, nothing is stored elsewhere, and the base interpreter
  never leaves its function (`AiFlow.RunSettled`, `AiFlow.CallsEntered`,
  `AiFlow.CallsSteppedOver`, `AiFlow.BaseStaysInside`, `AiOrigin.RunJustified`).
- **It is sound** for every program in which no live call that can return is
  part of a recursion: each configuration of every execution with matched calls
  and returns lies in a stored state, in its own calling context
  (`AiSoundness.RunSound`, `CallStackLaws.ContextSound`).  A concrete recursive
  program shows that a restriction is needed (`AiRecursion.RecursionMissed`), and
  one with a dead recursive call that ranking all calls would be too much
  (`AiRecursion.DeadUnranked`, `AiRecursion.DeadCovered`).
- **It is precise**: with monotone transformers the result is below every
  solution, and it is the least solution inside one function and, with
  call-stack histories and no recursion, for whole programs, whatever the order
  of the working sets (`AiPrecision.RunBelow`, `AiLeast.LeastSolution`,
  `CallStackLeast.LeastStackSolution`, `CallStackLeast.StackOrderIndependent`).
- **Call-stack histories** accept exactly the well-matched paths, and with a
  recursion limit have bounded depth and are cut back to the most recent call
  from the same site (`CallStackPaths.AcceptedIffMatched`, `CallStackHistory.NextSites`,
  `CallStackHistory.ReachedBounded`, `CallStackLaws.CallStackFinite`).
- **Dominators and postdominators are exact**, with several exits, and the
  in-place intersection is one (`CfgDominators.Dominators`).
- **Control dependence is exact** for the definition of Kumar and Horwitz,
  computed end to end from postdominators and the interpreter
  (`ControlDependence.Compute`).
- **Constant propagation followed by replacement preserves all executions** of a
  function, end to end, if nothing is learnt where an execution falls through a
  goto to its own next instruction (`ConstantPropagator.Propagate`).
- **What constant propagation records** is known exactly, for assignments, branch
  conditions and branches that are cut (`ConstantPrecision.AssignRecords`,
  `ConstantPrecision.GuardLearnt`, `ConstantPrecision.KnownBranch`), and so is what
  the replacement does to every instruction (`ConstantPropagator.RewriteReplaces`).
- **The rooted call graph** is the reachable part of the complete one, with
  exactly known repetitions of edges, and its exploration terminates
  (`CallGraph.Graph.Rooted`, `CallGraph.RootedExact`).
- **The alias join** of the escape analysis is the least common coarsening
  (`EscapeAnalysis.EscapeDomain.Merge`).

## Layout

| file | content |
|---|---|
| `goto_program.dfy` | programs: local steps, calls, function ends, call stacks |
| `ai_spec.dfy`, `ai_storage.dfy`, `ai_measure.dfy`, `ai_engine.dfy` | the interpreter: pure functions, storage class, termination measure, interpreter class |
| `ai_flow.dfy`, `ai_origin.dfy` | where states flow to, and where they come from |
| `ai_runs.dfy`, `ai_soundness.dfy`, `ai_recursion.dfy` | executions, soundness, two recursive programs |
| `ai_precision.dfy`, `ahistorical.dfy`, `ai_least.dfy`, `ai_absorbed.dfy` | solutions, location-only histories, least solutions, flow inside one function |
| `call_stack_history.dfy`, `call_stack_paths.dfy`, `call_stack_laws.dfy`, `call_stack_least.dfy` | call-stack histories, interprocedural least solutions |
| `dominance.dfy`, `cfg_dominators.dfy` | dominance over paths, the dominator class |
| `dependence_graph.dfy` | control dependence |
| `constant_expr.dfy`, `constant_domain.dfy`, `constant_soundness.dfy`, `constant_precision.dfy`, `constant_propagator.dfy`, `constant_goto_next.dfy` | constant propagation, and a function that it changes |
| `calls.dfy`, `call_visits.dfy`, `call_graph.dfy` | calls, how often a function is visited, call graphs |
| `escape_analysis.dfy` | alias join |

## How to read it

The interpreter class works in place on its storage; its methods are proved to
compute pure functions (`EdgeF`, `VisitF`, `CallF`, `ReturnF`, `FixF`, `RunF`)
and the theorems are about these.  The functions take a number that bounds their
recursion and return `None` when it runs out; the methods show that a sufficient
number always exists, so no theorem is limited by it.

An analysis is a record of functions, and its contracts are predicates:
`OrderLaws` and `StepLaws` (`src/analyses/ai_history.h:72-119`), `DomainLaws`
and `HeightLaws` (`src/analyses/ai_domain.h:112-142`), `UniverseLaws` (finitely
many histories).  `SoundDomain` and `SoundHistory` relate an analysis to
concrete executions.  The constant propagator and the control dependences are
instances, and every one of these contracts is proved for them; the soundness of
the constant propagator under the condition on gotos below.

Two interpreters share the class: the flag `interprocedural` of a program tells
`ai_recursive_interproceduralt` from `ai_baset`, and is read where the virtual
call would dispatch.

## Where code and documentation differ

The model follows the code.

- Return edges are computed when the call is visited
  (`src/analyses/ai.cpp:607-625`) and `visit_end_function` does nothing
  (`src/analyses/ai.cpp:538-539`), so under recursion later growth of a callee's
  end state does not reach earlier return sites.
- Both edges of a goto to its own next instruction use the positive guard
  (`src/analyses/constant_propagator.cpp:181-184`).
  `ConstantSoundness.GotoNextExact` says exactly when this is sound,
  `ConstantSoundness.GotoNextTracked` says it in terms of the guard and the
  tracked symbols, and `ConstantGotoNext.RewriteBreaks` gives a function that the
  pass changes.
- `meet` ignores a bottom source (`src/analyses/constant_propagator.cpp:610-611`)
  instead of becoming bottom, and takes two expressions with the same value for a
  contradiction (`src/analyses/constant_propagator.cpp:622-627`);
  `ConstantSoundness.MeetExact` covers both.  Neither arises at its only caller
  (`src/analyses/constant_propagator.cpp:398`) for evaluated goto guards, by
  `ConstantSoundness.NoConflict`.
- The rooted call graph adds the edges of a function again each time the function
  is popped (`src/analyses/call_graph.cpp:84-107`), so parallel edges there need
  not count callsites as `src/analyses/call_graph.h:90-91` says.
  `CallGraph.EdgeRepeated` is an input, `CallGraph.RootedExact` the exact
  condition.
- `program_point_reachable` is described for the entry point
  (`src/analyses/cfg_dominators.h:88-90`); for postdominators it means that some
  exit can be reached.

## Model

| member | source | states |
|---|---|---|
| `GotoProgram.Program.FlowKeepsStacksValid` | src/analyses/ai.cpp:542-629 | along any local, call or return edge a call stack that leads to the current location stays one that leads to the next location |
| `GotoProgram.Program.StackDepths` | src/analyses/ai.cpp:557-585 | without recursion every function that is waiting on the stack ranks strictly above the running one, so no call site can be on the stack twice |
| `AiSpec.EdgeKeeps` | src/analyses/ai.cpp:331-414 | one application of the transformer keeps every stored state valid, never unregisters a history, never makes a reachable state bottom, and changes no state but that of the queued target; a history that was created and not queued is bottom |
| `AiSpec.FirstExists` | src/analyses/ai_history.h:72-79 | a strict total order gives every non-empty working set a least history |
| `AiSpec.FirstIsLeast` | src/analyses/ai.cpp:214-230 | the history that is taken next is the unique minimum of the working set |
| `AiSpec.FixFuel` | src/analyses/ai.cpp:232-256 | the fixed point, once it exists, does not depend on the bound that makes its definition total |
| `AiSpec.VisitEntered` | src/analyses/ai.cpp:542-629 | an entered call is the edge to the callee's head, the nested fixed point if that edge queued something, and the return edges, composed in this order |
| `AiStorage.HistoryStorage.constructor` | src/analyses/ai_storage.h:227-232 | a new storage registers nothing and its two maps are in sync |
| `AiStorage.HistoryStorage.RegisterTrace` | src/analyses/ai_storage.h:108-125 | adds the history to the set of its location and touches no other location |
| `AiStorage.HistoryStorage.AbstractTracesBefore` | src/analyses/ai_storage.h:128-137 | the index returns exactly the histories with a stored domain that are at the location, also for a location never seen |
| `AiStorage.HistoryStorage.GetState` | src/analyses/ai_storage.h:280-294 | keeps index and domains in sync, creates bottom only for an unknown history, changes no known state |
| `AiStorage.HistoryStorage.SetState` | src/analyses/ai.h:502-506 | writing through the returned reference changes that one domain and keeps the maps in sync |
| `AiStorage.HistoryStorage.Clear` | src/analyses/ai_storage.h:296-301 | both maps end empty and in sync |
| `AiStorage.HistoryStorage.StateOfLocation` | src/analyses/ai_storage.h:246-278 | the per-location query is an upper bound of the states of exactly the registered histories there, whatever the order of merging, and it is their least upper bound if and only if not all of several are bottom while merge leaves bottom |
| `AiStorage.JoinOne` | src/analyses/ai_storage.h:268-274 | merging one more history keeps the least of the bounds that are not bottom, and leaves bottom only for a reachable state or a merge that does |
| `AiStorage.JoinedIsLub` | src/analyses/ai_storage.h:263-277 | what the loop computed is the least upper bound exactly if it did not leave bottom over bottoms only |
| `AiMeasure.MeasureDrops` | src/analyses/ai.cpp:373-390 | the sum of remaining heights over all possible histories drops when one weight drops and none rises |
| `AiMeasure.EdgeMeasure` | src/analyses/ai.cpp:331-414 | no edge raises the measure (unregistered histories plus remaining height) and an edge that queues its target lowers it; histories stay inside the finite universe |
| `AiEngine.Interpreter.constructor` | src/analyses/ai.h:126-136 | a new interpreter owns a fresh, empty storage for the given history and domain |
| `AiEngine.Interpreter.GetNext` | src/analyses/ai.cpp:214-230 | takes the minimum of the working set and leaves the rest |
| `AiEngine.Interpreter.ApplyEdge` | src/analyses/ai.cpp:345-390 | the imperative edge (step, copy, transform, merge in place, queue) computes the pure edge function, blocked, merged and new histories alike |
| `AiEngine.Interpreter.VisitEdge` | src/analyses/ai.cpp:331-414 | refines the pure edge; keeps all invariants; the measure never rises and strictly drops when the target is queued |
| `AiEngine.Interpreter.Fixedpoint` | src/analyses/ai.cpp:232-256 | terminates on every program, recursive ones included, and leaves in the storage exactly the pure fixed point; the measure never rises, and drops if new data is reported |
| `AiEngine.Interpreter.Visit` | src/analyses/ai.cpp:270-329 | refines the pure visit; either the measure dropped or the working set is what it was, which is what makes the enclosing loop terminate; new data is reported only with a drop, and without it nothing is queued |
| `AiEngine.Interpreter.CallEdges` | src/analyses/ai.cpp:444-521 | for a call the callee is known, and the edges to head and return site (or the edge that skips the call) are edges of the program |
| `AiEngine.Interpreter.VisitFunctionCall` | src/analyses/ai.cpp:444-521 | chooses between entering the callee and stepping over the call (single function, missing body, base interpreter) exactly as the pure visit does; `AiFlow.CallsEntered`, `AiFlow.CallsSteppedOver` and `AiFlow.BaseStaysInside` say where that leads |
| `AiEngine.Interpreter.VisitEdgeFunctionCall` | src/analyses/ai.cpp:542-629 | entering a call with its nested fixed point and return edges refines the pure visit and terminates under direct and mutual recursion |
| `AiEngine.Interpreter.EnterCallee` | src/analyses/ai.cpp:557-585 | the callee's fixed point is computed if and only if the edge to its head queued something, from that one history |
| `AiEngine.Interpreter.VisitReturns` | src/analyses/ai.cpp:587-628 | iterates over the live, ordered set of histories at the callee's end while return edges may insert into it; terminates and refines the pure iteration |
| `AiEngine.Interpreter.VisitReturn` | src/analyses/ai.cpp:607-625 | a return edge is taken only from a reachable end state |
| `AiEngine.Interpreter.AboveShrinks` | src/analyses/ai.cpp:607-625 | each step of the ordered iteration leaves strictly fewer histories ahead, even if the set grows meanwhile |
| `AiEngine.Interpreter.Run` | src/analyses/ai.h:156-166 | a whole analysis leaves the pure result in the storage; without an entry function it changes nothing |
| `AiRuns.LocalCovered` | src/analyses/ai.cpp:308-326 | from a closed function, a covered configuration stays covered by a local step |
| `AiRuns.CallCovered` | src/analyses/ai.cpp:587-628 | from a closed function, a covered configuration before a call is covered after the call returns |
| `AiRuns.WalkLeads` | src/analyses/ai.cpp:542-629 | the concrete walk through a function is a way through its control flow, with a way through the callee for each call |
| `AiRuns.ReturnsCanReturn` | src/analyses/ai.cpp:542-629 | a call that returns in some execution has a way through its callee |
| `AiRuns.WalkCovered` | src/analyses/ai.cpp:542-629 | every balanced walk (calls inside it all returned, nested to any depth) from a covered configuration ends covered, in the same function and the same context |
| `AiRuns.FramedStep` | src/analyses/ai.cpp:542-629 | one step of an execution keeps its decomposition into one balanced walk per stack frame |
| `AiRuns.FrameCovered` | src/analyses/ai.cpp:542-629 | a covered call and a balanced walk in its callee end covered, one frame deeper |
| `AiRuns.RunFramed` | src/analyses/ai.cpp:542-629 | every prefix of every execution decomposes into one balanced walk per stack frame |
| `AiRuns.FramedCovered` | src/analyses/ai.cpp:542-629 | in closed states every decomposed configuration is covered in its own context, by induction over the frames |
| `AiRuns.RunCovered` | src/analyses/ai.cpp:542-629 | if all stored histories are closed and the initial states covered, every configuration of every execution is covered |
| `AiSoundness.EdgeGrows` | src/analyses/ai.cpp:373-390 | an edge never shrinks the concrete meaning of any stored state |
| `AiSoundness.EdgeCovers` | src/analyses/ai.cpp:345-390 | an edge covers every concrete step it stands for, in the context the call stack prescribes |
| `AiSoundness.EntryCovered` | src/analyses/ai.cpp:557-585 | after the edge to the head of the callee every concrete entry into the callee is covered, and stays so while states grow |
| `AiSoundness.ExitCovered` | src/analyses/ai.cpp:577-585 | once the callee is closed, every concrete execution of the callee from a covered call is covered at its end |
| `AiSoundness.ReturnEdgeDone` | src/analyses/ai.cpp:607-625 | a return edge adds its history to those whose concrete returns are all covered and loses none |
| `AiSoundness.LocalSound` | src/analyses/ai.cpp:308-326 | processing the successors one by one leaves the visited history closed or queued again, whatever duplicates and self-loops there are |
| `AiSoundness.ReturnSound` | src/analyses/ai.cpp:587-628 | after the iteration over the end histories all concrete returns of the call are covered |
| `AiSoundness.CallClosed` | src/analyses/ai.cpp:542-629 | a callee closed under its steps plus done return edges close the call site |
| `AiSoundness.Suspended` | src/analyses/ai.cpp:577-585 | the invariant of the caller's fixed point gives the invariant with which the nested fixed point starts, with the caller's working set suspended |
| `AiSoundness.Resumed` | src/analyses/ai.cpp:577-585 | after the nested fixed point the suspended one goes on with its invariant, also if the nested one came back to the same function |
| `AiSoundness.CalleeClosed` | src/analyses/ai.cpp:577-585 | a callee that ranks below everything suspended is closed after its fixed point |
| `AiSoundness.ReturnGood` | src/analyses/ai.cpp:587-628 | return edges keep the invariant and change nothing but histories at the return site, also under recursion |
| `AiSoundness.CallNeverReturns` | src/analyses/ai.cpp:542-629 | a call without a way through its callee is closed by its entry edge alone |
| `AiSoundness.CallSound` | src/analyses/ai.cpp:542-629 | an entered call keeps the invariant: every stored history is closed, pending, or waits unchanged in a suspended fixed point |
| `AiSoundness.VisitSound` | src/analyses/ai.cpp:270-329 | visiting any pending history keeps that invariant |
| `AiSoundness.FixSound` | src/analyses/ai.cpp:232-256 | the fixed point ends with nothing pending: every history that does not wait unchanged outside is closed |
| `AiSoundness.RunClosed` | src/analyses/ai.h:156-166 | the result of a whole analysis is closed under every concrete local step, call and completed call, and still covers the entry state |
| `AiSoundness.RunSound` | src/analyses/ai.cpp:542-629 | whole-program soundness: for every program in which no live call that can return is part of a recursion, sound transformer, upper-bound merge and sound history, each configuration of every execution with matched calls and returns lies in the concretisation of a stored state at its location and calling context |
| `AiSoundness.AcyclicRanked` | src/analyses/ai.cpp:542-629 | programs without recursion are a special case, with every location live |
| `AiSoundness.NeverReturning` | src/analyses/ai.cpp:542-629 | so are programs in which no entered call can return, however recursive they are, with every location live |
| `AiPrecision.EdgeBelow` | src/analyses/ai.cpp:331-414 | with monotone transformers an edge keeps the states below any solution of the inequations |
| `AiPrecision.LocalBelow` | src/analyses/ai.cpp:308-326 | the same for all successors of an instruction |
| `AiPrecision.ReturnBelow` | src/analyses/ai.cpp:587-628 | the same for the return edges of a call |
| `AiPrecision.CallBelow` | src/analyses/ai.cpp:542-629 | the same for a call with its nested fixed point |
| `AiPrecision.VisitBelow` | src/analyses/ai.cpp:270-329 | the same for a visit |
| `AiPrecision.FixBelow` | src/analyses/ai.cpp:232-256 | the same for the fixed point |
| `AiPrecision.RunBelow` | src/analyses/ai.cpp:232-256 | on every program, recursive ones included, the result is below every solution of the interprocedural inequations: the interpreter invents nothing |
| `Ahistorical.AhistoricalLaws` | src/analyses/ai_history.h:154-219 | the location-only history meets the contract of step, has finitely many values, and is sound for every calling context |
| `Ahistorical.LocationsFinite` | src/analyses/ai_history.h:170-193 | its steps along program edges stay inside the set of program locations |
| `AiLeast.TestsSound` | src/analyses/ai_domain.h:130-142 | any domain with a join is sound for the semantics in which its own elements are the concrete states |
| `AiLeast.TestsClosed` | src/analyses/ai.cpp:232-256 | whole-run soundness for that semantics: the result covers the entry state and every stored history is closed |
| `AiLeast.ResultPostFixed` | src/analyses/ai.cpp:232-256 | the result solves the data-flow inequation of every edge from a reachable location and is above the entry state |
| `AiLeast.PostFixedSolves` | src/analyses/ai.cpp:331-390 | every post-fixed point is a solution in the sense of the precision theorem |
| `AiLeast.LeastSolution` | src/analyses/ai.cpp:214-256 | with monotone transformers and a join, the result is the least post-fixed point above the entry state, for every function |
| `AiLeast.OrderIndependent` | src/analyses/ai.cpp:214-230 | two analyses that differ only in the order of the working set agree at every location |
| `AiFlow.EdgePasses` | src/analyses/ai.cpp:345-390 | an edge passes on the state of its own source, unless it queues it again or the history refuses the step |
| `AiFlow.EdgeGood` | src/analyses/ai.cpp:345-390 | an edge keeps the state of every history passed on that is not pending in any working set, without any monotonicity |
| `AiFlow.LocalGood` | src/analyses/ai.cpp:308-326 | the same for all successors of an instruction, duplicates and self-loops included |
| `AiFlow.CallGood` | src/analyses/ai.cpp:542-629 | the same for an entered call with its nested fixed point and its return edges, recursive or not |
| `AiFlow.FixGood` | src/analyses/ai.cpp:232-256 | the same for a whole fixed point; when it ends nothing but the suspended working sets is pending |
| `AiFlow.RunSettled` | src/analyses/ai.cpp:232-256 | in the result of an analysis every stored history has passed its final state on, for every program, history and transformer; every stored state is the result of a merge or the entry state |
| `AiFlow.SuccessorsReached` | src/analyses/ai.cpp:303-326 | the final state of an instruction that is no call and no function end is in the states of all its successors, unless the history refuses the step |
| `AiFlow.CallsSteppedOver` | src/analyses/ai.cpp:416-442 | in the base interpreter, and for a callee without a body, the final state of a call is in a state at the next instruction, unless the history refuses the step |
| `AiFlow.CallsEntered` | src/analyses/ai.cpp:557-585 | in the recursive interpreter the final state of a call of a function with a body is in a state at the first instruction of that body, unless the history refuses the step |
| `AiFlow.BaseStaysInside` | src/analyses/ai.cpp:416-442 | every history that the base interpreter stores is at a location of the function in which it starts |
| `AiOrigin.EdgeJustified` | src/analyses/ai.cpp:345-390 | an edge stores nothing at a location that control does not lead to from a reachable history |
| `AiOrigin.CallJustified` | src/analyses/ai.cpp:542-629 | the same for an entered call, its nested fixed point and its return edges |
| `AiOrigin.RunJustified` | src/analyses/ai.cpp:232-256 | every stored history but the first is at a location that control leads to from a reachable one: a successor, the instruction behind a call that is not entered, the first one of a callee, or the one behind a call whose callee has ended |
| `AiAbsorbed.RunAbsorbed` | src/analyses/ai.cpp:232-256 | for location-only histories inside one function: the flow along every edge from a reachable state is in the state of its target, for any transformer |
| `AiRecursion.CalleeRun` | src/analyses/ai.cpp:577-585 | a concrete recursive callee: its fixed point ends without the return site of the inner call |
| `AiRecursion.WholeRun` | src/analyses/ai.cpp:542-629 | the complete result of the analysis of a concrete recursive program |
| `AiRecursion.MeetsTheRest` | src/analyses/ai.cpp:538-539 | that analysis meets every premise of the soundness theorem but the ranking of calls that can return |
| `AiRecursion.ExecutionIsRun` | src/analyses/ai.cpp:542-629 | a concrete execution of the recursive program that returns from the inner call |
| `AiRecursion.RecursionMissed` | src/analyses/ai.cpp:607-625 | soundness fails under recursion: a reachable return site is not covered, because return edges are computed only when the call is visited |
| `AiRecursion.DeadUnranked` | src/analyses/ai.cpp:542-629 | a concrete program with a dead recursive call that can return has no ranking of all its calls |
| `AiRecursion.DeadRanked` | src/analyses/ai.cpp:542-629 | with the dead call left out it has one, so ranking all calls is not necessary |
| `AiRecursion.DeadCovered` | src/analyses/ai.cpp:542-629 | every sound analysis covers every execution of that program |
| `CallStackHistory.LessIrreflexive` | src/analyses/call_stack_history.cpp:173-214 | the stack order is irreflexive |
| `CallStackHistory.LessTransitive` | src/analyses/call_stack_history.cpp:173-214 | the stack order is transitive |
| `CallStackHistory.LessTotal` | src/analyses/call_stack_history.cpp:173-233 | two stacks are structurally equal or ordered, so incomparability is equality and a set lookup finds exactly the equal history |
| `CallStackHistory.LessIsLexicographic` | src/analyses/call_stack_history.cpp:173-233 | the order of stacks is the lexicographic order of their locations, innermost first, in which shorter stacks are lower |
| `CallStackHistory.StackEntry.constructor` | src/analyses/call_stack_history.h:31-33 | a shared, immutable entry represents its location on top of the caller's stack |
| `CallStackHistory.StackEntry.Less` | src/analyses/call_stack_history.cpp:173-214 | the comparison with its pointer-equality shortcut decides the structural order on the represented stacks |
| `CallStackHistory.StackEntry.Same` | src/analyses/call_stack_history.cpp:216-233 | the equality with its pointer-equality shortcut decides structural equality of the represented stacks |
| `CallStackHistory.StackEntry.FindRecursion` | src/analyses/call_stack_history.cpp:42-69 | the counting loop finds the most recent entry for the call site if and only if the site occurs at least limit times among the callers |
| `CallStackHistory.StackEntry.Step` | src/analyses/call_stack_history.cpp:14-142 | step on shared objects refines the step on values: blocked, merged with the structurally equal stored object, or a fresh object |
| `CallStackHistory.NearestIsLast` | src/analyses/call_stack_history.cpp:50-71 | the entry that the search finds is the last occurrence of the call site, with the callers up to it |
| `CallStackHistory.NextSites` | src/analyses/call_stack_history.cpp:14-142 | the call sites after every kind of step: a call that is entered appends its site if it occurs less often than the limit and otherwise cuts back to its last occurrence, a return is accepted if and only if it goes behind the last site and removes it, and all other steps leave the sites alone |
| `CallStackHistory.NextBounded` | src/analyses/call_stack_history.cpp:37-71 | with a limit k > 0 a step keeps every call site at most k times among the callers |
| `CallStackHistory.NextCallers` | src/analyses/call_stack_history.cpp:25-123 | callers on the stack are always call sites of the program |
| `CallStackHistory.LengthIsSum` | src/analyses/call_stack_history.cpp:50-68 | the depth of a stack is the sum over the call sites of their numbers of occurrences |
| `CallStackHistory.SumBounded` | src/analyses/call_stack_history.cpp:50-68 | at most k occurrences of each site bound that sum by k times the number of sites |
| `CallStackHistory.ReachedBounded` | src/analyses/call_stack_history.cpp:25-123 | along every sequence of steps, of any length, each call site occurs at most k times and the depth is at most 1 + k times the number of call sites |
| `CallStackPaths.FollowsStep` | src/analyses/call_stack_history.cpp:25-123 | with limit 0 one step keeps the stack equal to the list of unmatched calls of the path |
| `CallStackPaths.Tracked` | src/analyses/call_stack_history.cpp:25-123 | with limit 0 the stack after any accepted path is exactly the list of its unmatched call sites |
| `CallStackPaths.ReturnAccepted` | src/analyses/call_stack_history.cpp:74-117 | a return is accepted if and only if it goes to the instruction after the call that it matches in the path |
| `CallStackPaths.AcceptedIffMatched` | src/analyses/call_stack_history.cpp:25-123 | with limit 0 a path is never blocked if and only if its calls and returns are well matched |
| `CallStackPaths.CallKept` | src/analyses/call_stack_history.cpp:37-72 | the stack at a call stays a part of every later stack while the call is open |
| `CallStackPaths.ReturnRestores` | src/analyses/call_stack_history.cpp:88-110 | a return lands in the context of its own matching call, whatever happened in between and whatever caller history is passed |
| `CallStackLaws.CallStackContract` | src/analyses/call_stack_history.cpp:124-142 | the history meets the contract of step and of the set order for every limit |
| `CallStackLaws.NotOnStack` | src/analyses/call_stack_history.cpp:50-68 | without recursion the limit is never reached |
| `CallStackLaws.NextFollowsFlow` | src/analyses/call_stack_history.cpp:25-123 | without recursion a step along an edge is never blocked and does to the recorded stack what the edge does to the concrete call stack |
| `CallStackLaws.CallStackSound` | src/analyses/call_stack_history.cpp:14-142 | without recursion the history is sound: it records the concrete call stack |
| `CallStackLaws.ContextSound` | src/analyses/call_stack_history.cpp:14-142 | context-sensitive soundness: each configuration of every execution is in the state stored for exactly its own call stack |
| `CallStackLaws.InUniverse` | src/analyses/call_stack_history.cpp:37-71 | the constructed finite list holds exactly the stacks that respect the limit |
| `CallStackLaws.NextInLimit` | src/analyses/call_stack_history.cpp:25-123 | steps along edges stay among the stacks that respect the limit |
| `CallStackLaws.CallStackFinite` | src/analyses/call_stack_history.cpp:25-123 | with a limit k > 0 only finitely many histories exist on every program, recursive ones included, which gives termination of the interpreter |
| `CallStackLaws.EdgeIsFlow` | src/analyses/call_stack_history.cpp:25-123 | without recursion an accepted step leaves a stack that leads to its location |
| `CallStackLaws.ValidStackBounded` | src/analyses/call_stack_history.cpp:37-72 | without recursion a stack that leads to its location has each site at most once |
| `CallStackLaws.CallStackFiniteAcyclic` | src/analyses/call_stack_history.cpp:25-123 | without recursion only finitely many histories exist for every limit, 0 included |
| `CallStackLeast.EdgeGood` | src/analyses/ai.cpp:345-390 | an edge in a calling context keeps the invariant that all flow is absorbed except from pending and suspended histories and from returns of active calls |
| `CallStackLeast.AbsorbedNoop` | src/analyses/ai.cpp:373-390 | flow that is absorbed already changes and queues nothing |
| `CallStackLeast.OtherCaller` | src/analyses/call_stack_history.cpp:88-117 | an end history with the same call site but another stack belongs to a call that is not active |
| `CallStackLeast.ReturnEdgeGood` | src/analyses/ai.cpp:607-625 | a return edge from any end history, of this call or of another context, keeps the invariant and changes only this call's return site |
| `CallStackLeast.ReturnGood` | src/analyses/ai.cpp:587-628 | after the iteration over the end histories all flow out of this call is absorbed |
| `CallStackLeast.CallGood` | src/analyses/ai.cpp:542-629 | an entered call keeps the invariant and changes only histories under its context |
| `CallStackLeast.FixGood` | src/analyses/ai.cpp:232-256 | the same for a whole fixed point |
| `CallStackLeast.ResultSolves` | src/analyses/ai.cpp:542-629 | without recursion the result with call-stack histories solves every interprocedural inequation: local, call and return edges in every context |
| `CallStackLeast.CallsFlow` | src/analyses/ai.cpp:542-629 | in terms of the program text: the state of a call is in that of the first instruction of its callee one frame deeper, and the state of the last one in that of the instruction behind the call in the context of the call |
| `CallStackLeast.LeastStackSolution` | src/analyses/ai.cpp:542-629 | with monotone transformers it is the least solution above the entry state |
| `CallStackLeast.StackOrderIndependent` | src/analyses/ai.cpp:214-230 | two interprocedural analyses that differ only in the order of their working sets agree on every history |
| `Dominance.DominatesReflexive` | src/analyses/cfg_dominators.h:71-86 | a reachable point dominates itself |
| `Dominance.DominatesTransitive` | src/analyses/cfg_dominators.h:71-86 | dominance is transitive |
| `Dominance.DominatesAntisymmetric` | src/analyses/cfg_dominators.h:71-86 | two different points never dominate each other |
| `Dominance.LastDominated` | src/analyses/cfg_dominators.h:71-86 | of two dominators of a point, the one whose last occurrence on a path comes first dominates the other |
| `Dominance.DominatorsComparable` | src/analyses/cfg_dominators.h:71-86 | any two dominators of a point are comparable |
| `Dominance.ImmediateDominator` | src/analyses/cfg_dominators.h:71-86 | a point with a strict dominator has exactly one immediate dominator |
| `Dominance.EntryDominates` | src/analyses/cfg_dominators.h:153-158 | the entry dominates every reachable point |
| `CfgDominators.Insert` | src/analyses/cfg_dominators.h:200-201 | insertion into an ordered set keeps the order and adds the element |
| `CfgDominators.Erase` | src/analyses/cfg_dominators.h:224-242 | erasure keeps the order and removes that one element |
| `CfgDominators.AlongPath` | src/analyses/cfg_dominators.h:187-254 | with an empty worklist a node that a path reaches has a non-empty set, all of whose members are on the path |
| `CfgDominators.InvExact` | src/analyses/cfg_dominators.h:146-255 | the loop invariant with an empty worklist is exactness: members are precisely the dominators, unreachable nodes have the empty set |
| `CfgDominators.ProcessedAbove` | src/analyses/cfg_dominators.h:195-245 | processing a node never drops a true dominator |
| `CfgDominators.RootStays` | src/analyses/cfg_dominators.h:206-245 | an entry node keeps its own singleton set |
| `CfgDominators.ProcessedInv` | src/analyses/cfg_dominators.h:187-254 | one iteration keeps the invariant: every node not in the worklist is consistent with its predecessors |
| `CfgDominators.SeededInv` | src/analyses/cfg_dominators.h:153-185 | the seeding establishes the invariant, for one entry and for several exits |
| `CfgDominators.SizeDrops` | src/analyses/cfg_dominators.h:193-253 | every iteration that changes a node lowers the sum of set sizes, an unvisited node counting as more than the node count |
| `CfgDominators.Dominators.constructor` | src/analyses/cfg_dominators.h:131-135 | the computed sets are exact, for dominators and postdominators of every graph, the empty one included, also in terms of the edges alone; the first node, or every node where control stops, has itself only |
| `CfgDominators.Dominators.Query` | src/analyses/cfg_dominators.h:76-86 | the query answers dominance over paths, in both directions |
| `CfgDominators.Dominators.PointReachable` | src/analyses/cfg_dominators.h:91-108 | a point has a non-empty set if and only if it is reachable |
| `CfgDominators.Dominators.Fixedpoint` | src/analyses/cfg_dominators.h:146-255 | the worklist loop terminates and ends with exact sets |
| `CfgDominators.Dominators.Seed` | src/analyses/cfg_dominators.h:153-185 | entry, or last node and every successor-less or purely self-looping node, start with their own singleton, and their neighbours are queued |
| `CfgDominators.Dominators.Process` | src/analyses/cfg_dominators.h:190-245 | a node's new set is itself plus what all visited predecessors share; changed is reported if and only if the set differs, and then the set shrank or is new |
| `CfgDominators.Dominators.Adopt` | src/analyses/cfg_dominators.h:195-204 | an unvisited node takes over the set of a visited predecessor plus itself, if there is one |
| `CfgDominators.Dominators.IntersectAll` | src/analyses/cfg_dominators.h:206-245 | the node ends with what it shares with all visited predecessors, always keeping itself |
| `CfgDominators.Dominators.Intersect` | src/analyses/cfg_dominators.h:209-244 | the in-place two-iterator loop refines set intersection that keeps the node itself, and reports a removal if and only if one happened, also when both iterators walk the same set |
| `CfgDominators.MergeKeep` | src/analyses/cfg_dominators.h:219-232 | advancing both iterators, or past the node itself, keeps the intersection done so far |
| `CfgDominators.MergeErase` | src/analyses/cfg_dominators.h:221-243 | erasing an element that the other set cannot contain any more keeps it too |
| `CfgDominators.ReversedPath` | src/analyses/cfg_dominators.h:153-185 | backward paths from the exits are the paths to an exit, reversed |
| `CfgDominators.BackwardDominance` | src/analyses/cfg_dominators.h:153-185 | backward dominance is postdominance: some path leads to an exit and all paths to any exit pass the point |
| `CfgDominators.ExitsAre` | src/analyses/cfg_dominators.h:164-184 | the seeded exits are the last node, the nodes without successors and the pure self-loops |
| `CfgDominators.ExactInEdges` | src/analyses/cfg_dominators.h:140-260 | the computed sets in terms of the edges alone: on all paths from the first node, or on all paths to a node where control stops; empty if and only if there is no such path |
| `CfgDominators.EndsAlone` | src/analyses/cfg_dominators.h:153-185 | a node where control stops is postdominated by itself only, and the first node dominated by itself only |
| `CfgDominators.ForwardDominance` | src/analyses/cfg_dominators.h:153-162 | dominance in the forward walk is being on all paths from the first node |
| `CfgDominators.UniqueImmediateDominator` | src/analyses/cfg_dominators.h:71-108 | each reachable point other than the entry has exactly one immediate dominator |
| `DependenceGraph.DepGraphDomain.Merge` | src/analyses/dependence_graph.cpp:22-50 | merging in place is the union of dependences and candidates, a change being reported if and only if the state was bottom or grew |
| `DependenceGraph.DepGraphDomain.Transform` | src/analyses/dependence_graph.cpp:217-270 | the in-place transformer of an edge inside a function, filter of call dependences included |
| `DependenceGraph.DepGraphDomain.ControlDependencies` | src/analyses/dependence_graph.cpp:52-125 | the loop over the candidates leaves exactly the candidates on which the target depends, plus the dependences that were no candidates |
| `DependenceGraph.DepGraphDomain.CheckSuccessors` | src/analyses/dependence_graph.cpp:91-123 | the successor loop decides: some successor is postdominated, and not all of them unless it is an assume |
| `ControlDependence.TransformValid` | src/analyses/dependence_graph.cpp:87-124 | on reachable states the dependences are always a subset of the candidates, so the transformer recomputes them from scratch |
| `ControlDependence.TransformIs` | src/analyses/dependence_graph.cpp:216-269 | the transformer in terms of the instructions: gotos and assumes become candidates when control leaves them, the end of a function drops all candidates, candidates are dependences if and only if the target depends on them, other dependences stay unless they are calls |
| `ControlDependence.InstanceDomain` | src/analyses/dependence_graph.cpp:22-125 | the domain meets the contract of merge and has finite height |
| `ControlDependence.MergeJoins` | src/analyses/dependence_graph.cpp:22-50 | the merge is a join, except that two bottoms merge to a reached state |
| `ControlDependence.RunReached` | src/analyses/dependence_graph.cpp:22-50 | no run stores a bottom state |
| `ControlDependence.StatesJoin` | src/analyses/dependence_graph.cpp:22-50 | so in a run the exception never arises, and the join over any registered histories is their least upper bound |
| `ControlDependence.TransformMonotone` | src/analyses/dependence_graph.cpp:52-125 | the transformer is monotone although it erases dependences |
| `ControlDependence.InstanceLaws` | src/analyses/dependence_graph.cpp:22-125 | the analysis meets all premises of the least-solution theorem |
| `ControlDependence.SolutionPostFixed` | src/analyses/dependence_graph.cpp:52-125 | the declarative solution (dependences on reachable control statements with a path to the point) solves the inequations |
| `ControlDependence.SolvedCandidates` | src/analyses/dependence_graph.cpp:69-77 | in every solution a control statement is a candidate wherever a path from it leads |
| `ControlDependence.AnalysisExact` | src/analyses/dependence_graph.cpp:22-125 | the fixed point equals the declarative solution at every location |
| `ControlDependence.DependsIff` | src/analyses/dependence_graph.cpp:87-124 | the test over postdominator sets decides the definition of Kumar and Horwitz stated over paths |
| `ControlDependence.FilterComplete` | src/analyses/dependence_graph.cpp:65-77 | the candidate filter loses nothing: a point that depends on a control statement is reachable from it |
| `ControlDependence.ControlDepsExact` | src/analyses/dependence_graph.cpp:52-125 | in the result N depends on M if and only if M is a reachable goto and N postdominates one but not all of its successors, or M is a reachable assume with a postdominated successor |
| `ControlDependence.Analyse` | src/analyses/dependence_graph.h:246-262 | the interpreter run on this domain terminates with exactly those dependences |
| `ControlDependence.Compute` | src/analyses/dependence_graph.h:246-262 | end to end, with the postdominators computed first by the dominator class: the dependences are exactly those of the definition |
| `ConstantExpr.ReplaceKeeps` | src/util/replace_symbol.cpp:63-161 | replacement removes exactly the known symbols and keeps the type; without known symbols it is the identity |
| `ConstantExpr.ReplaceMeans` | src/util/replace_symbol.cpp:63-161 | replacement keeps the value in every store that agrees with the known constants |
| `ConstantExpr.PartialEvalMeans` | src/analyses/constant_propagator.cpp:658-670 | evaluation with known constants keeps the value in every store that agrees with them |
| `ConstantExpr.PartialEvalKeeps` | src/analyses/constant_propagator.cpp:658-670 | evaluation leaves no known symbol, brings in none and keeps the type |
| `ConstantExpr.ReplaceConstantsAndSimplify` | src/analyses/constant_propagator.cpp:716-741 | the loop reaches its fixed point in one round, equals one replacement and one simplification, and reports no change if and only if nothing was replaced and simplification kept the expression |
| `ConstantDomain.ValueMap.Merge` | src/analyses/constant_propagator.cpp:535-602 | the in-place loop over the entries keeps exactly the constants on which both sides agree, and handles bottom and top on either side |
| `ConstantDomain.ValueMap.Meet` | src/analyses/constant_propagator.cpp:606-641 | the in-place loop collects the constants of both sides or ends in bottom at a contradiction |
| `ConstantDomain.ValueMap.AssignRec` | src/analyses/constant_propagator.cpp:93-121 | records a constant, forgets the symbol, or leaves all as it is for an untracked symbol and in read-only use; an assignment to anything but a symbol forgets everything |
| `ConstantDomain.ValueMap.LearnEqual` | src/analyses/constant_propagator.cpp:386-399 | both directions of an equality are evaluated in the state before it and then met |
| `ConstantDomain.ValueMap.TwoWayPropagate` | src/analyses/constant_propagator.cpp:308-406 | the recursion over negations, Boolean symbols, equalities and inequalities terminates and refines the pure function |
| `ConstantDomain.ValueMap.Transform` | src/analyses/constant_propagator.cpp:124-194 | the in-place transformer of declarations, assignments, gotos and dead instructions |
| `ConstantSoundness.AssignSound` | src/analyses/constant_propagator.cpp:93-115 | an assignment maps every described store to a described store |
| `ConstantSoundness.AssumeSound` | src/analyses/constant_propagator.cpp:93-115 | an equality that holds in a store may be recorded without losing the store |
| `ConstantSoundness.NoConflict` | src/analyses/constant_propagator.cpp:386-399 | the two halves of an equality never contradict each other, so learning it never makes a reachable state bottom |
| `ConstantSoundness.EqualSound` | src/analyses/constant_propagator.cpp:386-399 | learning an equality keeps every described store that satisfies it |
| `ConstantSoundness.NotEqualSound` | src/analyses/constant_propagator.cpp:359-385 | turning an inequality between Booleans into an equality keeps every described store that satisfies it |
| `ConstantSoundness.TwoWaySound` | src/analyses/constant_propagator.cpp:308-406 | learning a guard keeps every described store that satisfies it |
| `ConstantSoundness.TransformValid` | src/analyses/constant_propagator.cpp:124-194 | recorded constants stay symbol-free and belong to tracked symbols of the function, and bottom knows nothing |
| `ConstantSoundness.TransformSound` | src/analyses/constant_propagator.cpp:124-194 | the transformer covers every execution step, for a goto to its own next instruction if the guard holds or nothing is learnt |
| `ConstantSoundness.MergeSound` | src/analyses/constant_propagator.cpp:535-602 | the merge describes every store that either side describes |
| `ConstantSoundness.MergeIsJoin` | src/analyses/constant_propagator.cpp:535-602 | the merge is the least upper bound and reports a change if and only if there is one |
| `ConstantSoundness.MeetExact` | src/analyses/constant_propagator.cpp:606-641 | the meet describes exactly the stores that both sides describe, except that a bottom source is ignored and that different expressions for a symbol count as a contradiction |
| `ConstantSoundness.MeetLoses` | src/analyses/constant_propagator.cpp:622-627 | two expressions with the same value meet in bottom although both describe the store; its only caller, line 398, does not meet this case with evaluated goto guards (`ConstantSoundness.NoConflict`) |
| `ConstantSoundness.MeetOfLiterals` | src/analyses/constant_propagator.cpp:606-641 | on literals the meet describes exactly the stores that both sides describe, a bottom source aside |
| `ConstantSoundness.LiteralsKept` | src/analyses/constant_propagator.cpp:124-194 | if the simplifier returns literals for symbol-free results, transformer and merge store literals only |
| `ConstantSoundness.GotoNextExact` | src/analyses/constant_propagator.cpp:175-190 | the transformer is sound at a goto if and only if, for a goto to its own next instruction, it learns nothing in any state that describes a store in which the guard is false; for every simplifier and every choice of tracked symbols |
| `ConstantSoundness.GotoNextFolded` | src/analyses/constant_propagator.cpp:175-190 | that holds if the guard always holds, and if the simplifier folds and all symbols are tracked only then |
| `ConstantSoundness.GotoNextTracked` | src/analyses/constant_propagator.cpp:175-190 | in terms of the guard and the tracked symbols alone: nothing is learnt wrongly if wherever the guard is false it could be true with the same tracked symbols, and if the simplifier decides expressions with one value only then |
| `ConstantSoundness.UndeterminedTeachesNothing` | src/analyses/constant_propagator.cpp:175-190 | a guard that the tracked symbols leave open teaches nothing in any state, whatever the simplifier |
| `ConstantSoundness.DeterminedIsLearnt` | src/analyses/constant_propagator.cpp:185-187 | a guard that the tracked symbols make false is learnt, and the store lost, if the simplifier decides |
| `ConstantSoundness.GotoNextUntracked` | src/analyses/constant_propagator.cpp:95-96 | it also holds for a guard over untracked symbols that does not simplify to false |
| `ConstantSoundness.EqualLearns` | src/analyses/constant_propagator.cpp:386-399 | learning from an equality is all or nothing: if anything is learnt, every described store in which the equality is false is lost |
| `ConstantSoundness.TwoWayLearns` | src/analyses/constant_propagator.cpp:308-406 | the same for every literal guard |
| `ConstantPrecision.AssignRecords` | src/analyses/constant_propagator.cpp:93-114 | after an assignment a tracked symbol is known if and only if the evaluated right-hand side has no symbols and may be propagated, always if all its symbols were known; its constant has the value of the right-hand side in every described store, and all other symbols keep exactly what was known |
| `ConstantPrecision.AssignFolds` | src/analyses/constant_propagator.cpp:93-114 | with a simplifier that folds, the recorded constant is the literal value of the right-hand side |
| `ConstantPrecision.ScopeForgets` | src/analyses/constant_propagator.cpp:146-194 | declarations and ends of scope forget their symbol and nothing else; skips and function ends change nothing |
| `ConstantPrecision.EqualLearnt` | src/analyses/constant_propagator.cpp:386-399 | from an equality of unknown expressions a symbol is learnt if and only if it is one side and the other side can be recorded |
| `ConstantPrecision.NotEqualLearnt` | src/analyses/constant_propagator.cpp:359-385 | from an inequality a Boolean symbol is learnt if and only if the other side is a Boolean literal, as its negation |
| `ConstantPrecision.GuardLearnt` | src/analyses/constant_propagator.cpp:308-406 | from an evaluated condition of any form a symbol becomes known if and only if the condition fixes it to something that can be recorded, with that value; nothing is forgotten and a reachable state stays reachable |
| `ConstantPrecision.GotoLearns` | src/analyses/constant_propagator.cpp:175-190 | along the edge to its target a goto learns from its condition, along the other edge from the negation, and an edge is cut if and only if that evaluates to false |
| `ConstantPrecision.KnownBranch` | src/analyses/constant_propagator.cpp:175-190 | with a simplifier that folds, a goto whose condition depends on known symbols only cuts exactly the edge that no described store takes, and leaves the state alone along the other |
| `ConstantPrecision.MeetChanged` | src/analyses/constant_propagator.cpp:606-641 | the meet reports a change if and only if there is one |
| `ConstantPropagator.MergeLowersRank` | src/analyses/constant_propagator.cpp:535-602 | each change by merge lowers the number of constants or leaves bottom |
| `ConstantPropagator.InstanceDomain` | src/analyses/constant_propagator.cpp:535-602 | the domain meets the contract of merge and has finite height |
| `ConstantPropagator.StepsAre` | src/goto-programs/goto_program.h:1125-1180 | the edges that are analysed: an instruction that is no goto leads on exactly where it can be executed, a goto to its target and, unless its condition is the literal true, to the next instruction |
| `ConstantPropagator.StatesJoin` | src/analyses/constant_propagator.cpp:535-602 | the per-location query of this domain is always the join |
| `ConstantPropagator.InstanceSound` | src/analyses/constant_propagator.cpp:124-194 | if the transformer is sound at every goto, transformer and merge are sound for the stores of the function |
| `ConstantPropagator.InstanceReady` | src/analyses/constant_propagator.h:203-212 | the analysis meets all premises of termination and of the absorption of flow, for every function |
| `ConstantPropagator.ExecutionCovered` | src/analyses/constant_propagator.cpp:124-194 | along every execution the stored constants hold in the store at each point it passes, if nothing is learnt from the guard of a goto to its own next instruction where this execution falls through it |
| `ConstantPropagator.StepCovered` | src/analyses/constant_propagator.cpp:124-194 | one step from a described store leads to a described store, by absorption and the soundness of the transformer in the final state alone |
| `ConstantPropagator.SoundMissesNothing` | src/analyses/constant_propagator.cpp:175-190 | a transformer that is sound at every goto misses nothing in any execution |
| `ConstantPropagator.SoundNothingMissed` | src/analyses/constant_propagator.cpp:175-190 | so for functions with sound gotos the rewriting preserves all executions |
| `ConstantPropagator.RewriteInstrSame` | src/analyses/constant_propagator.cpp:768-784 | a rewritten instruction does what the original does from every store that the state describes |
| `ConstantPropagator.RewritePreserves` | src/analyses/constant_propagator.cpp:752-806 | if the analysis misses nothing, the rewritten function has exactly the executions of the original: same branches, same stores, in both directions |
| `ConstantPropagator.ReplaceAll` | src/analyses/constant_propagator.cpp:752-806 | the in-place loop rewrites every instruction with the state before it: conditions of gotos and right-hand sides of assignments lose all known symbols, keep their value in every described store and become literals if all symbols are known and the simplifier folds; targets, left-hand sides, other instructions and unreachable ones stay |
| `ConstantPropagator.RewriteReplaces` | src/analyses/constant_propagator.cpp:752-806 | the same of the pure rewriting, instruction by instruction |
| `ConstantPropagator.Analyse` | src/analyses/constant_propagator.h:203-212 | the interpreter run on this domain terminates with the pure result, for every function; if no execution is missed at a goto to its own next instruction, what is known at a location holds whenever any execution is there |
| `ConstantPropagator.Propagate` | src/analyses/constant_propagator.h:203-212 | end to end for every function: the array of instructions becomes the rewriting of itself by the result of the analysis; if the transformer is sound at every goto, or nothing is learnt where an execution falls through a goto to its own next instruction, it has exactly the executions it had before |
| `ConstantGotoNext.WholeRun` | src/analyses/constant_propagator.cpp:175-190 | the complete result of the analysis of a concrete function with a goto to its own next instruction: the guard is taken to be true after it |
| `ConstantGotoNext.RewriteBreaks` | src/analyses/constant_propagator.cpp:752-806 | the rewritten function loses an execution of that function, so the restriction on gotos is needed |
| `CallGraph.Graph.AddCalls` | src/analyses/call_graph.cpp:123-134 | adds one edge per callsite of the body in order, and the callsites per pair |
| `CallGraph.Graph.Complete` | src/analyses/call_graph.cpp:39-50 | nodes are the known functions and all callees; edges and callsites are those of every body, once each |
| `CallGraph.Graph.Rooted` | src/analyses/call_graph.cpp:75-108 | the exploration terminates; nodes are the functions reachable from the root, each with all its callsites, and with its edges exactly as often as the count that is read off the calls says |
| `CallGraph.Graph.Expand` | src/analyses/call_graph.cpp:92-106 | adds the calls of one function and pushes exactly the callees that have no edges yet, in order |
| `CallGraph.Graph.GetInverted` | src/analyses/call_graph.cpp:165-172 | every edge is turned round with its multiplicity; the nodes are the old ones and the ends of edges; call sites are neither kept nor collected |
| `CallGraph.Graph.AddTurned` | src/analyses/call_graph.cpp:169-170 | turns round the edges of one function with their multiplicities |
| `Calls.PushedAre` | src/analyses/call_graph.cpp:98-106 | the pushed functions are exactly the callees without edges, at most one per callsite |
| `CallGraph.PopsAbove` | src/analyses/call_graph.cpp:84-107 | popping a function keeps the stack invariant: callees a processed function still owes lie above all its remaining duplicates |
| `CallGraph.PopsOpen` | src/analyses/call_graph.cpp:84-107 | every node with unexplored calls is on the stack |
| `CallGraph.InvStep` | src/analyses/call_graph.cpp:84-107 | one iteration keeps all invariants of the exploration |
| `CallGraph.PopsAccounted` | src/analyses/call_graph.cpp:84-107 | visits so far, duplicates on the stack and pushes to come always add up to that count |
| `CallGraph.MeasureStep` | src/analyses/call_graph.cpp:84-107 | each iteration explores a new function or lowers the weight of the stack, although functions are pushed and processed repeatedly |
| `CallGraph.NothingOpen` | src/analyses/call_graph.cpp:103-104 | processing a duplicate pushes only functions without calls |
| `CallGraph.InvEnd` | src/analyses/call_graph.cpp:84-107 | with an empty stack the invariants give the rooted graph |
| `CallGraph.RootedNodes` | src/analyses/call_graph.cpp:75-108 | the nodes are the root and the nodes of the complete graph that are reachable from it |
| `CallGraph.RootedEdges` | src/analyses/call_graph.cpp:75-108 | as sets, edges and callsites are those of the complete graph restricted to reachable callers, in both directions |
| `CallGraph.RootedCounts` | src/analyses/call_graph.cpp:75-108 | with multiplicities, an edge occurs as often as in the complete graph times the number of pushes of its caller |
| `CallGraph.RootedExact` | src/analyses/call_graph.cpp:75-108 | the rooted graph has one parallel edge per callsite if and only if every reachable function with calls is pushed once |
| `CallGraph.CalledOnceExact` | src/analyses/call_graph.cpp:75-108 | that is so if every reachable function with calls, the root aside, has a single call from another reachable function |
| `CallGraph.EdgeRepeated` | src/analyses/call_graph.cpp:84-107 | it is not so in general: a concrete program whose rooted graph has an edge twice for one callsite |
| `CallVisits.CutLoops` | src/analyses/call_graph.cpp:84-107 | a path to a function can be cut at its last visit of another, so exploration may ignore what is explored already |
| `CallVisits.PushedLast` | src/analyses/call_graph.cpp:98-106 | the last pushed callee that leads to a function is the callee of the last call that does |
| `CallVisits.AccountedAlong` | src/analyses/call_graph.cpp:84-107 | popping a function that leads to the goal pushes the goal once per call and continues in its last callee that leads there |
| `CallVisits.AccountedAside` | src/analyses/call_graph.cpp:84-107 | popping a function that does not lead to the goal changes nothing in the count |
| `CallVisits.AccountedStep` | src/analyses/call_graph.cpp:84-107 | every iteration keeps the account of every function with calls |
| `CallVisits.VisitedOnce` | src/analyses/call_graph.cpp:84-107 | the root, and a function with a single call from another function, is visited once |
| `EscapeAnalysis.MakeUnion` | src/analyses/escape_analysis.cpp:359-363 | a union keeps the partition well formed and adds only the two elements |
| `EscapeAnalysis.UnionIsLeast` | src/analyses/escape_analysis.cpp:359-363 | a union gives the least equivalence that contains the partition and relates the two elements |
| `EscapeAnalysis.JoiningUnion` | src/analyses/escape_analysis.cpp:354-364 | uniting one element with its root in the other partition keeps the partial join least |
| `EscapeAnalysis.EscapeDomain.Merge` | src/analyses/escape_analysis.cpp:326-377 | the aliases become the least partition that contains both, the cleanups the union per variable without empty entries, and a change is reported if and only if the state was bottom or something grew |
| `EscapeAnalysis.EscapeDomain.MergeCleanups` | src/analyses/escape_analysis.cpp:331-351 | cleanups are united per variable and empty entries vanish; a change is reported if and only if some set grew |
| `EscapeAnalysis.EscapeDomain.UniteCleanups` | src/analyses/escape_analysis.cpp:331-339 | the loop over the other side's entries unites the sets, entries created on access included |
| `EscapeAnalysis.EscapeDomain.KillEmpty` | src/analyses/escape_analysis.cpp:341-351 | removing empty entries changes no variable's cleanups |
| `EscapeAnalysis.EscapeDomain.MergeAliases` | src/analyses/escape_analysis.cpp:353-364 | the loop computes the least common coarsening of both partitions and reports a change if and only if some pair became related |

## Left out

- AiSoundness.RunSound: programs with a recursion through live calls that can return; `AiRecursion.RecursionMissed` shows that soundness can fail there. Ranking all calls is not necessary (`AiRecursion.DeadUnranked`, `AiRecursion.DeadCovered`); whether ranking the live ones is, in the sense that some analysis misses an execution of every other program, is not settled here.
- CallStackLaws.ContextSound: programs without recursion only; with a recursion limit on recursive programs returns drop to the shortened stack, and only termination is claimed (`CallStackLaws.CallStackFinite`).
- CallStackLeast.StackOrderIndependent: programs without recursion; for all programs only `AiPrecision.RunBelow` is proved.
- ConstantPropagator.Propagate: that the executions stay the same is claimed unless an execution falls through a goto to its own next instruction at which the final state learns from the guard; `ConstantGotoNext.RewriteBreaks` shows that the pass can change such a function. What is learnt there may go unused, so the condition is sufficient only. `ConstantSoundness.GotoNextExact` and `ConstantSoundness.GotoNextTracked` give conditions on the guard.
- ConstantPropagator.RewritePreserves: the same condition on gotos.
- ConstantPropagator.Analyse: that the result covers all executions is claimed under the same condition on gotos; termination and the result are not restricted.
- ConstantPropagator.ExecutionCovered: the same condition, for the execution at hand only.
- ConstantPropagator.ReplaceAll: types, calls, asserts, assumes and other statements are not rewritten, since the fragment has none.
- ConstantDomain.ValueMap.TwoWayPropagate: guards are literals, so the loop over the conjuncts of a conjunction (`src/analyses/constant_propagator.cpp:319-334`) is not part of this model; neither is the returned flag, which only that loop reads.
- ConstantDomain.ValueMap.AssignRec: left-hand sides are symbols; dereferences, array elements and members are not part of this model.
- ConstantExpr.ReplaceConstantsAndSimplify: the simplifier is a parameter that keeps value and type and brings in no symbols; rounding modes are left out, so all four rounding modes give the same result.
- ConstantExpr.PartialEvalMeans: the four rounding modes that the source tries are left out, since the fragment has no floating-point operators.
- ConstantExpr.PartialEvalKeeps: rounding modes are left out here too.
- ConstantDomain.ValueMap.LearnEqual: the replacement of casts of Booleans and the returned flag are left out.
- ConstantDomain.ValueMap.Transform: assumes, calls and the end of functions with parameters are left out.
- DependenceGraph.DepGraphDomain.Merge: the flag `has_changed`, which only edges into called functions set, and data dependences, which never change after the first merge, are left out.
- ControlDependence.Compute: one function whose locations are numbered from 0 and whose calls are stepped over.
- DependenceGraph.DepGraphDomain.Transform: not the propagation across edges into a called function (`src/analyses/dependence_graph.cpp:241-265`), nor data dependences (line 269).
- EscapeAnalysis.EscapeDomain.Merge: `union_find` is a map to representatives; ranks and path compression are not modelled.
- CallStackHistory.StackEntry.Step: the consistency invariants about the caller history (`src/analyses/call_stack_history.cpp:84-97`) are not modelled; the result does not depend on it.
- Text, JSON, XML and DOT output, logging and message handlers.
- `concurrency_aware_ait`, threads, exceptions and `START_THREAD` edges.
- `location_sensitive_storaget` with histories that distinguish more than locations; for location-only histories it stores the same states as the history-sensitive storage.
- Widening hints (`should_widen`), `prune`, and domains of infinite height.
- Function pointers and callees missing from the function map, which the interpreter rejects by invariant.
- Data dependences, reaching definitions, and the graph of dependence nodes and edges.
- Dirty variables, function calls, assumes and pointers in the constant propagator.
- `assign_lhs_aliases`, `get_rhs_aliases` and the instrumentation of the escape analysis.
- Export of call graphs to directed graphs and the helpers on them.
- `custom_bitvector_analysis`, `global_may_alias`, `flow_insensitive_analysis`, `dirty`, `goto_rw` and the remaining analyses.
