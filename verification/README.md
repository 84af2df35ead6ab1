# golog++: a verified model of the execution engine and its compilers

golog++ runs agent programs. This project models the parts of it in which small mistakes are expensive:
the protocol between the executor and the platform backend, the event queue and the agent's notion of
time, the time windows of plans and the loop that executes a plan, the parser that restores operator
precedence, and four translations (platform constraints to a scheduler's encoding, effect axioms to
Prolog clauses, values to Prolog terms and back, plans to the scheduler's strings and back).

## How it is organised

| file | content |
|---|---|
| `Golog.dfy` | hooks, actions, calls with ground arguments, transitions |
| `Machine.dfy` | the engine as a step machine (`Machine`), and what every interleaving keeps (`ActivityProtocol`) |
| `EventQueue.dfy` | conservation and order of events, the recorded history (`EventQueue`); context time (`ContextTimes`) |
| `Engine.dfy` | activities, backend and controller as classes, whose methods are proved to be runs of the machine |
| `Plans.dfy` | plans with time windows, appending, re-slacking, and the constraint system the windows solve |
| `Precedence.dfy`, `Operators.dfy` | the operator-precedence parser over any operator type, and two concrete ones |
| `ConstraintParser.dfy` | constraint specs: operators, precedences, conversion of intermediate nodes |
| `TaptencConstraints.dfy`, `ConstraintMeaning.dfy`, `MergedMeaning.dfy`, `CompiledConstraints.dfy` | the constraint compiler: what it accepts, what it preserves, and what a whole constraint becomes |
| `EffectAxioms.dfy` | flattening of complex fluent arguments |
| `PrologValues.dfy` | values as Prolog terms |
| `TaptencStrings.dfy`, `TaptencPlans.dfy` | transitions and whole plans in the scheduler's notation |

Code that changes things step by step is imperative here too. Each such method is proved against a
function or against the step machine, and the theorems are about those. In `Engine.dfy` the controller
carries a ghost trace of machine steps; `Valid()` says that running the trace from the initial state
gives exactly the controller's state. What other threads do between two locked sections is an argument
of every method (`Interference`, `Round`), so a contract holds for all interleavings.

## What is proved

**Activities.** In every interleaving of transitions with backend updates, the executor never loses an
activity and never finds one in an unexpected state, and a cancel of a running activity always gets
through. The only exception is the user error of a start
whose precondition holds while a terminated activity of the same call is still in the map, and it is
raised in exactly that case. Starts and ends of a call in the history balance with the map. A cancelled
activity stays in the map for good: `erase_activity` would accept it for an END, but the guard in `trans`
never lets one through (`src/execution/transition.cpp:134-141` against
`src/execution/platform_backend.cpp:89-95`). Its call makes no further transition, except for one that was
already under way, such as the CANCEL itself when the backend answers before that is in the history.

**Events and time.** No event is lost or repeated, every activity is reported once, and the history
tells of every drained event, in order, and of nothing else but the transitions performed. Context time is never ahead of the clock. It never decreases
between the points where the controller reads it, provided that wakeups enter the queue in the order in
which they read the clock; as reading the clock and pushing the result are separate steps, this is up to
the scheduling of threads, and a wakeup that comes late does make context time fall. Inside a drain it can
decrease in any case, since wakeups jump to the front of the queue; an undisturbed drain ends with the
*oldest* wakeup's time.

**Plans.** The windows are the least solution of a system of difference constraints, and an exact
envelope: every prompt execution stays within them, and both ends are attained. Through any number of
timeouts, drains and re-slackings, what has been executed followed by what remains is the plan, and the
transitions in the history are those that were executed. The loop keeps a ghost log of its rounds, which
ties every call of a transition to the window that the plan gave it at that time, and to a queue that had
been drained. If the history and the plan itself have ended every earlier start of a call before the plan
starts it again, which can be told before the plan is run, the user error cannot occur.

**Parsing.** The precedence parser is *not* correct on all inputs: `a*b + c*d` is read as
`(a*b + c)*d`. It is correct if and only if no operator is preceded by one that binds at least as
strongly and followed by one that binds more strongly.

**Translations.** Constraint compilation preserves the meaning of plain, future and past specs, and does
not preserve that of bounded since and until, whose bounds it drops, nor that of merged ones, unless every
right state is covered as `MergedMeaning.Covered` says. Flattening of effect axioms
preserves the reference if and only if no parameter that replaces an argument occurs in the arguments.
A value survives the Prolog round trip if and only if it is free of the cases listed in
`PrologValues.Faithful`. Transitions and whole plans survive theirs.

## Model

| member | source | states |
|---|---|---|
| ActivityProtocol.OnlyUserErrors | src/execution/transition.cpp:94-152 | in every interleaving the only exception is a user error, on a start, while a terminated activity of that call is registered; no transition is ever lost or inconsistent and no activity is lost |
| ActivityProtocol.StartOutcome | src/execution/transition.cpp:107-118 | whatever the backend does between check and act, a start raises the user error exactly if the precondition holds and a terminated activity of the call is registered, and starts the activity exactly if the precondition holds and none is |
| ActivityProtocol.CancelOutcome | src/execution/transition.cpp:101-106 | a cancel of a running activity always passes its check and is performed, whatever the backend does between the two |
| ActivityProtocol.StatesFollowUpdates | src/execution/activity.cpp:62-85 | in every run an activity is running until its update, and then final, failed or cancelled according to the hook of that update |
| ActivityProtocol.ErasableStates | src/execution/platform_backend.cpp:89-98 | for each hook by name, the exact states in which an activity is erased |
| ActivityProtocol.GuardStep | src/execution/transition.cpp:99-141 | what the executor has checked stays true until it acts: no step of another thread invalidates a guard |
| ActivityProtocol.RegisteredStep | src/execution/platform_backend.cpp:41-103 | every step keeps the map consistent: each key maps to an activity of that call, and every running activity is the registered one |
| ActivityProtocol.UpdatesHitTheMap | src/execution/activity.cpp:80-85 | an update always finds its activity registered under its own call |
| ActivityProtocol.HistoryMatchesMap | src/execution/transition.cpp:144-149 | starts minus finishes, fails and ends of a call in the history is 1 if the call is registered and 0 otherwise, whenever no transition is between its action and its entry |
| ActivityProtocol.NoEndErasesCancelled | src/execution/platform_backend.cpp:89-98 | the case of erasing a cancelled activity is never reached from a transition |
| ActivityProtocol.CancelledForever | src/execution/transition.cpp:134-141 | once cancelled, an activity stays registered in every continuation, and its call enters the history at most once more: by the transition that was under way when the cancelling update arrived, if there was one |
| EventQueue.NothingIsLost | src/execution/controller.cpp:91-158 | queued and arrived events are the removed and remaining ones as multisets, and in order apart from timers |
| EventQueue.ReportedOnce | src/execution/dummy_backend.cpp:165-185 | in every run each terminated activity has been drained or is queued exactly once, a running one neither |
| EventQueue.HistoryRecordsDrained | src/execution/controller.cpp:191-219 | over every run the history without transitions is what the drained events are rendered as, in order |
| EventQueue.HistoryTellsOfEvents | src/execution/controller.cpp:191-219 | over every run: the exogenous actions in the history are the drained ones by name, its time steps the drained ones by time, and its activities the drained ones by call and terminal state, each kind in order; an activity has what it has sensed directly before it exactly if its action senses, and no sensing result is elsewhere; everything else is exactly the transitions performed |
| EventQueue.DrainRecordsQueue | src/execution/controller.cpp:191-219 | a finished drain leaves the queue empty, has removed what was queued and what arrived, and has extended the history by entries that tell of exactly these events, kind by kind as above, and of no transition |
| EventQueue.PopsAreInOrder | src/execution/controller.cpp:193-194 | without interference events are removed from front to back |
| EventQueue.SilentIffAllQuiet | src/execution/controller.cpp:199-202 | the silent flag survives a run exactly if every transition and every drained event is silent |
| ContextTimes.ContextTimeIsSafe | src/execution/controller.cpp:236-251 | over every run context time and everything read lie between the start and the clock; if wakeups enter the queue in the order in which they read the clock, the values read never decrease |
| ContextTimes.LateWakeupIsRead | src/execution/controller.cpp:161-173 | without that order they can: a wakeup that reaches an empty queue is what is read next, which is a decrease exactly if it read the clock before the current context time |
| ContextTimes.BatchEndsWithOldest | src/execution/controller.cpp:161-173 | if the queued wakeups are in order, an undisturbed drain leaves the time of the oldest, which is that of the newest exactly if all are equal |
| ContextTimes.BackwardsInsideDrain | src/execution/controller.cpp:150-158 | within a drain of two wakeups context time steps back |
| ContextTimes.TwoWakeups | src/execution/controller.cpp:161-173 | time passing between two wakeups produces such a queue |
| Engine.PlatformBackend.StartActivity | src/execution/platform_backend.cpp:41-56 | which of the three outcomes occurs, and the new map and activities: one new running activity, or nothing changed |
| Engine.PlatformBackend.EraseActivity | src/execution/platform_backend.cpp:75-103 | lost, inconsistent or erased, and the new map |
| Engine.PlatformBackend.ScheduleTimerEvent | src/execution/platform_backend.cpp:136-146 | a thread is spawned exactly if that time was not scheduled yet |
| Engine.ExecutionController.UpdateActivity | src/execution/activity.cpp:80-85 | new state and report at the end of the queue, as one step of the machine |
| Engine.ExecutionController.ExogQueuePop | src/execution/controller.cpp:91-97 | removes the front event |
| Engine.ExecutionController.ExogTimerWakeup | src/execution/controller.cpp:161-173 | a time step with the clock reading from before anything that other threads do meanwhile, at the front of the queue |
| Engine.ExecutionController.Guard | src/execution/transition.cpp:99-141 | is a run of the machine; if the activity is not running, whether the transition passes is determined by its state alone and the state does not change; if it is running and other threads leave it alone, a cancel passes and nothing else does |
| Engine.ExecutionController.Trans | src/execution/transition.cpp:94-152 | is a run of the machine that calls exactly this transition, for every interference; enters the history exactly if it succeeds; raises only the user error, on a start of a call that the history has an open start of; its outcome is determined whenever the activity is not running at the start; on a running activity that is not updated before the check, a cancel succeeds whatever happens afterwards, and nothing else is possible |
| Engine.ExecutionController.StartsMatchActivities | src/execution/platform_backend.cpp:75-103 | between transitions the backend's map holds a call exactly if the history has an open start of it |
| Engine.ExecutionController.AllowedErrors | src/execution/transition.cpp:94-152 | a controller that has raised an error has raised the user error, on a start whose call has a terminated activity and an open start in the history |
| Engine.ExecutionController.DrainExogQueue | src/execution/controller.cpp:191-219 | is a run of the machine; empties the queue and extends the history by entries that tell of exactly what was queued and arrived, in queue order without interference |
| Engine.ExecutionController.Record | src/execution/controller.cpp:196-217 | for each kind of event, the entries that it adds (none for a switch-state event, the result of a sensing activity directly before the activity) and its effect on the silent flag |
| Engine.ExecutionController.ReadContextTime | src/execution/controller.cpp:236-251 | returns the last time step and is recorded among the readings |
| Engine.ExecutionController.ReadingsAreSafe | src/execution/controller.cpp:236-251 | the controller's readings lie between its start and the clock, and never decrease while wakeups come in order |
| Engine.ExecutionController.Prepare | src/execution/controller.cpp:302-306 | leaves the queue empty, the plan's elements as they are and the transitions in the history unchanged |
| Engine.ExecutionController.TryFront | src/execution/controller.cpp:308-320 | with the queue drained: an element whose earliest time is ahead of context time is scheduled, nothing else ever is, and nothing is called; otherwise exactly its transition is called, and enters the history exactly on success |
| Engine.ExecutionController.DrainExogQueueBlocking | src/execution/controller.cpp:333-354 | stopped, still asleep before the timeout with nothing queued, woken, or timed out; it returns to work exactly if it has drained some event; after a timeout the history holds a time step not before it, which is the context time if nothing interferes |
| Engine.ExecutionController.Replan | src/execution/controller.cpp:356-364 | moves the plan exactly if its first window has passed or a component has changed its state; the instructions stay, and all windows follow from a first one of 16384 seconds from now on |
| Engine.ExecutionController.WaitAndReplan | src/execution/controller.cpp:333-364 | after waiting, the plan is moved or left alone on the context time then read; a timeout without interference always moves it |
| Engine.ExecutionController.RunRound | src/execution/controller.cpp:296-371 | one round sets the silent flag before anything else; it executes the first element only if that is due, with the queue drained, and otherwise leaves the plan as it is or moved, as its log says; it reads, calls and records exactly what the log says; and it ends the loop exactly if the element raised an error or the wait did not come to an end |
| Engine.ExecutionController.RunPlan | src/execution/controller.cpp:296-371 | through any number of rounds: each starts from the plan the last one left, windows included; a transition is called only as the first element of that plan, with the queue drained and its earliest time at most the context time read and the clock; executed plus remaining is the original plan; the history's new transitions are those executed; context times never decrease while wakeups come in order; the loop ends only when the plan is done, on an error, on termination, or when nothing more happens; and if history and plan have ended every earlier start before each start in the plan, no user error occurs |
| Engine.NothingIsSkipped | src/execution/controller.cpp:324-332 | in every chain of rounds, what has been executed followed by what is left is the plan |
| Engine.NextStartIsFree | src/execution/platform_backend.cpp:45-50 | if all starts of the plan are free, the next element is never a start of a call with an open start in the history, however far the plan has been executed |
| Plans.Plan.Append | src/execution/plan.cpp:93-100 | the plan after an append, as the function that AppendKeepsPrefix and AppendsSolve are about |
| Plans.Plan.MakeStartSlack | src/execution/plan.cpp:103-109 | instructions unchanged; windows are those propagated from the new first window |
| Plans.Plan.SanitizeTimeWindow | src/execution/plan.cpp:112-168 | the one window that changes, from the windows before it |
| Plans.Plan.FindStart | src/execution/plan.cpp:134-141 | the nearest earlier start of the same call |
| Plans.StartBefore | src/execution/plan.cpp:134-141 | a result is a start of the call with none after it; no result means there is none |
| Plans.EarliestIsLeast | src/execution/plan.cpp:112-168 | earliest times are the pointwise least ones that are in order and respect minimal durations after the matching start |
| Plans.LatestIsLeast | src/execution/plan.cpp:112-168 | latest times are the pointwise least ones that allow maximal durations |
| Plans.SlackIsKept | src/execution/plan.cpp:103-168 | with sane durations every window is at least as wide as the slack and both ends are monotone along the plan |
| Plans.PromptRunsStayInWindows | src/execution/plan.cpp:112-168 | whatever durations occur within their ranges, a run that never dawdles keeps every window |
| Plans.WindowsAreTight | src/execution/plan.cpp:112-168 | both ends of all windows are attained, by the shortest and by the longest durations |
| Plans.AppendKeepsPrefix | src/execution/plan.cpp:93-100 | an append changes no earlier element, and keeps an element that comes with its own window as it is |
| Plans.AppendsSolve | src/execution/plan.cpp:93-168 | whatever mixture of elements is appended to an empty plan: an element with its own window keeps it, the first element without one gets the clock readings, its latest time plus the maximal duration if it is an end, and every later one gets the least window that the elements before it allow |
| Plans.MatchesByName | src/execution/plan.cpp:129-141 | only finish, fail and end are measured from a start, namely from the last start before them of the same action with the same arguments |
| Plans.EndWindow | src/execution/plan.cpp:150-163 | the window of an end: the later of its start plus its action's least (greatest) duration and the element before it |
| Plans.WindowWithoutStart | src/execution/plan.cpp:142-168 | the window of an end without a start, and of everything that is no end |
| Plans.ArgumentsTellStartsApart | src/execution/plan.cpp:134-141 | of two starts of one action with different arguments, an end is measured from the one with its own |
| Plans.AppendsPropagate | src/execution/plan.cpp:93-109 | successive appends of default-window elements give the windows that re-sanitizing from the first window gives |
| Precedence.ParserIsCorrectIffNoValley | src/parser/utilities.cpp:146-181 | the tree is precedence-correct and left-associative, and equal to the one correct tree, exactly if no adjacent precedences p >= q < r occur |
| Precedence.CorrectTreeIsUnique | src/parser/utilities.h:107-114 | at most one correct tree reads as a given list |
| Precedence.IdealIsCorrect | src/parser/utilities.h:107-114 | a correct tree exists for every list |
| Precedence.ParseReadsSource | src/parser/utilities.cpp:146-181 | the tree reads as the source list, has one node per operator, and every node has an atom as a child |
| Precedence.ValleyIsMisread | src/parser/utilities.cpp:166-179 | what the parser makes of three operators that form a valley, and what was meant |
| Precedence.AllocationBounds | src/parser/utilities.cpp:146-181 | between n and 2^n - 1 nodes for n operators; the bounds are met exactly by strictly rising and by never rising precedences |
| Precedence.LeakedNodes | src/parser/utilities.cpp:167-173 | nothing is leaked exactly if the precedences strictly rise |
| Operators.SumOfProductsIsMisread | src/model/arithmetic.cpp:51-65 | a\*b + c\*d is parsed as (a\*b + c)\*d, with different values |
| Operators.ArithmeticPairs | src/model/arithmetic.cpp:51-65 | how any two arithmetic operators group, by their names |
| Operators.BooleanPairs | src/model/formula.cpp:137-150 | how any two boolean operators group, by their names |
| Operators.JoinedConjunctionsAreMisread | src/model/formula.cpp:137-150 | two conjunctions joined by any weaker operator are grouped against the precedences, whatever the operands |
| Operators.MisreadFormulaChangesTruth | src/model/formula.cpp:137-150 | for each of the four weaker operators some operands make the formula as built differ in truth from the formula as meant |
| Operators.ConjunctionsLastAreReadCorrectly | src/model/formula.cpp:137-150 | for disjunctions followed by conjunctions: read correctly exactly if one kind is missing or there is at most one disjunction |
| ConstraintParser.ParseSpecKeepsSource | src/parser/platform/constraint.cpp:130-182 | parsing and converting keeps atoms, operators, order and bounds, and leaves no intermediate node |
| ConstraintParser.ConvertedIsInjective | src/parser/platform/constraint.cpp:130-182 | conversion does not confuse groupings of the same list |
| ConstraintParser.ParseSpecGroupsByPrecedence | src/parser/platform/constraint.cpp:192-219 | the converted spec is that of the reference parser exactly if the precedences have no valley |
| ConstraintParser.WellGroupedIffNoDip | src/parser/platform/constraint.cpp:192-219 | over simple operands: no conjunction of the result has a disjunction, until or since below it, no disjunction an until or since, and operators that bind equally lean to the left, exactly if no operator is preceded by one that binds at least as tightly and followed by one that binds more tightly; all by the names of the operators |
| ConstraintParser.GroupedIffNoDip | src/parser/platform/constraint.cpp:130-219 | the same over any operands, bracketed operations included, said of the grouping that the result was converted from |
| ConstraintParser.BooleanPairs | src/parser/platform/constraint.cpp:192-219 | how conjunction and disjunction group, over any operands |
| ConstraintParser.SincePairs | src/parser/platform/constraint.cpp:192-219 | how since groups with conjunction and disjunction |
| ConstraintParser.UntilPairs | src/parser/platform/constraint.cpp:192-219 | how until groups with conjunction and disjunction |
| ConstraintParser.TemporalPairs | src/parser/platform/constraint.cpp:192-219 | since and until bind equally, and each keeps its own bounds |
| ConstraintMeaning.ParsedBoundsMean | src/parser/platform/constraint.cpp:53-80 | a written since or until holds exactly if its right side does at some distance of at least the first and at most the second bound, as far as they are given, with the left side in between |
| TaptencConstraints.ConstraintAccepted | src/semantics/platform/taptenc/constraint.cpp:42-54 | a constraint compiles exactly if it is durings against plain assertions, or hooks against specs of one kind |
| CompiledConstraints.DuringConstraintsBecomeChains | src/semantics/platform/taptenc/constraint.cpp:42-47 | an accepted during-constraint becomes a chain with its id, opened by the start and closed by the end of each during, paired in order, and with the states of its right side, in order, as targets |
| CompiledConstraints.HookConstraintsMeanTheirRightSide | src/semantics/platform/taptenc/constraint.cpp:42-54 | an accepted hook-constraint becomes an info with its id, activated by its hooks in order, with the states of its right side in order; a unary info means exactly what the right side means, a binary one holds wherever that does and means the same exactly if it is covered |
| CompiledConstraints.ActivationsAreNamedAsInPlans | src/semantics/platform/taptenc/transformation.cpp:138-146 | constraints are activated by the names that the plan encoder gives to the same transitions |
| TaptencConstraints.IsChainIffChainCompiles | src/semantics/platform/taptenc/constraint.cpp:57-71 | with wildcard arguments the dispatch condition is exactly what the chain compiler accepts |
| TaptencConstraints.ChainAcceptedIffDurings | src/semantics/platform/taptenc/constraint.cpp:112-173 | accepted exactly for disjunctions of durings; the two lists then pair start and end of each leaf, in leaf order |
| TaptencConstraints.ActionsAcceptedIffHooks | src/semantics/platform/taptenc/constraint.cpp:77-109 | accepted exactly for disjunctions of wildcard hooks; the list names the leaves in order |
| TaptencConstraints.StateAcceptedIffUniform | src/semantics/platform/taptenc/constraint.cpp:216-272 | a state spec compiles exactly if all its disjuncts have one operator and one set of bounds |
| TaptencConstraints.StateChainAcceptedIffBasic | src/semantics/platform/taptenc/constraint.cpp:275-307 | a chain's state spec compiles exactly if it is a disjunction of plain assertions |
| ConstraintMeaning.CompilePreservesMeaning | src/semantics/platform/taptenc/constraint.cpp:179-344 | for plain, future and past specs the info holds on a trace exactly where the spec holds |
| ConstraintMeaning.TargetsAreLeaves | src/semantics/platform/taptenc/constraint.cpp:252-268 | the target list is the left-to-right list of leaf states |
| ConstraintMeaning.ChainTargetsAreLeaves | src/semantics/platform/taptenc/constraint.cpp:275-307 | the same for chains, with both activation lists kept |
| ConstraintMeaning.BinaryIsFaithfulIff | src/semantics/platform/taptenc/constraint.cpp:357-387 | every accepted since or until keeps its meaning exactly if its bounds exclude nothing or, when all its left states are also right states, if they do not exclude the present |
| ConstraintMeaning.NoMeaningFitsBoundedSince | src/semantics/platform/taptenc/constraint.cpp:380-386 | no interpretation of infos is right about all bounded sinces |
| ConstraintMeaning.MergedSincesAreConfused | src/semantics/platform/taptenc/constraint.cpp:229-249 | for instance: a disjunction of two sinces over four states changes its meaning even without bounds |
| MergedMeaning.BinaryInfosOnlyWeaken | src/semantics/platform/taptenc/constraint.cpp:229-249 | whatever sinces or untils are merged, nested and bounded in whatever way, the info holds wherever the spec does |
| MergedMeaning.CoverageIsNeeded | src/semantics/platform/taptenc/constraint.cpp:229-249 | merging keeps the meaning only if every right state is served by some part in the present and, unless all left states are right states, at every distance behind the left states that are not, alternations included |
| MergedMeaning.DisjunctionIsFaithfulIffCovered | src/semantics/platform/taptenc/constraint.cpp:229-249 | an accepted disjunction of sinces or untils keeps its meaning exactly under that condition |
| MergedMeaning.SameLeftSidesKeepMeaning | src/semantics/platform/taptenc/constraint.cpp:229-249 | for instance if all parts have the same left states and bounds that exclude nothing |
| EffectAxioms.ArgsNeedEval | src/semantics/readylog/reference.h:91-97 | whether an argument is neither a variable nor a value |
| EffectAxioms.PlTermFreeArgs | src/semantics/readylog/reference.h:99-118 | the flattened reference |
| EffectAxioms.ArgsBinding | src/semantics/readylog/reference.h:120-136 | the conjunction of bindings |
| EffectAxioms.BindingEmptyIffNoEval | src/semantics/readylog/reference.h:91-136 | the binding list is empty exactly if no argument needs evaluation |
| EffectAxioms.BindingMeaning | src/semantics/readylog/reference.h:120-136 | the bindings hold exactly where every introduced variable equals its argument |
| EffectAxioms.FlatteningPreservesIffNotCaptured | src/semantics/readylog/reference.h:91-136 | in every situation the bindings have a solution and all solutions give the original reference, exactly if no introduced parameter occurs in an argument |
| EffectAxioms.PlTermAxiom | src/semantics/readylog/effect_axiom.cpp:40-58 | the clause, with the bindings only where they are needed |
| EffectAxioms.ClauseMeansAxiom | src/semantics/readylog/effect_axiom.cpp:27-58 | for every occurrence of the action the clause causes exactly what the axiom states, as a clause of four arguments about this action under the predicate for durative or for exogenous actions, provided no introduced parameter occurs in the arguments, the action, the condition or the value |
| EffectAxioms.UnconditionalClauseMeansAxiomIff | src/semantics/readylog/effect_axiom.cpp:40-58 | where the condition always holds, this is so in all situations exactly if no introduced parameter occurs in the arguments, the action or the value |
| PrologValues.PlTerm | src/semantics/readylog/value.cpp:29-86 | the loops build the encoding |
| PrologValues.PlTermToValue | src/semantics/readylog/value.cpp:89-216 | the loops compute the decoding, errors included |
| PrologValues.EncodedForm | src/semantics/readylog/value.cpp:29-86 | the terms of truth values; the i-th element of a list is encoded as the i-th item of a proper Prolog list, and the i-th field of a compound as the i-th from the end, under its name |
| PrologValues.DecodedList | src/semantics/readylog/value.cpp:145-170 | a list is read item by item, in order, and an atom is read as a string where the element type is string |
| PrologValues.DecodedCompound | src/semantics/readylog/value.cpp:172-210 | a compound is read field by field, an atom as a string where the field is one, every field suits its declared type, and of several fields of one name the last counts |
| PrologValues.ValueRoundTripsIffFaithful | src/semantics/readylog/value.cpp:29-216 | a value comes back equal exactly if it has no list, null, empty compound, truth-valued symbol, null character or overlong number anywhere |
| PrologValues.NumberRoundTrip | src/semantics/readylog/value.cpp:37-50 | which numbers come back equal, for every representation and any word sizes |
| PrologValues.ListsNeverRoundTrip | src/semantics/readylog/value.cpp:155-158 | no list ever comes back equal |
| TaptencStrings.ArgStorage.StoreArg | src/semantics/platform/taptenc/transformation.cpp:191-203 | symbol and new maps |
| TaptencStrings.ArgStorage.EncodeTransition | src/semantics/platform/taptenc/transformation.cpp:138-146 | name and argument symbols of a transition, and the maps after storing its arguments in order |
| TaptencStrings.ArgStorage.ParseDomainAction | src/semantics/platform/taptenc/transformation.cpp:215-263 | the plan element that a string and its scheduled times denote, or none; its window begins at the first clock reading plus the scheduled start and ends at the second one plus start and delay, a second later if that is narrower than a second; it is at least a second wide exactly if the scheduled delay, and the time between the two clock readings, do not add up to less than nothing |
| TaptencStrings.StoreKeepsInverse | src/semantics/platform/taptenc/transformation.cpp:191-203 | the maps stay inverse to each other, nothing stored is lost, and a new symbol was not in use |
| TaptencStrings.StoreAllRetrievable | src/semantics/platform/taptenc/transformation.cpp:191-212 | every symbol of a list of stored arguments retrieves its argument |
| TaptencStrings.SplitPrinted | src/semantics/platform/taptenc/transformation.cpp:219-240 | the first G and the first brackets are the separators, whatever the names contain |
| TaptencStrings.TransitionRoundTrip | src/semantics/platform/taptenc/transformation.cpp:133-248 | an encoded transition is read back unchanged under any later stores |
| TaptencPlans.PlanToTaptenc | src/semantics/platform/taptenc/transformation.cpp:133-167 | the actions of a plan with shifted times, and the maps |
| TaptencPlans.PlanRoundTrip | src/semantics/platform/taptenc/transformation.cpp:133-263 | the actions read back are the plan's transitions in order, with their durations and with their times counted from the plan's beginning; scheduled as planned, they get the plan's windows, each end moved by its own clock reading |
| TaptencPlans.TransitionsAreKept | src/semantics/platform/taptenc/transformation.cpp:133-167 | no transition of a plan is dropped, wherever it stands, and nothing else is encoded |
| TaptencPlans.MovedKeepsWindow | src/semantics/platform/taptenc/transformation.cpp:252-258 | the moved window keeps both distances from the plan's beginning, and what lies before the beginning is moved to now; a window that does not begin before the plan gets no narrower, and is widened only if it was narrower than a second |

## Assumptions

- Each section under the backend's lock and each queue operation is one atomic step. The `lock_guard`
  temporaries at `src/execution/controller.cpp:142` and `src/execution/controller.cpp:152` do not
  actually hold their mutex beyond their own statement.
- A backend updates each started activity once, from running to final, failed or cancelled
  (`src/execution/dummy_backend.cpp:165-185`).
- A ground call is its own key in the activity map.
- The clock does not run backwards; time and numbers that are not integers are reals.
- What the executor does between looking at the queue and its first access to an activity touches no shared
  state; events that arrive in between are taken to arrive after that.
- Preconditions, component states and termination requests are arguments, and so is what an activity has
  sensed: a value that comes with its update and is recorded when the activity is drained.
- The scheduler prints an action as its name, a bracket, separated arguments and a bracket; its
  punctuation does not occur in identifiers.
- Term decoding follows the order of tests in `src/semantics/readylog/value.cpp:98-127`, with word sizes
  as parameters.

## Left out

- Mutexes, condition variables, lost wakeups and liveness: a run may stop at any point.
- Hash collisions between activities.
- The sleeping threads behind scheduled wakeups: wakeups may come at any time, which includes the scheduled ones.
- ECLiPSe and ReadyLog themselves, progression of the history (`src/execution/controller.cpp:367-370`), and the semantics of whole programs around the plan loop.
- Plan transformations other than the identity; with others the remaining plan is what they return.
- Engine.ExecutionController.Execute: for plan elements that are no transitions only their outcome is modelled, because their semantics lies elsewhere; handling of missed component transitions on a timeout is not modelled either.
- Engine.PlatformBackend.CancelActivity: does not model what a preempted activity does, because every update that a backend may answer with is already possible.
- EffectAxioms.ClauseMeansAxiom: shows that freedom from capture suffices; it is shown to be necessary only where the condition always holds, because a condition can be false, or indifferent to a variable that occurs in it.
- MergedMeaning.DisjunctionIsFaithfulIffCovered: that coverage is enough is stated under the completeness of the real numbers (`MergedMeaning.Complete`) if some left states are right states and others are not, because the prover has no such rule for its reals; that coverage is necessary, and the other cases, need no such premise.
- Effect axioms on fields and list elements of compound fluents.
- TaptencStrings.ArgStorage.ParseDomainAction: gives no plan element where the source would read an uninitialised hook or slice at a missing bracket.
- Platform actions in schedules, and the loop that puts parsed elements into a new plan.
- The scheduler's own semantics beyond what its infos are named for, and its rounding of time points.
- Grammars, printers, scopes, the type lattice, domains and semantics factories.
- Deletion of intermediate nodes and other memory management, apart from the count of leaked parser nodes.
- NaN and infinite numbers.
