# Verification of the Sakura tree interpreter and its fork-join scheduler

This project models libKitsunemimiSakuraLang: trees of blossoms (user tasks), calls of subtrees
and resources, branches, loops, and `parallel()` parts and loops whose bodies run on a pool of
worker threads. It is checked with `dafny verify dfyconfig.toml`.

## What is modelled

* **Values** (`Values`, `Filling`, `Functions`, `RuntimeChecks`): data items, value items with chains
  of function calls, the filling of value maps, overriding, and the run-time checks. Foreign code
  (jinja2, JSON, regular expressions, string splitting, text of numbers) is a record `Host` of
  deterministic functions.
* **Meaning of a tree** (`Items`, `Semantics`): `Eval` is a big-step evaluation of all nine node types on
  the state of one plan. A fork evaluates its children in index order on private copies of the
  parent's map. The state also holds a log of events and the flag `clean`: every fork so far began
  with its counter at 0 and waits for exactly as many children as it spawns.
* **The scheduler** (`Machine`, `Scheduler`, `Queue`, `Schedules`): each plan is a machine that stops at every call of
  processSakuraItem and at every fork; plans nest below the plan that forked them; one FIFO queue,
  any number of worker threads and the calling thread. A schedule is any sequence of moves; each
  operation guarded by a mutex is one step, an idle poll is a step that changes nothing.
* **The program in place** (`Cells`, `Maps`, `OwnedTrees`, `Nodes`, `Plans`, `Interpreter`, `Interface`): value maps that own
  their entries, items, calls and child maps, linked nodes whose values are overwritten while they
  are processed, plans with mutable fields, copies of stored trees, and the methods of the program
  with their loops, each proved against `Eval` or the filling of values.
* **Static validation** (`Validator`, `ValidatedRuns`).
* **Laws** that say what the functions of the model mean for the author of a tree, value by value and
  without naming those functions, are in `Builtins`, `Blossoms`, `Flow`, `Calls` and `Interface`.
* **Theorems** on these models are in `Scoping`, `Isolation`, `Calls`, `CallGraph`, `Forking`, `Spent`,
  `Progress`, `PoolSize`, `Effort`, `Steps`, `Deadlock` and `Counter`.

Where comments and code disagree the model follows the code: fillOutputValueItemMap succeeds only
when every output entry has a source, not when one was written (src/items/item_methods.cpp:356-384).

## Main results

* *Interleaving independence* (`Schedules.InterleavingIndependence`): whatever the schedule and the number
  of threads, a finished run has the flag, map, error and status of the sequential semantics.
  `CallGraph.TreeRunIsClean` derives its hypothesis from the text of the trees: at most one fork on
  each plan. `Forking.EveryRunCompletes` adds that with enough threads each run can be continued to
  its end and that no run moves for ever.
* *Join safety and conservation* (`Schedules.JoinSafety`) at every fork of every reachable state.
* *Deadlock*: a waiting worker does not take other plans, so the pool can starve. `Deadlock.DeadlockExactly`
  says when, for every run with sound counters: some schedule gets stuck iff the whole run has more
  forks with children than the pool has threads. `Progress.StuckExactly` says which states are stuck,
  `Interface.TriggeredFromText` reads a sufficient number of threads off the text of the trees.
* *The counter that is never reset*: `Counter.LaterForksExactly` gives, in every run up to its first early
  join, the exact condition under which the wait of any fork of any plan can end, from the children
  its plan has counted before; `Counter.SecondForkReleasedEarly` constructs a run in which the wait of a
  second fork ends while its child is still queued. The promise of the header
  (src/processing/active_counter.h:36-41), that all spawned objects have finished, holds when the
  children counted before are a multiple of 2^32 only; the model follows the code.
* *Refinement* (`Interpreter.ProcessSakuraItem`): although the program destroys identifiers inside its
  nodes, it computes what `Eval` says of the immutable tree, terminates on acyclic call graphs and
  leaves the stored trees as they are.
* *Ownership* (`OwnedTrees.TreeCell.Copy`, `OwnedTrees.FillInCopy`, `Maps.FillCopy`): a copied tree shares no
  node, map, item, call or argument with the original, and filling the copy in place changes nothing
  of the original.
* *What a tree does, value by value*: `Flow.EqualRuns` and `Flow.LoopWrites` for branches and loops,
  `Blossoms.BlossomRuns`, `Blossoms.BlossomWrites` and `Blossoms.GroupRuns` for tasks and groups,
  `Calls.CallWrites` for calls, `Interface.TriggerContract` for the result of the program. The laws of
  `Builtins` tie the functions of value items and the declared types to each other.
* *Scoping*, *isolation of calls*, *merge of parallel parts*, *ordered post-aggregation*, *failure
  semantics*, *validation soundness* and the *contract of triggerTree*, see the table.

## Model

| member | source | states |
|---|---|---|
| Values.OverrideItems | src/items/item_methods.cpp:395-440 | one pass over the overriding map gives the union, the existing keys only, or the missing keys only, in all three modes |
| Values.LeastKeyExists | src/items/item_methods.cpp:325-333 | a non-empty rest of a sorted map always has a next key, so that loops in key order can go on |
| Filling.FillArgumentCopies | src/items/item_methods.cpp:71-74 | arguments are filled as copies, all in the same environment; it fails iff one of them does |
| Filling.GetProcessedItem | src/items/item_methods.cpp:49-201 | the loop over the function list equals a left fold of the calls over the item, and fails iff the fold does |
| Filling.FillValueItem | src/items/item_methods.cpp:214-306 | an identifier is replaced by its value with the calls applied, a text is rendered, an output is left alone |
| Filling.FillEntries | src/items/item_methods.cpp:324-333 | each entry is filled in the environment alone, independent of the other entries and their order |
| Filling.FillChilds | src/items/item_methods.cpp:335-345 | child maps are filled recursively in the same environment |
| Filling.FillInputValueItemMap | src/items/item_methods.cpp:319-348 | succeeds iff every entry can be filled, then equals the simultaneous filling |
| Cells.FunctionCell.Copy | src/items/value_items.h:40-44 | the copy of a call is equal and owns new copies of all its arguments, at any nesting |
| Cells.ValueCell.Copy | src/items/value_items.h:71-88 | the copy of a value item is equal, on objects that are all new |
| Cells.GetProcessedCell | src/items/item_methods.cpp:49-201 | the item a value item owns is replaced call by call; only that object changes, and it ends with the fold of the calls |
| Cells.FillValueCell | src/items/item_methods.cpp:281-306 | the same for the filling of a value item |
| Maps.MapCell.Copy | src/items/value_item_map.cpp:49-70 | the copy of a map is equal and shares no entry, item or child map with it, at any depth |
| Maps.MapCell.Assign | src/items/value_item_map.cpp:75-106 | the same for the assignment, for any old contents; assigning a map to itself changes nothing |
| Maps.MapCell.Insert | src/items/value_item_map.cpp:138-158 | one entry is added, or replaced if forced; the map takes a copy and keeps its other parts |
| Maps.FillMapCell | src/items/item_methods.cpp:319-348 | filling in place gives the simultaneous filling of the map's value, or fails iff that does, and changes no object the map does not own |
| Maps.FillCopy | src/processing/sakura_thread.cpp:681-681 | after a copy has been filled the original has its value still |
| Maps.FillBeside | src/items/value_item_map.cpp:49-70 | filling a map leaves every map that shares no object with it as it is |
| OwnedTrees.AnyTree | src/items/sakura_items.h:62-234 | every syntax tree can be held by nodes that own their items and maps |
| OwnedTrees.TreeCell.Copy | src/items/sakura_items.cpp:52-336 | copy() of such a node gives an equal tree on new objects only, down to the arguments of function calls |
| OwnedTrees.FillInCopy | src/processing/sakura_thread.cpp:681-681 | after a map of the copied tree has been filled in place the original tree has its value still |
| Values.KeyOrder | src/items/item_methods.cpp:325-333 | the order of the keys is the one of a dictionary |
| Builtins.GetCounts | src/items/value_item_functions.cpp:47-100 | positions of an array begin with 0, its first element is at the first one, and nothing is at others or at keys that are no integers |
| Builtins.AppendGetSize | src/items/value_item_functions.cpp:244-267 | get at the size before append gives the appended item, other positions keep theirs, and the size grows by one |
| Builtins.ContainsGets | src/items/value_item_functions.cpp:205-217 | contains on an array is true iff get finds an item with the text of the key |
| Builtins.ClearEmptyKeeps | src/items/value_item_functions.cpp:318-346 | clear_empty has a result iff its loop returns, with the items that have text as often as before |
| Builtins.InsertGetSize | src/items/value_item_functions.cpp:280-306 | get after insert gives the new value at that key and the old ones at others; a new key makes the map grow by one |
| Builtins.ContainsIsGet | src/items/value_item_functions.cpp:197-202 | on a map contains says whether get succeeds |
| Builtins.PlainScalars | src/items/value_item_functions.cpp:62-72 | a text is the key it names and an integer the number it is |
| Builtins.SplitGets | src/items/value_item_functions.cpp:112-148 | split gives the parts as texts in their order, at the first character of the delimiter or at line breaks |
| Builtins.ScalarFunctions | src/items/value_item_functions.cpp:219-228 | what the functions give on a scalar, and which of them fail |
| Builtins.LastFunction | src/items/item_methods.cpp:49-201 | functions are applied from left to right, each to what the one before gave, with its arguments filled in the same environment |
| Builtins.FillsPlain | src/items/item_methods.cpp:282-306 | without functions an identifier becomes its variable's value, a text is rendered, all else stays |
| Builtins.OneType | src/runtime_validation.cpp:236-277 | each item has exactly one type and never the undefined one |
| Builtins.TypesMean | src/runtime_validation.cpp:236-277 | arrays are what append accepts, maps what insert accepts, integers what get accepts as a position, the other types likewise |
| Builtins.ResultTypes | src/items/value_item_functions.cpp:112-346 | the types of what the functions give |
| Builtins.BorderMeans | src/runtime_validation.cpp:117-165 | two zeros are no border; numbers are bound by value, texts by length, other items by nothing |
| Builtins.FieldRestricts | src/runtime_validation.cpp:97-183 | type, whole-text pattern and fixed text restrict a field independently of each other |
| Functions.NonEmptyKeeps | src/items/value_item_functions.cpp:334-345 | clear_empty keeps each element with text as often as it occurs and drops all others |
| Functions.NonEmptyInOrder | src/items/value_item_functions.cpp:334-345 | what is kept stays in its original order |
| Functions.ClearEmpty | src/items/value_item_functions.cpp:317-346 | the loop with its wrapping 32-bit index computes exactly the non-empty elements |
| Functions.ClearEmptyEndsExactly | src/items/value_item_functions.cpp:336-343 | the loop ends iff fewer than 2^32 elements have text |
| Functions.ContainsInArray | src/items/value_item_functions.cpp:205-217 | true iff some element has the text of the key, where the search returns |
| Functions.ContainsEndsExactly | src/items/value_item_functions.cpp:209-214 | the search ends iff one of the first 2^32 elements matches or the array is shorter |
| Functions.FillOutputValueItemMap | src/items/item_methods.cpp:358-385 | replaces output entries in key order up to the first one without a source and says whether all had one |
| RuntimeChecks.CheckBlossomValues | src/runtime_validation.cpp:77-187 | true iff every present field of the direction has its type, matches its expression, border and fixed value |
| RuntimeChecks.CheckTreeValues | src/runtime_validation.cpp:198-224 | true iff every present entry of the kind has its declared type |
| RuntimeChecks.CheckInput | src/items/item_methods.cpp:565-582 | lists exactly the given keys that are not declared, in key order |
| RuntimeChecks.CheckItems | src/items/item_methods.cpp:591-607 | lists exactly the keys that still hold the question mark |
| RuntimeChecks.ConvertValueMap | src/items/item_methods.cpp:647-669 | entries become their items, child maps become maps unless an entry has their key |
| RuntimeChecks.FillDefaultValues | src/blossom.cpp:249-261 | defaults are added where no value is given and replace none |
| Blossoms.InputAt | src/items/item_methods.cpp:648-669 | the input made of a value map: filled items of the entries, child maps only where no entry has the name |
| Blossoms.BlossomRuns | src/processing/sakura_thread.cpp:201-256 | the task a blossom of that group and kind is run with gets exactly the given values and defaults, variables and position of its plan; when it runs, and what each result does to error, status and events |
| Blossoms.BlossomWrites | src/processing/sakura_thread.cpp:249-253 | variable by variable: outputs get the task's output of their text, other entries their filled item, and what no entry names is unchanged |
| Blossoms.BlossomFails | src/processing/sakura_thread.cpp:211-232 | values that cannot be filled and unknown blossoms run nothing |
| Blossoms.GroupRuns | src/processing/sakura_thread.cpp:266-323 | a blossom in a group keeps its own entries and takes over those only the group has; the others run in the state it left, and a resource is called with the group's values |
| Blossoms.GroupSplits | src/processing/sakura_thread.cpp:291-322 | the blossoms of a group run one after another |
| Flow.EqualRuns | src/processing/sakura_thread.cpp:406-457 | an if runs its first branch iff the texts of its filled sides agree, else the second one |
| Flow.UnequalExchanges | src/processing/sakura_thread.cpp:442-446 | the negated if is the if with exchanged branches; other comparisons never succeed |
| Flow.PartsSplit | src/processing/sakura_thread.cpp:568-580 | parts run one after another up to the first failure |
| Flow.CountsExactly | src/processing/sakura_thread.cpp:530-531 | the values a counter takes between two signed 64-bit bounds, across the sign as well |
| Flow.LoopWrites | src/processing/sakura_thread.cpp:658-695 | after a loop each variable from before has the value the iterations left, which began with the loop's values in place |
| Flow.LoopIterates | src/processing/sakura_thread.cpp:669-685 | each iteration binds the next value and goes on where the one before ended |
| Flow.LoopFails | src/processing/sakura_thread.cpp:471-475 | a loop whose bounds cannot be filled runs nothing |
| Flow.PartForks | src/processing/subtree_queue.cpp:139-151 | the plans a parallel part forks: one for each branch, with variables and position of the parent and nothing else |
| Flow.LoopForks | src/processing/subtree_queue.cpp:72-97 | the plans a parallel loop forks: one for each value, bound to its variable |
| Flow.TreeRuns | src/processing/sakura_thread.cpp:333-361 | a tree runs its part in the directory of its file and below its name, unless a variable still holds the question mark |
| Flow.CallLeads | src/processing/sakura_thread.cpp:371-396 | a call leads to the tree at the relative path, the empty path to the root file |
| Scoping.RunBlossomScoped | src/processing/sakura_thread.cpp:201-256 | a blossom changes values of existing variables only |
| Scoping.RunGroupScoped | src/processing/sakura_thread.cpp:291-322 | the same for the blossoms of a group up to its end or its call of a resource |
| Scoping.EvalScoped | src/processing/sakura_thread.cpp:115-191 | a successful run of any item keeps the key set and the path; hierarchy and past events are kept by every run |
| Scoping.CallScoped | src/processing/sakura_thread.cpp:607-642 | a successful call leaves the caller with the variables it had: none of the callee's is added |
| Scoping.LoopItemScoped | src/processing/sakura_thread.cpp:658-695 | a successful loop leaves the map with the variables it had before: loop variables and loop values add none, though one named like an existing variable can change its value |
| Scoping.ForkScoped | src/processing/subtree_queue.cpp:133-174 | the same for forks: no variable of a child is added, at any nesting |
| Scoping.JoinRecords | src/processing/subtree_queue.cpp:157-173 | what a join writes to counter, path and hierarchy |
| Machine.StartItemMeaning | src/processing/sakura_thread.cpp:115-191 | one step of the interrupted interpreter keeps what the big-step evaluation makes of the rest of the run |
| Machine.StartItemContinues | src/processing/sakura_thread.cpp:115-191 | a step between two forks leaves the counter alone and only adds events; forked children are fresh |
| Machine.FailureEndsPlan | src/processing/sakura_thread.cpp:568-580 | after a failure the plan returns through all calls and enters no further item |
| Scheduler.ProcessKeepsGood | src/processing/sakura_thread.cpp:60-105 | a step of a worker inside its plan keeps the invariant |
| Scheduler.SpawnKeepsGood | src/processing/subtree_queue.cpp:143-155 | so does a push of one more child |
| Scheduler.ReleaseKeepsGood | src/processing/subtree_queue.cpp:157-173 | so does the join, and it has the result of the sequential join |
| Scheduler.ReportKeepsGood | src/processing/sakura_thread.cpp:83-91 | so does writing a child's result to the parent |
| Scheduler.IncreaseKeepsGood | src/processing/sakura_thread.cpp:93-95 | so does counting it |
| Scheduler.TakeKeepsGood | src/processing/subtree_queue.cpp:182-196 | so does taking a plan from the queue |
| Queue.MoveQueues | src/processing/subtree_queue.cpp:45-50 | a step adds exactly the pushed plan to the queued ones, also with used counters, unless it ends a wait early |
| Queue.NextKeepsQueue | src/processing/subtree_queue.cpp:45-50 | hence the queue holds exactly the plans that were pushed and not taken, each once |
| Schedules.RunIsGood | src/processing/subtree_queue.cpp:133-212 | the invariant, and an unchanged meaning of the root, in every reachable state |
| Schedules.InterleavingIndependence | src/processing/subtree_queue.cpp:133-174 | every finished run, for all schedules and pool sizes, has the outcome of the sequential semantics |
| Schedules.JoinSafety | src/processing/subtree_queue.cpp:139-171 | unspawned, queued, running and counted children add up to n; the wait ends iff all n are counted, each taken once and finished |
| Schedules.GuardNeverFires | src/processing/sakura_thread.cpp:119-125 | no plan enters an item with a cleared success flag |
| Progress.StuckExactly | src/processing/subtree_queue.cpp:205-212 | a state is stuck iff all worker threads hold plans and every held plan sleeps in the wait |
| Progress.SpareThread | src/processing/subtree_queue.cpp:205-212 | while fewer plans wait on workers than there are workers, some step is possible |
| Progress.NoDeadlock | src/processing/subtree_queue.cpp:205-212 | a run with at most as many forks with children as worker threads never gets stuck |
| Progress.WaitsBound | src/processing/subtree_queue.cpp:157-157 | the plans that wait at one time are bounded by the forks with children of the run |
| PoolSize.RunWithin | src/processing/subtree_queue.cpp:133-157 | no run makes more forks with children than the text of its tree and of the called trees allows, and with parallel()-parts only all targets fit |
| PoolSize.TreeWithinPool | src/sakura_lang_interface.cpp:552-556 | so the threads a tree needs can be counted before it is run |
| Effort.NextCosts | src/processing/sakura_thread.cpp:64-104 | a measure falls with every step that is no idle poll |
| Effort.RunsEnd | src/processing/sakura_thread.cpp:64-104 | hence every schedule makes at most that many steps |
| Deadlock.DeadlockExactly | src/processing/subtree_queue.cpp:205-212 | for every run with sound counters: some schedule gets stuck iff its forks with children are more than the threads |
| Deadlock.DeadlockExists | include/libKitsunemimiSakuraLang/sakura_lang_interface.h:117 | for every pool size some tree with one fork more than threads has a stuck run |
| Counter.ActiveCounter.IncreaseCounter | src/processing/active_counter.h:54-58 | the counter grows by one and wraps at 2^32 |
| Counter.ActiveCounter.IsEqual | src/processing/active_counter.h:65-69 | true iff counter and target are equal |
| Counter.TargetExactly | src/processing/subtree_queue.cpp:72-74 | the 32-bit target of a loop equals the number of its children iff the bounds are ordered and less than 2^32 apart, or reversed by a multiple of 2^32 |
| Counter.TracksKept | src/processing/active_counter.h:46-58 | every step of a waiting fork keeps the counter equal to its start plus the counted children |
| Counter.ReleaseExactly | src/processing/subtree_queue.cpp:139-157 | with S counted before on the 32-bit counter, the test holds iff S plus the counted is n modulo 2^32; n counted children satisfy it iff S is 0; for S up to n it holds S children too early, above never |
| Counter.RunIsTracked | src/processing/active_counter.h:45-58 | in every run up to its first early join every counter holds the children its plan ever counted, modulo 2^32, and every waiting plan tracks its fork |
| Counter.LaterForksExactly | src/processing/subtree_queue.cpp:139-157 | so at every fork of such a run whose children are all spawned and whose target fits, with S counted by the earlier forks of its plan: all n counted children end the wait iff S is a multiple of 2^32, else it ends S modulo 2^32 children too early or never |
| Counter.SoundRunsAreNotEarly | src/processing/subtree_queue.cpp:139-171 | a run with sound counters has no early join |
| Spent.SpentRun | src/processing/active_counter.h:45-47 | from a used counter on, a run that stays sound makes no fork with children |
| Counter.SecondForkReleasedEarly | src/processing/subtree_queue.cpp:139-171 | a run in which a second fork is joined while its child is queued, and the child's plan freed |
| CallGraph.DepthIsEnough | src/processing/sakura_thread.cpp:371-396 | on an acyclic call graph the evaluation ends by itself: all bounds from the rank on agree and none is the reason of a failure |
| CallGraph.SelfCallNeverReturns | src/processing/sakura_thread.cpp:371-396 | a tree that begins by calling itself, with values that can always be filled, exceeds every bound |
| CallGraph.GroupCallsResource | src/processing/sakura_thread.cpp:292-304 | the resource a group ends with is the first one its blossoms name |
| CallGraph.OneForkIsClean | src/processing/active_counter.h:45-47 | plans that fork at most once by their text keep all counters sound, for targets that fit |
| CallGraph.TreeRunIsClean | src/sakura_lang_interface.cpp:552-556 | so the theorems on the scheduler apply to a tree of which this holds |
| Forking.ParallelMerge | src/processing/subtree_queue.cpp:159-165 | after a successful parallel part the parent has the map of the last branch |
| Forking.ForkFailure | src/processing/growth_plan.cpp:28-40 | a fork fails iff some child or the aggregation failed and keeps its map; it reports the failed child with the highest index, a failed aggregation only if no child failed, and a success leaves error and status alone |
| Forking.AggregationIsFold | src/processing/subtree_queue.cpp:101-109 | the first fill resolves the identifier in child 0, later ones apply the calls to the accumulated value, or render it if it is a text |
| Forking.AggregationAppends | src/processing/subtree_queue.cpp:99-114 | an append aggregation gives child 0's array and every child's argument in index order; other variables are unchanged |
| Forking.EveryRunCompletes | src/processing/subtree_queue.cpp:133-212 | with as many threads as forks with children every run can be continued to its end, which has the sequential outcome, and none moves for ever |
| Isolation.RunSees | src/processing/sakura_thread.cpp:115-191 | a run depends on variables, position and status of its plan only: error, counter and earlier events make no difference to result, new events and new error |
| Isolation.ForkSees | src/processing/subtree_queue.cpp:143-151 | two forks whose children start alike, of parents that agree on map, position and status, are joined to the same map and the same new error |
| Calls.SubtreeIsolation | src/processing/sakura_thread.cpp:607-642 | callers that agree on the filled values of the call get the same inner run and the same written values |
| Calls.CalleeBegins | src/processing/sakura_thread.cpp:607-623 | the callee begins with what it declares and what the call gives, which has precedence, and sees nothing else |
| Calls.CallWrites | src/processing/sakura_thread.cpp:632-639 | key by key: outputs get the callee's final value, inputs and defaults are written too, other keys are unchanged |
| Calls.OutputsDecideCall | src/processing/sakura_thread.cpp:618-635 | a call succeeds iff its callee does and every output names a key that is declared or given, which shows before the call |
| Nodes.Node.Copy | src/items/sakura_items.cpp:52-336 | copy() gives an equal tree on fresh nodes only and changes nothing |
| Nodes.Garden.GetTree | src/sakura_garden.cpp:224-242 | a fresh copy equal to the registered tree, null iff there is none |
| Nodes.Garden.GetRessource | src/sakura_garden.cpp:204-214 | the same for resources |
| Plans.GrowthPlan.GetErrorResult | src/processing/growth_plan.cpp:28-40 | every failed child overwrites error and status, in index order |
| Plans.GrowthPlan.MergeChilds | src/processing/subtree_queue.cpp:162-164 | the fold of the child maps over the parent's map |
| Plans.GrowthPlan.AggregateChilds | src/processing/subtree_queue.cpp:101-109 | the fold of the aggregation over the child maps, up to the first step that fails |
| Plans.AddChild | src/processing/subtree_queue.cpp:145-154 | a new child has its own copy of subtree and map and shares no object with the others |
| Interpreter.ProcessBlossom | src/processing/sakura_thread.cpp:201-256 | leaves the plan as the semantics of a blossom says, validation before and after runTask included |
| Interpreter.RunPlan | src/processing/sakura_thread.cpp:77-96 | a worker leaves the child with its outcome, the parent's flag with its failure and the counter increased |
| Interpreter.WaitUntilFinish | src/processing/subtree_queue.cpp:205-212 | children run in any order: when the counter has its target each has its outcome |
| Interpreter.SpawnParallelSubtrees | src/processing/subtree_queue.cpp:133-174 | equals the sequential join of the children |
| Interpreter.SpawnParallelSubtreesLoop | src/processing/subtree_queue.cpp:64-123 | equals the sequential join of one child per loop value |
| Interpreter.RunLoop | src/processing/sakura_thread.cpp:658-695 | equals the evaluation of the iterations; the body of the loop is not changed |
| Interpreter.ProcessForEach | src/processing/sakura_thread.cpp:467-502 | refines the evaluation of a for-each-loop |
| Interpreter.ProcessFor | src/processing/sakura_thread.cpp:512-558 | refines the evaluation of a for-loop with its casts to 64 bit |
| Interpreter.ProcessSequeniellPart | src/processing/sakura_thread.cpp:568-580 | refines the evaluation of the parts up to the first failure |
| Interpreter.ProcessParallelPart | src/processing/sakura_thread.cpp:590-596 | refines the fork of the branches |
| Interpreter.ProcessIf | src/processing/sakura_thread.cpp:406-457 | refines the choice of a branch although both sides are overwritten |
| Interpreter.ProcessTree | src/processing/sakura_thread.cpp:333-361 | refines the evaluation of a tree; the path is restored after a success only |
| Interpreter.RunSubtreeCall | src/processing/sakura_thread.cpp:607-642 | refines the call although the callee's values are overwritten |
| Interpreter.ProcessSubtree | src/processing/sakura_thread.cpp:371-396 | refines the lookup and call of a subtree |
| Interpreter.ProcessBlossomGroup | src/processing/sakura_thread.cpp:266-323 | refines the group although its blossoms take over values in place |
| Interpreter.ProcessSakuraItem | src/processing/sakura_thread.cpp:115-191 | the in-place interpreter equals the evaluation of the tree it was given, for all node types; stored trees are unchanged |
| Validator.GetCompareMap | src/blossom.cpp:460-487 | a field has the direction of the first entry in key order that stands for it, else of a child map |
| Validator.ValidateInput | src/blossom.cpp:387-452 | accepts iff all fields are known, unless others are allowed, and all required ones are given in their direction |
| Validator.CheckBlossomItem | src/initial_validator.cpp:55-82 | accepts resources, and registered blossoms iff their values are accepted |
| Validator.CheckSakuraItem | src/initial_validator.cpp:93-185 | accepts exactly the trees all of whose blossoms are accepted with their groups' values and leaves those merged in |
| Blossoms.FirstDecides | src/blossom.cpp:460-487 | of two entries for the same field the first one in key order decides its direction |
| Blossoms.AcceptsExactly | src/blossom.cpp:387-452 | values that stand for each field once are accepted iff they name known fields only, unless others are allowed, give all required inputs and take all required outputs |
| Blossoms.GroupChecked | src/initial_validator.cpp:93-185 | a group is accepted iff its blossoms are with what they take over, and that is what is left in the tree |
| Blossoms.CheckedExactly | src/initial_validator.cpp:55-185 | when a single blossom, a call and a node with branches are accepted |
| Validator.MergeIsIdempotent | src/processing/sakura_thread.cpp:313-315 | merging a group's values at validation and again at run time equals merging once |
| ValidatedRuns.MergeKeepsMeaning | src/initial_validator.cpp:134-137 | the rewriting done by validation, of any of the trees, changes no run of any tree |
| ValidatedRuns.MergedIsChecked | src/initial_validator.cpp:93-185 | a rewritten tree is accepted iff the original is |
| ValidatedRuns.CheckedBlossomRuns | src/processing/sakura_thread.cpp:239-244 | a checked blossom gets all inputs it requires |
| ValidatedRuns.CheckedRunsComplete | src/initial_validator.cpp:93-185 | in every run of checked trees every non-resource task gets all inputs it requires |
| Interface.RunProcess | src/sakura_lang_interface.cpp:534-574 | succeeds iff all keys are declared and the forked tree succeeds, then collects the declared outputs |
| Interface.TriggerTree | src/sakura_lang_interface.cpp:100-156 | when it succeeds, with which result, and whose error and status it reports when the tree fails |
| Interface.TriggerContract | src/sakura_lang_interface.cpp:121-155 | after a success the result has exactly the declared outputs, each with the final value of its variable and its type; all given keys were declared, all inputs typed, nothing uninitialized |
| Interface.TriggerSucceedsExactly | src/sakura_lang_interface.cpp:100-156 | the program succeeds iff the inputs are declared and typed, the tree succeeds and its outputs are typed; a failed tree's error and status are reported |
| Interface.TriggerIsComplete | src/sakura_lang_interface.cpp:403-406 | in a validated garden every task of the whole run gets the inputs it requires |
| Interface.TriggeredInParallel | src/sakura_lang_interface.cpp:552-559 | with as many threads as forks with children every schedule can be continued to the outcome the contract speaks about |
| Interface.RankIsEnough | src/processing/sakura_thread.cpp:371-396 | on an acyclic call graph that outcome is the same for all bounds from the rank of the tree on and not due to the bound |
| Interface.TriggeredOnAcyclicGraph | src/sakura_lang_interface.cpp:552-559 | so the run with threads ends with the outcome of the program itself, which is no endless one |
| Interface.TriggeredFromText | src/sakura_lang_interface.cpp:552-559 | the same from conditions on the text only: one fork on each plan, all of them parallel()-parts outside of loops, and a thread for each and one more |

## Left out

- Interpreter.ProcessSakuraItem: assumes an acyclic call graph and sound counters (`clean`); without them the program may not return or may join early. The check for a cleared success flag (src/processing/sakura_thread.cpp:121-125) is part of the scheduler model only, where it is proved never to fire.
- Interpreter.WaitUntilFinish: a child runs as a whole when it is chosen; the interleaving of steps is the subject of the scheduler model.
- Plans.GrowthPlan.AggregateChilds: stops at the first aggregation step that fails. The program goes on with the following children and runs overrideItems even after a failure in the last one (src/processing/subtree_queue.cpp:101-113): where a call has left a null item it dereferences that in the next child, or in overrideItems when the parent has a variable of that name. It reports the same failure if it does not.
- CallGraph.OneForkIsClean: counts a fork without children like any other, since a later fork of that kind would wait for ever.
- Interface.TriggerTree: the lock that serialises callers, and the given error and status objects the results are added to, are not part of this model.
- Functions.ContainsInArray: restricted to searches that return; `Functions.ContainsEndsExactly` says which those are.
- The outcomes `NullAccess` and `Endless` stand for runs in which the program dereferences null, reaches assert(false) or does not return; nothing is claimed about such runs beyond reaching them.
- Regular expressions on fields of map or array type: the program dereferences null there, the model matches the empty text.
- Nodes.Node.Copy: the interpreter works on nodes that hold the values of their maps; the copy of nodes that own their maps is `OwnedTrees.TreeCell.Copy`.
- OwnedTrees.TreeCell.Copy: the maps and items a node owns are grouped in one map by the names of the fields.
- Flow.LoopWrites: for-loops whose bounds are numbers of 64 bit, which is what the program's integers are.
- Builtins.ScalarFunctions: the size of a scalar, substrings, splitting and JSON are foreign code.
- PoolSize.RunWithin: an upper bound; it gives none for a fork inside of a loop, and a branch that is not taken counts.
- Cells.FillValueCell: promises nothing about the value item after a failure, where the program may leave a null item.
- Maps.MapCell.Assign: the program puts a value into an existing slot of the map, the model a new object with that value; maps that own each other are not assigned to each other.
- Counter.LaterForksExactly: ends at the first early join; from there on the program works on plans that have been freed.
- Data items are values, the pointer to one is a box that is assigned to.
- Error texts, log and terminal output: only the place an error was raised at is kept.
- The lexer and parser, reading of files and path arithmetic; a tree name is resolved by a partial function.
- Registration of trees, resources and blossoms, triggerBlossom and the getters of the interface: single lookups and insertions.
- Starting and stopping of threads, sleep times and memory order.
