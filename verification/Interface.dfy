// triggerTree: the one entry that runs a tree, and what its caller can rely on.
module Interface {
  import opened Values
  import opened Items
  import opened Semantics
  import opened Scoping
  import opened Machine
  import opened Scheduler
  import opened Progress
  import opened Forking
  import opened CallGraph
  import opened PoolSize
  import opened RuntimeChecks
  import opened ValidatedRuns
  import opened Nodes
  import opened Plans
  import opened Interpreter

  // the plan of the calling thread: the given values and the declared ones not given
  function RootState(t: Item, initialValues: Env): PlanState
    requires t.head.Tree?
  {
    PlanState(Override(initialValues, ItemsOf(t.head.values.values), OnlyNonExisting), "", [],
              Status(0, NoText), NoError, 0, true, [])
  }

  // runProcess forks the tree as the only child
  function RootFork(t: Item, initialValues: Env): Fork
    requires t.head.Tree?
  {
    PartsFork([t], RootState(t, initialValues))
  }

  // the variables that are declared as outputs
  function Outputs(declared: map<string, ValueItem>, items: Env): Env {
    map k | k in items && k in declared && declared[k].kind.Output? :: items[k]
  }

  predicate Declared(values: ValueItemMap, items: Env) {
    forall k :: k in items ==> k in values.values || k in values.childs
  }

  // the checks before the tree is forked: types of the inputs and no unknown keys
  predicate Startable(t: Item, initialValues: Env)
    requires t.head.Tree?
  {
    var items := RootState(t, initialValues).items;
    TreeValuesOk(t.head.values.values, items, Input) && Declared(t.head.values, items)
  }

  /** When triggerTree succeeds, for the outcome o of the forked tree. */
  predicate Succeeds(t: Item, initialValues: Env, o: Outcome)
    requires t.head.Tree?
  {
    var values := t.head.values.values;
    Startable(t, initialValues) && o.ok && TreeValuesOk(values, Outputs(values, o.st.items), Output)
  }

  ghost function RootOutcome(w: World, d: nat, t: Item, initialValues: Env): Outcome
    requires t.head.Tree?
  {
    SequentialJoin(w.host, RootFork(t, initialValues), KidOutcomes(w, d, RootFork(t, initialValues)))
  }

  // ---------------------------------------------------------------- in place

  method CollectOutputs(tree: ValueItemMap, items: Env) returns (result: Env)
    ensures result == Outputs(tree.values, items)
  {
    result := map[];
    var todo := items.Keys;
    while todo != {}
      invariant todo <= items.Keys
      invariant forall k :: k in result <==>
        k in items && k !in todo && k in tree.values && tree.values[k].kind.Output?
      invariant forall k :: k in result ==> result[k] == items[k]
      decreases todo
    {
      LeastKeyExists(todo);
      var k :| IsLeastKey(k, todo);
      todo := todo - {k};
      if k in tree.values && tree.values[k].kind.Output? { result := result[k := items[k]]; }
    }
  }

  /** runProcess */
  method RunProcess(w: World, garden: Garden, ghost rank: Item -> nat, plan: GrowthPlan, tree: Node,
                    ghost t: Item, ghost initialValues: Env)
    returns (ok: bool, result: Env)
    requires Acyclic(w, rank) && garden.Holds(w) && t in w.trees.Values && t.head.Tree?
    requires tree.Shape() && tree.Current() == t && plan.success && plan.childPlans == []
    requires plan.State() == RootState(t, initialValues) && RootOutcome(w, rank(t), t, initialValues).st.clean
    modifies plan, plan.activeCounter
    ensures ok <==> Declared(t.head.values, RootState(t, initialValues).items) &&
                    RootOutcome(w, rank(t), t, initialValues).ok
    ensures ok ==> result == Outputs(t.head.values.values, RootOutcome(w, rank(t), t, initialValues).st.items)
    ensures plan.State() ==
      if Declared(t.head.values, RootState(t, initialValues).items) then RootOutcome(w, rank(t), t, initialValues).st
      else RootState(t, initialValues).(error := UndeclaredInput)
    ensures garden.Holds(w)
  {
    hide Eval, Acyclic, Garden.Holds, Node.Shape, Node.Current, SequentialJoin, KidOutcomes;
    tree.Unfold();
    result := map[];
    var failedInput := CheckInput(tree.head.values, plan.items);
    if |failedInput| > 0 {
      assert failedInput[0] in failedInput;
      plan.error := UndeclaredInput;
      return false, result;
    }
    var f := RootFork(t, initialValues);
    RootIsForkable(w, rank, t, initialValues);
    ok := SpawnParallelSubtrees(w, garden, rank, rank(t), plan, [tree], f, tree.height + 1);
    if ok { result := CollectOutputs(tree.head.values, plan.items); }
  }

  lemma RootIsForkable(w: World, rank: Item -> nat, t: Item, initialValues: Env)
    requires Acyclic(w, rank) && t in w.trees.Values && t.head.Tree?
    requires RootOutcome(w, rank(t), t, initialValues).st.clean
    ensures Forkable(w, rank, rank(t), RootFork(t, initialValues))
  {
    hide Eval;
    var f := RootFork(t, initialValues);
    assert CallsBelow(w, rank, rank(t), "", t);
    assert f.kids[0].item == t && f.kids[0].st.path == "";
  }

  /** triggerTree */
  method TriggerTree(w: World, garden: Garden, ghost rank: Item -> nat, id: string, initialValues: Env)
    returns (ok: bool, result: Env, status: Status, error: Error)
    requires Acyclic(w, rank) && garden.Holds(w)
    requires w.GetTree(id).Some? ==>
      var t := w.GetTree(id).value;
      t.head.Tree? && RootOutcome(w, rank(t), t, initialValues).st.clean
    ensures w.GetTree(id).None? ==> !ok && error == UnknownTree
    ensures w.GetTree(id).Some? ==>
      var t := w.GetTree(id).value;
      var o := RootOutcome(w, rank(t), t, initialValues);
      (ok <==> Succeeds(t, initialValues, o)) &&
      (ok ==> result == Outputs(t.head.values.values, o.st.items)) &&
      (Startable(t, initialValues) && !o.ok ==> error == o.st.error && status == o.st.status)
    ensures garden.Holds(w)
  {
    hide Eval, Acyclic, Garden.Holds, Node.Shape, Node.Current, RootOutcome;
    result, status, error := map[], Status(0, NoText), NoError;
    var tree := garden.GetTree(w, id);
    if tree == null { return false, result, status, UnknownTree; }
    tree.Unfold();
    ghost var t := tree.Current();
    assert t in w.trees.Values;
    var growthPlan := new GrowthPlan(null, initialValues, "", []);
    growthPlan.items := OverrideItems(growthPlan.items, ItemsOf(tree.head.values.values), OnlyNonExisting);
    var valid := CheckTreeValues(tree.head.values, growthPlan.items, Input);
    if !valid { return false, result, status, BadType; }
    ok, result := RunProcess(w, garden, rank, growthPlan, tree, t, initialValues);
    if !ok { return false, result, growthPlan.status, growthPlan.error; }
    ok := CheckTreeValues(tree.head.values, result, Output);
    if !ok { error := BadType; }
  }

  // ---------------------------------------------------------------- contract

  // the plan the tree runs on: given values, and declared ones where none is given
  ghost predicate StartsFrom(t: Item, initialValues: Env, start: PlanState)
    requires t.head.Tree?
  {
    var declared, items := t.head.values.values, start.items;
    start == PlanState(items, "", [], Status(0, NoText), NoError, 0, true, []) &&
    items.Keys == initialValues.Keys + declared.Keys &&
    forall k :: k in items ==> items[k] == if k in initialValues then initialValues[k] else declared[k].item
  }

  lemma StartExists(t: Item, initialValues: Env)
    requires t.head.Tree?
    ensures StartsFrom(t, initialValues, RootFork(t, initialValues).kids[0].st)
  {}

  // the run of the fork is the run of the tree
  lemma RootRuns(w: World, d: nat, t: Item, initialValues: Env, start: PlanState)
    requires t.head.Tree? && StartsFrom(t, initialValues, start)
    ensures RootState(t, initialValues).items == start.items
    ensures var o, inner := RootOutcome(w, d, t, initialValues), Eval(w, d, t, start);
      o.ok == inner.ok && (inner.ok ==> o.st.items == inner.st.items && inner.st.items.Keys == start.items.Keys) &&
      (!inner.ok ==> o.st.error == inner.st.error && o.st.status == inner.st.status)
  {
    var st, f := RootState(t, initialValues), RootFork(t, initialValues);
    var parent := Item(Sequential, [t]);
    assert st.items == start.items;
    assert f.kids == [Kid(t, start)];
    hide Eval, StartsFrom;
    assert KidOutcomes(w, d, f) == EvalKids(w, d, parent, f);
    var os := EvalKids(w, d, parent, f);
    ForkFailure(w, d, parent, f);
    EvalScoped(w, d, t, start);
    if os[0].ok {
      assert AllOk(os);
      ParallelMerge(w, d, parent, st, [t]);
    } else {
      assert !AllOk(os);
    }
  }

  /** What a caller of triggerTree can rely on after a success: the result has exactly the
      declared outputs, each of its declared type and with the value its variable has when the
      tree has ended; every given key was declared, every input had its declared type and
      nothing was left uninitialized when the tree began. */
  lemma TriggerContract(w: World, d: nat, t: Item, initialValues: Env, start: PlanState)
    requires t.head.Tree? && Succeeds(t, initialValues, RootOutcome(w, d, t, initialValues))
    requires StartsFrom(t, initialValues, start)
    ensures var values, inner := t.head.values, Eval(w, d, t, start);
      var result := Outputs(values.values, RootOutcome(w, d, t, initialValues).st.items);
      inner.ok && inner.st.items.Keys == start.items.Keys &&
      (forall k :: k in result <==> k in values.values && values.values[k].kind.Output?) &&
      (forall k :: k in result ==>
        k in inner.st.items && result[k] == inner.st.items[k] && HasType(result[k], values.values[k].fieldType)) &&
      (forall k :: k in initialValues ==> k in values.values || k in values.childs) &&
      (forall k :: k in values.values && values.values[k].kind.Input? ==>
        HasType(if k in initialValues then initialValues[k] else values.values[k].item, values.values[k].fieldType)) &&
      Initialized(start.items)
  {
    RootRuns(w, d, t, initialValues, start);
    TreeStartsInitialized(w, d, t, start);
    hide Eval, RootOutcome;
    assert forall k :: k in t.head.values.values ==> k in start.items;
  }

  lemma StartableExactly(t: Item, initialValues: Env, start: PlanState)
    requires t.head.Tree? && StartsFrom(t, initialValues, start)
    ensures var values := t.head.values;
      Startable(t, initialValues) <==>
        (forall k :: k in initialValues ==> k in values.values || k in values.childs) &&
        (forall k :: k in values.values && values.values[k].kind.Input? ==>
          k in start.items && HasType(start.items[k], values.values[k].fieldType))
  {
    var declared, given := t.head.values.values, RootState(t, initialValues).items;
    assert given == start.items;
    assert forall k :: k in declared ==> k in given;
    assert forall k :: k in initialValues ==> k in given;
  }

  /** When triggerTree succeeds: the inputs have their types, all given keys are declared, the
      tree succeeds and leaves its outputs with their types. If the tree fails its error and
      status are reported. */
  lemma TriggerSucceedsExactly(w: World, d: nat, t: Item, initialValues: Env, start: PlanState)
    requires t.head.Tree? && StartsFrom(t, initialValues, start)
    ensures var values, o, inner := t.head.values, RootOutcome(w, d, t, initialValues), Eval(w, d, t, start);
      (Succeeds(t, initialValues, o) <==>
        (forall k :: k in initialValues ==> k in values.values || k in values.childs) &&
        (forall k :: k in values.values && values.values[k].kind.Input? ==>
          k in start.items && HasType(start.items[k], values.values[k].fieldType)) &&
        inner.ok &&
        (forall k :: k in values.values && values.values[k].kind.Output? ==>
          k in inner.st.items && HasType(inner.st.items[k], values.values[k].fieldType))) &&
      (!inner.ok ==> o.st.error == inner.st.error && o.st.status == inner.st.status)
  {
    RootRuns(w, d, t, initialValues, start);
    StartableExactly(t, initialValues, start);
    hide Eval, RootOutcome, Startable, RootState, HasType;
    assert forall k :: k in t.head.values.values ==> k in start.items;
  }

  lemma TreeStartsInitialized(w: World, d: nat, t: Item, st: PlanState)
    requires t.head.Tree? && Eval(w, d, t, st).ok
    ensures Initialized(st.items)
  {
    assert Eval(w, d, t, st) == EvalTree(w, d, t, Record(st, Entered));
  }

  /** A tree of a validated garden: all blossoms of the whole run, in the tree, in its callees
      and in all children of its forks, get the inputs they require. */
  lemma TriggerIsComplete(w: World, d: nat, t: Item, initialValues: Env)
    requires AllChecked(w) && t in w.trees.Values && t.head.Tree?
    ensures CompleteLog(w, RootOutcome(w, d, t, initialValues).st.log)
  {
    hide Eval, CompleteLog;
    var f, parent := RootFork(t, initialValues), Item(Sequential, [t]);
    assert KidOutcomes(w, d, f) == EvalKids(w, d, parent, f);
    NothingRan(w);
    ForkComplete(w, d, parent, f);
  }

  lemma NothingRan(w: World)
    ensures CompleteLog(w, [])
  {}

  /** The run of the program with its threads: any number of them that is not smaller than
      the number of forks, any schedule. Each run can be continued to its end, and at the end
      the calling thread has the outcome the contract speaks about. */
  lemma TriggeredInParallel(w: World, threads: nat, d: nat, t: Item, initialValues: Env, begin: seq<Choice>)
    returns (schedule: seq<Choice>)
    requires t.head.Tree? && SingleForks(w, d, "", t) && Forks(w, d, "", t) <= 1
    requires ExactLog(RootOutcome(w, d, t, initialValues).st.log)
    requires Waits(w, d, RootFork(t, initialValues)) <= threads
    ensures begin <= schedule
    ensures Run(w, threads, Start(d, RootFork(t, initialValues)), schedule).root.config ==
      Finished(RootOutcome(w, d, t, initialValues))
  {
    hide Eval, SingleForks, Forks;
    TreeRunIsClean(w, d, t, RootState(t, initialValues));
    schedule := EveryRunCompletes(w, threads, d, RootFork(t, initialValues), begin);
  }

  /** On an acyclic call graph the outcome does not depend on the bound from the rank on, and a
      tree that has been forked never ends because of it. */
  lemma RankIsEnough(w: World, rank: Item -> nat, t: Item, initialValues: Env, d: nat)
    requires Acyclic(w, rank) && t in w.trees.Values && t.head.Tree? && d >= rank(t)
    ensures RootOutcome(w, d, t, initialValues) == RootOutcome(w, rank(t), t, initialValues)
    ensures !RootOutcome(w, d, t, initialValues).st.error.Endless?
  {
    var st, f := RootState(t, initialValues), RootFork(t, initialValues);
    var parent := Item(Sequential, [t]);
    assert CallsBelow(w, rank, rank(t), "", t);
    hide Eval, Acyclic, CallsBelow;
    assert KidOutcomes(w, d, f) == EvalKids(w, d, parent, f);
    assert KidOutcomes(w, rank(t), f) == EvalKids(w, rank(t), parent, f);
    ForkDepth(w, rank, rank(t), d, rank(t), parent, f);
  }

  /** The run of the program with its threads on an acyclic call graph. */
  lemma TriggeredOnAcyclicGraph(w: World, rank: Item -> nat, threads: nat, t: Item, initialValues: Env,
                                begin: seq<Choice>)
    returns (schedule: seq<Choice>)
    requires Acyclic(w, rank) && t in w.trees.Values && t.head.Tree?
    requires SingleForks(w, rank(t), "", t) && Forks(w, rank(t), "", t) <= 1
    requires ExactLog(RootOutcome(w, rank(t), t, initialValues).st.log)
    requires Waits(w, rank(t), RootFork(t, initialValues)) <= threads
    ensures begin <= schedule
    ensures Run(w, threads, Start(rank(t), RootFork(t, initialValues)), schedule).root.config ==
      Finished(RootOutcome(w, rank(t), t, initialValues))
    ensures !RootOutcome(w, rank(t), t, initialValues).st.error.Endless?
  {
    hide Eval, SingleForks, Forks;
    RankIsEnough(w, rank, t, initialValues, rank(t));
    schedule := TriggeredInParallel(w, threads, rank(t), t, initialValues, begin);
  }

  /** The same from the text of the trees alone: each plan forks at most once, all forks are
      parallel()-parts with less than 2^32 branches, none is inside of a loop, and the pool has
      a thread for each of them and one more. */
  lemma TriggeredFromText(w: World, rank: Item -> nat, threads: nat, t: Item, initialValues: Env, begin: seq<Choice>)
    returns (schedule: seq<Choice>)
    requires Acyclic(w, rank) && t in w.trees.Values && t.head.Tree?
    requires SingleForks(w, rank(t), "", t) && Forks(w, rank(t), "", t) <= 1
    requires var n := Needed(w, rank(t), "", t); n.AtMost? && n.fits && n.forks + 1 <= threads
    ensures begin <= schedule
    ensures Run(w, threads, Start(rank(t), RootFork(t, initialValues)), schedule).root.config ==
      Finished(RootOutcome(w, rank(t), t, initialValues))
    ensures !RootOutcome(w, rank(t), t, initialValues).st.error.Endless?
  {
    hide Eval, SingleForks, Forks, Needed, Acyclic, ExactLog, Waits;
    NothingLogged();
    TreeWithinPool(w, rank(t), t, RootState(t, initialValues));
    schedule := TriggeredOnAcyclicGraph(w, rank, threads, t, initialValues, begin);
  }

  lemma NothingLogged()
    ensures ExactLog([])
  {}
}
