// The interpreter of the program: it fills the nodes it processes in place and works on the
// fields of the plan. Each method leaves plan and result as the big-step semantics says of
// the syntax tree and the plan it started with.
module Interpreter {
  import opened Values
  import opened Filling
  import opened Functions
  import opened Items
  import opened Semantics
  import opened Scoping
  import opened Machine
  import opened CallGraph
  import opened RuntimeChecks
  import opened Counter
  import opened Nodes
  import opened Plans

  // what every method of the interpreter expects of the node, the plan and the garden; calls
  // go to trees of a rank below r
  ghost predicate Ready(w: World, garden: Garden, rank: Item -> nat, r: nat, plan: GrowthPlan, node: Node)
    reads garden.Repr, plan, node.Repr
  {
    garden.Holds(w) && node.Shape() && node.Repr !! garden.Repr && plan.success && plan.childPlans == [] &&
    CallsBelow(w, rank, r, plan.filePath, node.Current())
  }

  // what it leaves behind besides its result
  ghost predicate Settled(w: World, garden: Garden, plan: GrowthPlan, ok: bool)
    reads garden.Repr, plan
  {
    garden.Holds(w) && plan.childPlans == [] && (ok ==> plan.success)
  }

  // ---------------------------------------------------------------- blossoms

  /** processBlossom with growBlossom; the filled values replace those of the item */
  method ProcessBlossom(w: World, plan: GrowthPlan, blossomItem: BlossomItem) returns (ok: bool, after: BlossomItem)
    modifies plan
    ensures Outcome(ok, plan.State()) == RunBlossom(w, blossomItem, old(plan.State()))
    ensures plan.success == old(plan.success) && plan.childPlans == old(plan.childPlans)
  {
    hide Fillable, FillMap, Convert, FillDefaults, BlossomValuesOk, OutputComplete, FillOutput, Override;
    after := blossomItem;
    var filled, values := FillInputValueItemMap(w.host, blossomItem.values, plan.items);
    if !filled {
      plan.error := BlossomValues;
      return false, after;
    }
    after := after.(values := values);
    var blossom := w.GetBlossom(after.groupType, after.kind);
    if blossom.None? {
      plan.error := UnknownBlossom;
      return false, after;
    }
    var def := blossom.value;
    var input := ConvertValueMap(after.values);
    input := FillDefaultValues(def.inputs, input);
    var valid := CheckBlossomValues(w.host, def.inputs, input, InputField);
    if !valid {
      plan.error, plan.status := BadInput, Status(400, ValidationText);
      return false, after;
    }
    var task :=
      TaskInput(input, plan.items, plan.filePath, plan.hirarchy + ["BLOSSOM: " + after.name], w.context, plan.status);
    var result := def.run(task);
    plan.log := plan.log + [Ran(after.groupType, after.kind, task)];
    plan.status := result.status;
    if !result.ok {
      plan.error := TaskFailed(result.message);
      return false, after;
    }
    valid := CheckBlossomValues(w.host, def.outputs, result.output, OutputField);
    if !valid {
      plan.error, plan.status := BadOutput, Status(500, ValidationText);
      return false, after;
    }
    var complete, written := FillOutputValueItemMap(w.host, after.values.values, result.output);
    after := after.(values := after.values.(values := written));
    plan.items := OverrideItems(plan.items, ItemsOf(written), OnlyExisting);
    ok := true;
  }

  // ---------------------------------------------------------------- forks

  /** run of a worker on a plan it took from the queue */
  method RunPlan(w: World, garden: Garden, ghost rank: Item -> nat, ghost r: nat,
                 parent: GrowthPlan, plan: GrowthPlan, ghost kid: Kid, ghost height: nat)
    requires Acyclic(w, rank) && garden.Holds(w) && plan.Pending(kid, height)
    requires plan.Foot() !! garden.Repr && parent !in plan.Foot() && parent.activeCounter !in plan.Foot()
    requires CallsBelow(w, rank, r, kid.st.path, kid.item) && Eval(w, r, kid.item, kid.st).st.clean
    modifies plan.Foot(), parent`success, parent.activeCounter`isCounter
    ensures plan.Done(Eval(w, r, kid.item, kid.st)) && garden.Holds(w)
    ensures parent.success == (old(parent.success) && Eval(w, r, kid.item, kid.st).ok)
    ensures parent.activeCounter.isCounter as int == (old(parent.activeCounter.isCounter) as int + 1) % U32
    decreases r, 1, height, 0
  {
    hide Acyclic, CallsBelow, Eval, Node.Shape, Node.Current, Garden.Holds;
    var result := ProcessSakuraItem(w, garden, rank, r, plan, plan.completeSubtree);
    if !result {
      parent.success := false;
      plan.success := false;
    } else {
      plan.success := true;
    }
    parent.activeCounter.IncreaseCounter();
  }

  // a fork whose counters are sound, run on trees the call bound covers
  ghost predicate Forkable(w: World, rank: Item -> nat, r: nat, f: Fork) {
    SequentialJoin(w.host, f, KidOutcomes(w, r, f)).st.clean &&
    forall i :: 0 <= i < |f.kids| ==> CallsBelow(w, rank, r, f.kids[i].st.path, f.kids[i].item)
  }

  lemma ForkIsClean(w: World, rank: Item -> nat, r: nat, f: Fork)
    requires Forkable(w, rank, r, f)
    ensures f.st.counter == 0 && f.should == |f.kids| < U32
    ensures forall i :: 0 <= i < |f.kids| ==>
      Eval(w, r, f.kids[i].item, f.kids[i].st).st.clean && CallsBelow(w, rank, r, f.kids[i].st.path, f.kids[i].item)
  {
    hide Eval, JoinFork, CallsBelow;
    var os := KidOutcomes(w, r, f);
    JoinRecords(w.host, f, (f.st.counter + |f.kids|) % U32, AllOk(os), os);
    forall i | 0 <= i < |os| ensures os[i].st.clean {}
  }

  function Indices(n: nat): (r: set<nat>)
    ensures |r| == n && forall i: nat :: i in r <==> i < n
  {
    if n == 0 then {} else Indices(n - 1) + {n - 1}
  }

  // of the children, those in the set are still pending and the others have their results
  ghost predicate Progress(plans: seq<GrowthPlan>, kids: seq<Kid>, os: seq<Outcome>, pending: set<nat>, height: nat)
    reads Feet(plans)
  {
    |plans| == |kids| == |os| && Separate(plans) &&
    forall i :: 0 <= i < |plans| ==>
      plans[i].Foot() <= Feet(plans) && plans[i].Stage(i in pending, kids[i], os[i], height)
  }

  lemma AllPending(plans: seq<GrowthPlan>, kids: seq<Kid>, os: seq<Outcome>, height: nat)
    requires |plans| == |kids| == |os| && Childs(plans, kids, height)
    ensures Progress(plans, kids, os, Indices(|plans|), height)
  {
    hide GrowthPlan.Foot, GrowthPlan.Pending, Feet, Separate;
  }

  // a child whose run is over
  lemma OneDone(plans: seq<GrowthPlan>, kids: seq<Kid>, os: seq<Outcome>, pending: set<nat>, height: nat, i: nat)
    requires i < |plans| == |kids| == |os|
    requires forall j :: 0 <= j < |plans| && j != i ==> plans[j].Stage(j in pending, kids[j], os[j], height)
    requires forall j :: 0 <= j < |plans| ==> plans[j].Foot() <= Feet(plans)
    requires Separate(plans) && plans[i].Done(os[i])
    ensures Progress(plans, kids, os, pending - {i}, height)
  {
    hide GrowthPlan.Foot, GrowthPlan.Pending, GrowthPlan.Done, Feet, Separate;
  }

  lemma StillPending(plan: GrowthPlan, kid: Kid, o: Outcome, height: nat)
    requires plan.Stage(true, kid, o, height)
    ensures plan.Pending(kid, height)
  {}

  lemma Apart(plans: seq<GrowthPlan>, i: nat)
    requires Separate(plans) && i < |plans|
    ensures forall j :: 0 <= j < |plans| && j != i ==> plans[i].Foot() !! plans[j].Foot()
  {}

  // The state of a fork while its children run: the counter holds the finished ones and the
  // success flag their failures.
  ghost predicate Pool(w: World, garden: Garden, plan: GrowthPlan, kids: seq<Kid>, os: seq<Outcome>,
                       pending: set<nat>, height: nat, used: set<object>)
    reads garden.Repr, plan, plan.activeCounter, used
  {
    garden.Holds(w) && used !! garden.Repr && plan !in used && plan.activeCounter !in used &&
    used == Feet(plan.childPlans) && Progress(plan.childPlans, kids, os, pending, height) &&
    |plan.childPlans| == |os| < U32 && pending <= Indices(|os|) &&
    plan.activeCounter.isCounter as int + |pending| == |os| &&
    plan.success == forall i :: 0 <= i < |os| && i !in pending ==> os[i].ok
  }

  // one pending child of the fork is run
  method RunChild(w: World, garden: Garden, ghost rank: Item -> nat, ghost r: nat, plan: GrowthPlan, i: nat,
                  ghost kids: seq<Kid>, ghost os: seq<Outcome>, ghost pending: set<nat>,
                  ghost height: nat, ghost used: set<object>)
    requires i in pending && i < |os| == |kids| && Pool(w, garden, plan, kids, os, pending, height, used)
    requires Acyclic(w, rank) && CallsBelow(w, rank, r, kids[i].st.path, kids[i].item)
    requires os[i] == Eval(w, r, kids[i].item, kids[i].st) && os[i].st.clean
    modifies used, plan`success, plan.activeCounter`isCounter
    ensures Pool(w, garden, plan, kids, os, pending - {i}, height, used)
    decreases r, 1, height, 1
  {
    hide Acyclic, CallsBelow, Eval, Node.Shape, Node.Current, Garden.Holds;
    hide GrowthPlan.Foot, GrowthPlan.Pending, GrowthPlan.Done, GrowthPlan.State, GrowthPlan.Stage;
    hide Feet, Separate, Indices;
    StillPending(plan.childPlans[i], kids[i], os[i], height);
    Apart(plan.childPlans, i);
    RunPlan(w, garden, rank, r, plan, plan.childPlans[i], kids[i], height);
    OneDone(plan.childPlans, kids, os, pending, height, i);
  }

  /** Workers run the children, one that is pending at a time and in any order, until the
      counter has reached its target. */
  method WaitUntilFinish(w: World, garden: Garden, ghost rank: Item -> nat, ghost r: nat, plan: GrowthPlan,
                         ghost f: Fork, ghost os: seq<Outcome>, ghost height: nat, ghost used: set<object>)
    requires Acyclic(w, rank) && Forkable(w, rank, r, f) && os == KidOutcomes(w, r, f)
    requires Pool(w, garden, plan, f.kids, os, Indices(|f.kids|), height, used)
    requires plan.activeCounter.shouldCount as int == |f.kids|
    modifies used, plan`success, plan.activeCounter`isCounter
    ensures Pool(w, garden, plan, f.kids, os, {}, height, used)
    decreases r, 1, height, 2
  {
    hide Acyclic, CallsBelow, Eval, Garden.Holds, Forkable, SequentialJoin, Feet, Progress;
    ForkIsClean(w, rank, r, f);
    var pending := Indices(|plan.childPlans|);
    var equal := plan.activeCounter.IsEqual();
    while !equal
      invariant equal == (plan.activeCounter.isCounter == plan.activeCounter.shouldCount)
      invariant Pool(w, garden, plan, f.kids, os, pending, height, used)
      decreases pending
    {
      var i :| i in pending;
      RunChild(w, garden, rank, r, plan, i, f.kids, os, pending, height, used);
      pending := pending - {i};
      equal := plan.activeCounter.IsEqual();
    }
    assert pending == {};
  }

  // all children of the fork are counted
  ghost predicate Counted(plan: GrowthPlan, f: Fork, os: seq<Outcome>)
    reads plan, plan.activeCounter, Feet(plan.childPlans)
  {
    |os| == |plan.childPlans| == |f.kids| < U32 && plan !in plan.childPlans &&
    (forall i :: 0 <= i < |os| ==>
      plan.childPlans[i].Foot() <= Feet(plan.childPlans) && plan.childPlans[i].Done(os[i])) &&
    plan.success == AllOk(os) && f.st.counter == 0 && plan.State() == f.st.(counter := |os|)
  }

  lemma PoolStarts(w: World, garden: Garden, plan: GrowthPlan, kids: seq<Kid>, os: seq<Outcome>,
                   height: nat, used: set<object>)
    requires garden.Holds(w) && used !! garden.Repr && plan !in used && plan.activeCounter !in used
    requires used == Feet(plan.childPlans) && |plan.childPlans| == |kids| == |os| < U32
    requires Childs(plan.childPlans, kids, height) && plan.success && plan.activeCounter.isCounter == 0
    ensures Pool(w, garden, plan, kids, os, Indices(|os|), height, used)
  {
    hide Garden.Holds, Feet, Childs, Progress;
    AllPending(plan.childPlans, kids, os, height);
  }

  lemma PoolEnds(w: World, garden: Garden, plan: GrowthPlan, f: Fork, os: seq<Outcome>, height: nat, used: set<object>)
    requires Pool(w, garden, plan, f.kids, os, {}, height, used)
    requires f.st.counter == 0 && plan.State() == f.st.(counter := plan.activeCounter.isCounter as nat)
    ensures Counted(plan, f, os)
  {
    hide Garden.Holds, GrowthPlan.Pending, GrowthPlan.Done, GrowthPlan.Foot, GrowthPlan.State, Feet, Separate;
    NotItsOwn(plan, plan.childPlans, used);
  }

  lemma NotItsOwn(plan: GrowthPlan, plans: seq<GrowthPlan>, used: set<object>)
    requires plan !in used && forall i :: 0 <= i < |plans| ==> plans[i].Foot() <= used
    ensures plan !in plans
  {
    forall i | 0 <= i < |plans| ensures plans[i] != plan { assert plans[i] in plans[i].Foot(); }
  }

  /** the end of spawnParallelSubtrees */
  method JoinParts(w: World, plan: GrowthPlan, ghost f: Fork, ghost os: seq<Outcome>) returns (ok: bool)
    requires Counted(plan, f, os) && f.join == MergeAll
    modifies plan
    ensures Outcome(ok, plan.State()) == SequentialJoin(w.host, f, os)
    ensures plan.childPlans == [] && (ok ==> plan.success)
  {
    hide MergeItems, TakeError, AllOk, AllClean, CleanFork, KidLogs, Feet;
    plan.log := plan.log + [ForkEvent(f)] + KidLogs(os);
    plan.clean := plan.clean && CleanFork(f) && AllClean(os);
    if plan.success {
      plan.MergeChilds(os);
    } else {
      plan.GetErrorResult(os);
    }
    plan.childPlans := [];
    ok := plan.success;
  }

  /** the end of spawnParallelSubtreesLoop */
  method JoinLoop(w: World, plan: GrowthPlan, ghost f: Fork, ghost os: seq<Outcome>) returns (ok: bool)
    requires Counted(plan, f, os) && f.join == Aggregate(plan.postAggregation)
    modifies plan
    ensures Outcome(ok, plan.State()) == SequentialJoin(w.host, f, os)
    ensures plan.childPlans == [] && (ok ==> plan.success)
  {
    hide Aggregated, TakeError, AllOk, AllClean, CleanFork, KidLogs, Feet;
    plan.log := plan.log + [ForkEvent(f)] + KidLogs(os);
    plan.clean := plan.clean && CleanFork(f) && AllClean(os);
    if plan.success {
      var complete := plan.AggregateChilds(w.host, os);
      if !complete {
        plan.error, plan.success := AggregationValues, false;
      } else if plan.childPlans != [] {
        plan.items := OverrideItems(plan.items, ItemsOf(plan.postAggregation.values), OnlyExisting);
      }
    } else {
      plan.GetErrorResult(os);
    }
    plan.childPlans := [];
    ok := plan.success;
  }

  // what both ways to fork expect: the plan is in the state the fork starts with
  ghost predicate Forking(w: World, garden: Garden, rank: Item -> nat, r: nat, plan: GrowthPlan, f: Fork)
    reads garden.Repr, plan, plan.activeCounter
  {
    garden.Holds(w) && Forkable(w, rank, r, f) && plan.success && plan.childPlans == [] && plan.State() == f.st
  }

  // the fork up to the wait, when all children are in the queue
  method RunForked(w: World, garden: Garden, ghost rank: Item -> nat, ghost r: nat, plan: GrowthPlan, ghost f: Fork,
                   ghost height: nat, ghost used: set<object>) returns (ghost os: seq<Outcome>)
    requires Acyclic(w, rank) && Forkable(w, rank, r, f) && garden.Holds(w)
    requires plan.success && plan.State() == f.st && plan.activeCounter.shouldCount as int == f.should
    requires |plan.childPlans| == |f.kids| && Childs(plan.childPlans, f.kids, height)
    requires used == Feet(plan.childPlans) && used !! garden.Repr && plan !in used && plan.activeCounter !in used
    modifies used, plan`success, plan.activeCounter`isCounter
    ensures os == KidOutcomes(w, r, f) && garden.Holds(w) && Counted(plan, f, os)
    decreases r, 1, height, 3
  {
    hide Acyclic, Forkable, KidOutcomes, SequentialJoin, Garden.Holds, Childs, Feet, Progress, Counted, Eval;
    os := KidOutcomes(w, r, f);
    ForkIsClean(w, rank, r, f);
    PoolStarts(w, garden, plan, f.kids, os, height, used);
    WaitUntilFinish(w, garden, rank, r, plan, f, os, height, used);
    PoolEnds(w, garden, plan, f, os, height, used);
  }

  method SpawnParallelSubtrees(w: World, garden: Garden, ghost rank: Item -> nat, ghost r: nat, plan: GrowthPlan,
                               childs: seq<Node>, ghost f: Fork, ghost height: nat) returns (ok: bool)
    requires Acyclic(w, rank) && Forking(w, garden, rank, r, plan, f)
    requires forall i :: 0 <= i < |childs| ==> childs[i].Shape() && childs[i].height < height
    requires |f.kids| == |childs| && f.should == |childs| % U32 && f.join == MergeAll
    requires forall i :: 0 <= i < |childs| ==> f.kids[i] == Kid(childs[i].Current(), ChildState(f.st, f.st.items))
    modifies plan, plan.activeCounter
    ensures Outcome(ok, plan.State()) == SequentialJoin(w.host, f, KidOutcomes(w, r, f))
    ensures Settled(w, garden, plan, ok)
    decreases r, 1, height, 4
  {
    hide Acyclic, Forkable, KidOutcomes, SequentialJoin, Garden.Holds, Node.Shape, Node.Current, Childs, Feet, Counted;
    plan.activeCounter.shouldCount := (|childs| % U32) as uint32;
    ghost var used: set<object> := {};
    NoChilds(f.kids, height);
    for i := 0 to |childs|
      invariant |plan.childPlans| == i && Childs(plan.childPlans, f.kids, height)
      invariant used == Feet(plan.childPlans) && fresh(used)
      invariant plan.success && plan.State() == f.st && garden.Holds(w)
      invariant plan.activeCounter.shouldCount as int == f.should
      invariant forall j :: 0 <= j < |childs| ==> f.kids[j].item == childs[j].Current()
    {
      used := AddChild(plan, childs[i], plan.items, f.kids, height, used);
    }
    ghost var os := RunForked(w, garden, rank, r, plan, f, height, used);
    ok := JoinParts(w, plan, f, os);
  }

  // ---------------------------------------------------------------- loops

  // the value of the loop variable at one position
  function LoopValue(data: Option<seq<Data>>, i: nat): Data
    requires data.Some? ==> i < |data.value|
  {
    if data.Some? then data.value[i] else Int(ToSigned(i))
  }

  // the values a loop from startPos to endPos takes
  ghost predicate Takes(data: Option<seq<Data>>, startPos: nat, endPos: nat, range: seq<Data>) {
    (data.Some? ==> endPos <= |data.value|) && |range| == (if startPos <= endPos then endPos - startPos else 0) &&
    forall i :: 0 <= i < |range| ==> range[i] == LoopValue(data, startPos + i)
  }

  method SpawnParallelSubtreesLoop(w: World, garden: Garden, ghost rank: Item -> nat, ghost r: nat, plan: GrowthPlan,
                                   content: Node, tempVarName: string, data: Option<seq<Data>>,
                                   endPos: nat, startPos: nat, ghost range: seq<Data>, ghost f: Fork) returns (ok: bool)
    requires Acyclic(w, rank) && Forking(w, garden, rank, r, plan, f)
    requires content.Shape() && Takes(data, startPos, endPos, range)
    requires f.should == (endPos - startPos) % U64 % U32 && f.join == Aggregate(plan.postAggregation)
    requires |f.kids| == |range| && forall i :: 0 <= i < |range| ==>
      f.kids[i] == Kid(content.Current(), ChildState(f.st, f.st.items[tempVarName := range[i]]))
    modifies plan, plan.activeCounter
    ensures Outcome(ok, plan.State()) == SequentialJoin(w.host, f, KidOutcomes(w, r, f))
    ensures Settled(w, garden, plan, ok)
    decreases r, 1, content.height + 1, 4
  {
    hide Acyclic, Forkable, KidOutcomes, SequentialJoin, Garden.Holds, Node.Shape, Node.Current, Childs, Feet, Counted;
    ghost var height := content.height + 1;
    plan.activeCounter.shouldCount := ((endPos - startPos) % U64 % U32) as uint32;
    ghost var used: set<object> := {};
    NoChilds(f.kids, height);
    var i := startPos;
    while i < endPos
      invariant if startPos <= endPos then i <= endPos else i == startPos
      invariant |plan.childPlans| == i - startPos && Childs(plan.childPlans, f.kids, height)
      invariant used == Feet(plan.childPlans) && fresh(used)
      invariant plan.success && plan.State() == f.st && garden.Holds(w) && f.join == Aggregate(plan.postAggregation)
      invariant plan.activeCounter.shouldCount as int == f.should
      invariant forall j :: 0 <= j < |range| ==> f.kids[j].item == content.Current()
    {
      used := AddChild(plan, content, plan.items[tempVarName := LoopValue(data, i)], f.kids, height, used);
      i := i + 1;
    }
    ghost var os := RunForked(w, garden, rank, r, plan, f, height, used);
    ok := JoinLoop(w, plan, f, os);
  }

  lemma LoopStep(w: World, r: nat, content: Item, tempVar: string, range: seq<Data>, st: PlanState)
    requires range != []
    ensures var o := Eval(w, r, content, BindVar(st, tempVar, range[0]));
      var total := EvalLoop(w, r, content, tempVar, range, st);
      total == (if o.ok then EvalLoop(w, r, content, tempVar, range[1..], o.st) else o) &&
      (total.st.clean ==> o.st.clean) && (o.ok ==> o.st.path == st.path)
  {
    var inner := BindVar(st, tempVar, range[0]);
    EvalScoped(w, r, content, inner);
    var o := Eval(w, r, content, inner);
    if o.ok { LoopScoped(w, r, content, tempVar, range[1..], o.st); }
  }

  lemma LoopEnd(w: World, r: nat, content: Item, tempVar: string, st: PlanState)
    ensures EvalLoop(w, r, content, tempVar, [], st) == Outcome(true, st)
  {}

  method RunLoop(w: World, garden: Garden, ghost rank: Item -> nat, ghost r: nat, plan: GrowthPlan, loopContent: Node,
                 values: ValueItemMap, tempVarName: string, data: Option<seq<Data>>, endPos: nat, startPos: nat,
                 ghost range: seq<Data>, ghost total: Outcome) returns (ok: bool)
    requires Acyclic(w, rank) && garden.Holds(w) && loopContent.Shape() && plan.success && plan.childPlans == []
    requires CallsBelow(w, rank, r, plan.filePath, loopContent.Current()) && Takes(data, startPos, endPos, range)
    requires total == EvalLoop(w, r, loopContent.Current(), tempVarName, range, StartLoop(values, plan.State()))
    requires total.st.clean
    modifies plan, plan.activeCounter
    ensures Outcome(ok, plan.State()) == FinishLoop(old(plan.items), total)
    ensures Settled(w, garden, plan, ok)
    decreases r, 1, loopContent.height, 11
  {
    hide Acyclic, CallsBelow, Eval, EvalLoop, Override, LoopValue, Garden.Holds, Node.Shape, Node.Current;
    ghost var content := loopContent.Current();
    var preValueBackup := plan.items;
    plan.items := OverrideItems(plan.items, ItemsOf(values.values), All);
    var i := startPos;
    ghost var rest := range;
    while i < endPos
      invariant startPos <= endPos ==> i <= endPos
      invariant Takes(data, i, endPos, rest)
      invariant EvalLoop(w, r, content, tempVarName, rest, plan.State()) == total
      invariant garden.Holds(w) && plan.success && plan.childPlans == [] && loopContent.Current() == content
      invariant CallsBelow(w, rank, r, plan.filePath, content)
    {
      LoopStep(w, r, content, tempVarName, rest, plan.State());
      plan.items := plan.items[tempVarName := LoopValue(data, i)];
      var tempItem := loopContent.Copy();
      ok := ProcessSakuraItem(w, garden, rank, r, plan, tempItem);
      if !ok { return; }
      i := i + 1;
      rest := rest[1..];
    }
    LoopEnd(w, r, content, tempVarName, plan.State());
    var postValueBackup := plan.items;
    plan.items := preValueBackup;
    plan.items := OverrideItems(plan.items, postValueBackup, OnlyExisting);
    ok := true;
  }

  // both kinds of loops once their bounds are known: one after the other, or all at once
  method RunLoopItem(w: World, garden: Garden, ghost rank: Item -> nat, ghost r: nat, plan: GrowthPlan, content: Node,
                     head: Head, data: Option<seq<Data>>, endPos: nat, startPos: nat, ghost item: Item)
    returns (ok: bool)
    requires (head.ForEach? || head.For?) && (item.head.ForEach? || item.head.For?) && |item.childs| == 1
    requires var s := SetupLoop(w.host, item.head, plan.State());
      s.Loop? && s == Loop(head.tempVar, s.range, (endPos - startPos) % U64 % U32, head.values, head.parallel) &&
      Takes(data, startPos, endPos, s.range)
    requires Acyclic(w, rank) && garden.Holds(w) && plan.success && plan.childPlans == []
    requires content.Shape() && content.Current() == item.childs[0] && CallsBelow(w, rank, r, plan.filePath, item)
    requires EvalLoopItem(w, r, item, plan.State()).st.clean
    modifies plan, plan.activeCounter
    ensures Outcome(ok, plan.State()) == EvalLoopItem(w, r, item, old(plan.State()))
    ensures Settled(w, garden, plan, ok)
    decreases r, 1, content.height + 1, 5
  {
    hide Acyclic, Forkable, KidOutcomes, SequentialJoin, Eval, EvalLoop, EvalFork, EvalLoopItem;
    hide Garden.Holds, Node.Shape, Node.Current;
    hide CallsBelow, StartLoop, FinishLoop, SetupLoop, Takes, LoopFork;
    ghost var st := plan.State();
    ghost var s := SetupLoop(w.host, item.head, st);
    LoopParts(w, rank, r, item, st);
    if !head.parallel {
      ghost var total := EvalLoop(w, r, item.childs[0], s.tempVar, s.range, StartLoop(s.values, st));
      ok := RunLoop(w, garden, rank, r, plan, content, head.values, head.tempVar,
                    data, endPos, startPos, s.range, total);
    } else {
      plan.postAggregation := head.values;
      ghost var f := LoopFork(item.childs[0], s, st);
      LoopForkOf(item.childs[0], s, st);
      ok := SpawnParallelSubtreesLoop(w, garden, rank, r, plan, content, head.tempVar,
                                      data, endPos, startPos, s.range, f);
    }
  }

  /** processForEach */
  method ProcessForEach(w: World, garden: Garden, ghost rank: Item -> nat, ghost r: nat,
                        plan: GrowthPlan, node: Node) returns (ok: bool)
    requires Acyclic(w, rank) && Ready(w, garden, rank, r, plan, node) && node.head.ForEach?
    requires EvalLoopItem(w, r, node.Current(), plan.State()).st.clean
    modifies plan, plan.activeCounter, node
    ensures Outcome(ok, plan.State()) == EvalLoopItem(w, r, old(node.Current()), old(plan.State()))
    ensures Settled(w, garden, plan, ok)
    decreases r, 1, node.height, 8
  {
    hide Acyclic, Forkable, KidOutcomes, SequentialJoin, Eval, EvalLoop, EvalFork, EvalLoopItem;
    hide Garden.Holds, Node.Shape, Node.Current;
    hide CallsBelow, Fillable, FillMap, StartLoop, FinishLoop, SetupLoop, Takes, LoopFork;
    node.Unfold();
    ghost var item, st := node.Current(), plan.State();
    ForEachSetup(w.host, node.head, st);
    NoLoopFails(w, r, item, st);
    var filled, values := FillInputValueItemMap(w.host, node.head.iterate, plan.items);
    if !filled {
      plan.error := ForEachValues;
      return false;
    }
    node.head := node.head.(iterate := values);
    if "array" !in values.values || !values.values["array"].item.Array? || |node.childs| != 1 {
      plan.error := NullAccess;
      return false;
    }
    var data := values.values["array"].item.a;
    ok := RunLoopItem(w, garden, rank, r, plan, node.childs[0], node.head, Some(data), |data|, 0, item);
  }

  // the bounds of a loop and what it takes and waits for
  lemma ForEachSetup(h: Host, g: Head, st: PlanState)
    requires g.ForEach?
    ensures var s := SetupLoop(h, g, st);
      if !Fillable(h, st.items, g.iterate) then s == NoLoop(ForEachValues)
      else
        var filled := FillMap(h, st.items, g.iterate).values;
        if "array" !in filled || !filled["array"].item.Array? then s == NoLoop(NullAccess)
        else
          var a := filled["array"].item.a;
          s == Loop(g.tempVar, a, (|a| - 0) % U64 % U32, g.values, g.parallel) && Takes(Some(a), 0, |a|, a)
  {
    hide Fillable, FillMap;
    if Fillable(h, st.items, g.iterate) {
      var filled := FillMap(h, st.items, g.iterate).values;
      if "array" in filled && filled["array"].item.Array? { Cut(|filled["array"].item.a|); }
    }
  }

  lemma ForSetup(h: Host, g: Head, st: PlanState)
    requires g.For?
    ensures var s, first, last := SetupLoop(h, g, st), FillItem(h, st.items, g.start), FillItem(h, st.items, g.end);
      if first.None? || last.None? then s == NoLoop(ForValues)
      else if !first.value.item.IsValue() || !last.value.item.IsValue() then s == NoLoop(NullAccess)
      else
        var a, b := h.ToLong(first.value.item) % U64, h.ToLong(last.value.item) % U64;
        s == Loop(g.tempVar, s.range, (b - a) % U64 % U32, g.values, g.parallel) && Takes(None, a, b, s.range)
  {
    hide FillItem;
  }

  lemma LoopForkOf(content: Item, s: LoopSetup, st: PlanState)
    requires s.Loop?
    ensures var f := LoopFork(content, s, st);
      f.st == st && f.should == s.should && f.join == Aggregate(s.values) && |f.kids| == |s.range|
  {}

  lemma NoLoopFails(w: World, r: nat, item: Item, st: PlanState)
    requires item.head.ForEach? || item.head.For?
    ensures var s, o := SetupLoop(w.host, item.head, st), EvalLoopItem(w, r, item, st);
      if s.NoLoop? then o == Fail(st, s.error) else |item.childs| != 1 ==> o == Fail(st, NullAccess)
  {}

  // what the evaluation of a loop is made of
  lemma LoopParts(w: World, rank: Item -> nat, r: nat, item: Item, st: PlanState)
    requires (item.head.ForEach? || item.head.For?) && CallsBelow(w, rank, r, st.path, item)
    requires EvalLoopItem(w, r, item, st).st.clean
    requires SetupLoop(w.host, item.head, st).Loop? && |item.childs| == 1
    ensures var s, o := SetupLoop(w.host, item.head, st), EvalLoopItem(w, r, item, st);
      CallsBelow(w, rank, r, st.path, item.childs[0]) &&
      if s.parallel then
        var f := LoopFork(item.childs[0], s, st);
        Forkable(w, rank, r, f) && o == SequentialJoin(w.host, f, KidOutcomes(w, r, f))
      else
        var total := EvalLoop(w, r, item.childs[0], s.tempVar, s.range, StartLoop(s.values, st));
        total.st.clean && o == FinishLoop(st.items, total)
  {
    var s := SetupLoop(w.host, item.head, st);
    assert CallsBelow(w, rank, r, st.path, item.childs[0]);
    if s.parallel {
      var f := LoopFork(item.childs[0], s, st);
      assert KidOutcomes(w, r, f) == EvalKids(w, r, item, f);
    }
  }

  /** processFor */
  method ProcessFor(w: World, garden: Garden, ghost rank: Item -> nat, ghost r: nat,
                    plan: GrowthPlan, node: Node) returns (ok: bool)
    requires Acyclic(w, rank) && Ready(w, garden, rank, r, plan, node) && node.head.For?
    requires EvalLoopItem(w, r, node.Current(), plan.State()).st.clean
    modifies plan, plan.activeCounter, node
    ensures Outcome(ok, plan.State()) == EvalLoopItem(w, r, old(node.Current()), old(plan.State()))
    ensures Settled(w, garden, plan, ok)
    decreases r, 1, node.height, 8
  {
    hide Acyclic, Forkable, KidOutcomes, SequentialJoin, Eval, EvalLoop, EvalFork, EvalLoopItem;
    hide Garden.Holds, Node.Shape, Node.Current;
    hide CallsBelow, FillItem, StartLoop, FinishLoop, SetupLoop, Takes, LoopFork;
    node.Unfold();
    ghost var item, st := node.Current(), plan.State();
    ForSetup(w.host, node.head, st);
    NoLoopFails(w, r, item, st);
    var filled, start := FillValueItem(w.host, node.head.start, plan.items);
    if !filled {
      plan.error := ForValues;
      return false;
    }
    node.head := node.head.(start := start);
    var end;
    filled, end := FillValueItem(w.host, node.head.end, plan.items);
    if !filled {
      plan.error := ForValues;
      return false;
    }
    node.head := node.head.(end := end);
    if !start.item.IsValue() || !end.item.IsValue() || |node.childs| != 1 {
      plan.error := NullAccess;
      return false;
    }
    var startValue := w.host.ToLong(start.item) % U64;
    var endValue := w.host.ToLong(end.item) % U64;
    ok := RunLoopItem(w, garden, rank, r, plan, node.childs[0], node.head, None, endValue, startValue, item);
  }

  // ---------------------------------------------------------------- parts and branches

  lemma PartsStep(w: World, r: nat, items: seq<Item>, st: PlanState)
    requires items != []
    ensures var o, total := Eval(w, r, items[0], st), EvalParts(w, r, items, st);
      total == (if o.ok then EvalParts(w, r, items[1..], o.st) else o) &&
      (total.st.clean ==> o.st.clean) && (o.ok ==> o.st.path == st.path)
  {
    EvalScoped(w, r, items[0], st);
    var o := Eval(w, r, items[0], st);
    if o.ok { PartsScoped(w, r, items[1..], o.st); }
  }

  lemma PartsEnd(w: World, r: nat, st: PlanState)
    ensures EvalParts(w, r, [], st) == Outcome(true, st)
  {}

  // separate nodes for the parts that are left, within the nodes of the whole
  ghost predicate Parts(w: World, rank: Item -> nat, r: nat, path: string, nodes: seq<Node>, items: seq<Item>)
    reads NodesOf(nodes)
  {
    |nodes| == |items| &&
    (forall i :: 0 <= i < |nodes| ==> nodes[i].Shape() && nodes[i].Repr <= NodesOf(nodes)) &&
    (forall i :: 0 <= i < |nodes| ==> nodes[i].Current() == items[i] && CallsBelow(w, rank, r, path, items[i])) &&
    (forall i, j :: 0 <= i < j < |nodes| ==> nodes[i].Repr !! nodes[j].Repr)
  }

  lemma AllParts(w: World, rank: Item -> nat, r: nat, path: string, node: Node)
    requires node.Shape() && CallsBelow(w, rank, r, path, node.Current()) && node.head.Sequential?
    ensures Parts(w, rank, r, path, node.childs, node.Current().childs) && NodesOf(node.childs) <= node.Repr
  {
    node.Unfold();
    PartsCalls(w, rank, r, path, node.Current());
    hide Node.Shape, Node.Current, CallsBelow;
    forall i | 0 <= i < |node.childs| ensures node.childs[i].Repr <= NodesOf(node.childs) {
      forall n | n in node.childs[i].Repr ensures n in NodesOf(node.childs) {}
    }
  }

  lemma NextPart(w: World, rank: Item -> nat, r: nat, path: string, nodes: seq<Node>, items: seq<Item>)
    requires Parts(w, rank, r, path, nodes, items) && nodes != []
    ensures nodes[0].Shape() && nodes[0].Current() == items[0] && CallsBelow(w, rank, r, path, items[0])
    ensures nodes[0].Repr <= NodesOf(nodes) && nodes[0].Repr !! NodesOf(nodes[1..])
    ensures Parts(w, rank, r, path, nodes[1..], items[1..]) && NodesOf(nodes[1..]) <= NodesOf(nodes)
  {
    hide Node.Shape, Node.Current, CallsBelow;
    var tail := nodes[1..];
    forall i | 0 <= i < |tail| ensures tail[i].Repr <= NodesOf(tail) {
      forall n | n in tail[i].Repr ensures n in NodesOf(tail) {}
    }
  }

  /** processSequeniellPart */
  method ProcessSequeniellPart(w: World, garden: Garden, ghost rank: Item -> nat, ghost r: nat,
                               plan: GrowthPlan, node: Node, ghost total: Outcome) returns (ok: bool)
    requires Acyclic(w, rank) && Ready(w, garden, rank, r, plan, node) && node.head.Sequential?
    requires total == EvalParts(w, r, node.Current().childs, plan.State()) && total.st.clean
    modifies plan, plan.activeCounter, node.Repr
    ensures Outcome(ok, plan.State()) == total
    ensures Settled(w, garden, plan, ok)
    decreases r, 1, node.height, 8
  {
    hide Acyclic, CallsBelow, Eval, EvalParts, Garden.Holds, Node.Shape, Node.Current, NodesOf, Parts;
    node.Unfold();
    AllParts(w, rank, r, plan.filePath, node);
    ghost var rest, path := node.Current().childs, plan.filePath;
    for i := 0 to |node.childs|
      invariant i + |rest| == |node.childs| && plan.filePath == path
      invariant NodesOf(node.childs[i..]) <= node.Repr && Parts(w, rank, r, path, node.childs[i..], rest)
      invariant EvalParts(w, r, rest, plan.State()) == total
      invariant garden.Holds(w) && plan.success && plan.childPlans == []
    {
      PartsStep(w, r, rest, plan.State());
      NextPart(w, rank, r, path, node.childs[i..], rest);
      ok := ProcessSakuraItem(w, garden, rank, r, plan, node.childs[i]);
      if !ok { return; }
      assert node.childs[i..][1..] == node.childs[i + 1..];
      rest := rest[1..];
    }
    PartsEnd(w, r, plan.State());
    ok := true;
  }

  lemma PartsCalls(w: World, rank: Item -> nat, r: nat, path: string, item: Item)
    requires CallsBelow(w, rank, r, path, item) && (item.head.Sequential? || item.head.If? || item.head.Parallel?)
    ensures forall i :: 0 <= i < |item.childs| ==> CallsBelow(w, rank, r, path, item.childs[i])
  {}

  /** processParallelPart */
  method ProcessParallelPart(w: World, garden: Garden, ghost rank: Item -> nat, ghost r: nat,
                             plan: GrowthPlan, node: Node) returns (ok: bool)
    requires Acyclic(w, rank) && Ready(w, garden, rank, r, plan, node) && node.head.Parallel?
    requires EvalParallel(w, r, node.Current(), plan.State()).st.clean
    modifies plan, plan.activeCounter
    ensures Outcome(ok, plan.State()) == EvalParallel(w, r, node.Current(), old(plan.State()))
    ensures Settled(w, garden, plan, ok)
    decreases r, 1, node.height, 8
  {
    hide Acyclic, CallsBelow, KidOutcomes, SequentialJoin, Eval, EvalFork, Garden.Holds, Node.Shape, Node.Current;
    node.Unfold();
    if |node.childs| == 1 { node.childs[0].Unfold(); }
    if |node.childs| != 1 || !node.childs[0].head.Sequential? {
      plan.error := NullAccess;
      return false;
    }
    var parts := node.childs[0];
    ghost var item := node.Current();
    ghost var f := PartsFork(item.childs[0].childs, plan.State());
    ParallelFork(w, rank, r, item, plan.State());
    ok := SpawnParallelSubtrees(w, garden, rank, r, plan, parts.childs, f, node.height);
  }

  lemma ParallelFork(w: World, rank: Item -> nat, r: nat, item: Item, st: PlanState)
    requires item.head.Parallel? && |item.childs| == 1 && item.childs[0].head.Sequential?
    requires CallsBelow(w, rank, r, st.path, item) && EvalParallel(w, r, item, st).st.clean
    ensures var f := PartsFork(item.childs[0].childs, st);
      Forkable(w, rank, r, f) && EvalParallel(w, r, item, st) == SequentialJoin(w.host, f, KidOutcomes(w, r, f))
  {
    var f := PartsFork(item.childs[0].childs, st);
    assert CallsBelow(w, rank, r, st.path, item.childs[0]);
    assert KidOutcomes(w, r, f) == EvalKids(w, r, item, f);
  }

  /** processIf: both sides are filled in place before they are compared */
  method ProcessIf(w: World, garden: Garden, ghost rank: Item -> nat, ghost r: nat,
                   plan: GrowthPlan, node: Node) returns (ok: bool)
    requires Acyclic(w, rank) && Ready(w, garden, rank, r, plan, node) && node.head.If?
    requires EvalIf(w, r, node.Current(), plan.State()).st.clean
    modifies plan, plan.activeCounter, node.Repr
    ensures Outcome(ok, plan.State()) == EvalIf(w, r, old(node.Current()), old(plan.State()))
    ensures Settled(w, garden, plan, ok)
    decreases r, 1, node.height, 8
  {
    hide Acyclic, CallsBelow, Eval, FillItem, Garden.Holds, Node.Shape, Node.Current;
    node.Unfold();
    PartsCalls(w, rank, r, plan.filePath, node.Current());
    var filled, left := FillValueItem(w.host, node.head.left, plan.items);
    if !filled {
      plan.error := IfValues;
      return false;
    }
    node.head := node.head.(left := left);
    var right;
    filled, right := FillValueItem(w.host, node.head.right, plan.items);
    if !filled {
      plan.error := IfValues;
      return false;
    }
    node.head := node.head.(right := right);
    var leftSide, rightSide := w.host.ToString(left.item), w.host.ToString(right.item);
    var ifMatch := false;
    match node.head.op {
      case Equal => ifMatch := leftSide == rightSide;
      case Unequal => ifMatch := leftSide != rightSide;
      case _ =>
        plan.error := NullAccess;
        return false;
    }
    if |node.childs| != 2 {
      plan.error := NullAccess;
      return false;
    }
    if ifMatch {
      ok := ProcessSakuraItem(w, garden, rank, r, plan, node.childs[0]);
    } else {
      ok := ProcessSakuraItem(w, garden, rank, r, plan, node.childs[1]);
    }
  }

  // ---------------------------------------------------------------- trees and calls

  /** processTree; the entry of the tree in the hierarchy is pushed and popped around it */
  method ProcessTree(w: World, garden: Garden, ghost rank: Item -> nat, ghost r: nat,
                     plan: GrowthPlan, node: Node, ghost names: seq<string>) returns (ok: bool)
    requires Acyclic(w, rank) && Ready(w, garden, rank, r, plan, node) && node.head.Tree?
    requires plan.hirarchy == names + ["TREE: " + node.head.id]
    requires EvalTree(w, r, node.Current(), plan.State().(names := names)).st.clean
    modifies plan, plan.activeCounter, node.Repr
    ensures plan.hirarchy == names + ["TREE: " + old(node.head.id)] && node.head == old(node.head)
    ensures Outcome(ok, plan.State().(names := names)) ==
      EvalTree(w, r, old(node.Current()), old(plan.State()).(names := names))
    ensures Settled(w, garden, plan, ok)
    decreases r, 1, node.height, 8
  {
    hide Acyclic, Eval, Garden.Holds, Node.Shape, Node.Current;
    node.Unfold();
    var uninitItems := CheckItems(plan.items);
    if |uninitItems| > 0 {
      plan.error := Uninitialized;
      return false;
    }
    if |node.childs| != 1 {
      plan.error := NullAccess;
      return false;
    }
    var originalFilePath := plan.filePath;
    ghost var item, st := node.Current(), plan.State().(names := names);
    plan.filePath := node.head.rootPath + "/" + node.head.relativePath;
    assert plan.State() == OpenTree(item, st);
    assert CallsBelow(w, rank, r, plan.filePath, item.childs[0]);
    EvalScoped(w, r, item.childs[0], plan.State());
    ok := ProcessSakuraItem(w, garden, rank, r, plan, node.childs[0]);
    if ok { plan.filePath := originalFilePath; }
  }

  // a tree of the garden with other values than it was declared with
  ghost predicate Revalued(t: Item, t': Item) {
    t.head.Tree? && t'.head.Tree? && t'.childs == t.childs && t'.head == t.head.WithValues(t'.head.values)
  }

  /** The values of a tree are merged into the map it is run in; its processing does not look
      at them. A callee of a lower rank evaluates alike under its own bound. */
  lemma CalleeAtRank(w: World, rank: Item -> nat, r: nat, t: Item, t': Item, st: PlanState)
    requires Acyclic(w, rank) && rank(t) < r && (t in w.trees.Values || t in w.resources.Values) && Revalued(t, t')
    ensures Eval(w, rank(t), t', st) == Eval(w, r - 1, t, st)
    ensures CallsBelow(w, rank, rank(t), st.path, t')
  {
    assert CallsBelow(w, rank, rank(t), "", t);
    assert CallsBelow(w, rank, rank(t), st.path, t);
    DepthIsEnough(w, rank, rank(t), r - 1, rank(t), t, st);
    hide Acyclic, CallsBelow;
    var inner := Record(st, Entered);
    assert OpenTree(t, inner) == OpenTree(t', inner);
    assert Eval(w, rank(t), t', st) == EvalTree(w, rank(t), t', inner);
    assert Eval(w, rank(t), t, st) == EvalTree(w, rank(t), t, inner);
  }

  lemma CallParts(w: World, r: nat, t: Item, values: ValueItemMap, st: PlanState)
    requires Fillable(w.host, st.items, values) && t.head.Tree? && r > 0
    ensures var called := CallMap(w.host, t, values, st.items);
      var inner := Eval(w, r - 1, t, st.(items := ItemsOf(called)));
      EvalCall(w, r, t, values, st) == FinishCall(w.host, st.items, called, inner) &&
      (EvalCall(w, r, t, values, st).st.clean ==> inner.st.clean)
  {
    hide Eval;
  }

  lemma OverrideEmpty(values: Env)
    ensures Override(map[], values, All) == values
  {}

  // the values of the call become values of the callee and the only ones the plan has
  method EnterCall(plan: GrowthPlan, newSubtree: Node, filled: ValueItemMap, ghost t: Item)
    requires newSubtree.Shape() && newSubtree.Current() == t && newSubtree.head.Tree?
    modifies plan, newSubtree
    ensures newSubtree.Current() == Item(newSubtree.head, t.childs) && Revalued(t, newSubtree.Current())
    ensures newSubtree.head.values.values == Override(t.head.values.values, filled.values, All)
    ensures plan.items == ItemsOf(newSubtree.head.values.values)
    ensures plan.State() == old(plan.State()).(items := plan.items)
    ensures plan.success == old(plan.success) && plan.childPlans == old(plan.childPlans)
  {
    hide Node.Shape, Node.Current, Override, ItemsOf;
    newSubtree.Unfold();
    plan.items := map[];
    var called := OverrideItems(newSubtree.head.values.values, filled.values, All);
    newSubtree.head := newSubtree.head.WithValues(newSubtree.head.values.(values := called));
    plan.items := OverrideItems(plan.items, ItemsOf(newSubtree.head.values.values), All);
    OverrideEmpty(ItemsOf(called));
    newSubtree.Holding(t.childs);
  }

  // outputs are read from the callee's map before the caller's map is restored
  method WriteBack(w: World, plan: GrowthPlan, called: map<string, ValueItem>, parentBackup: Env) returns (ok: bool)
    modifies plan
    ensures Outcome(ok, plan.State()) == FinishCall(w.host, parentBackup, called, Outcome(true, old(plan.State())))
    ensures plan.success == old(plan.success) && plan.childPlans == old(plan.childPlans)
  {
    hide FillOutput, OutputComplete, Override, ItemsOf;
    var written;
    ok, written := FillOutputValueItemMap(w.host, called, plan.items);
    if ok {
      plan.items := parentBackup;
      plan.items := OverrideItems(plan.items, ItemsOf(written), OnlyExisting);
    }
  }

  /** runSubtreeCall on a copy of a registered tree */
  method RunSubtreeCall(w: World, garden: Garden, ghost rank: Item -> nat, ghost r: nat, plan: GrowthPlan,
                        newSubtree: Node, values: ValueItemMap, ghost t: Item) returns (ok: bool, filled: ValueItemMap)
    requires Acyclic(w, rank) && garden.Holds(w) && plan.success && plan.childPlans == []
    requires newSubtree.Shape() && newSubtree.Current() == t && newSubtree.Repr !! garden.Repr
    requires rank(t) < r && (t in w.trees.Values || t in w.resources.Values)
    requires EvalCall(w, r, t, values, plan.State()).st.clean
    modifies plan, plan.activeCounter, newSubtree.Repr
    ensures Outcome(ok, plan.State()) == EvalCall(w, r, t, values, old(plan.State()))
    ensures Settled(w, garden, plan, ok)
    decreases r, 0
  {
    hide Acyclic, CallsBelow, Eval, Garden.Holds, Node.Shape, Node.Current;
    hide Fillable, FillMap, FillOutput, OutputComplete, Override, ItemsOf;
    newSubtree.Unfold();
    ghost var st := plan.State();
    var fine;
    fine, filled := FillInputValueItemMap(w.host, values, plan.items);
    if !fine {
      plan.error := CallValues;
      return false, filled;
    }
    if !newSubtree.head.Tree? {
      plan.error := NullAccess;
      return false, filled;
    }
    CallParts(w, r, t, values, st);
    hide EvalCall, FinishCall;
    var parentBackup := plan.items;
    EnterCall(plan, newSubtree, filled, t);
    CalleeAtRank(w, rank, r, t, newSubtree.Current(), plan.State());
    ok := ProcessSakuraItem(w, garden, rank, rank(t), plan, newSubtree);
    if ok {
      ok := WriteBack(w, plan, newSubtree.head.values.values, parentBackup);
    } else {
      FailedCall(w.host, st.items, newSubtree.head.values.values, Outcome(false, plan.State()));
    }
  }

  lemma FailedCall(h: Host, backup: Env, called: map<string, ValueItem>, o: Outcome)
    requires !o.ok
    ensures FinishCall(h, backup, called, o) == o
  {}

  /** processSubtree */
  method ProcessSubtree(w: World, garden: Garden, ghost rank: Item -> nat, ghost r: nat,
                        plan: GrowthPlan, node: Node, ghost total: Outcome) returns (ok: bool)
    requires Acyclic(w, rank) && Ready(w, garden, rank, r, plan, node) && node.head.Subtree?
    requires var t := w.Callee(plan.filePath, node.head.nameOrPath);
      total == (if t.None? then Fail(plan.State(), UnknownTree)
                else EvalCall(w, r, t.value, node.head.values, plan.State()))
    requires total.st.clean
    modifies plan, plan.activeCounter, node
    ensures Outcome(ok, plan.State()) == total
    ensures Settled(w, garden, plan, ok)
    decreases r, 1, node.height, 8
  {
    hide Acyclic, EvalCall, Garden.Holds, Node.Shape, Node.Current;
    node.Unfold();
    var relPath := w.relative(plan.filePath, node.head.nameOrPath);
    var newSubtree := garden.GetTree(w, relPath);
    if newSubtree == null {
      plan.error := UnknownTree;
      return false;
    }
    ghost var t := newSubtree.Current();
    assert w.Callee(plan.filePath, node.head.nameOrPath) == Some(t) && rank(t) < r && t in w.trees.Values;
    var values;
    ok, values := RunSubtreeCall(w, garden, rank, r, plan, newSubtree, node.head.values, t);
    node.head := node.head.WithValues(values);
  }

  // how a group goes on when it has come to these blossoms
  ghost function GroupTotal(w: World, r: nat, end: GroupEnd, values: ValueItemMap): Outcome {
    match end
    case Ended(o) => o
    case CallResource(t, st) => EvalCall(w, r, t, values, st)
  }

  lemma GroupStep(w: World, id: string, g: Head, blossoms: seq<BlossomItem>, st: PlanState)
    requires g.Group?
    ensures var end := RunGroup(w, id, g.groupType, g.values, blossoms, st);
      if blossoms == [] then end == Ended(Outcome(true, st))
      else if blossoms[0].kind in w.resources then
        end == CallResource(w.resources[blossoms[0].kind], st) &&
        Resource(w, blossoms) == Some(w.resources[blossoms[0].kind])
      else
        var o := RunBlossom(w, InGroup(blossoms[0], id, g.groupType, g.values), st);
        end == (if o.ok then RunGroup(w, id, g.groupType, g.values, blossoms[1..], o.st) else Ended(o)) &&
        Resource(w, blossoms) == Resource(w, blossoms[1..])
  {}

  /** processBlossomGroup: the blossoms take over values of the group in place */
  method ProcessBlossomGroup(w: World, garden: Garden, ghost rank: Item -> nat, ghost r: nat,
                             plan: GrowthPlan, node: Node, ghost total: Outcome) returns (ok: bool)
    requires Acyclic(w, rank) && Ready(w, garden, rank, r, plan, node) && node.head.Group?
    requires total == EvalGroup(w, r, node.Current(), plan.State()) && total.st.clean
    modifies plan, plan.activeCounter, node
    ensures Outcome(ok, plan.State()) == total
    ensures Settled(w, garden, plan, ok)
    decreases r, 1, node.height, 8
  {
    hide Acyclic, EvalCall, RunGroup, RunBlossom, Resource, Garden.Holds, Node.Shape, Node.Current, Override;
    node.Unfold();
    ghost var g := node.head;
    var convertResult := w.host.jinja(node.head.id, plan.items);
    if convertResult.None? {
      plan.error := GroupName;
      return false;
    }
    var id, groupType, values := convertResult.value, node.head.groupType, node.head.values;
    var blossoms := node.head.blossoms;
    node.head := Group(id, groupType, values, blossoms);
    ghost var rest := blossoms;
    for i := 0 to |blossoms|
      invariant node.head.Group? && node.head.values == values && |node.head.blossoms| == |blossoms|
      invariant node.head.blossoms[i..] == rest
      invariant total == GroupTotal(w, r, RunGroup(w, id, g.groupType, g.values, rest, plan.State()), values)
      invariant Resource(w, rest).Some? ==> rank(Resource(w, rest).value) < r
      invariant garden.Holds(w) && plan.success && plan.childPlans == []
    {
      GroupStep(w, id, g, rest, plan.State());
      var blossomItem := node.head.blossoms[i];
      assert blossomItem == rest[0];
      var tempItem := garden.GetRessource(w, blossomItem.kind);
      if tempItem != null {
        ok, values := RunSubtreeCall(w, garden, rank, r, plan, tempItem, values, w.resources[blossomItem.kind]);
        node.head := node.head.WithValues(values);
        return;
      }
      var merged := OverrideItems(blossomItem.values.values, values.values, OnlyNonExisting);
      blossomItem := BlossomItem(id, blossomItem.kind, groupType, blossomItem.values.(values := merged));
      ok, blossomItem := ProcessBlossom(w, plan, blossomItem);
      node.head := Group(id, groupType, values, node.head.blossoms[i := blossomItem]);
      if !ok { return; }
      rest := rest[1..];
    }
    GroupStep(w, id, g, rest, plan.State());
    ok := true;
  }

  /** processSakuraItem */
  method ProcessSakuraItem(w: World, garden: Garden, ghost rank: Item -> nat, ghost r: nat,
                           plan: GrowthPlan, node: Node) returns (ok: bool)
    requires Acyclic(w, rank) && Ready(w, garden, rank, r, plan, node)
    requires Eval(w, r, node.Current(), plan.State()).st.clean
    modifies plan, plan.activeCounter, node.Repr
    ensures Outcome(ok, plan.State()) == Eval(w, r, old(node.Current()), old(plan.State()))
    ensures Settled(w, garden, plan, ok)
    ensures old(node.head).Tree? ==> node.head == old(node.head)
    decreases r, 1, node.height, 9
  {
    hide Acyclic, CallsBelow, Garden.Holds, Node.Shape, Node.Current;
    hide Eval, EvalParts, EvalTree, EvalIf, EvalParallel, EvalLoopItem, EvalGroup, EvalCall, RunBlossom;
    node.Unfold();
    ghost var item, before := node.Current(), plan.State();
    ghost var total := Eval(w, r, item, before);
    EvalOf(w, r, item, before);
    plan.log := plan.log + [Entered];
    assert plan.State() == Record(before, Entered);
    hide Record;
    match node.head {
      case Sequential => ok := ProcessSequeniellPart(w, garden, rank, r, plan, node, total);
      case Tree(id, _, _, _) =>
        ghost var names := plan.hirarchy;
        plan.hirarchy := plan.hirarchy + ["TREE: " + id];
        ok := ProcessTree(w, garden, rank, r, plan, node, names);
        plan.hirarchy := plan.hirarchy[..|plan.hirarchy| - 1];
      case Subtree(_, _) => ok := ProcessSubtree(w, garden, rank, r, plan, node, total);
      case Blossom(blossom) =>
        var after;
        ok, after := ProcessBlossom(w, plan, blossom);
        node.head := Blossom(after);
      case Group(_, _, _, _) => ok := ProcessBlossomGroup(w, garden, rank, r, plan, node, total);
      case If(_, _, _) => ok := ProcessIf(w, garden, rank, r, plan, node);
      case ForEach(_, _, _, _) => ok := ProcessForEach(w, garden, rank, r, plan, node);
      case For(_, _, _, _, _) => ok := ProcessFor(w, garden, rank, r, plan, node);
      case Parallel => ok := ProcessParallelPart(w, garden, rank, r, plan, node);
    }
  }
}
