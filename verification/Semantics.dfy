// Big-step meaning of a syntax tree on one plan: forks run their children in index
// order on private copies of the plan's map.
module Semantics {
  import opened Values
  import opened Filling
  import opened Functions
  import opened Items

  const U64: int := 0x1_0000_0000_0000_0000

  // what a plan does, in order; a fork adds the events of its children and keeps whether it
  // waits for as many of them as there are, and whether there are any
  datatype Event =
    | Entered | Ran(group: string, kind: string, task: TaskInput) | Forked(exact: bool, waits: bool) | Started

  /** State of one plan. `counter` is isCounter of its ActiveCounter; `clean` says that
      every fork so far started on a counter of 0 and waits for as many children as it spawns. */
  datatype PlanState = PlanState(
    items: Env, path: string, names: seq<string>, status: Status, error: Error,
    counter: nat, clean: bool, log: seq<Event>)

  datatype Outcome = Outcome(ok: bool, st: PlanState)

  function Fail(st: PlanState, error: Error): Outcome { Outcome(false, st.(error := error)) }

  function Record(st: PlanState, e: Event): PlanState { st.(log := st.log + [e]) }

  // ---------------------------------------------------------------- blossoms

  // what runTask of a blossom gets
  function TaskOf(w: World, def: BlossomDef, b: BlossomItem, filled: ValueItemMap, st: PlanState): TaskInput {
    TaskInput(FillDefaults(def.inputs, Convert(filled)), st.items, st.path, st.names + ["BLOSSOM: " + b.name],
              w.context, st.status)
  }

  function RunTask(w: World, def: BlossomDef, b: BlossomItem, filled: ValueItemMap, st: PlanState): Outcome {
    var task := TaskOf(w, def, b, filled, st);
    if !BlossomValuesOk(w.host, def.inputs, task.input, InputField) then
      Outcome(false, st.(error := BadInput, status := Status(400, ValidationText)))
    else
      var r := def.run(task);
      var after := Record(st, Ran(b.groupType, b.kind, task)).(status := r.status);
      if !r.ok then Fail(after, TaskFailed(r.message))
      else if !BlossomValuesOk(w.host, def.outputs, r.output, OutputField) then
        Outcome(false, after.(error := BadOutput, status := Status(500, ValidationText)))
      else
        var written := FillOutput(w.host, filled.values, r.output);
        Outcome(true, after.(items := Override(st.items, ItemsOf(written), OnlyExisting)))
  }

  function RunBlossom(w: World, b: BlossomItem, st: PlanState): Outcome {
    if !Fillable(w.host, st.items, b.values) then Fail(st, BlossomValues)
    else match w.GetBlossom(b.groupType, b.kind)
      case None => Fail(st, UnknownBlossom)
      case Some(def) => RunTask(w, def, b, FillMap(w.host, st.items, b.values), st)
  }

  // a blossom with the values of its group it does not define itself
  function InGroup(b: BlossomItem, id: string, groupType: string, values: ValueItemMap): BlossomItem {
    b.(name := id, groupType := groupType,
       values := b.values.(values := Override(b.values.values, values.values, OnlyNonExisting)))
  }

  datatype GroupEnd = Ended(o: Outcome) | CallResource(tree: Item, st: PlanState)

  /** The blossoms one after another; the first one that names a resource ends the group
      with a call of that resource. */
  function RunGroup(w: World, id: string, groupType: string, values: ValueItemMap,
                    blossoms: seq<BlossomItem>, st: PlanState): GroupEnd
    decreases |blossoms|
  {
    if blossoms == [] then Ended(Outcome(true, st))
    else if blossoms[0].kind in w.resources then CallResource(w.resources[blossoms[0].kind], st)
    else
      var o := RunBlossom(w, InGroup(blossoms[0], id, groupType, values), st);
      if o.ok then RunGroup(w, id, groupType, values, blossoms[1..], o.st) else Ended(o)
  }

  function StartGroup(w: World, g: Head, st: PlanState): GroupEnd
    requires g.Group?
  {
    var id := w.host.jinja(g.id, st.items);
    if id.None? then Ended(Fail(st, GroupName))
    else RunGroup(w, id.value, g.groupType, g.values, g.blossoms, st)
  }

  // ---------------------------------------------------------------- trees and calls

  predicate Initialized(items: Env) { forall k :: k in items ==> items[k].GetString() != "?" }

  // processTree up to the body; the hierarchy entry is pushed in any case
  function OpenTree(t: Item, st: PlanState): PlanState
    requires t.head.Tree?
  {
    st.(path := t.Path(), names := st.names + ["TREE: " + t.head.id])
  }

  // pop_back of the hierarchy; the path is restored on success only
  function CloseTree(path: string, o: Outcome): Outcome {
    var popped := o.st.(names := if o.st.names == [] then [] else o.st.names[..|o.st.names| - 1]);
    Outcome(o.ok, if o.ok then popped.(path := path) else popped)
  }

  // declared values of the callee overridden by the filled values of the call
  function CallMap(h: Host, t: Item, values: ValueItemMap, env: Env): map<string, ValueItem>
    requires t.head.Tree? && Fillable(h, env, values)
  {
    Override(t.head.values.values, FillMap(h, env, values).values, All)
  }

  function FinishCall(h: Host, backup: Env, called: map<string, ValueItem>, o: Outcome): Outcome {
    if !o.ok then o
    else if !OutputComplete(h, called, o.st.items) then Outcome(false, o.st)
    else
      var written := FillOutput(h, called, o.st.items);
      Outcome(true, o.st.(items := Override(backup, ItemsOf(written), OnlyExisting)))
  }

  // ---------------------------------------------------------------- loops

  // static_cast<long> of a uint64_t
  function ToSigned(u: int): int { if u < U64 / 2 then u else u - U64 }

  /** Values the counter of a for-loop takes; both bounds are cast to uint64_t. */
  function CounterValues(first: int, last: int): seq<Data> {
    var a, b := first % U64, last % U64;
    if b <= a then [] else seq(b - a, i requires 0 <= i < b - a => Int(ToSigned(a + i)))
  }

  // the uint32_t a parallel loop waits for
  function Target(first: int, last: int): (r: nat)
    ensures r < U32
  {
    (last % U64 - first % U64) % U64 % U32
  }

  // 2^32 divides 2^64
  lemma Cut(n: nat)
    ensures n % U64 % U32 == n % U32
  {
    var q, r := n / U64, n % U64;
    assert n == (q * U32) * U32 + r;
    Multiple(q * U32, r);
  }

  lemma {:induction false} Multiple(k: nat, r: int)
    ensures (k * U32 + r) % U32 == r % U32
  {
    if k > 0 { Multiple(k - 1, r); }
  }

  datatype LoopSetup =
    | NoLoop(error: Error)
    | Loop(tempVar: string, range: seq<Data>, should: nat, values: ValueItemMap, parallel: bool)

  function SetupLoop(h: Host, g: Head, st: PlanState): LoopSetup
    requires g.ForEach? || g.For?
  {
    if g.ForEach? then
      if !Fillable(h, st.items, g.iterate) then NoLoop(ForEachValues)
      else
        var filled := FillMap(h, st.items, g.iterate).values;
        if "array" !in filled || !filled["array"].item.Array? then NoLoop(NullAccess)
        else
          var a := filled["array"].item.a;
          Loop(g.tempVar, a, |a| % U32, g.values, g.parallel)
    else
      var first, last := FillItem(h, st.items, g.start), FillItem(h, st.items, g.end);
      if first.None? || last.None? then NoLoop(ForValues)
      else if !first.value.item.IsValue() || !last.value.item.IsValue() then NoLoop(NullAccess)
      else
        var a, b := h.ToLong(first.value.item), h.ToLong(last.value.item);
        Loop(g.tempVar, CounterValues(a, b), Target(a, b), g.values, g.parallel)
  }

  function StartLoop(values: ValueItemMap, st: PlanState): PlanState {
    st.(items := Override(st.items, ItemsOf(values.values), All))
  }

  function BindVar(st: PlanState, name: string, d: Data): PlanState { st.(items := st.items[name := d]) }

  function FinishLoop(backup: Env, o: Outcome): Outcome {
    if !o.ok then o else Outcome(true, o.st.(items := Override(backup, o.st.items, OnlyExisting)))
  }

  // ---------------------------------------------------------------- forks

  datatype Kid = Kid(item: Item, st: PlanState)
  datatype Join = MergeAll | Aggregate(values: ValueItemMap)
  datatype Fork = Fork(st: PlanState, should: nat, kids: seq<Kid>, join: Join)

  // a fresh plan with copies of the parent's map, path and hierarchy
  function ChildState(st: PlanState, items: Env): PlanState {
    PlanState(items, st.path, st.names, Status(0, NoText), NoError, 0, true, [])
  }

  function LoopFork(content: Item, s: LoopSetup, st: PlanState): (f: Fork)
    requires s.Loop?
    ensures |f.kids| == |s.range|
    ensures forall i :: 0 <= i < |f.kids| ==>
      f.kids[i] == Kid(content, ChildState(st, st.items[s.tempVar := s.range[i]]))
  {
    Fork(st, s.should,
      seq(|s.range|, i requires 0 <= i < |s.range| =>
        Kid(content, ChildState(st, st.items[s.tempVar := s.range[i]]))),
      Aggregate(s.values))
  }

  function PartsFork(parts: seq<Item>, st: PlanState): (f: Fork)
    ensures |f.kids| == |parts|
    ensures forall i :: 0 <= i < |f.kids| ==> f.kids[i] == Kid(parts[i], ChildState(st, st.items))
  {
    Fork(st, |parts| % U32,
      seq(|parts|, i requires 0 <= i < |parts| => Kid(parts[i], ChildState(st, st.items))),
      MergeAll)
  }

  predicate AllOk(os: seq<Outcome>) { forall i :: 0 <= i < |os| ==> os[i].ok }

  predicate AllClean(os: seq<Outcome>) { forall i :: 0 <= i < |os| ==> os[i].st.clean }

  // the wait is for as many children as there are
  predicate ExactTarget(f: Fork) { f.should == |f.kids| < U32 }

  function ForkEvent(f: Fork): Event { Forked(ExactTarget(f), f.kids != []) }

  predicate CleanFork(f: Fork) { f.st.counter == 0 && ExactTarget(f) }

  function KidLogs(os: seq<Outcome>): seq<Event> {
    if os == [] then [] else KidLogs(os[..|os| - 1]) + [Started] + os[|os| - 1].st.log
  }

  // getErrorResult: every failed child overwrites what the ones before it left
  function TakeError(st: PlanState, os: seq<Outcome>): PlanState {
    if os == [] then st
    else
      var before := TakeError(st, os[..|os| - 1]);
      var last := os[|os| - 1];
      if last.ok then before else before.(error := last.st.error, status := last.st.status)
  }

  function MergeItems(items: Env, os: seq<Outcome>): Env {
    if os == [] then items
    else Override(MergeItems(items, os[..|os| - 1]), os[|os| - 1].st.items, All)
  }

  // the post aggregation filled in the maps of the children, one after another
  function Aggregated(h: Host, values: ValueItemMap, os: seq<Outcome>): Option<ValueItemMap> {
    if os == [] then Some(values)
    else
      var before := Aggregated(h, values, os[..|os| - 1]);
      var env := os[|os| - 1].st.items;
      if before.Some? && Fillable(h, env, before.value) then Some(FillMap(h, env, before.value)) else None
  }

  /** What a plan does after its children are counted. */
  function JoinFork(h: Host, f: Fork, counter: nat, success: bool, os: seq<Outcome>): Outcome {
    var st := f.st.(
      counter := counter,
      clean := f.st.clean && CleanFork(f) && AllClean(os),
      log := f.st.log + [ForkEvent(f)] + KidLogs(os));
    if !success then Outcome(false, TakeError(st, os))
    else match f.join
      case MergeAll => Outcome(true, st.(items := MergeItems(st.items, os)))
      case Aggregate(values) =>
        var total := Aggregated(h, values, os);
        if total.None? then Fail(st, AggregationValues)
        else if os == [] then Outcome(true, st)
        else Outcome(true, st.(items := Override(st.items, ItemsOf(total.value.values), OnlyExisting)))
  }

  function SequentialJoin(h: Host, f: Fork, os: seq<Outcome>): Outcome {
    JoinFork(h, f, (f.st.counter + |f.kids|) % U32, AllOk(os), os)
  }

  // ---------------------------------------------------------------- evaluation

  datatype IfChoice = Choose(branch: nat) | NoChoice(error: Error)

  function ChooseBranch(h: Host, g: Head, st: PlanState): IfChoice
    requires g.If?
  {
    var left, right := FillItem(h, st.items, g.left), FillItem(h, st.items, g.right);
    if left.None? || right.None? then NoChoice(IfValues)
    else
      var same := h.ToString(left.value.item) == h.ToString(right.value.item);
      match g.op
      case Equal => Choose(if same then 0 else 1)
      case Unequal => Choose(if same then 1 else 0)
      case _ => NoChoice(NullAccess)
  }

  /** processSakuraItem. d bounds the nesting depth of calls. */
  ghost function Eval(w: World, d: nat, item: Item, before: PlanState): Outcome
    decreases d, 1, item, 3
  {
    var st := Record(before, Entered);
    match item.head
    case Blossom(b) => RunBlossom(w, b, st)
    case Group(_, _, _, _) => EvalGroup(w, d, item, st)
    case Tree(_, _, _, _) => EvalTree(w, d, item, st)
    case Subtree(name, values) =>
      (match w.Callee(st.path, name)
       case None => Fail(st, UnknownTree)
       case Some(t) => EvalCall(w, d, t, values, st))
    case If(_, _, _) => EvalIf(w, d, item, st)
    case Sequential => EvalParts(w, d, item.childs, st)
    case Parallel => EvalParallel(w, d, item, st)
    case _ => EvalLoopItem(w, d, item, st)
  }

  /** processBlossomGroup */
  ghost function EvalGroup(w: World, d: nat, item: Item, st: PlanState): Outcome
    requires item.head.Group?
    decreases d, 1, item, 2
  {
    match StartGroup(w, item.head, st)
    case Ended(o) => o
    case CallResource(t, st') => EvalCall(w, d, t, item.head.values, st')
  }

  /** processTree */
  ghost function EvalTree(w: World, d: nat, item: Item, st: PlanState): Outcome
    requires item.head.Tree?
    decreases d, 1, item, 2
  {
    if !Initialized(st.items) then Fail(st, Uninitialized)
    else if |item.childs| != 1 then Fail(st, NullAccess)
    else CloseTree(st.path, Eval(w, d, item.childs[0], OpenTree(item, st)))
  }

  /** processIf */
  ghost function EvalIf(w: World, d: nat, item: Item, st: PlanState): Outcome
    requires item.head.If?
    decreases d, 1, item, 2
  {
    match ChooseBranch(w.host, item.head, st)
    case NoChoice(e) => Fail(st, e)
    case Choose(i) => if |item.childs| != 2 then Fail(st, NullAccess) else Eval(w, d, item.childs[i], st)
  }

  /** processParallelPart */
  ghost function EvalParallel(w: World, d: nat, item: Item, st: PlanState): Outcome
    decreases d, 1, item, 2
  {
    if |item.childs| != 1 || !item.childs[0].head.Sequential? then Fail(st, NullAccess)
    else EvalFork(w, d, item, PartsFork(item.childs[0].childs, st))
  }

  /** processForEach and processFor */
  ghost function EvalLoopItem(w: World, d: nat, item: Item, st: PlanState): Outcome
    requires item.head.ForEach? || item.head.For?
    decreases d, 1, item, 2
  {
    var s := SetupLoop(w.host, item.head, st);
    if s.NoLoop? then Fail(st, s.error)
    else if |item.childs| != 1 then Fail(st, NullAccess)
    else if s.parallel then EvalFork(w, d, item, LoopFork(item.childs[0], s, st))
    else FinishLoop(st.items, EvalLoop(w, d, item.childs[0], s.tempVar, s.range, StartLoop(s.values, st)))
  }

  /** processSequeniellPart */
  ghost function EvalParts(w: World, d: nat, items: seq<Item>, st: PlanState): Outcome
    decreases d, 1, items, 2
  {
    if items == [] then Outcome(true, st)
    else
      var o := Eval(w, d, items[0], st);
      if o.ok then EvalParts(w, d, items[1..], o.st) else o
  }

  /** the iterations of runLoop */
  ghost function EvalLoop(w: World, d: nat, content: Item, tempVar: string, range: seq<Data>, st: PlanState): Outcome
    decreases d, 1, content, 4, |range|
  {
    if range == [] then Outcome(true, st)
    else
      var o := Eval(w, d, content, BindVar(st, tempVar, range[0]));
      if o.ok then EvalLoop(w, d, content, tempVar, range[1..], o.st) else o
  }

  /** runSubtreeCall */
  ghost function EvalCall(w: World, d: nat, t: Item, values: ValueItemMap, st: PlanState): Outcome
    decreases d, 0
  {
    if !Fillable(w.host, st.items, values) then Fail(st, CallValues)
    else if !t.head.Tree? then Fail(st, NullAccess)
    else if d == 0 then Fail(st, Endless)
    else
      var called := CallMap(w.host, t, values, st.items);
      FinishCall(w.host, st.items, called, Eval(w, d - 1, t, st.(items := ItemsOf(called))))
  }

  // the children of a fork are proper parts of the node that forks
  ghost predicate ForkOf(parent: Item, f: Fork) {
    forall i :: 0 <= i < |f.kids| ==> f.kids[i].item < parent
  }

  /** the children of a fork of one node, each on its own plan */
  ghost function EvalKids(w: World, d: nat, parent: Item, f: Fork): (os: seq<Outcome>)
    requires ForkOf(parent, f)
    ensures |os| == |f.kids|
    ensures forall i :: 0 <= i < |f.kids| ==> os[i] == Eval(w, d, f.kids[i].item, f.kids[i].st)
    decreases d, 1, parent, 0
  {
    seq(|f.kids|, i requires 0 <= i < |f.kids| => Eval(w, d, f.kids[i].item, f.kids[i].st))
  }

  ghost function EvalFork(w: World, d: nat, parent: Item, f: Fork): Outcome
    requires ForkOf(parent, f)
    decreases d, 1, parent, 1
  {
    SequentialJoin(w.host, f, EvalKids(w, d, parent, f))
  }

  // the cases of the evaluation
  lemma EvalOf(w: World, d: nat, item: Item, before: PlanState)
    ensures var total, st, g := Eval(w, d, item, before), Record(before, Entered), item.head;
      total == if g.Blossom? then RunBlossom(w, g.blossom, st)
        else if g.Group? then EvalGroup(w, d, item, st)
        else if g.Tree? then EvalTree(w, d, item, st)
        else if g.Subtree? then
          var t := w.Callee(st.path, g.nameOrPath);
          if t.None? then Fail(st, UnknownTree) else EvalCall(w, d, t.value, g.values, st)
        else if g.If? then EvalIf(w, d, item, st)
        else if g.Sequential? then EvalParts(w, d, item.childs, st)
        else if g.Parallel? then EvalParallel(w, d, item, st)
        else EvalLoopItem(w, d, item, st)
  {}
}
