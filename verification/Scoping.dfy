// What a run leaves behind on its plan: variables never leak out of loops, calls and
// forks, the position in the call hierarchy is restored, and the log only grows.
module Scoping {
  import opened Values
  import opened Filling
  import opened Functions
  import opened Items
  import opened Semantics

  /** Position and log after any run, variables and path after a successful one. */
  predicate Scoped(before: PlanState, o: Outcome) {
    o.st.names == before.names &&
    before.log <= o.st.log &&
    (o.st.clean ==> before.clean) &&
    (o.ok ==> o.st.items.Keys == before.items.Keys && o.st.path == before.path)
  }

  // forks with children to wait for
  function WaitingForks(log: seq<Event>): nat {
    if log == [] then 0
    else
      var last := log[|log| - 1];
      WaitingForks(log[..|log| - 1]) + if last.Forked? && last.waits then 1 else 0
  }

  lemma {:induction false} WaitingForksAppend(a: seq<Event>, b: seq<Event>)
    ensures WaitingForks(a + b) == WaitingForks(a) + WaitingForks(b)
    decreases |b|
  {
    if b == [] {
      assert a + b == a;
    } else {
      assert (a + b)[..|a + b| - 1] == a + b[..|b| - 1];
      WaitingForksAppend(a, b[..|b| - 1]);
    }
  }

  lemma WaitingForksOne(a: seq<Event>, e: Event)
    ensures WaitingForks(a + [e]) == WaitingForks(a) + if e.Forked? && e.waits then 1 else 0
  {
    assert (a + [e])[..|a|] == a;
  }

  lemma WaitingForksPrefix(a: seq<Event>, b: seq<Event>)
    requires a <= b
    ensures WaitingForks(a) <= WaitingForks(b)
  {
    assert b == a + b[|a|..];
    WaitingForksAppend(a, b[|a|..]);
  }

  // steps that do not fork: the counter stays and stays sound, no wait is added
  predicate Plain(st: PlanState, st': PlanState) {
    st'.counter == st.counter && st'.clean == st.clean && WaitingForks(st'.log) == WaitingForks(st.log)
  }

  lemma RecordPlain(st: PlanState, e: Event)
    requires !e.Forked?
    ensures Plain(st, Record(st, e))
  {
    WaitingForksOne(st.log, e);
  }

  lemma RunTaskScoped(w: World, def: BlossomDef, b: BlossomItem, filled: ValueItemMap, st: PlanState)
    ensures Scoped(st, RunTask(w, def, b, filled, st)) && Plain(st, RunTask(w, def, b, filled, st).st)
  {
    hide Convert, FillDefaults, BlossomValuesOk, WaitingForks, FillOutput, ItemsOf;
    RecordPlain(st, Ran(b.groupType, b.kind, TaskOf(w, def, b, filled, st)));
  }

  lemma RunBlossomScoped(w: World, b: BlossomItem, st: PlanState)
    ensures Scoped(st, RunBlossom(w, b, st)) && Plain(st, RunBlossom(w, b, st).st)
  {
    hide RunTask;
    if Fillable(w.host, st.items, b.values) {
      var def := w.GetBlossom(b.groupType, b.kind);
      if def.Some? { RunTaskScoped(w, def.value, b, FillMap(w.host, st.items, b.values), st); }
    }
  }

  lemma {:induction false} RunGroupScoped(w: World, id: string, groupType: string, values: ValueItemMap,
                                          blossoms: seq<BlossomItem>, st: PlanState)
    ensures match RunGroup(w, id, groupType, values, blossoms, st)
            case Ended(o) => Scoped(st, o) && Plain(st, o.st)
            case CallResource(_, st') => Scoped(st, Outcome(true, st')) && Plain(st, st')
    decreases |blossoms|
  {
    if blossoms != [] && blossoms[0].kind !in w.resources {
      var b := InGroup(blossoms[0], id, groupType, values);
      RunBlossomScoped(w, b, st);
      var o := RunBlossom(w, b, st);
      if o.ok { RunGroupScoped(w, id, groupType, values, blossoms[1..], o.st); }
    }
  }

  lemma {:induction false} TakeErrorKeeps(os: seq<Outcome>, st: PlanState)
    ensures TakeError(st, os) == st.(error := TakeError(st, os).error, status := TakeError(st, os).status)
    decreases |os|
  {
    if os != [] { TakeErrorKeeps(os[..|os| - 1], st); }
  }

  lemma JoinRecords(h: Host, f: Fork, counter: nat, success: bool, os: seq<Outcome>)
    ensures var st := JoinFork(h, f, counter, success, os).st;
      st.counter == counter && st.clean == (f.st.clean && CleanFork(f) && AllClean(os)) &&
      st.log == f.st.log + [ForkEvent(f)] + KidLogs(os) && st.path == f.st.path && st.names == f.st.names
  {
    TakeErrorKeeps(os, f.st.(counter := counter, clean := f.st.clean && CleanFork(f) && AllClean(os),
                             log := f.st.log + [ForkEvent(f)] + KidLogs(os)));
  }

  lemma {:induction false} MergeKeepsKeys(items: Env, os: seq<Outcome>)
    requires forall i :: 0 <= i < |os| ==> os[i].ok && os[i].st.items.Keys == items.Keys
    ensures MergeItems(items, os).Keys == items.Keys
    decreases |os|
  {
    if os != [] { MergeKeepsKeys(items, os[..|os| - 1]); }
  }

  // the children of MergeAll start with the parent's map itself
  predicate ForkOfParent(f: Fork) {
    f.join.MergeAll? ==> forall i :: 0 <= i < |f.kids| ==> f.kids[i].st.items == f.st.items
  }

  predicate KidsScoped(f: Fork, os: seq<Outcome>) {
    |os| == |f.kids| && forall i :: 0 <= i < |os| ==> Scoped(f.kids[i].st, os[i])
  }

  lemma JoinScoped(h: Host, f: Fork, counter: nat, success: bool, os: seq<Outcome>)
    requires ForkOfParent(f) && KidsScoped(f, os) && (success ==> AllOk(os))
    ensures Scoped(f.st, JoinFork(h, f, counter, success, os))
  {
    JoinRecords(h, f, counter, success, os);
    if success && f.join.MergeAll? { MergeKeepsKeys(f.st.items, os); }
  }

  /** Every run is scoped, for all node types and any nesting. */
  lemma {:induction false} EvalScoped(w: World, d: nat, item: Item, before: PlanState)
    ensures Scoped(before, Eval(w, d, item, before))
    decreases d, 1, item, 3
  {
    var st := Record(before, Entered);
    EvalOf(w, d, item, before);
    hide Eval, EvalGroup, EvalTree, EvalCall, EvalIf, EvalParts, EvalParallel, EvalLoopItem, RunBlossom;
    match item.head
    case Blossom(b) => RunBlossomScoped(w, b, st);
    case Group(_, _, _, _) => GroupScoped(w, d, item, st);
    case Tree(_, _, _, _) => TreeScoped(w, d, item, st);
    case Subtree(name, values) =>
      var t := w.Callee(st.path, name);
      if t.Some? { CallScoped(w, d, t.value, values, st); }
    case If(_, _, _) => IfScoped(w, d, item, st);
    case Sequential => PartsScoped(w, d, item.childs, st);
    case Parallel => ParallelScoped(w, d, item, st);
    case _ => LoopItemScoped(w, d, item, st);
  }

  lemma {:induction false} TreeScoped(w: World, d: nat, item: Item, st: PlanState)
    requires item.head.Tree?
    ensures Scoped(st, EvalTree(w, d, item, st))
    decreases d, 1, item, 2
  {
    hide Eval;
    if Initialized(st.items) && |item.childs| == 1 { EvalScoped(w, d, item.childs[0], OpenTree(item, st)); }
  }

  lemma {:induction false} IfScoped(w: World, d: nat, item: Item, st: PlanState)
    requires item.head.If?
    ensures Scoped(st, EvalIf(w, d, item, st))
    decreases d, 1, item, 2
  {
    hide Eval;
    var c := ChooseBranch(w.host, item.head, st);
    if c.Choose? && |item.childs| == 2 { EvalScoped(w, d, item.childs[c.branch], st); }
  }

  lemma {:induction false} GroupScoped(w: World, d: nat, item: Item, st: PlanState)
    requires item.head.Group?
    ensures Scoped(st, EvalGroup(w, d, item, st))
    decreases d, 1, item, 2
  {
    var g := item.head;
    var id := w.host.jinja(g.id, st.items);
    if id.Some? {
      RunGroupScoped(w, id.value, g.groupType, g.values, g.blossoms, st);
      var end := StartGroup(w, g, st);
      if end.CallResource? { CallScoped(w, d, end.tree, g.values, end.st); }
    }
  }

  lemma {:induction false} ParallelScoped(w: World, d: nat, item: Item, st: PlanState)
    ensures Scoped(st, EvalParallel(w, d, item, st))
    decreases d, 1, item, 2
  {
    if |item.childs| == 1 && item.childs[0].head.Sequential? {
      ForkScoped(w, d, item, PartsFork(item.childs[0].childs, st));
    }
  }

  lemma {:induction false} LoopItemScoped(w: World, d: nat, item: Item, st: PlanState)
    requires item.head.ForEach? || item.head.For?
    ensures Scoped(st, EvalLoopItem(w, d, item, st))
    decreases d, 1, item, 2
  {
    var s := SetupLoop(w.host, item.head, st);
    if s.Loop? && |item.childs| == 1 {
      if s.parallel {
        ForkScoped(w, d, item, LoopFork(item.childs[0], s, st));
      } else {
        LoopScoped(w, d, item.childs[0], s.tempVar, s.range, StartLoop(s.values, st));
      }
    }
  }

  lemma {:induction false} PartsScoped(w: World, d: nat, items: seq<Item>, st: PlanState)
    ensures Scoped(st, EvalParts(w, d, items, st))
    decreases d, 1, items, 2
  {
    if items != [] {
      EvalScoped(w, d, items[0], st);
      var o := Eval(w, d, items[0], st);
      if o.ok { PartsScoped(w, d, items[1..], o.st); }
    }
  }

  lemma {:induction false} LoopScoped(w: World, d: nat, content: Item, tempVar: string, range: seq<Data>, st: PlanState)
    ensures var o := EvalLoop(w, d, content, tempVar, range, st);
      o.st.names == st.names && st.log <= o.st.log && (o.st.clean ==> st.clean) && (o.ok ==> o.st.path == st.path)
    decreases d, 1, content, 4, |range|
  {
    if range != [] {
      EvalScoped(w, d, content, BindVar(st, tempVar, range[0]));
      var o := Eval(w, d, content, BindVar(st, tempVar, range[0]));
      if o.ok { LoopScoped(w, d, content, tempVar, range[1..], o.st); }
    }
  }

  lemma {:induction false} CallScoped(w: World, d: nat, t: Item, values: ValueItemMap, st: PlanState)
    ensures Scoped(st, EvalCall(w, d, t, values, st))
    decreases d, 0
  {
    hide Eval, Fillable, FillMap, CallMap, FillOutput, OutputComplete, ItemsOf;
    if Fillable(w.host, st.items, values) && t.head.Tree? && d > 0 {
      EvalScoped(w, d - 1, t, st.(items := ItemsOf(CallMap(w.host, t, values, st.items))));
    }
  }

  lemma {:induction false} ForkScoped(w: World, d: nat, parent: Item, f: Fork)
    requires ForkOf(parent, f) && ForkOfParent(f)
    ensures KidsScoped(f, EvalKids(w, d, parent, f))
    ensures Scoped(f.st, EvalFork(w, d, parent, f))
    decreases d, 1, parent, 1
  {
    var os := EvalKids(w, d, parent, f);
    forall i | 0 <= i < |os| ensures Scoped(f.kids[i].st, os[i]) {
      EvalScoped(w, d, f.kids[i].item, f.kids[i].st);
    }
    JoinScoped(w.host, f, (f.st.counter + |f.kids|) % U32, AllOk(os), os);
  }
}
