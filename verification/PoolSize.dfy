// How many threads a tree needs, read off its text.
module PoolSize {
  import opened Values
  import opened Filling
  import opened Functions
  import opened Items
  import opened Semantics
  import opened Scoping
  import opened Machine
  import opened CallGraph
  import opened Progress

  // at most so many forks with children in the whole run, all with targets that fit if it says so
  datatype Need = AtMost(forks: nat, fits: bool) | Unlimited

  function Both(a: Need, b: Need): Need {
    if a.AtMost? && b.AtMost? then AtMost(a.forks + b.forks, a.fits && b.fits) else Unlimited
  }

  function Larger(a: Need, b: Need): Need {
    if a.AtMost? && b.AtMost? then AtMost(if a.forks < b.forks then b.forks else a.forks, a.fits && b.fits)
    else Unlimited
  }

  /** The forks with children below an item. A loop may run any number of times: around a fork
      it has no limit, and of a parallel loop only the run knows whether the target fits. */
  ghost function Needed(w: World, d: nat, path: string, item: Item): Need
    decreases d, 1, item, 0
  {
    match item.head
    case Blossom(_) => AtMost(0, true)
    case Group(_, _, _, blossoms) => CallNeeded(w, d, Resource(w, blossoms))
    case Subtree(name, _) => CallNeeded(w, d, w.Callee(path, name))
    case Tree(_, _, _, _) => PartsNeeded(w, d, item.Path(), item.childs)
    case Sequential => PartsNeeded(w, d, path, item.childs)
    case If(_, _, _) =>
      if |item.childs| != 2 then AtMost(0, true)
      else Larger(Needed(w, d, path, item.childs[0]), Needed(w, d, path, item.childs[1]))
    case Parallel =>
      if |item.childs| != 1 then AtMost(0, true)
      else
        var branches := item.childs[0].childs;
        Both(AtMost(if branches == [] then 0 else 1, |branches| < U32), PartsNeeded(w, d, path, branches))
    case _ =>
      var body := PartsNeeded(w, d, path, item.childs);
      if body.Unlimited? || body.forks > 0 then Unlimited
      else if item.head.parallel then AtMost(1, false)
      else body
  }

  ghost function CallNeeded(w: World, d: nat, t: Option<Item>): Need
    decreases d, 0
  {
    if d == 0 || t.None? then AtMost(0, true) else Needed(w, d - 1, "", t.value)
  }

  ghost function PartsNeeded(w: World, d: nat, path: string, items: seq<Item>): Need
    decreases d, 1, items
  {
    if items == [] then AtMost(0, true) else Both(Needed(w, d, path, items[0]), PartsNeeded(w, d, path, items[1..]))
  }

  // ---------------------------------------------------------------- logs

  // what a run adds to its log stays within the need
  predicate Within(before: seq<Event>, after: seq<Event>, n: Need) {
    n.AtMost? ==>
      WaitingForks(after) <= WaitingForks(before) + n.forks && (n.fits && ExactLog(before) ==> ExactLog(after))
  }

  lemma ExactAppend(a: seq<Event>, b: seq<Event>)
    ensures ExactLog(a + b) <==> ExactLog(a) && ExactLog(b)
  {
    if ExactLog(a + b) {
      forall i | 0 <= i < |b| && b[i].Forked? ensures b[i].exact { assert (a + b)[|a| + i] == b[i]; }
      ExactPrefix(a, a + b);
    }
  }

  lemma AppendWithin(a: seq<Event>, b: seq<Event>, n: Need)
    requires Within([], b, n)
    ensures Within(a, a + b, n)
  {
    WaitingForksAppend(a, b);
    ExactAppend(a, b);
  }

  lemma OneWithin(a: seq<Event>, e: Event)
    ensures Within(a, a + [e], AtMost(if e.Forked? && e.waits then 1 else 0, e.Forked? ==> e.exact))
  {
    WaitingForksOne(a, e);
    ExactAppend(a, [e]);
  }

  lemma RunTaskWithin(w: World, def: BlossomDef, b: BlossomItem, filled: ValueItemMap, st: PlanState)
    ensures Within(st.log, RunTask(w, def, b, filled, st).st.log, AtMost(0, true))
  {
    hide Convert, FillDefaults, BlossomValuesOk, WaitingForks, ExactLog, ItemsOf;
    OneWithin(st.log, Ran(b.groupType, b.kind, TaskOf(w, def, b, filled, st)));
  }

  lemma RunBlossomWithin(w: World, b: BlossomItem, st: PlanState)
    ensures Within(st.log, RunBlossom(w, b, st).st.log, AtMost(0, true))
  {
    hide RunTask, WaitingForks, ExactLog;
    if Fillable(w.host, st.items, b.values) {
      var def := w.GetBlossom(b.groupType, b.kind);
      if def.Some? { RunTaskWithin(w, def.value, b, FillMap(w.host, st.items, b.values), st); }
    }
  }

  lemma {:induction false} RunGroupWithin(w: World, id: string, groupType: string, values: ValueItemMap,
                                          blossoms: seq<BlossomItem>, st: PlanState)
    ensures var end := RunGroup(w, id, groupType, values, blossoms, st);
      Within(st.log, if end.Ended? then end.o.st.log else end.st.log, AtMost(0, true))
    decreases |blossoms|
  {
    hide RunBlossom, WaitingForks, ExactLog;
    if blossoms != [] && blossoms[0].kind !in w.resources {
      var b := InGroup(blossoms[0], id, groupType, values);
      RunBlossomWithin(w, b, st);
      var o := RunBlossom(w, b, st);
      if o.ok { RunGroupWithin(w, id, groupType, values, blossoms[1..], o.st); }
    }
  }

  lemma {:induction false} KidLogsFront(os: seq<Outcome>)
    requires os != []
    ensures KidLogs(os) == [Started] + os[0].st.log + KidLogs(os[1..])
    decreases |os|
  {
    var n := |os| - 1;
    if n > 0 {
      KidLogsFront(os[..n]);
      assert os[..n][1..] == os[1..][..n - 1];
    } else {
      assert os[..n] == os[1..] == [];
    }
  }

  lemma NoKidsWithin()
    ensures Within([], KidLogs([]), AtMost(0, true))
  {
    NoLogs();
  }

  // the children of a fork, one per branch
  lemma {:induction false} BranchesWithin(w: World, d: nat, path: string, items: seq<Item>, os: seq<Outcome>)
    requires |os| == |items|
    requires forall i :: 0 <= i < |os| ==> Within([], os[i].st.log, Needed(w, d, path, items[i]))
    ensures Within([], KidLogs(os), PartsNeeded(w, d, path, items))
    decreases |os|
  {
    hide Needed, WaitingForks, ExactLog;
    if os != [] {
      BranchesWithin(w, d, path, items[1..], os[1..]);
      KidLogsFront(os);
      var first := [Started] + os[0].st.log;
      OneWithin([], Started);
      assert [] + [Started] == [Started];
      AppendWithin([Started], os[0].st.log, Needed(w, d, path, items[0]));
      AppendWithin(first, KidLogs(os[1..]), PartsNeeded(w, d, path, items[1..]));
    } else {
      NoKidsWithin();
    }
  }

  // the children of a loop whose body does not fork
  lemma {:induction false} NoneWithin(os: seq<Outcome>)
    requires forall i :: 0 <= i < |os| ==> WaitingForks(os[i].st.log) == 0
    ensures WaitingForks(KidLogs(os)) == 0
    decreases |os|
  {
    hide WaitingForks, KidLogs;
    if os == [] {
      NoLogs();
    } else {
      KidLogsWait(os);
      NoneWithin(os[..|os| - 1]);
    }
  }

  // ---------------------------------------------------------------- runs

  /** A run makes no more forks with children than its text allows. */
  lemma {:induction false} RunWithin(w: World, d: nat, item: Item, before: PlanState)
    ensures Within(before.log, Eval(w, d, item, before).st.log, Needed(w, d, before.path, item))
    decreases d, 1, item, 3
  {
    var st := Record(before, Entered);
    EvalOf(w, d, item, before);
    OneWithin(before.log, Entered);
    hide Eval, EvalGroup, EvalTree, EvalCall, EvalIf, EvalParts, EvalParallel, EvalLoopItem, RunBlossom;
    hide WaitingForks, ExactLog, PartsNeeded;
    match item.head
    case Blossom(b) => RunBlossomWithin(w, b, st);
    case Group(_, _, _, _) => GroupWithin(w, d, item, st);
    case Tree(_, _, _, _) => TreeWithin(w, d, item, st);
    case Subtree(name, values) =>
      var t := w.Callee(st.path, name);
      if t.Some? { CallWithin(w, d, t.value, values, st); }
    case If(_, _, _) => IfWithin(w, d, item, st);
    case Sequential => PartsWithin(w, d, item.childs, st);
    case Parallel => ParallelWithin(w, d, item, st);
    case _ => LoopItemWithin(w, d, item, st);
  }

  lemma {:induction false} TreeWithin(w: World, d: nat, item: Item, st: PlanState)
    requires item.head.Tree?
    ensures Within(st.log, EvalTree(w, d, item, st).st.log, Needed(w, d, st.path, item))
    decreases d, 1, item, 2
  {
    hide Eval, Needed, Within;
    SameWithin(st.log, Needed(w, d, st.path, item));
    if Initialized(st.items) && |item.childs| == 1 {
      TreeNeeded(w, d, st.path, item);
      RunWithin(w, d, item.childs[0], OpenTree(item, st));
    }
  }

  lemma TreeNeeded(w: World, d: nat, path: string, item: Item)
    requires item.head.Tree? && |item.childs| == 1
    ensures Needed(w, d, path, item) == Needed(w, d, item.Path(), item.childs[0])
  {
    hide PartsNeeded, CallNeeded;
    OnePart(w, d, item.Path(), item.childs);
  }

  lemma SameWithin(log: seq<Event>, n: Need)
    ensures Within(log, log, n)
  {}

  lemma OnePart(w: World, d: nat, path: string, items: seq<Item>)
    requires |items| == 1
    ensures PartsNeeded(w, d, path, items) == Needed(w, d, path, items[0])
  {
    hide Needed;
    assert PartsNeeded(w, d, path, items[1..]) == AtMost(0, true);
  }

  lemma {:induction false} IfWithin(w: World, d: nat, item: Item, st: PlanState)
    requires item.head.If?
    ensures Within(st.log, EvalIf(w, d, item, st).st.log, Needed(w, d, st.path, item))
    decreases d, 1, item, 2
  {
    hide Eval, WaitingForks, ExactLog;
    var c := ChooseBranch(w.host, item.head, st);
    if c.Choose? && |item.childs| == 2 { RunWithin(w, d, item.childs[c.branch], st); }
  }

  lemma {:induction false} GroupWithin(w: World, d: nat, item: Item, st: PlanState)
    requires item.head.Group?
    ensures Within(st.log, EvalGroup(w, d, item, st).st.log, Needed(w, d, st.path, item))
    decreases d, 1, item, 2
  {
    hide EvalCall, RunGroup, WaitingForks, ExactLog;
    var g := item.head;
    var id := w.host.jinja(g.id, st.items);
    if id.Some? {
      RunGroupWithin(w, id.value, g.groupType, g.values, g.blossoms, st);
      GroupCallsResource(w, id.value, g.groupType, g.values, g.blossoms, st);
      var end := StartGroup(w, g, st);
      if end.CallResource? { CallWithin(w, d, end.tree, g.values, end.st); }
    }
  }

  lemma {:induction false} CallWithin(w: World, d: nat, t: Item, values: ValueItemMap, st: PlanState)
    ensures Within(st.log, EvalCall(w, d, t, values, st).st.log, CallNeeded(w, d, Some(t)))
    decreases d, 0
  {
    hide Eval, Fillable, FillMap, CallMap, FillOutput, OutputComplete, ItemsOf, Override, WaitingForks, ExactLog;
    if Fillable(w.host, st.items, values) && t.head.Tree? && d > 0 {
      var inner := st.(items := ItemsOf(CallMap(w.host, t, values, st.items)));
      assert Needed(w, d - 1, inner.path, t) == Needed(w, d - 1, "", t);
      RunWithin(w, d - 1, t, inner);
    }
  }

  lemma {:induction false} PartsWithin(w: World, d: nat, items: seq<Item>, st: PlanState)
    ensures Within(st.log, EvalParts(w, d, items, st).st.log, PartsNeeded(w, d, st.path, items))
    decreases d, 1, items, 2
  {
    hide Needed, Eval, WaitingForks, ExactLog;
    if items != [] {
      EvalScoped(w, d, items[0], st);
      RunWithin(w, d, items[0], st);
      var o := Eval(w, d, items[0], st);
      if o.ok { PartsWithin(w, d, items[1..], o.st); }
    }
  }

  lemma {:induction false} LoopWithin(w: World, d: nat, content: Item, tempVar: string, range: seq<Data>, st: PlanState)
    requires Needed(w, d, st.path, content).AtMost? && Needed(w, d, st.path, content).forks == 0
    ensures Within(st.log, EvalLoop(w, d, content, tempVar, range, st).st.log, Needed(w, d, st.path, content))
    decreases d, 1, content, 4, |range|
  {
    hide Needed, Eval, WaitingForks, ExactLog;
    if range != [] {
      var inner := BindVar(st, tempVar, range[0]);
      EvalScoped(w, d, content, inner);
      RunWithin(w, d, content, inner);
      var o := Eval(w, d, content, inner);
      if o.ok { LoopWithin(w, d, content, tempVar, range[1..], o.st); }
    }
  }

  lemma {:induction false} LoopItemWithin(w: World, d: nat, item: Item, st: PlanState)
    requires item.head.ForEach? || item.head.For?
    ensures Within(st.log, EvalLoopItem(w, d, item, st).st.log, Needed(w, d, st.path, item))
    decreases d, 1, item, 2
  {
    SameWithin(st.log, Needed(w, d, st.path, item));
    LoopNeeded(w, d, st.path, item);
    hide Eval, EvalFork, Needed, WaitingForks, ExactLog;
    var s := SetupLoop(w.host, item.head, st);
    if s.Loop? && |item.childs| == 1 && Needed(w, d, st.path, item).AtMost? {
      if s.parallel {
        LoopForkWithin(w, d, item, s, st);
      } else {
        LoopWithin(w, d, item.childs[0], s.tempVar, s.range, StartLoop(s.values, st));
      }
    }
  }

  lemma LoopNeeded(w: World, d: nat, path: string, item: Item)
    requires item.head.ForEach? || item.head.For?
    ensures |item.childs| == 1 ==>
      var body := Needed(w, d, path, item.childs[0]);
      Needed(w, d, path, item) ==
        if body.Unlimited? || body.forks > 0 then Unlimited
        else if item.head.parallel then AtMost(1, false)
        else body
  {
    hide PartsNeeded, CallNeeded;
    if |item.childs| == 1 { OnePart(w, d, path, item.childs); }
  }

  lemma {:induction false} LoopForkWithin(w: World, d: nat, item: Item, s: LoopSetup, st: PlanState)
    requires s.Loop? && |item.childs| == 1
    requires Needed(w, d, st.path, item.childs[0]).AtMost? && Needed(w, d, st.path, item.childs[0]).forks == 0
    ensures Within(st.log, EvalFork(w, d, item, LoopFork(item.childs[0], s, st)).st.log, AtMost(1, false))
    decreases d, 1, item, 1
  {
    hide Needed, Eval, WaitingForks, JoinFork;
    var f := LoopFork(item.childs[0], s, st);
    var os := EvalKids(w, d, item, f);
    forall i | 0 <= i < |os| ensures WaitingForks(os[i].st.log) == 0 {
      RunWithin(w, d, f.kids[i].item, f.kids[i].st);
      NoWaits();
    }
    NoneWithin(os);
    JoinWaits(w.host, f, (f.st.counter + |f.kids|) % U32, AllOk(os), os);
  }

  lemma NoWaits()
    ensures WaitingForks([]) == 0
  {}

  lemma {:induction false} ParallelWithin(w: World, d: nat, item: Item, st: PlanState)
    requires item.head.Parallel?
    ensures Within(st.log, EvalParallel(w, d, item, st).st.log, Needed(w, d, st.path, item))
    decreases d, 1, item, 2
  {
    hide Eval, EvalKids, WaitingForks, ExactLog, JoinFork, PartsNeeded;
    if |item.childs| == 1 && item.childs[0].head.Sequential? {
      var branches := item.childs[0].childs;
      var f := PartsFork(branches, st);
      var os := EvalKids(w, d, item, f);
      forall i | 0 <= i < |os| ensures Within([], os[i].st.log, Needed(w, d, st.path, branches[i])) {
        RunWithin(w, d, f.kids[i].item, f.kids[i].st);
      }
      BranchesWithin(w, d, st.path, branches, os);
      PartsForkWithin(w.host, branches, st, os, PartsNeeded(w, d, st.path, branches));
    }
  }

  lemma PartsForkWithin(h: Host, branches: seq<Item>, st: PlanState, os: seq<Outcome>, n: Need)
    requires Within([], KidLogs(os), n)
    ensures Within(st.log, SequentialJoin(h, PartsFork(branches, st), os).st.log,
                   Both(AtMost(if branches == [] then 0 else 1, |branches| < U32), n))
  {
    hide WaitingForks, ExactLog, KidLogs, JoinFork;
    var f := PartsFork(branches, st);
    JoinRecords(h, f, (f.st.counter + |f.kids|) % U32, AllOk(os), os);
    OneWithin(st.log, ForkEvent(f));
    AppendWithin(st.log + [ForkEvent(f)], KidLogs(os), n);
  }

  /** A tree that is run on a fresh plan: one thread for its plan's parent to wait for it and one
      for each fork its text allows are enough, and with branches only its targets fit. */
  lemma TreeWithinPool(w: World, d: nat, tree: Item, st: PlanState)
    requires Needed(w, d, st.path, tree).AtMost? && ExactLog(st.log)
    ensures var n, f := Needed(w, d, st.path, tree), PartsFork([tree], st);
      Waits(w, d, f) <= n.forks + 1 &&
      (n.fits ==> ExactLog(SequentialJoin(w.host, f, KidOutcomes(w, d, f)).st.log))
  {
    hide Eval, WaitingForks, ExactLog, JoinFork, Needed;
    var f := PartsFork([tree], st);
    var os := KidOutcomes(w, d, f);
    RunWithin(w, d, tree, f.kids[0].st);
    BranchesWithin(w, d, st.path, [tree], os);
    OnePart(w, d, st.path, [tree]);
    PartsForkWithin(w.host, [tree], st, os, Needed(w, d, st.path, tree));
    JoinWaits(w.host, f, (f.st.counter + |f.kids|) % U32, AllOk(os), os);
  }
}
