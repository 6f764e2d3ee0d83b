// A plan whose counter has left 0 never forks again in a run with sound counters.
module Spent {
  import opened Values
  import opened Filling
  import opened Items
  import opened Semantics
  import opened Scoping
  import opened Machine

  /** From a used counter on: as long as the run stays clean, the counter stays and no fork is
      added. */
  predicate ForksNoMore(st: PlanState, o: Outcome) {
    st.counter != 0 && o.st.clean ==> Plain(st, o.st)
  }

  lemma {:induction false} SpentRun(w: World, d: nat, item: Item, before: PlanState)
    ensures ForksNoMore(before, Eval(w, d, item, before))
    decreases d, 1, item, 3
  {
    var st, g := Record(before, Entered), item.head;
    RecordPlain(before, Entered);
    EvalOf(w, d, item, before);
    hide WaitingForks, Eval, EvalGroup, EvalTree, EvalCall, EvalIf, EvalParts, EvalParallel, EvalLoopItem, RunBlossom;
    match g
    case Blossom(b) => RunBlossomScoped(w, b, st);
    case Group(_, _, _, _) => SpentGroup(w, d, item, st);
    case Tree(_, _, _, _) => SpentTree(w, d, item, st);
    case Subtree(name, values) =>
      var t := w.Callee(st.path, name);
      if t.Some? { SpentCall(w, d, t.value, values, st); }
    case If(_, _, _) => SpentIf(w, d, item, st);
    case Sequential => SpentParts(w, d, item.childs, st);
    case Parallel => SpentParallel(w, d, item, st);
    case _ => SpentLoopItem(w, d, item, st);
  }

  lemma {:induction false} SpentTree(w: World, d: nat, item: Item, st: PlanState)
    requires item.head.Tree?
    ensures ForksNoMore(st, EvalTree(w, d, item, st))
    decreases d, 1, item, 2
  {
    hide WaitingForks, Eval;
    if Initialized(st.items) && |item.childs| == 1 { SpentRun(w, d, item.childs[0], OpenTree(item, st)); }
  }

  lemma {:induction false} SpentIf(w: World, d: nat, item: Item, st: PlanState)
    requires item.head.If?
    ensures ForksNoMore(st, EvalIf(w, d, item, st))
    decreases d, 1, item, 2
  {
    hide WaitingForks, Eval;
    var c := ChooseBranch(w.host, item.head, st);
    if c.Choose? && |item.childs| == 2 { SpentRun(w, d, item.childs[c.branch], st); }
  }

  lemma {:induction false} SpentParallel(w: World, d: nat, item: Item, st: PlanState)
    ensures ForksNoMore(st, EvalParallel(w, d, item, st))
    decreases d, 1, item, 2
  {
    hide WaitingForks, EvalFork;
    if |item.childs| == 1 && item.childs[0].head.Sequential? {
      SpentFork(w, d, item, PartsFork(item.childs[0].childs, st));
    }
  }

  lemma {:induction false} SpentGroup(w: World, d: nat, item: Item, st: PlanState)
    requires item.head.Group?
    ensures ForksNoMore(st, EvalGroup(w, d, item, st))
    decreases d, 1, item, 2
  {
    hide WaitingForks;
    var g := item.head;
    var id := w.host.jinja(g.id, st.items);
    if id.Some? {
      RunGroupScoped(w, id.value, g.groupType, g.values, g.blossoms, st);
      var end := StartGroup(w, g, st);
      if end.CallResource? { SpentCall(w, d, end.tree, g.values, end.st); }
    }
  }

  lemma {:induction false} SpentCall(w: World, d: nat, t: Item, values: ValueItemMap, st: PlanState)
    ensures ForksNoMore(st, EvalCall(w, d, t, values, st))
    decreases d, 0
  {
    hide WaitingForks;
    if Fillable(w.host, st.items, values) && t.head.Tree? && d > 0 {
      SpentRun(w, d - 1, t, st.(items := ItemsOf(CallMap(w.host, t, values, st.items))));
    }
  }

  lemma {:induction false} SpentParts(w: World, d: nat, items: seq<Item>, st: PlanState)
    ensures ForksNoMore(st, EvalParts(w, d, items, st))
    decreases d, 1, items, 2
  {
    hide Eval, WaitingForks;
    if items != [] {
      SpentRun(w, d, items[0], st);
      var o := Eval(w, d, items[0], st);
      if o.ok {
        SpentParts(w, d, items[1..], o.st);
        PartsScoped(w, d, items[1..], o.st);
      }
    }
  }

  lemma {:induction false} SpentLoop(w: World, d: nat, content: Item, tempVar: string, range: seq<Data>, st: PlanState)
    ensures ForksNoMore(st, EvalLoop(w, d, content, tempVar, range, st))
    decreases d, 1, content, 4, |range|
  {
    hide Eval, WaitingForks;
    if range != [] {
      SpentRun(w, d, content, BindVar(st, tempVar, range[0]));
      var o := Eval(w, d, content, BindVar(st, tempVar, range[0]));
      if o.ok {
        SpentLoop(w, d, content, tempVar, range[1..], o.st);
        LoopScoped(w, d, content, tempVar, range[1..], o.st);
      }
    }
  }

  lemma {:induction false} SpentLoopItem(w: World, d: nat, item: Item, st: PlanState)
    requires item.head.ForEach? || item.head.For?
    ensures ForksNoMore(st, EvalLoopItem(w, d, item, st))
    decreases d, 1, item, 2
  {
    hide WaitingForks;
    var s := SetupLoop(w.host, item.head, st);
    if s.Loop? && |item.childs| == 1 {
      if s.parallel {
        SpentFork(w, d, item, LoopFork(item.childs[0], s, st));
      } else {
        SpentLoop(w, d, item.childs[0], s.tempVar, s.range, StartLoop(s.values, st));
      }
    }
  }

  lemma SpentFork(w: World, d: nat, parent: Item, f: Fork)
    requires ForkOf(parent, f)
    ensures ForksNoMore(f.st, EvalFork(w, d, parent, f))
  {
    hide Eval;
    var os := EvalKids(w, d, parent, f);
    JoinRecords(w.host, f, (f.st.counter + |f.kids|) % U32, AllOk(os), os);
  }

  /** The same for what is left on the stack of a plan. */
  lemma {:induction false} SpentUnwind(w: World, k: Stack, o: Outcome)
    ensures ForksNoMore(o.st, Unwind(w, k, o))
    decreases k
  {
    hide Eval, EvalParts, EvalLoop, WaitingForks;
    if k.Push? {
      var o' := AfterFrame(w, k.top, o);
      if o.ok && k.top.PartsFrame? { SpentParts(w, k.top.d, k.top.rest, o.st); }
      if o.ok && k.top.LoopFrame? { SpentLoop(w, k.top.d, k.top.content, k.top.tempVar, k.top.range, o.st); }
      SpentUnwind(w, k.below, o');
      UnwindScoped(w, k.below, o');
    }
  }
}
