// What a run can see: variables, position and status of its plan. Error, counter and events
// that were there before make no difference to it.
module Isolation {
  import opened Values
  import opened Filling
  import opened Functions
  import opened Items
  import opened Semantics
  import opened Scoping

  // states a run cannot tell apart
  predicate LooksLike(a: PlanState, b: PlanState) {
    b.items == a.items && b.path == a.path && b.names == a.names && b.status == a.status
  }

  // the events a run adds
  function Added(a: PlanState, o: PlanState): seq<Event> {
    if |a.log| <= |o.log| then o.log[|a.log|..] else []
  }

  /** The same run from two states: same result, same events, and the same new error or none. */
  predicate SameRun(a: PlanState, b: PlanState, o: Outcome, o': Outcome) {
    o.ok == o'.ok && LooksLike(o.st, o'.st) && a.log <= o.st.log && b.log <= o'.st.log &&
    Added(a, o.st) == Added(b, o'.st) &&
    (o.st.error == o'.st.error || (o.st.error == a.error && o'.st.error == b.error))
  }

  lemma SameRunsJoin(a: PlanState, b: PlanState, m: Outcome, m': Outcome, o: Outcome, o': Outcome)
    requires SameRun(a, b, m, m') && SameRun(m.st, m'.st, o, o')
    ensures SameRun(a, b, o, o')
  {
    assert Added(a, o.st) == Added(a, m.st) + Added(m.st, o.st);
    assert Added(b, o'.st) == Added(b, m'.st) + Added(m'.st, o'.st);
  }

  lemma SameEvents(st: PlanState, st': PlanState, o: Outcome, o': Outcome, events: seq<Event>)
    requires o.ok == o'.ok && LooksLike(o.st, o'.st)
    requires o.st.error == o'.st.error || (o.st.error == st.error && o'.st.error == st'.error)
    requires o.st.log == st.log + events && o'.st.log == st'.log + events
    ensures SameRun(st, st', o, o')
  {
    assert Added(st, o.st) == events && Added(st', o'.st) == events;
  }

  lemma SameTask(w: World, def: BlossomDef, b: BlossomItem, filled: ValueItemMap, st: PlanState, st': PlanState)
    requires LooksLike(st, st')
    ensures TaskOf(w, def, b, filled, st') == TaskOf(w, def, b, filled, st)
  {}

  lemma TaskSees(w: World, def: BlossomDef, b: BlossomItem, filled: ValueItemMap, st: PlanState, st': PlanState)
    requires LooksLike(st, st')
    ensures SameRun(st, st', RunTask(w, def, b, filled, st), RunTask(w, def, b, filled, st'))
  {
    hide BlossomValuesOk, FillOutput, Override, ItemsOf, TaskOf, SameRun;
    SameTask(w, def, b, filled, st, st');
    var task := TaskOf(w, def, b, filled, st);
    var ran := BlossomValuesOk(w.host, def.inputs, task.input, InputField);
    assert st.log + [] == st.log && st'.log + [] == st'.log;
    SameEvents(st, st', RunTask(w, def, b, filled, st), RunTask(w, def, b, filled, st'),
               if ran then [Ran(b.groupType, b.kind, task)] else []);
  }

  lemma FailureSees(st: PlanState, st': PlanState, error: Error)
    requires LooksLike(st, st')
    ensures SameRun(st, st', Fail(st, error), Fail(st', error))
  {}

  lemma BlossomSees(w: World, b: BlossomItem, st: PlanState, st': PlanState)
    requires LooksLike(st, st')
    ensures SameRun(st, st', RunBlossom(w, b, st), RunBlossom(w, b, st'))
  {
    hide Fillable, FillMap, RunTask, SameRun;
    FailureSees(st, st', BlossomValues);
    FailureSees(st, st', UnknownBlossom);
    var def := w.GetBlossom(b.groupType, b.kind);
    if Fillable(w.host, st.items, b.values) && def.Some? {
      TaskSees(w, def.value, b, FillMap(w.host, st.items, b.values), st, st');
    }
  }

  lemma {:induction false} BlossomsSee(w: World, id: string, g: Head, blossoms: seq<BlossomItem>,
                                       st: PlanState, st': PlanState)
    requires g.Group? && LooksLike(st, st')
    ensures var end, end' := RunGroup(w, id, g.groupType, g.values, blossoms, st),
                             RunGroup(w, id, g.groupType, g.values, blossoms, st');
      (end.Ended? ==> end'.Ended? && SameRun(st, st', end.o, end'.o)) &&
      (end.CallResource? ==>
        end'.CallResource? && end'.tree == end.tree && SameRun(st, st', Outcome(true, end.st), Outcome(true, end'.st)))
    decreases |blossoms|
  {
    hide RunBlossom;
    if blossoms != [] && blossoms[0].kind !in w.resources {
      var b := InGroup(blossoms[0], id, g.groupType, g.values);
      BlossomSees(w, b, st, st');
      var m, m' := RunBlossom(w, b, st), RunBlossom(w, b, st');
      if m.ok {
        BlossomsSee(w, id, g, blossoms[1..], m.st, m'.st);
        var end := RunGroup(w, id, g.groupType, g.values, blossoms[1..], m.st);
        var end' := RunGroup(w, id, g.groupType, g.values, blossoms[1..], m'.st);
        SameRunsJoin(st, st', m, m', if end.Ended? then end.o else Outcome(true, end.st),
                     if end'.Ended? then end'.o else Outcome(true, end'.st));
      }
    }
  }

  /** A run of any item sees nothing of its plan but variables, position and status. */
  lemma {:induction false} RunSees(w: World, d: nat, item: Item, before: PlanState, before': PlanState)
    requires LooksLike(before, before')
    ensures SameRun(before, before', Eval(w, d, item, before), Eval(w, d, item, before'))
    decreases d, 1, item, 4
  {
    var st, st' := Record(before, Entered), Record(before', Entered);
    InsideSees(w, d, item, before, before');
    assert Added(before, st) == [Entered] == Added(before', st');
    SameRunsJoin(before, before', Outcome(Eval(w, d, item, before).ok, st), Outcome(Eval(w, d, item, before).ok, st'),
                 Eval(w, d, item, before), Eval(w, d, item, before'));
  }

  lemma {:induction false} InsideSees(w: World, d: nat, item: Item, before: PlanState, before': PlanState)
    requires LooksLike(before, before')
    ensures SameRun(Record(before, Entered), Record(before', Entered),
                    Eval(w, d, item, before), Eval(w, d, item, before'))
    decreases d, 1, item, 3
  {
    var st, st' := Record(before, Entered), Record(before', Entered);
    EvalOf(w, d, item, before);
    EvalOf(w, d, item, before');
    hide SameRun, Eval, EvalGroup, EvalTree, EvalCall, EvalIf, EvalParts, EvalParallel, EvalLoopItem, RunBlossom;
    match item.head
    case Blossom(b) => BlossomSees(w, b, st, st');
    case Group(_, _, _, _) => GroupSees(w, d, item, st, st');
    case Tree(_, _, _, _) => TreeSees(w, d, item, st, st');
    case Subtree(name, values) =>
      var t := w.Callee(st.path, name);
      if t.Some? { CallSees(w, d, t.value, values, st, st'); } else { FailSees(st, st', UnknownTree); }
    case If(_, _, _) => IfSees(w, d, item, st, st');
    case Sequential => PartsSee(w, d, item.childs, st, st');
    case Parallel => ParallelSees(w, d, item, st, st');
    case _ => LoopItemSees(w, d, item, st, st');
  }

  lemma FailSees(st: PlanState, st': PlanState, error: Error)
    requires LooksLike(st, st')
    ensures SameRun(st, st', Fail(st, error), Fail(st', error))
  {}

  lemma {:induction false} IfSees(w: World, d: nat, item: Item, st: PlanState, st': PlanState)
    requires item.head.If? && LooksLike(st, st')
    ensures SameRun(st, st', EvalIf(w, d, item, st), EvalIf(w, d, item, st'))
    decreases d, 1, item, 2
  {
    hide Eval;
    var c := ChooseBranch(w.host, item.head, st);
    assert c == ChooseBranch(w.host, item.head, st');
    if c.Choose? && |item.childs| == 2 { RunSees(w, d, item.childs[c.branch], st, st'); }
  }

  lemma ParallelSees(w: World, d: nat, item: Item, st: PlanState, st': PlanState)
    requires item.head.Parallel? && LooksLike(st, st')
    ensures SameRun(st, st', EvalParallel(w, d, item, st), EvalParallel(w, d, item, st'))
    decreases d, 1, item, 2
  {
    hide EvalFork;
    if |item.childs| == 1 && item.childs[0].head.Sequential? {
      var parts := item.childs[0].childs;
      ForkSees(w, d, item, PartsFork(parts, st), PartsFork(parts, st'));
    }
  }

  lemma {:induction false} GroupSees(w: World, d: nat, item: Item, st: PlanState, st': PlanState)
    requires item.head.Group? && LooksLike(st, st')
    ensures SameRun(st, st', EvalGroup(w, d, item, st), EvalGroup(w, d, item, st'))
    decreases d, 1, item, 2
  {
    hide EvalCall, RunGroup;
    var g := item.head;
    var id := w.host.jinja(g.id, st.items);
    if id.Some? {
      BlossomsSee(w, id.value, g, g.blossoms, st, st');
      var end, end' := StartGroup(w, g, st), StartGroup(w, g, st');
      if end.CallResource? {
        CallSees(w, d, end.tree, g.values, end.st, end'.st);
        SameRunsJoin(st, st', Outcome(true, end.st), Outcome(true, end'.st),
                     EvalCall(w, d, end.tree, g.values, end.st), EvalCall(w, d, end.tree, g.values, end'.st));
      }
    }
  }

  lemma {:induction false} TreeSees(w: World, d: nat, item: Item, st: PlanState, st': PlanState)
    requires item.head.Tree? && LooksLike(st, st')
    ensures SameRun(st, st', EvalTree(w, d, item, st), EvalTree(w, d, item, st'))
    decreases d, 1, item, 2
  {
    if Initialized(st.items) && |item.childs| == 1 {
      RunSees(w, d, item.childs[0], OpenTree(item, st), OpenTree(item, st'));
    }
  }

  lemma {:induction false} CallSees(w: World, d: nat, t: Item, values: ValueItemMap, st: PlanState, st': PlanState)
    requires LooksLike(st, st')
    ensures SameRun(st, st', EvalCall(w, d, t, values, st), EvalCall(w, d, t, values, st'))
    decreases d, 0
  {
    if Fillable(w.host, st.items, values) && t.head.Tree? && d > 0 {
      var called := CallMap(w.host, t, values, st.items);
      var inner, inner' := st.(items := ItemsOf(called)), st'.(items := ItemsOf(called));
      RunSees(w, d - 1, t, inner, inner');
      hide Eval;
      FinishSees(w.host, st.items, called, inner, inner', Eval(w, d - 1, t, inner), Eval(w, d - 1, t, inner'));
    }
  }

  lemma FinishSees(h: Host, backup: Env, called: map<string, ValueItem>, st: PlanState, st': PlanState,
                   o: Outcome, o': Outcome)
    requires SameRun(st, st', o, o')
    ensures SameRun(st, st', FinishCall(h, backup, called, o), FinishCall(h, backup, called, o'))
  {
    hide OutputComplete, FillOutput, Override, ItemsOf;
  }

  lemma {:induction false} PartsSee(w: World, d: nat, items: seq<Item>, st: PlanState, st': PlanState)
    requires LooksLike(st, st')
    ensures SameRun(st, st', EvalParts(w, d, items, st), EvalParts(w, d, items, st'))
    decreases d, 1, items, 2
  {
    hide Eval;
    if items != [] {
      RunSees(w, d, items[0], st, st');
      var m, m' := Eval(w, d, items[0], st), Eval(w, d, items[0], st');
      if m.ok {
        PartsSee(w, d, items[1..], m.st, m'.st);
        SameRunsJoin(st, st', m, m', EvalParts(w, d, items[1..], m.st), EvalParts(w, d, items[1..], m'.st));
      }
    }
  }

  lemma {:induction false} LoopSees(w: World, d: nat, content: Item, tempVar: string, range: seq<Data>,
                                    st: PlanState, st': PlanState)
    requires LooksLike(st, st')
    ensures SameRun(st, st', EvalLoop(w, d, content, tempVar, range, st), EvalLoop(w, d, content, tempVar, range, st'))
    decreases d, 1, content, 5, |range|
  {
    hide Eval;
    if range != [] {
      var inner, inner' := BindVar(st, tempVar, range[0]), BindVar(st', tempVar, range[0]);
      RunSees(w, d, content, inner, inner');
      var m, m' := Eval(w, d, content, inner), Eval(w, d, content, inner');
      assert SameRun(st, st', m, m');
      if m.ok {
        LoopSees(w, d, content, tempVar, range[1..], m.st, m'.st);
        SameRunsJoin(st, st', m, m', EvalLoop(w, d, content, tempVar, range[1..], m.st),
                     EvalLoop(w, d, content, tempVar, range[1..], m'.st));
      }
    }
  }

  lemma {:induction false} LoopItemSees(w: World, d: nat, item: Item, st: PlanState, st': PlanState)
    requires (item.head.ForEach? || item.head.For?) && LooksLike(st, st')
    ensures SameRun(st, st', EvalLoopItem(w, d, item, st), EvalLoopItem(w, d, item, st'))
    decreases d, 1, item, 2
  {
    SameSetup(w.host, item.head, st, st');
    LoopItemIs(w, d, item, st);
    LoopItemIs(w, d, item, st');
    hide SetupLoop, Eval, EvalLoop, EvalFork, EvalLoopItem, LoopFork, FinishLoop, StartLoop;
    var s := SetupLoop(w.host, item.head, st);
    if s.Loop? && |item.childs| == 1 {
      var content := item.childs[0];
      if s.parallel {
        var f, f' := LoopFork(content, s, st), LoopFork(content, s, st');
        SameKids(content, s, st, st');
        ForkSees(w, d, item, f, f');
      } else {
        var start, start' := StartLoop(s.values, st), StartLoop(s.values, st');
        StartSees(s.values, st, st');
        LoopSees(w, d, content, s.tempVar, s.range, start, start');
        EndSees(st, st', start, start', EvalLoop(w, d, content, s.tempVar, s.range, start),
                EvalLoop(w, d, content, s.tempVar, s.range, start'));
      }
    }
  }

  lemma StartSees(values: ValueItemMap, st: PlanState, st': PlanState)
    requires LooksLike(st, st')
    ensures LooksLike(StartLoop(values, st), StartLoop(values, st'))
    ensures StartLoop(values, st).log == st.log && StartLoop(values, st').log == st'.log
    ensures StartLoop(values, st).error == st.error && StartLoop(values, st').error == st'.error
  {}

  lemma EndSees(st: PlanState, st': PlanState, start: PlanState, start': PlanState, o: Outcome, o': Outcome)
    requires LooksLike(st, st') && SameRun(start, start', o, o')
    requires start.log == st.log && start'.log == st'.log && start.error == st.error && start'.error == st'.error
    ensures SameRun(st, st', FinishLoop(st.items, o), FinishLoop(st'.items, o'))
  {}

  lemma LoopItemIs(w: World, d: nat, item: Item, st: PlanState)
    requires item.head.ForEach? || item.head.For?
    ensures var s, o := SetupLoop(w.host, item.head, st), EvalLoopItem(w, d, item, st);
      if s.NoLoop? then o == Fail(st, s.error)
      else if |item.childs| != 1 then o == Fail(st, NullAccess)
      else if s.parallel then o == EvalFork(w, d, item, LoopFork(item.childs[0], s, st))
      else
        o == FinishLoop(st.items, EvalLoop(w, d, item.childs[0], s.tempVar, s.range, StartLoop(s.values, st)))
  {}

  lemma SameKids(content: Item, s: LoopSetup, st: PlanState, st': PlanState)
    requires s.Loop? && LooksLike(st, st')
    ensures var f, f' := LoopFork(content, s, st), LoopFork(content, s, st');
      f'.kids == f.kids && f'.should == f.should && f'.join == f.join && f.st == st && f'.st == st'
  {}

  lemma SameSetup(h: Host, g: Head, st: PlanState, st': PlanState)
    requires (g.ForEach? || g.For?) && st'.items == st.items
    ensures SetupLoop(h, g, st') == SetupLoop(h, g, st)
  {}

  // children start from the same states, so they end in the same
  lemma ForkSees(w: World, d: nat, parent: Item, f: Fork, f': Fork)
    requires ForkOf(parent, f) && ForkOf(parent, f') && LooksLike(f.st, f'.st) && f'.kids == f.kids
    requires f'.should == f.should && f'.join == f.join
    ensures SameRun(f.st, f'.st, EvalFork(w, d, parent, f), EvalFork(w, d, parent, f'))
  {
    hide Eval;
    var os := EvalKids(w, d, parent, f);
    assert EvalKids(w, d, parent, f') == os;
    JoinSees(w.host, f, f', os);
  }

  lemma JoinSees(h: Host, f: Fork, f': Fork, os: seq<Outcome>)
    requires LooksLike(f.st, f'.st) && f'.kids == f.kids && f'.should == f.should && f'.join == f.join
    ensures SameRun(f.st, f'.st, SequentialJoin(h, f, os), SequentialJoin(h, f', os))
  {
    hide MergeItems, Aggregated, TakeError, Override, ItemsOf;
    var n := (f.st.counter + |f.kids|) % U32;
    var n' := (f'.st.counter + |f.kids|) % U32;
    JoinRecords(h, f, n, AllOk(os), os);
    JoinRecords(h, f', n', AllOk(os), os);
    var added := [ForkEvent(f)] + KidLogs(os);
    assert f.st.log + [ForkEvent(f)] + KidLogs(os) == f.st.log + added;
    assert f'.st.log + [ForkEvent(f)] + KidLogs(os) == f'.st.log + added;
    if !AllOk(os) {
      SameError(os,
        f.st.(counter := n, clean := f.st.clean && CleanFork(f) && AllClean(os), log := f.st.log + added),
        f'.st.(counter := n', clean := f'.st.clean && CleanFork(f') && AllClean(os), log := f'.st.log + added));
    }
  }

  lemma {:induction false} SameError(os: seq<Outcome>, st: PlanState, st': PlanState)
    requires LooksLike(st, st')
    ensures LooksLike(TakeError(st, os), TakeError(st', os))
    ensures !AllOk(os) ==> TakeError(st, os).error == TakeError(st', os).error
    decreases |os|
  {
    if os != [] { SameError(os[..|os| - 1], st, st'); }
  }
}
