// Runs of validated trees: the merge of group values during validation does not change what
// a tree does, and every blossom that runs has the inputs it requires.
module ValidatedRuns {
  import opened Values
  import opened Filling
  import opened Items
  import opened Semantics
  import opened Scoping
  import opened CallGraph
  import opened Validator

  // a tree as it was parsed, or as validation left it
  function Maybe(merged: bool, item: Item): Item { if merged then Merged(item) else item }

  // the same program, some of the registered trees and resources merged by validation
  ghost predicate Alike(w: World, w': World) {
    w' == w.(trees := w'.trees, resources := w'.resources) &&
    w'.trees.Keys == w.trees.Keys && w'.resources.Keys == w.resources.Keys &&
    (forall k :: k in w.trees ==> w'.trees[k] == w.trees[k] || w'.trees[k] == Merged(w.trees[k])) &&
    (forall k :: k in w.resources ==> w'.resources[k] == w.resources[k] || w'.resources[k] == Merged(w.resources[k]))
  }

  /** Validation rewrites groups in place; no run can tell the difference. */
  lemma {:induction false} MergeKeepsMeaning(w: World, w': World, d: nat, m: bool, item: Item, before: PlanState)
    requires Alike(w, w')
    ensures Eval(w', d, Maybe(m, item), before) == Eval(w, d, item, before)
    decreases d, 1, item, 3
  {
    var st := Record(before, Entered);
    EvalOf(w, d, item, before);
    EvalOf(w', d, Maybe(m, item), before);
    SameBlossoms(w, w');
    hide Alike, Eval, EvalGroup, EvalTree, EvalCall, EvalIf, EvalParts, EvalParallel, EvalLoopItem, RunBlossom, Record;
    match item.head
    case Blossom(b) => SameBlossom(w, w', b, st);
    case Group(_, _, _, _) => GroupKeepsMeaning(w, w', d, m, item, st);
    case Tree(_, _, _, _) => TreeKeepsMeaning(w, w', d, m, item, st);
    case Subtree(name, values) => CalleeAlike(w, w', d, st.path, name, values, st);
    case If(_, _, _) => IfKeepsMeaning(w, w', d, m, item, st);
    case Sequential => PartsKeepMeaning(w, w', d, m, item.childs, st);
    case Parallel => ParallelKeepsMeaning(w, w', d, m, item, st);
    case _ => LoopItemKeepsMeaning(w, w', d, m, item, st);
  }

  lemma {:induction false} TreeKeepsMeaning(w: World, w': World, d: nat, m: bool, item: Item, st: PlanState)
    requires Alike(w, w') && item.head.Tree?
    ensures EvalTree(w', d, Maybe(m, item), st) == EvalTree(w, d, item, st)
    decreases d, 1, item, 2
  {
    hide Alike, Eval;
    if Initialized(st.items) && |item.childs| == 1 {
      MergeKeepsMeaning(w, w', d, m, item.childs[0], OpenTree(item, st));
    }
  }

  lemma {:induction false} IfKeepsMeaning(w: World, w': World, d: nat, m: bool, item: Item, st: PlanState)
    requires Alike(w, w') && item.head.If?
    ensures EvalIf(w', d, Maybe(m, item), st) == EvalIf(w, d, item, st)
    decreases d, 1, item, 2
  {
    SameBlossoms(w, w');
    hide Alike, Eval;
    var c := ChooseBranch(w.host, item.head, st);
    if c.Choose? && |item.childs| == 2 { MergeKeepsMeaning(w, w', d, m, item.childs[c.branch], st); }
  }

  lemma {:induction false} ParallelKeepsMeaning(w: World, w': World, d: nat, m: bool, item: Item, st: PlanState)
    requires Alike(w, w') && item.head.Parallel?
    ensures EvalParallel(w', d, Maybe(m, item), st) == EvalParallel(w, d, item, st)
    decreases d, 1, item, 2
  {
    hide Alike, EvalFork;
    if |item.childs| == 1 && item.childs[0].head.Sequential? {
      var parts := item.childs[0].childs;
      ForkKeepsMeaning(w, w', d, m, item, PartsFork(parts, st), Maybe(m, item), PartsFork(MaybeAll(m, parts), st));
    }
  }

  function MaybeAll(merged: bool, items: seq<Item>): (r: seq<Item>)
    ensures |r| == |items| && forall i :: 0 <= i < |items| ==> r[i] == Maybe(merged, items[i])
  {
    if merged then MergedItems(items) else items
  }

  lemma SameBlossoms(w: World, w': World)
    requires Alike(w, w')
    ensures w'.host == w.host && w'.blossoms == w.blossoms && w'.context == w.context
    ensures w'.relative == w.relative && w'.resources.Keys == w.resources.Keys
  {}

  lemma SameBlossom(w: World, w': World, b: BlossomItem, st: PlanState)
    requires w'.host == w.host && w'.blossoms == w.blossoms && w'.context == w.context
    ensures RunBlossom(w', b, st) == RunBlossom(w, b, st)
  {}

  lemma CalleeAlike(w: World, w': World, d: nat, path: string, name: string, values: ValueItemMap, st: PlanState)
    requires Alike(w, w')
    ensures w'.Callee(path, name).Some? == w.Callee(path, name).Some?
    ensures w.Callee(path, name).Some? ==>
      EvalCall(w', d, w'.Callee(path, name).value, values, st) == EvalCall(w, d, w.Callee(path, name).value, values, st)
    decreases d, 0, 1
  {
    hide EvalCall;
    if w.Callee(path, name).Some? {
      var t, t' := w.Callee(path, name).value, w'.Callee(path, name).value;
      var m := t' != t;
      assert t' == Maybe(m, t);
      CallKeepsMeaning(w, w', d, m, t, values, st);
    }
  }

  lemma {:induction false} CallKeepsMeaning(w: World, w': World, d: nat, m: bool, t: Item,
                                            values: ValueItemMap, st: PlanState)
    requires Alike(w, w')
    ensures EvalCall(w', d, Maybe(m, t), values, st) == EvalCall(w, d, t, values, st)
    decreases d, 0, 0
  {
    SameBlossoms(w, w');
    if Fillable(w.host, st.items, values) && t.head.Tree? && d > 0 {
      MergeKeepsMeaning(w, w', d - 1, m, t, st.(items := ItemsOf(CallMap(w.host, t, values, st.items))));
    }
  }

  // ---------------------------------------------------------------- groups

  // blossoms of which the group's values are merged in, or not
  function MaybeBlossoms(merged: bool, g: Head): (r: seq<BlossomItem>)
    requires g.Group?
    ensures |r| == |g.blossoms|
    ensures forall i :: 0 <= i < |r| ==>
      r[i] == if merged then InGroup(g.blossoms[i], g.id, g.groupType, g.values) else g.blossoms[i]
  {
    if merged then MergedBlossoms(g, |g.blossoms|) else g.blossoms
  }

  // the callee of a group that ends with a resource
  predicate EndsAlike(w: World, w': World, end: GroupEnd, end': GroupEnd) {
    if end.Ended? then end' == end
    else
      end'.CallResource? && end'.st == end.st &&
      exists k :: k in w.resources && k in w'.resources && end.tree == w.resources[k] && end'.tree == w'.resources[k]
  }

  lemma {:induction false} RunGroupAlike(w: World, w': World, id: string, g: Head, bs: seq<BlossomItem>,
                                         bs': seq<BlossomItem>, st: PlanState)
    requires w'.host == w.host && w'.blossoms == w.blossoms && w'.context == w.context
    requires w'.resources.Keys == w.resources.Keys && g.Group? && |bs'| == |bs|
    requires forall i :: 0 <= i < |bs| ==> bs'[i] == bs[i] || bs'[i] == InGroup(bs[i], g.id, g.groupType, g.values)
    ensures EndsAlike(w, w', RunGroup(w, id, g.groupType, g.values, bs, st),
                             RunGroup(w', id, g.groupType, g.values, bs', st))
    decreases |bs|
  {
    hide RunBlossom;
    if bs != [] && bs[0].kind !in w.resources {
      MergeIsIdempotent(bs[0], g.id, id, g.groupType, g.values);
      var b := InGroup(bs[0], id, g.groupType, g.values);
      assert InGroup(bs'[0], id, g.groupType, g.values) == b;
      SameBlossom(w, w', b, st);
      var o := RunBlossom(w, b, st);
      if o.ok { RunGroupAlike(w, w', id, g, bs[1..], bs'[1..], o.st); }
    }
  }

  lemma {:induction false} GroupKeepsMeaning(w: World, w': World, d: nat, m: bool, item: Item, st: PlanState)
    requires Alike(w, w') && item.head.Group?
    ensures EvalGroup(w', d, Maybe(m, item), st) == EvalGroup(w, d, item, st)
    decreases d, 1, item, 2
  {
    SameBlossoms(w, w');
    var g, g' := item.head, Maybe(m, item).head;
    var id := w.host.jinja(g.id, st.items);
    if id.Some? {
      assert g'.blossoms == MaybeBlossoms(m, g);
      RunGroupAlike(w, w', id.value, g, g.blossoms, g'.blossoms, st);
      var end := StartGroup(w, g, st);
      if end.CallResource? {
        var k :| k in w.resources && k in w'.resources && end.tree == w.resources[k] &&
          StartGroup(w', g', st).tree == w'.resources[k];
        var resource := w'.resources[k] != w.resources[k];
        assert w'.resources[k] == Maybe(resource, w.resources[k]);
        hide EvalCall;
        CallKeepsMeaning(w, w', d, resource, end.tree, g.values, end.st);
      }
    }
  }

  // ---------------------------------------------------------------- parts, loops and forks

  lemma {:induction false} PartsKeepMeaning(w: World, w': World, d: nat, m: bool, items: seq<Item>, st: PlanState)
    requires Alike(w, w')
    ensures EvalParts(w', d, MaybeAll(m, items), st) == EvalParts(w, d, items, st)
    decreases d, 1, items, 2
  {
    hide Alike, Eval;
    if items != [] {
      MergeKeepsMeaning(w, w', d, m, items[0], st);
      var o := Eval(w, d, items[0], st);
      assert MaybeAll(m, items)[1..] == MaybeAll(m, items[1..]);
      if o.ok { PartsKeepMeaning(w, w', d, m, items[1..], o.st); }
    }
  }

  lemma {:induction false} LoopKeepsMeaning(w: World, w': World, d: nat, m: bool, content: Item, tempVar: string,
                                            range: seq<Data>, st: PlanState)
    requires Alike(w, w')
    ensures EvalLoop(w', d, Maybe(m, content), tempVar, range, st) == EvalLoop(w, d, content, tempVar, range, st)
    decreases d, 1, content, 4, |range|
  {
    hide Alike, Eval, Maybe;
    if range != [] {
      MergeKeepsMeaning(w, w', d, m, content, BindVar(st, tempVar, range[0]));
      var o := Eval(w, d, content, BindVar(st, tempVar, range[0]));
      if o.ok { LoopKeepsMeaning(w, w', d, m, content, tempVar, range[1..], o.st); }
    }
  }

  lemma {:induction false} LoopItemKeepsMeaning(w: World, w': World, d: nat, m: bool, item: Item, st: PlanState)
    requires Alike(w, w') && (item.head.ForEach? || item.head.For?)
    ensures EvalLoopItem(w', d, Maybe(m, item), st) == EvalLoopItem(w, d, item, st)
    decreases d, 1, item, 2
  {
    SameBlossoms(w, w');
    hide Alike;
    var s := SetupLoop(w.host, item.head, st);
    if s.Loop? && |item.childs| == 1 {
      var content := item.childs[0];
      assert Maybe(m, item).childs == [Maybe(m, content)];
      if s.parallel {
        ForkKeepsMeaning(w, w', d, m, item, LoopFork(content, s, st),
                         Maybe(m, item), LoopFork(Maybe(m, content), s, st));
      } else {
        LoopKeepsMeaning(w, w', d, m, content, s.tempVar, s.range, StartLoop(s.values, st));
      }
    }
  }

  lemma {:induction false} ForkKeepsMeaning(w: World, w': World, d: nat, m: bool, parent: Item, f: Fork,
                                            parent': Item, f': Fork)
    requires Alike(w, w') && ForkOf(parent, f) && ForkOf(parent', f')
    requires f' == f.(kids := f'.kids) && |f'.kids| == |f.kids|
    requires forall i :: 0 <= i < |f.kids| ==> f'.kids[i] == Kid(Maybe(m, f.kids[i].item), f.kids[i].st)
    ensures EvalFork(w', d, parent', f') == EvalFork(w, d, parent, f)
    decreases d, 1, parent, 1
  {
    SameBlossoms(w, w');
    hide Alike, Eval, Maybe;
    var os, os' := EvalKids(w, d, parent, f), EvalKids(w', d, parent', f');
    forall i | 0 <= i < |os| ensures os'[i] == os[i] {
      MergeKeepsMeaning(w, w', d, m, f.kids[i].item, f.kids[i].st);
    }
    assert os' == os;
    SameJoin(w.host, f, f', os);
  }

  lemma SameJoin(h: Host, f: Fork, f': Fork, os: seq<Outcome>)
    requires f' == f.(kids := f'.kids) && |f'.kids| == |f.kids|
    ensures SequentialJoin(h, f', os) == SequentialJoin(h, f, os)
  {}

  // ---------------------------------------------------------------- checked again

  /** What validation leaves in the garden is accepted again, and nothing else is. */
  lemma {:induction false} MergedIsChecked(w: World, w': World, item: Item)
    requires Alike(w, w')
    ensures Checked(w', Merged(item)) <==> Checked(w, item)
    decreases item
  {
    hide Alike, BlossomChecked;
    SameBlossoms(w, w');
    var g, g' := item.head, MergedHead(item.head);
    if g.Blossom? {
      SameCheck(w, w', g.blossom);
    } else if g.Group? {
      forall i | 0 <= i < |g.blossoms|
        ensures BlossomChecked(w', InGroup(g'.blossoms[i], g.id, g.groupType, g.values)) <==>
                BlossomChecked(w, InGroup(g.blossoms[i], g.id, g.groupType, g.values))
      {
        MergeIsIdempotent(g.blossoms[i], g.id, g.id, g.groupType, g.values);
        SameCheck(w, w', InGroup(g.blossoms[i], g.id, g.groupType, g.values));
      }
    } else if !g.Subtree? {
      forall i | 0 <= i < |item.childs| ensures Checked(w', Merged(item).childs[i]) <==> Checked(w, item.childs[i]) {
        MergedIsChecked(w, w', item.childs[i]);
      }
    }
  }

  lemma SameCheck(w: World, w': World, b: BlossomItem)
    requires w'.host == w.host && w'.blossoms == w.blossoms && w'.resources.Keys == w.resources.Keys
    ensures BlossomChecked(w', b) <==> BlossomChecked(w, b)
  {}

  // ---------------------------------------------------------------- required inputs

  predicate RequiredInput(def: FieldDef) { def.isRequired && def.io.InputField? }

  // runTask of a blossom got every input field it requires
  ghost predicate Complete(w: World, e: Event) {
    e.Ran? && e.kind !in w.resources ==>
      var def := w.GetBlossom(e.group, e.kind);
      def.Some? && forall k :: k in def.value.inputs && RequiredInput(def.value.inputs[k]) ==> k in e.task.input
  }

  ghost predicate CompleteLog(w: World, log: seq<Event>) { forall i :: 0 <= i < |log| ==> Complete(w, log[i]) }

  ghost predicate AllChecked(w: World) {
    forall t :: t in w.trees.Values || t in w.resources.Values ==> Checked(w, t)
  }

  /** Filling and conversion keep the keys: a checked blossom runs with all required inputs. */
  lemma CheckedBlossomRuns(w: World, b: BlossomItem, st: PlanState)
    requires BlossomChecked(w, b) && CompleteLog(w, st.log)
    ensures CompleteLog(w, RunBlossom(w, b, st).st.log)
  {
    var def := w.GetBlossom(b.groupType, b.kind);
    if Fillable(w.host, st.items, b.values) && def.Some? {
      var filled := FillMap(w.host, st.items, b.values);
      var task := TaskOf(w, def.value, b, filled, st);
      if b.kind !in w.resources { RequiredGiven(w.host, def.value, b.values, task.input); }
      assert Complete(w, Ran(b.groupType, b.kind, task));
      hide Complete, TaskOf, Accepts;
      TaskLog(w, def.value, b, filled, st);
    }
  }

  lemma RequiredGiven(h: Host, def: BlossomDef, values: ValueItemMap, input: Env)
    requires Accepts(h, def, values) && values.values.Keys + values.childs.Keys <= input.Keys
    ensures forall k :: k in def.inputs && RequiredInput(def.inputs[k]) ==> k in input
  {
    forall k | k in def.inputs && RequiredInput(def.inputs[k]) ensures k in input {
      assert ValidationMap(def)[k] == def.inputs[k];
      assert Compared(h, values, k, InputField);
    }
  }

  lemma TaskLog(w: World, def: BlossomDef, b: BlossomItem, filled: ValueItemMap, st: PlanState)
    ensures var log := RunTask(w, def, b, filled, st).st.log;
      log == st.log || log == st.log + [Ran(b.groupType, b.kind, TaskOf(w, def, b, filled, st))]
  {}

  lemma {:induction false} CheckedGroupRuns(w: World, id: string, g: Head, blossoms: seq<BlossomItem>, st: PlanState)
    requires g.Group? && CompleteLog(w, st.log)
    requires forall i :: 0 <= i < |blossoms| ==> BlossomChecked(w, InGroup(blossoms[i], g.id, g.groupType, g.values))
    ensures var end := RunGroup(w, id, g.groupType, g.values, blossoms, st);
      CompleteLog(w, if end.Ended? then end.o.st.log else end.st.log)
    decreases |blossoms|
  {
    hide CompleteLog, RunBlossom;
    if blossoms != [] && blossoms[0].kind !in w.resources {
      var b := InGroup(blossoms[0], id, g.groupType, g.values);
      SameInputs(w, blossoms[0], id, g);
      CheckedBlossomRuns(w, b, st);
      var o := RunBlossom(w, b, st);
      if o.ok { CheckedGroupRuns(w, id, g, blossoms[1..], o.st); }
    }
  }

  // the rendered name of the group makes no difference for validation
  lemma SameInputs(w: World, b: BlossomItem, id: string, g: Head)
    requires g.Group? && BlossomChecked(w, InGroup(b, g.id, g.groupType, g.values))
    ensures BlossomChecked(w, InGroup(b, id, g.groupType, g.values))
  {
    hide Accepts;
  }

  /** If checkSakuraItem accepts a tree and all registered ones, every task of a blossom that
      is no resource, in any run, gets all inputs its definition requires. */
  lemma {:induction false} CheckedRunsComplete(w: World, d: nat, item: Item, before: PlanState)
    requires AllChecked(w) && Checked(w, item) && CompleteLog(w, before.log)
    ensures CompleteLog(w, Eval(w, d, item, before).st.log)
    decreases d, 1, item, 3
  {
    var st := Record(before, Entered);
    EvalOf(w, d, item, before);
    assert CompleteLog(w, st.log) by { assert Complete(w, Entered); }
    hide AllChecked, CompleteLog, Record;
    hide Eval, EvalGroup, EvalTree, EvalCall, EvalIf, EvalParts, EvalParallel, EvalLoopItem, RunBlossom;
    match item.head
    case Blossom(b) => CheckedBlossomRuns(w, b, st);
    case Group(_, _, _, _) => GroupComplete(w, d, item, st);
    case Tree(_, _, _, _) => TreeComplete(w, d, item, st);
    case Subtree(name, values) =>
      var t := w.Callee(st.path, name);
      if t.Some? { CallComplete(w, d, t.value, values, st); }
    case If(_, _, _) => IfComplete(w, d, item, st);
    case Sequential => PartsComplete(w, d, item.childs, st);
    case Parallel => ParallelComplete(w, d, item, st);
    case _ => LoopItemComplete(w, d, item, st);
  }

  lemma {:induction false} TreeComplete(w: World, d: nat, item: Item, st: PlanState)
    requires AllChecked(w) && item.head.Tree? && Checked(w, item) && CompleteLog(w, st.log)
    ensures CompleteLog(w, EvalTree(w, d, item, st).st.log)
    decreases d, 1, item, 2
  {
    hide AllChecked, CompleteLog, Eval;
    if Initialized(st.items) && |item.childs| == 1 { CheckedRunsComplete(w, d, item.childs[0], OpenTree(item, st)); }
  }

  lemma {:induction false} IfComplete(w: World, d: nat, item: Item, st: PlanState)
    requires AllChecked(w) && item.head.If? && Checked(w, item) && CompleteLog(w, st.log)
    ensures CompleteLog(w, EvalIf(w, d, item, st).st.log)
    decreases d, 1, item, 2
  {
    hide AllChecked, CompleteLog, Eval;
    var c := ChooseBranch(w.host, item.head, st);
    if c.Choose? && |item.childs| == 2 { CheckedRunsComplete(w, d, item.childs[c.branch], st); }
  }

  lemma {:induction false} ParallelComplete(w: World, d: nat, item: Item, st: PlanState)
    requires AllChecked(w) && item.head.Parallel? && Checked(w, item) && CompleteLog(w, st.log)
    ensures CompleteLog(w, EvalParallel(w, d, item, st).st.log)
    decreases d, 1, item, 2
  {
    hide AllChecked, CompleteLog, EvalFork;
    if |item.childs| == 1 && item.childs[0].head.Sequential? {
      assert Checked(w, item.childs[0]);
      ForkComplete(w, d, item, PartsFork(item.childs[0].childs, st));
    }
  }

  lemma {:induction false} GroupComplete(w: World, d: nat, item: Item, st: PlanState)
    requires AllChecked(w) && item.head.Group? && Checked(w, item) && CompleteLog(w, st.log)
    ensures CompleteLog(w, EvalGroup(w, d, item, st).st.log)
    decreases d, 1, item, 2
  {
    hide AllChecked, CompleteLog;
    var g := item.head;
    var id := w.host.jinja(g.id, st.items);
    if id.Some? {
      CheckedGroupRuns(w, id.value, g, g.blossoms, st);
      GroupCallsResource(w, id.value, g.groupType, g.values, g.blossoms, st);
      var end := StartGroup(w, g, st);
      if end.CallResource? { CallComplete(w, d, end.tree, g.values, end.st); }
    }
  }

  lemma {:induction false} CallComplete(w: World, d: nat, t: Item, values: ValueItemMap, st: PlanState)
    requires AllChecked(w) && CompleteLog(w, st.log) && (t in w.trees.Values || t in w.resources.Values)
    ensures CompleteLog(w, EvalCall(w, d, t, values, st).st.log)
    decreases d, 0
  {
    hide CompleteLog;
    if Fillable(w.host, st.items, values) && t.head.Tree? && d > 0 {
      CheckedRunsComplete(w, d - 1, t, st.(items := ItemsOf(CallMap(w.host, t, values, st.items))));
    }
  }

  lemma {:induction false} PartsComplete(w: World, d: nat, items: seq<Item>, st: PlanState)
    requires AllChecked(w) && CompleteLog(w, st.log)
    requires forall i :: 0 <= i < |items| ==> Checked(w, items[i])
    ensures CompleteLog(w, EvalParts(w, d, items, st).st.log)
    decreases d, 1, items, 2
  {
    hide AllChecked, CompleteLog, Checked, Eval;
    if items != [] {
      CheckedRunsComplete(w, d, items[0], st);
      var o := Eval(w, d, items[0], st);
      if o.ok { PartsComplete(w, d, items[1..], o.st); }
    }
  }

  lemma {:induction false} LoopComplete(w: World, d: nat, content: Item, tempVar: string, range: seq<Data>,
                                        st: PlanState)
    requires AllChecked(w) && Checked(w, content) && CompleteLog(w, st.log)
    ensures CompleteLog(w, EvalLoop(w, d, content, tempVar, range, st).st.log)
    decreases d, 1, content, 4, |range|
  {
    hide AllChecked, CompleteLog, Checked, Eval;
    if range != [] {
      CheckedRunsComplete(w, d, content, BindVar(st, tempVar, range[0]));
      var o := Eval(w, d, content, BindVar(st, tempVar, range[0]));
      if o.ok { LoopComplete(w, d, content, tempVar, range[1..], o.st); }
    }
  }

  lemma {:induction false} LoopItemComplete(w: World, d: nat, item: Item, st: PlanState)
    requires AllChecked(w) && (item.head.ForEach? || item.head.For?) && Checked(w, item) && CompleteLog(w, st.log)
    ensures CompleteLog(w, EvalLoopItem(w, d, item, st).st.log)
    decreases d, 1, item, 2
  {
    hide AllChecked, CompleteLog;
    var s := SetupLoop(w.host, item.head, st);
    if s.Loop? && |item.childs| == 1 {
      assert Checked(w, item.childs[0]);
      hide Checked;
      if s.parallel {
        ForkComplete(w, d, item, LoopFork(item.childs[0], s, st));
      } else {
        LoopComplete(w, d, item.childs[0], s.tempVar, s.range, StartLoop(s.values, st));
      }
    }
  }

  lemma {:induction false} ForkComplete(w: World, d: nat, parent: Item, f: Fork)
    requires AllChecked(w) && ForkOf(parent, f) && CompleteLog(w, f.st.log)
    requires forall i :: 0 <= i < |f.kids| ==> Checked(w, f.kids[i].item) && f.kids[i].st.log == []
    ensures CompleteLog(w, EvalFork(w, d, parent, f).st.log)
    decreases d, 1, parent, 1
  {
    hide AllChecked, Checked, Eval;
    var os := EvalKids(w, d, parent, f);
    JoinRecords(w.host, f, (f.st.counter + |f.kids|) % U32, AllOk(os), os);
    forall i | 0 <= i < |os| ensures CompleteLog(w, os[i].st.log) {
      CheckedRunsComplete(w, d, f.kids[i].item, f.kids[i].st);
    }
    KidsComplete(w, os);
    assert Complete(w, ForkEvent(f));
  }

  lemma {:induction false} KidsComplete(w: World, os: seq<Outcome>)
    requires forall i :: 0 <= i < |os| ==> CompleteLog(w, os[i].st.log)
    ensures CompleteLog(w, KidLogs(os))
    decreases |os|
  {
    if os != [] {
      KidsComplete(w, os[..|os| - 1]);
      assert Complete(w, Started);
    }
  }
}
