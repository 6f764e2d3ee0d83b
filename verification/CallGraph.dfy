// What the text of the trees says about every run: an acyclic call graph bounds the nesting
// of calls, and trees with at most one fork per plan keep the join counters sound.
module CallGraph {
  import opened Values
  import opened Filling
  import opened Functions
  import opened Items
  import opened Semantics
  import opened Scoping
  import opened Machine

  // the resource a group ends with, if it names one
  function Resource(w: World, blossoms: seq<BlossomItem>): (r: Option<Item>)
    ensures r.Some? ==> r.value in w.resources.Values
  {
    if blossoms == [] then None
    else if blossoms[0].kind in w.resources then Some(w.resources[blossoms[0].kind])
    else Resource(w, blossoms[1..])
  }

  lemma {:induction false} GroupCallsResource(w: World, id: string, groupType: string, values: ValueItemMap,
                                              blossoms: seq<BlossomItem>, st: PlanState)
    ensures var end := RunGroup(w, id, groupType, values, blossoms, st);
      (end.CallResource? ==> Resource(w, blossoms) == Some(end.tree)) &&
      (end.CallResource? && end.st.error.Endless? ==> st.error.Endless?) &&
      (end.Ended? && end.o.st.error.Endless? ==> st.error.Endless?)
    decreases |blossoms|
  {
    hide Fillable, FillMap, BlossomValuesOk, FillOutput, Override, ItemsOf;
    if blossoms != [] && blossoms[0].kind !in w.resources {
      var o := RunBlossom(w, InGroup(blossoms[0], id, groupType, values), st);
      if o.ok { GroupCallsResource(w, id, groupType, values, blossoms[1..], o.st); }
    }
  }

  // ---------------------------------------------------------------- nesting of calls

  /** All calls in an item go to trees of a lower rank; path is the file the item is in. */
  ghost predicate CallsBelow(w: World, rank: Item -> nat, r: nat, path: string, item: Item)
    decreases item
  {
    match item.head
    case Subtree(name, _) =>
      var t := w.Callee(path, name);
      t.Some? ==> rank(t.value) < r
    case Group(_, _, _, blossoms) =>
      var t := Resource(w, blossoms);
      t.Some? ==> rank(t.value) < r
    case Tree(_, _, _, _) => forall i :: 0 <= i < |item.childs| ==> CallsBelow(w, rank, r, item.Path(), item.childs[i])
    case _ => forall i :: 0 <= i < |item.childs| ==> CallsBelow(w, rank, r, path, item.childs[i])
  }

  /** The call graph of the registered trees has no cycle: some rank falls along every call. */
  ghost predicate Acyclic(w: World, rank: Item -> nat) {
    forall t :: (t in w.trees.Values || t in w.resources.Values) && t.head.Tree? ==> CallsBelow(w, rank, rank(t), "", t)
  }

  // both runs end alike and the bound on the nesting is not what ended them
  predicate Same(st: PlanState, o: Outcome, o': Outcome) {
    o == o' && (o.st.error.Endless? ==> st.error.Endless?)
  }

  /** On an acyclic call graph evaluation ends by itself: every bound of at least the rank
      gives the same result, and none is ever the reason of a failure. */
  lemma {:induction false} DepthIsEnough(w: World, rank: Item -> nat, r: nat, d: nat, d': nat,
                                         item: Item, before: PlanState)
    requires Acyclic(w, rank) && CallsBelow(w, rank, r, before.path, item) && r <= d && r <= d'
    ensures Same(before, Eval(w, d, item, before), Eval(w, d', item, before))
    decreases r, 1, item, 3
  {
    var st := Record(before, Entered);
    EvalOf(w, d, item, before);
    EvalOf(w, d', item, before);
    hide Acyclic, Eval, EvalGroup, EvalTree, EvalCall, EvalIf, EvalParts, EvalParallel, EvalLoopItem;
    match item.head
    case Blossom(b) =>
    case Group(_, _, _, _) => GroupDepth(w, rank, r, d, d', item, st);
    case Tree(_, _, _, _) => TreeDepth(w, rank, r, d, d', item, st);
    case Subtree(name, values) =>
      var t := w.Callee(st.path, name);
      if t.Some? { CallDepth(w, rank, r, d, d', t.value, values, st); }
    case If(_, _, _) => IfDepth(w, rank, r, d, d', item, st);
    case Sequential => PartsDepth(w, rank, r, d, d', item.childs, st);
    case Parallel => ParallelDepth(w, rank, r, d, d', item, st);
    case _ => LoopItemDepth(w, rank, r, d, d', item, st);
  }

  lemma {:induction false} TreeDepth(w: World, rank: Item -> nat, r: nat, d: nat, d': nat, item: Item, st: PlanState)
    requires Acyclic(w, rank) && CallsBelow(w, rank, r, st.path, item) && r <= d && r <= d' && item.head.Tree?
    ensures Same(st, EvalTree(w, d, item, st), EvalTree(w, d', item, st))
    decreases r, 1, item, 2
  {
    hide Acyclic, Eval;
    if Initialized(st.items) && |item.childs| == 1 {
      DepthIsEnough(w, rank, r, d, d', item.childs[0], OpenTree(item, st));
    }
  }

  lemma {:induction false} IfDepth(w: World, rank: Item -> nat, r: nat, d: nat, d': nat, item: Item, st: PlanState)
    requires Acyclic(w, rank) && CallsBelow(w, rank, r, st.path, item) && r <= d && r <= d' && item.head.If?
    ensures Same(st, EvalIf(w, d, item, st), EvalIf(w, d', item, st))
    decreases r, 1, item, 2
  {
    hide Acyclic, Eval;
    var c := ChooseBranch(w.host, item.head, st);
    if c.Choose? && |item.childs| == 2 { DepthIsEnough(w, rank, r, d, d', item.childs[c.branch], st); }
  }

  lemma {:induction false} ParallelDepth(w: World, rank: Item -> nat, r: nat, d: nat, d': nat, item: Item,
                                         st: PlanState)
    requires Acyclic(w, rank) && CallsBelow(w, rank, r, st.path, item) && r <= d && r <= d' && item.head.Parallel?
    ensures Same(st, EvalParallel(w, d, item, st), EvalParallel(w, d', item, st))
    decreases r, 1, item, 2
  {
    hide Acyclic, EvalFork;
    if |item.childs| == 1 && item.childs[0].head.Sequential? {
      assert CallsBelow(w, rank, r, st.path, item.childs[0]);
      ForkDepth(w, rank, r, d, d', item, PartsFork(item.childs[0].childs, st));
    }
  }

  lemma {:induction false} GroupDepth(w: World, rank: Item -> nat, r: nat, d: nat, d': nat, item: Item, st: PlanState)
    requires Acyclic(w, rank) && CallsBelow(w, rank, r, st.path, item) && r <= d && r <= d'
    requires item.head.Group?
    ensures Same(st, EvalGroup(w, d, item, st), EvalGroup(w, d', item, st))
    decreases r, 1, item, 2
  {
    hide Acyclic;
    var g := item.head;
    var id := w.host.jinja(g.id, st.items);
    if id.Some? {
      GroupCallsResource(w, id.value, g.groupType, g.values, g.blossoms, st);
      var end := StartGroup(w, g, st);
      if end.CallResource? { CallDepth(w, rank, r, d, d', end.tree, g.values, end.st); }
    }
  }

  lemma {:induction false} CallDepth(w: World, rank: Item -> nat, r: nat, d: nat, d': nat,
                                     t: Item, values: ValueItemMap, st: PlanState)
    requires Acyclic(w, rank) && rank(t) < r <= d && r <= d'
    requires t in w.trees.Values || t in w.resources.Values
    ensures Same(st, EvalCall(w, d, t, values, st), EvalCall(w, d', t, values, st))
    decreases r, 0
  {
    if Fillable(w.host, st.items, values) && t.head.Tree? {
      var inner := st.(items := ItemsOf(CallMap(w.host, t, values, st.items)));
      assert CallsBelow(w, rank, rank(t), "", t);
      hide Acyclic;
      assert CallsBelow(w, rank, rank(t), inner.path, t);
      DepthIsEnough(w, rank, rank(t), d - 1, d' - 1, t, inner);
    }
  }

  lemma {:induction false} PartsDepth(w: World, rank: Item -> nat, r: nat, d: nat, d': nat,
                                      items: seq<Item>, st: PlanState)
    requires Acyclic(w, rank) && r <= d && r <= d'
    requires forall i :: 0 <= i < |items| ==> CallsBelow(w, rank, r, st.path, items[i])
    ensures Same(st, EvalParts(w, d, items, st), EvalParts(w, d', items, st))
    decreases r, 1, items, 2
  {
    hide Acyclic, CallsBelow;
    if items != [] {
      DepthIsEnough(w, rank, r, d, d', items[0], st);
      EvalScoped(w, d, items[0], st);
      var o := Eval(w, d, items[0], st);
      if o.ok { PartsDepth(w, rank, r, d, d', items[1..], o.st); }
    }
  }

  lemma {:induction false} LoopDepth(w: World, rank: Item -> nat, r: nat, d: nat, d': nat,
                                     content: Item, tempVar: string, range: seq<Data>, st: PlanState)
    requires Acyclic(w, rank) && CallsBelow(w, rank, r, st.path, content) && r <= d && r <= d'
    ensures Same(st, EvalLoop(w, d, content, tempVar, range, st), EvalLoop(w, d', content, tempVar, range, st))
    decreases r, 1, content, 4, |range|
  {
    hide Acyclic, CallsBelow;
    if range != [] {
      var inner := BindVar(st, tempVar, range[0]);
      DepthIsEnough(w, rank, r, d, d', content, inner);
      EvalScoped(w, d, content, inner);
      var o := Eval(w, d, content, inner);
      if o.ok { LoopDepth(w, rank, r, d, d', content, tempVar, range[1..], o.st); }
    }
  }

  lemma {:induction false} LoopItemDepth(w: World, rank: Item -> nat, r: nat, d: nat, d': nat,
                                         item: Item, st: PlanState)
    requires Acyclic(w, rank) && CallsBelow(w, rank, r, st.path, item) && r <= d && r <= d'
    requires item.head.ForEach? || item.head.For?
    ensures Same(st, EvalLoopItem(w, d, item, st), EvalLoopItem(w, d', item, st))
    decreases r, 1, item, 2
  {
    hide Acyclic;
    var s := SetupLoop(w.host, item.head, st);
    if s.Loop? && |item.childs| == 1 {
      assert CallsBelow(w, rank, r, st.path, item.childs[0]);
      hide CallsBelow;
      if s.parallel {
        ForkDepth(w, rank, r, d, d', item, LoopFork(item.childs[0], s, st));
      } else {
        LoopDepth(w, rank, r, d, d', item.childs[0], s.tempVar, s.range, StartLoop(s.values, st));
      }
    }
  }

  lemma {:induction false} ForkDepth(w: World, rank: Item -> nat, r: nat, d: nat, d': nat, parent: Item, f: Fork)
    requires Acyclic(w, rank) && r <= d && r <= d' && ForkOf(parent, f)
    requires forall i :: 0 <= i < |f.kids| ==>
      CallsBelow(w, rank, r, f.kids[i].st.path, f.kids[i].item) && !f.kids[i].st.error.Endless?
    ensures Same(f.st, EvalFork(w, d, parent, f), EvalFork(w, d', parent, f))
    decreases r, 1, parent, 1
  {
    hide Acyclic, CallsBelow, Eval;
    var os, os' := EvalKids(w, d, parent, f), EvalKids(w, d', parent, f);
    forall i | 0 <= i < |os| ensures os[i] == os'[i] && !os[i].st.error.Endless? {
      DepthIsEnough(w, rank, r, d, d', f.kids[i].item, f.kids[i].st);
    }
    assert os == os';
    var o := SequentialJoin(w.host, f, os);
    if !AllOk(os) {
      ErrorsEnd(os, f.st.(counter := o.st.counter, clean := o.st.clean, log := o.st.log));
      JoinRecords(w.host, f, (f.st.counter + |f.kids|) % U32, false, os);
    }
  }

  lemma {:induction false} ErrorsEnd(os: seq<Outcome>, st: PlanState)
    requires forall i :: 0 <= i < |os| ==> !os[i].st.error.Endless?
    ensures TakeError(st, os).error.Endless? ==> st.error.Endless?
    decreases |os|
  {
    if os != [] { ErrorsEnd(os[..|os| - 1], st); }
  }

  // the first thing an item does is to call a subtree
  predicate Begins(item: Item, name: string, values: ValueItemMap) {
    item.head == Subtree(name, values) ||
    (item.head.Sequential? && item.childs != [] && Begins(item.childs[0], name, values))
  }

  // the values of the call can be filled in all initialized maps and leave the callee initialized
  ghost predicate AlwaysCallable(h: Host, t: Item, values: ValueItemMap)
    requires t.head.Tree?
  {
    forall env: Env :: Initialized(env) ==>
      Fillable(h, env, values) && Initialized(ItemsOf(CallMap(h, t, values, env)))
  }

  /** A tree that begins by calling itself: no bound on the nesting of calls is enough. */
  lemma {:induction false} SelfCallNeverReturns(w: World, d: nat, t: Item, name: string, values: ValueItemMap,
                                                st: PlanState)
    requires t.head.Tree? && |t.childs| == 1 && Begins(t.childs[0], name, values)
    requires w.Callee(t.Path(), name) == Some(t) && AlwaysCallable(w.host, t, values) && Initialized(st.items)
    ensures !Eval(w, d, t, st).ok && Eval(w, d, t, st).st.error == Endless
    decreases d, 1
  {
    EvalOf(w, d, t, st);
    hide Eval;
    BeginningNeverReturns(w, d, t.childs[0], t, name, values, OpenTree(t, Record(st, Entered)));
  }

  lemma {:induction false} BeginningNeverReturns(w: World, d: nat, item: Item, t: Item, name: string,
                                                 values: ValueItemMap, st: PlanState)
    requires t.head.Tree? && |t.childs| == 1 && Begins(t.childs[0], name, values) && Begins(item, name, values)
    requires w.Callee(t.Path(), name) == Some(t) && AlwaysCallable(w.host, t, values)
    requires Initialized(st.items) && st.path == t.Path()
    ensures !Eval(w, d, item, st).ok && Eval(w, d, item, st).st.error == Endless
    decreases d, 0, item
  {
    EvalOf(w, d, item, st);
    hide Eval;
    var inside := Record(st, Entered);
    if item.head.Subtree? {
      var called := CallMap(w.host, t, values, inside.items);
      if d > 0 { SelfCallNeverReturns(w, d - 1, t, name, values, inside.(items := ItemsOf(called))); }
    } else {
      BeginningNeverReturns(w, d, item.childs[0], t, name, values, inside);
    }
  }

  // ---------------------------------------------------------------- one fork per plan

  /** How often a plan that processes this item can fork; a repeated body that forks counts as
      more than once. */
  ghost function Forks(w: World, d: nat, path: string, item: Item): nat
    decreases d, 1, item, 0
  {
    match item.head
    case Blossom(_) => 0
    case Group(_, _, _, blossoms) => CallForks(w, d, Resource(w, blossoms))
    case Subtree(name, _) => CallForks(w, d, w.Callee(path, name))
    case Tree(_, _, _, _) => PartsForks(w, d, item.Path(), item.childs)
    case Sequential => PartsForks(w, d, path, item.childs)
    case If(_, _, _) =>
      if |item.childs| != 2 then 0
      else
        var a, b := Forks(w, d, path, item.childs[0]), Forks(w, d, path, item.childs[1]);
        if a < b then b else a
    case Parallel => 1
    case _ => if item.head.parallel then 1 else 2 * PartsForks(w, d, path, item.childs)
  }

  ghost function CallForks(w: World, d: nat, t: Option<Item>): nat
    decreases d, 0
  {
    if d == 0 || t.None? then 0 else Forks(w, d - 1, "", t.value)
  }

  ghost function PartsForks(w: World, d: nat, path: string, items: seq<Item>): nat
    decreases d, 1, items
  {
    if items == [] then 0 else Forks(w, d, path, items[0]) + PartsForks(w, d, path, items[1..])
  }

  /** Each plan that a fork inside this item starts forks at most once, and so on below. */
  ghost predicate SingleForks(w: World, d: nat, path: string, item: Item)
    decreases d, 1, item
  {
    match item.head
    case Blossom(_) => true
    case Group(_, _, _, blossoms) => CallSingle(w, d, Resource(w, blossoms))
    case Subtree(name, _) => CallSingle(w, d, w.Callee(path, name))
    case Tree(_, _, _, _) => forall i :: 0 <= i < |item.childs| ==> SingleForks(w, d, item.Path(), item.childs[i])
    case Parallel =>
      |item.childs| == 1 ==>
        forall i :: 0 <= i < |item.childs[0].childs| ==>
          SingleForks(w, d, path, item.childs[0].childs[i]) && Forks(w, d, path, item.childs[0].childs[i]) <= 1
    case _ =>
      forall i :: 0 <= i < |item.childs| ==>
        SingleForks(w, d, path, item.childs[i]) &&
        ((item.head.For? || item.head.ForEach?) && item.head.parallel ==> Forks(w, d, path, item.childs[i]) <= 1)
  }

  ghost predicate CallSingle(w: World, d: nat, t: Option<Item>)
    decreases d, 0
  {
    d > 0 && t.Some? ==> SingleForks(w, d - 1, "", t.value)
  }

  // every fork waited for as many children as it spawned
  predicate ExactLog(log: seq<Event>) {
    forall i :: 0 <= i < |log| && log[i].Forked? ==> log[i].exact
  }

  // what a run with n forks of its own does to the counter
  predicate Sound(st: PlanState, o: Outcome, n: nat) {
    (st.clean && ExactLog(o.st.log) ==> o.st.clean) && (n == 0 ==> o.st.counter == st.counter)
  }

  predicate MayFork(st: PlanState, n: nat) { n == 0 || (n == 1 && st.counter == 0) }

  lemma ExactPrefix(a: seq<Event>, b: seq<Event>)
    requires a <= b && ExactLog(b)
    ensures ExactLog(a)
  {
    forall i | 0 <= i < |a| && a[i].Forked? ensures a[i].exact { assert b[i] == a[i]; }
  }

  // two runs after each other
  lemma SoundAfter(st: PlanState, o: Outcome, o': Outcome, n: nat, m: nat)
    requires Sound(st, o, n) && Sound(o.st, o', m) && o.st.log <= o'.st.log
    ensures Sound(st, o', n + m)
  {
    if ExactLog(o'.st.log) { ExactPrefix(o.st.log, o'.st.log); }
  }

  /** A run of a plan that forks at most once, on a fresh counter, and whose children do the
      same: the counters stay sound as long as all loops have targets that fit. */
  lemma {:induction false} OneForkIsClean(w: World, d: nat, item: Item, before: PlanState)
    requires SingleForks(w, d, before.path, item) && MayFork(before, Forks(w, d, before.path, item))
    ensures Sound(before, Eval(w, d, item, before), Forks(w, d, before.path, item))
    decreases d, 1, item, 3
  {
    var st := Record(before, Entered);
    EvalOf(w, d, item, before);
    hide Eval, EvalGroup, EvalTree, EvalCall, EvalIf, EvalParts, EvalParallel, EvalLoopItem, RunBlossom;
    match item.head
    case Blossom(b) => RunBlossomScoped(w, b, st);
    case Group(_, _, _, _) => GroupClean(w, d, item, st);
    case Tree(_, _, _, _) => TreeClean(w, d, item, st);
    case Subtree(name, values) =>
      var t := w.Callee(st.path, name);
      if t.Some? { CallClean(w, d, t.value, values, st); }
    case If(_, _, _) => IfClean(w, d, item, st);
    case Sequential => PartsClean(w, d, item.childs, st);
    case Parallel => ParallelClean(w, d, item, st);
    case _ => LoopItemClean(w, d, item, st);
  }

  lemma {:induction false} TreeClean(w: World, d: nat, item: Item, st: PlanState)
    requires item.head.Tree? && SingleForks(w, d, st.path, item) && MayFork(st, Forks(w, d, st.path, item))
    ensures Sound(st, EvalTree(w, d, item, st), Forks(w, d, st.path, item))
    decreases d, 1, item, 2
  {
    hide Eval;
    if Initialized(st.items) && |item.childs| == 1 {
      SinglePart(w, d, item.Path(), item.childs);
      OneForkIsClean(w, d, item.childs[0], OpenTree(item, st));
    }
  }

  lemma {:induction false} IfClean(w: World, d: nat, item: Item, st: PlanState)
    requires item.head.If? && SingleForks(w, d, st.path, item) && MayFork(st, Forks(w, d, st.path, item))
    ensures Sound(st, EvalIf(w, d, item, st), Forks(w, d, st.path, item))
    decreases d, 1, item, 2
  {
    hide Eval;
    var c := ChooseBranch(w.host, item.head, st);
    if c.Choose? && |item.childs| == 2 { OneForkIsClean(w, d, item.childs[c.branch], st); }
  }

  lemma {:induction false} ParallelClean(w: World, d: nat, item: Item, st: PlanState)
    requires item.head.Parallel? && SingleForks(w, d, st.path, item) && MayFork(st, Forks(w, d, st.path, item))
    ensures Sound(st, EvalParallel(w, d, item, st), Forks(w, d, st.path, item))
    decreases d, 1, item, 2
  {
    hide EvalFork;
    if |item.childs| == 1 && item.childs[0].head.Sequential? {
      ForkClean(w, d, item, PartsFork(item.childs[0].childs, st));
    }
  }

  lemma SinglePart(w: World, d: nat, path: string, items: seq<Item>)
    requires |items| == 1
    ensures PartsForks(w, d, path, items) == Forks(w, d, path, items[0])
  {
    assert PartsForks(w, d, path, items[1..]) == 0;
  }

  lemma {:induction false} GroupClean(w: World, d: nat, item: Item, st: PlanState)
    requires item.head.Group?
    requires SingleForks(w, d, st.path, item) && MayFork(st, Forks(w, d, st.path, item))
    ensures Sound(st, EvalGroup(w, d, item, st), Forks(w, d, st.path, item))
    decreases d, 1, item, 2
  {
    var g := item.head;
    var id := w.host.jinja(g.id, st.items);
    if id.Some? {
      RunGroupScoped(w, id.value, g.groupType, g.values, g.blossoms, st);
      GroupCallsResource(w, id.value, g.groupType, g.values, g.blossoms, st);
      var end := StartGroup(w, g, st);
      if end.CallResource? {
        CallClean(w, d, end.tree, g.values, end.st);
      }
    }
  }

  lemma {:induction false} CallClean(w: World, d: nat, t: Item, values: ValueItemMap, st: PlanState)
    requires CallSingle(w, d, Some(t)) && MayFork(st, CallForks(w, d, Some(t)))
    ensures Sound(st, EvalCall(w, d, t, values, st), CallForks(w, d, Some(t)))
    decreases d, 0
  {
    hide Eval, Fillable, FillMap, CallMap, FillOutput, OutputComplete, ItemsOf, Override;
    if Fillable(w.host, st.items, values) && t.head.Tree? && d > 0 {
      var inner := st.(items := ItemsOf(CallMap(w.host, t, values, st.items)));
      assert SingleForks(w, d - 1, inner.path, t) && Forks(w, d - 1, inner.path, t) == Forks(w, d - 1, "", t);
      OneForkIsClean(w, d - 1, t, inner);
    }
  }

  lemma {:induction false} PartsClean(w: World, d: nat, items: seq<Item>, st: PlanState)
    requires forall i :: 0 <= i < |items| ==> SingleForks(w, d, st.path, items[i])
    requires MayFork(st, PartsForks(w, d, st.path, items))
    ensures Sound(st, EvalParts(w, d, items, st), PartsForks(w, d, st.path, items))
    decreases d, 1, items, 2
  {
    hide SingleForks, Forks, Eval;
    if items != [] {
      EvalScoped(w, d, items[0], st);
      OneForkIsClean(w, d, items[0], st);
      var o := Eval(w, d, items[0], st);
      if o.ok {
        PartsClean(w, d, items[1..], o.st);
        PartsScoped(w, d, items[1..], o.st);
        SoundAfter(st, o, EvalParts(w, d, items[1..], o.st),
                   Forks(w, d, st.path, items[0]), PartsForks(w, d, st.path, items[1..]));
      }
    }
  }

  lemma {:induction false} LoopClean(w: World, d: nat, content: Item, tempVar: string, range: seq<Data>, st: PlanState)
    requires SingleForks(w, d, st.path, content) && Forks(w, d, st.path, content) == 0
    ensures Sound(st, EvalLoop(w, d, content, tempVar, range, st), 0)
    decreases d, 1, content, 4, |range|
  {
    hide SingleForks, Forks, Eval;
    if range != [] {
      var inner := BindVar(st, tempVar, range[0]);
      EvalScoped(w, d, content, inner);
      OneForkIsClean(w, d, content, inner);
      var o := Eval(w, d, content, inner);
      if o.ok {
        LoopClean(w, d, content, tempVar, range[1..], o.st);
        LoopScoped(w, d, content, tempVar, range[1..], o.st);
        SoundAfter(st, o, EvalLoop(w, d, content, tempVar, range[1..], o.st), 0, 0);
      }
    }
  }

  lemma {:induction false} LoopItemClean(w: World, d: nat, item: Item, st: PlanState)
    requires item.head.ForEach? || item.head.For?
    requires SingleForks(w, d, st.path, item) && MayFork(st, Forks(w, d, st.path, item))
    ensures Sound(st, EvalLoopItem(w, d, item, st), Forks(w, d, st.path, item))
    decreases d, 1, item, 2
  {
    var s := SetupLoop(w.host, item.head, st);
    if s.Loop? && |item.childs| == 1 {
      SinglePart(w, d, st.path, item.childs);
      if s.parallel {
        ForkClean(w, d, item, LoopFork(item.childs[0], s, st));
      } else {
        LoopClean(w, d, item.childs[0], s.tempVar, s.range, StartLoop(s.values, st));
      }
    }
  }

  lemma {:induction false} ForkClean(w: World, d: nat, parent: Item, f: Fork)
    requires ForkOf(parent, f) && f.st.counter == 0
    requires forall i :: 0 <= i < |f.kids| ==>
      var k := f.kids[i];
      SingleForks(w, d, k.st.path, k.item) && Forks(w, d, k.st.path, k.item) <= 1 && k.st.counter == 0 && k.st.clean
    ensures Sound(f.st, EvalFork(w, d, parent, f), 1)
    decreases d, 1, parent, 1
  {
    hide SingleForks, Forks, Eval;
    var os := EvalKids(w, d, parent, f);
    var log := EvalFork(w, d, parent, f).st.log;
    JoinRecords(w.host, f, (f.st.counter + |f.kids|) % U32, AllOk(os), os);
    if ExactLog(log) {
      assert log[|f.st.log|] == ForkEvent(f);
      forall i | 0 <= i < |os| ensures os[i].st.clean {
        OneForkIsClean(w, d, f.kids[i].item, f.kids[i].st);
        ExactKid(os, i, f.st.log + [ForkEvent(f)]);
      }
    }
  }

  lemma {:induction false} ExactKid(os: seq<Outcome>, i: nat, front: seq<Event>)
    requires i < |os| && ExactLog(front + KidLogs(os))
    ensures ExactLog(os[i].st.log)
    decreases |os|
  {
    var n := |os| - 1;
    var init := front + KidLogs(os[..n]);
    assert front + KidLogs(os) == init + [Started] + os[n].st.log;
    if i == n {
      forall j | 0 <= j < |os[n].st.log| && os[n].st.log[j].Forked? ensures os[n].st.log[j].exact {
        assert (front + KidLogs(os))[|init| + 1 + j] == os[n].st.log[j];
      }
    } else {
      ExactPrefix(init, front + KidLogs(os));
      ExactKid(os[..n], i, front);
    }
  }

  /** The condition of the theorems about the scheduler, for a tree that is run on a fresh
      plan: at most one fork on each plan, and targets that fit. */
  lemma TreeRunIsClean(w: World, d: nat, tree: Item, st: PlanState)
    requires st.counter == 0 && st.clean
    requires SingleForks(w, d, st.path, tree) && Forks(w, d, st.path, tree) <= 1
    requires ExactLog(SequentialJoin(w.host, PartsFork([tree], st), KidOutcomes(w, d, PartsFork([tree], st))).st.log)
    ensures FreshKids(PartsFork([tree], st))
    ensures SequentialJoin(w.host, PartsFork([tree], st), KidOutcomes(w, d, PartsFork([tree], st))).st.clean
  {
    hide SingleForks, Forks, Eval;
    var parent, f := Item(Sequential, [tree]), PartsFork([tree], st);
    assert KidOutcomes(w, d, f) == EvalKids(w, d, parent, f);
    ForkClean(w, d, parent, f);
  }
}
