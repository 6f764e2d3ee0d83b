// One plan as a machine that stops at every processSakuraItem and at every fork. The
// frames are what the call stack of the thread still holds.
module Machine {
  import opened Values
  import opened Filling
  import opened Items
  import opened Semantics
  import opened Scoping

  datatype Frame =
    | PartsFrame(d: nat, rest: seq<Item>)
    | TreeFrame(path: string)
    | CallFrame(backup: Env, called: map<string, ValueItem>)
    | LoopFrame(d: nat, content: Item, tempVar: string, range: seq<Data>, backup: Env)

  datatype Stack = Empty | Push(top: Frame, below: Stack)

  datatype Config =
    | Process(d: nat, item: Item, st: PlanState, stack: Stack)
    | Waiting(d: nat, fork: Fork, stack: Stack)
    | Finished(o: Outcome)

  // ---------------------------------------------------------------- steps

  /** Return with an outcome into the frames, up to the next item or the end. */
  function Resume(w: World, k: Stack, o: Outcome): Config {
    match k
    case Empty => Finished(o)
    case Push(PartsFrame(d, rest), below) =>
      if o.ok && rest != [] then Process(d, rest[0], o.st, Push(PartsFrame(d, rest[1..]), below))
      else Resume(w, below, o)
    case Push(TreeFrame(path), below) => Resume(w, below, CloseTree(path, o))
    case Push(CallFrame(backup, called), below) => Resume(w, below, FinishCall(w.host, backup, called, o))
    case Push(LoopFrame(d, content, tempVar, range, backup), below) =>
      if o.ok && range != [] then
        Process(d, content, BindVar(o.st, tempVar, range[0]),
                Push(LoopFrame(d, content, tempVar, range[1..], backup), below))
      else Resume(w, below, FinishLoop(backup, o))
  }

  function StartCall(w: World, d: nat, t: Item, values: ValueItemMap, st: PlanState, k: Stack): Config {
    if !Fillable(w.host, st.items, values) then Resume(w, k, Fail(st, CallValues))
    else if !t.head.Tree? then Resume(w, k, Fail(st, NullAccess))
    else if d == 0 then Resume(w, k, Fail(st, Endless))
    else
      var called := CallMap(w.host, t, values, st.items);
      Process(d - 1, t, st.(items := ItemsOf(called)), Push(CallFrame(st.items, called), k))
  }

  function StartLoopItem(w: World, d: nat, item: Item, st: PlanState, k: Stack): Config
    requires item.head.ForEach? || item.head.For?
  {
    var s := SetupLoop(w.host, item.head, st);
    if s.NoLoop? then Resume(w, k, Fail(st, s.error))
    else if |item.childs| != 1 then Resume(w, k, Fail(st, NullAccess))
    else if s.parallel then Waiting(d, LoopFork(item.childs[0], s, st), k)
    else Resume(w, Push(LoopFrame(d, item.childs[0], s.tempVar, s.range, st.items), k),
                Outcome(true, StartLoop(s.values, st)))
  }

  /** One call of processSakuraItem up to the next nested one, fork or end. */
  function StartItem(w: World, d: nat, item: Item, before: PlanState, k: Stack): Config {
    var st := Record(before, Entered);
    match item.head
    case Blossom(b) => Resume(w, k, RunBlossom(w, b, st))
    case Group(_, _, values, _) =>
      (match StartGroup(w, item.head, st)
       case Ended(o) => Resume(w, k, o)
       case CallResource(t, st') => StartCall(w, d, t, values, st', k))
    case Tree(_, _, _, _) =>
      if !Initialized(st.items) then Resume(w, k, Fail(st, Uninitialized))
      else if |item.childs| != 1 then Resume(w, k, Fail(st, NullAccess))
      else Process(d, item.childs[0], OpenTree(item, st), Push(TreeFrame(st.path), k))
    case Subtree(name, values) =>
      (match w.Callee(st.path, name)
       case None => Resume(w, k, Fail(st, UnknownTree))
       case Some(t) => StartCall(w, d, t, values, st, k))
    case If(_, _, _) =>
      (match ChooseBranch(w.host, item.head, st)
       case NoChoice(e) => Resume(w, k, Fail(st, e))
       case Choose(i) =>
         if |item.childs| != 2 then Resume(w, k, Fail(st, NullAccess)) else Process(d, item.childs[i], st, k))
    case Sequential => Resume(w, Push(PartsFrame(d, item.childs), k), Outcome(true, st))
    case Parallel =>
      if |item.childs| != 1 || !item.childs[0].head.Sequential? then Resume(w, k, Fail(st, NullAccess))
      else Waiting(d, PartsFork(item.childs[0].childs, st), k)
    case _ => StartLoopItem(w, d, item, st, k)
  }

  // ---------------------------------------------------------------- meaning

  ghost function AfterFrame(w: World, f: Frame, o: Outcome): Outcome {
    match f
    case PartsFrame(d, rest) => if o.ok then EvalParts(w, d, rest, o.st) else o
    case TreeFrame(path) => CloseTree(path, o)
    case CallFrame(backup, called) => FinishCall(w.host, backup, called, o)
    case LoopFrame(d, content, tempVar, range, backup) =>
      FinishLoop(backup, if o.ok then EvalLoop(w, d, content, tempVar, range, o.st) else o)
  }

  ghost function Unwind(w: World, k: Stack, o: Outcome): Outcome {
    if k.Empty? then o else Unwind(w, k.below, AfterFrame(w, k.top, o))
  }

  ghost function KidOutcomes(w: World, d: nat, f: Fork): (os: seq<Outcome>)
    ensures |os| == |f.kids|
    ensures forall i :: 0 <= i < |os| ==> os[i] == Eval(w, d, f.kids[i].item, f.kids[i].st)
  {
    seq(|f.kids|, i requires 0 <= i < |f.kids| => Eval(w, d, f.kids[i].item, f.kids[i].st))
  }

  /** What the big-step semantics makes of the rest of the run. */
  ghost function Meaning(w: World, c: Config): Outcome {
    match c
    case Process(d, item, st, k) => Unwind(w, k, Eval(w, d, item, st))
    case Waiting(d, f, k) => Unwind(w, k, SequentialJoin(w.host, f, KidOutcomes(w, d, f)))
    case Finished(o) => o
  }

  lemma {:induction false} ResumeMeaning(w: World, k: Stack, o: Outcome)
    ensures Meaning(w, Resume(w, k, o)) == Unwind(w, k, o)
    decreases k
  {
    if k.Push? {
      match k.top
      case PartsFrame(d, rest) => if !o.ok || rest == [] { ResumeMeaning(w, k.below, o); }
      case TreeFrame(path) => ResumeMeaning(w, k.below, CloseTree(path, o));
      case CallFrame(backup, called) => ResumeMeaning(w, k.below, FinishCall(w.host, backup, called, o));
      case LoopFrame(d, content, tempVar, range, backup) =>
        if !o.ok || range == [] { ResumeMeaning(w, k.below, FinishLoop(backup, o)); }
    }
  }

  lemma CallMeaning(w: World, d: nat, t: Item, values: ValueItemMap, st: PlanState, k: Stack)
    ensures Meaning(w, StartCall(w, d, t, values, st, k)) == Unwind(w, k, EvalCall(w, d, t, values, st))
  {
    if !Fillable(w.host, st.items, values) || !t.head.Tree? || d == 0 {
      ResumeMeaning(w, k, EvalCall(w, d, t, values, st));
    }
  }

  lemma WaitingMeaning(w: World, d: nat, parent: Item, f: Fork, k: Stack)
    requires ForkOf(parent, f)
    ensures Meaning(w, Waiting(d, f, k)) == Unwind(w, k, EvalFork(w, d, parent, f))
  {
    assert KidOutcomes(w, d, f) == EvalKids(w, d, parent, f);
  }

  lemma LoopItemMeaning(w: World, d: nat, item: Item, st: PlanState, k: Stack)
    requires item.head.ForEach? || item.head.For?
    ensures Meaning(w, StartLoopItem(w, d, item, st, k)) == Unwind(w, k, EvalLoopItem(w, d, item, st))
  {
    var s := SetupLoop(w.host, item.head, st);
    if s.NoLoop? || |item.childs| != 1 {
      ResumeMeaning(w, k, EvalLoopItem(w, d, item, st));
    } else if s.parallel {
      WaitingMeaning(w, d, item, LoopFork(item.childs[0], s, st), k);
    } else {
      ResumeMeaning(w, Push(LoopFrame(d, item.childs[0], s.tempVar, s.range, st.items), k),
                    Outcome(true, StartLoop(s.values, st)));
    }
  }

  lemma BranchMeaning(w: World, d: nat, item: Item, before: PlanState, k: Stack)
    requires item.head.Tree? || item.head.If? || item.head.Parallel?
    ensures Meaning(w, StartItem(w, d, item, before, k)) == Unwind(w, k, Eval(w, d, item, before))
  {
    var st := Record(before, Entered);
    if item.head.Parallel? && |item.childs| == 1 && item.childs[0].head.Sequential? {
      WaitingMeaning(w, d, item, PartsFork(item.childs[0].childs, st), k);
    } else if item.head.Tree? && Initialized(st.items) && |item.childs| == 1 {
    } else if item.head.If? && ChooseBranch(w.host, item.head, st).Choose? && |item.childs| == 2 {
    } else {
      ResumeMeaning(w, k, Eval(w, d, item, before));
    }
  }

  /** One step of a plan does not change what the big-step semantics says about it. */
  lemma StartItemMeaning(w: World, d: nat, item: Item, before: PlanState, k: Stack)
    ensures Meaning(w, StartItem(w, d, item, before, k)) == Unwind(w, k, Eval(w, d, item, before))
  {
    var st := Record(before, Entered);
    match item.head
    case Blossom(b) => ResumeMeaning(w, k, RunBlossom(w, b, st));
    case Group(_, _, values, _) =>
      match StartGroup(w, item.head, st) {
        case Ended(o) => ResumeMeaning(w, k, o);
        case CallResource(t, st') => CallMeaning(w, d, t, values, st', k);
      }
    case Subtree(name, values) =>
      match w.Callee(st.path, name) {
        case None => ResumeMeaning(w, k, Fail(st, UnknownTree));
        case Some(t) => CallMeaning(w, d, t, values, st, k);
      }
    case Sequential => ResumeMeaning(w, Push(PartsFrame(d, item.childs), k), Outcome(true, st));
    case Tree(_, _, _, _) => BranchMeaning(w, d, item, before, k);
    case If(_, _, _) => BranchMeaning(w, d, item, before, k);
    case Parallel => BranchMeaning(w, d, item, before, k);
    case _ => LoopItemMeaning(w, d, item, st, k);
  }

  // ---------------------------------------------------------------- what steps keep

  function StateOf(c: Config): PlanState {
    match c
    case Process(_, _, st, _) => st
    case Waiting(_, f, _) => f.st
    case Finished(o) => o.st
  }

  /** Returning only adds events and never makes a run clean again. */
  lemma {:induction false} UnwindScoped(w: World, k: Stack, o: Outcome)
    ensures o.st.log <= Unwind(w, k, o).st.log
    ensures Unwind(w, k, o).st.clean ==> o.st.clean
    decreases k
  {
    if k.Push? {
      if o.ok && k.top.PartsFrame? { PartsScoped(w, k.top.d, k.top.rest, o.st); }
      if o.ok && k.top.LoopFrame? { LoopScoped(w, k.top.d, k.top.content, k.top.tempVar, k.top.range, o.st); }
      UnwindScoped(w, k.below, AfterFrame(w, k.top, o));
    }
  }

  // children of a fork start with an empty log on a fresh counter
  predicate FreshKids(f: Fork) {
    forall i :: 0 <= i < |f.kids| ==> f.kids[i].st.log == [] && f.kids[i].st.counter == 0
  }

  predicate Continues(st: PlanState, c: Config) {
    st.log <= StateOf(c).log && Plain(st, StateOf(c)) && (c.Waiting? ==> FreshKids(c.fork))
  }

  lemma {:induction false} ResumeContinues(w: World, k: Stack, o: Outcome)
    ensures Continues(o.st, Resume(w, k, o))
    decreases k
  {
    if k.Push? {
      match k.top
      case PartsFrame(d, rest) => if !o.ok || rest == [] { ResumeContinues(w, k.below, o); }
      case TreeFrame(path) => ResumeContinues(w, k.below, CloseTree(path, o));
      case CallFrame(backup, called) => ResumeContinues(w, k.below, FinishCall(w.host, backup, called, o));
      case LoopFrame(d, content, tempVar, range, backup) =>
        if !o.ok || range == [] { ResumeContinues(w, k.below, FinishLoop(backup, o)); }
    }
  }

  lemma StartCallContinues(w: World, d: nat, t: Item, values: ValueItemMap, st: PlanState, k: Stack)
    ensures Continues(st, StartCall(w, d, t, values, st, k))
  {
    if !Fillable(w.host, st.items, values) || !t.head.Tree? || d == 0 {
      ResumeContinues(w, k, EvalCall(w, d, t, values, st));
    }
  }

  lemma StartLoopContinues(w: World, d: nat, item: Item, st: PlanState, k: Stack)
    requires item.head.ForEach? || item.head.For?
    ensures Continues(st, StartLoopItem(w, d, item, st, k))
  {
    var s := SetupLoop(w.host, item.head, st);
    if s.NoLoop? {
      ResumeContinues(w, k, Fail(st, s.error));
    } else if |item.childs| != 1 {
      ResumeContinues(w, k, Fail(st, NullAccess));
    } else if !s.parallel {
      ResumeContinues(w, Push(LoopFrame(d, item.childs[0], s.tempVar, s.range, st.items), k),
                      Outcome(true, StartLoop(s.values, st)));
    }
  }

  lemma BranchContinues(w: World, d: nat, item: Item, before: PlanState, k: Stack)
    requires item.head.Tree? || item.head.If? || item.head.Parallel?
    ensures Continues(Record(before, Entered), StartItem(w, d, item, before, k))
  {
    hide Resume, WaitingForks;
    var st := Record(before, Entered);
    ResumeContinues(w, k, Fail(st, Uninitialized));
    ResumeContinues(w, k, Fail(st, NullAccess));
    if item.head.If? {
      var c := ChooseBranch(w.host, item.head, st);
      if c.NoChoice? { ResumeContinues(w, k, Fail(st, c.error)); }
    }
  }

  lemma GroupContinues(w: World, d: nat, item: Item, st: PlanState, k: Stack)
    requires item.head.Group?
    ensures var end := StartGroup(w, item.head, st);
      Continues(st, if end.Ended? then Resume(w, k, end.o)
                    else StartCall(w, d, end.tree, item.head.values, end.st, k))
  {
    var g := item.head;
    var name := w.host.jinja(g.id, st.items);
    if name.Some? { RunGroupScoped(w, name.value, g.groupType, g.values, g.blossoms, st); }
    var end := StartGroup(w, g, st);
    if end.Ended? { ResumeContinues(w, k, end.o); }
    else { StartCallContinues(w, d, end.tree, g.values, end.st, k); }
  }

  /** Every step records at least its own event and leaves the counter alone. */
  lemma StartItemContinues(w: World, d: nat, item: Item, before: PlanState, k: Stack)
    ensures Continues(Record(before, Entered), StartItem(w, d, item, before, k))
  {
    var st := Record(before, Entered);
    match item.head
    case Blossom(b) => RunBlossomScoped(w, b, st); ResumeContinues(w, k, RunBlossom(w, b, st));
    case Group(_, _, _, _) => GroupContinues(w, d, item, st, k);
    case Subtree(name, values) =>
      match w.Callee(st.path, name) {
        case None => ResumeContinues(w, k, Fail(st, UnknownTree));
        case Some(t) => StartCallContinues(w, d, t, values, st, k);
      }
    case Sequential => ResumeContinues(w, Push(PartsFrame(d, item.childs), k), Outcome(true, st));
    case Tree(_, _, _, _) => BranchContinues(w, d, item, before, k);
    case If(_, _, _) => BranchContinues(w, d, item, before, k);
    case Parallel => BranchContinues(w, d, item, before, k);
    case _ => StartLoopContinues(w, d, item, st, k);
  }

  /** A failure returns through all frames: the plan enters no further item. */
  lemma {:induction false} FailureEndsPlan(w: World, k: Stack, o: Outcome)
    requires !o.ok
    ensures Resume(w, k, o).Finished? && !Resume(w, k, o).o.ok
    decreases k
  {
    if k.Push? {
      match k.top
      case PartsFrame(d, rest) => FailureEndsPlan(w, k.below, o);
      case TreeFrame(path) => FailureEndsPlan(w, k.below, CloseTree(path, o));
      case CallFrame(backup, called) => FailureEndsPlan(w, k.below, FinishCall(w.host, backup, called, o));
      case LoopFrame(d, content, tempVar, range, backup) => FailureEndsPlan(w, k.below, FinishLoop(backup, o));
    }
  }
}
