// The fork-join scheduler: plans nested below the plan that forked them, one FIFO queue,
// a pool of worker threads and the thread that runs the root plan. A schedule decides
// before every step which thread moves next.
module Scheduler {
  import opened Values
  import opened Filling
  import opened Items
  import opened Semantics
  import opened Scoping
  import opened Machine

  // a plan is pushed, taken by a worker, has reported its result and is counted
  datatype Phase = Queued | Busy | Reported | Counted

  /** A GrowthPlan with the thread position of its run. `begun` says that shouldCount of
      the current fork is set; `taken` counts how often the plan left the queue and `counted`
      the children counted in all its forks. */
  datatype Plan = Plan(
    config: Config, phase: Phase, success: bool, begun: bool,
    isCounter: nat, shouldCount: nat, taken: nat, counted: nat, kids: seq<Plan>)

  type Path = seq<nat>
  datatype System = System(root: Plan, queue: seq<Path>)
  datatype Choice = Move(path: Path) | Take

  function NewPlan(k: Kid, d: nat): Plan {
    Plan(Process(d, k.item, k.st, Empty), Queued, true, false, 0, 0, 0, 0, [])
  }

  function Number(kids: seq<Plan>, phase: Phase): nat {
    if kids == [] then 0
    else Number(kids[..|kids| - 1], phase) + if kids[|kids| - 1].phase == phase then 1 else 0
  }

  function Results(kids: seq<Plan>): seq<Outcome> {
    seq(|kids|, i requires 0 <= i < |kids| => Outcome(kids[i].success, StateOf(kids[i].config)))
  }

  predicate CanSpawn(p: Plan) {
    p.config.Waiting? && p.begun && |p.kids| < |p.config.fork.kids|
  }

  /** waitUntilFinish can return: isEqual() of the counter. */
  predicate Releasable(p: Plan) {
    p.config.Waiting? && p.begun && |p.kids| >= |p.config.fork.kids| && p.isCounter == p.shouldCount
  }

  // ---------------------------------------------------------------- steps

  /** The thread of a plan moves on; None where it sleeps or has nothing left to do. */
  function LocalStep(w: World, p: Plan): Option<Plan> {
    match p.config
    case Finished(_) => None
    case Process(d, item, st, k) =>
      // a plan whose success flag another thread has cleared skips the item
      Some(p.(config := if p.success then StartItem(w, d, item, st, k) else Resume(w, k, Outcome(true, st))))
    case Waiting(d, f, k) =>
      if !p.begun then Some(p.(begun := true, shouldCount := f.should))
      else if CanSpawn(p) then Some(p.(kids := p.kids + [NewPlan(f.kids[|p.kids|], d)]))
      else if Releasable(p) then
        // merge or error of the children, then clearChilds
        var o := JoinFork(w.host, f, p.isCounter, p.success, Results(p.kids));
        Some(p.(config := Resume(w, k, o), success := o.ok, begun := false, kids := []))
      else None
  }

  // the last two steps of a worker on a plan write to the parent
  function Report(p: Plan, i: nat): Plan
    requires i < |p.kids| && p.kids[i].config.Finished?
  {
    var ok := p.kids[i].config.o.ok;
    p.(success := p.success && ok, kids := p.kids[i := p.kids[i].(phase := Reported, success := ok)])
  }

  function Increase(p: Plan, i: nat): Plan
    requires i < |p.kids|
  {
    p.(isCounter := (p.isCounter + 1) % U32, counted := p.counted + 1,
       kids := p.kids[i := p.kids[i].(phase := Counted)])
  }

  // a worker is past its run of the child the path ends at
  predicate Ending(p: Plan, path: Path) {
    |path| == 1 && path[0] < |p.kids| &&
    var kid := p.kids[path[0]];
    kid.phase.Reported? || (kid.phase.Busy? && kid.config.Finished?)
  }

  function MoveAt(w: World, p: Plan, path: Path): Option<Plan>
    decreases path
  {
    if path == [] then LocalStep(w, p)
    else if path[0] >= |p.kids| then None
    else
      var i, kid := path[0], p.kids[path[0]];
      if Ending(p, path) then Some(if kid.phase.Reported? then Increase(p, i) else Report(p, i))
      else if !kid.phase.Busy? then None
      else
        var moved := MoveAt(w, kid, path[1..]);
        if moved.None? then None else Some(p.(kids := p.kids[i := moved.value]))
  }

  function At(p: Plan, path: Path): Option<Plan>
    decreases path
  {
    if path == [] then Some(p)
    else if path[0] < |p.kids| then At(p.kids[path[0]], path[1..]) else None
  }

  // addGrowthPlan: the queue entry a step of the plan at this path adds
  function Pushed(p: Plan, path: Path): seq<Path> {
    var q := At(p, path);
    if q.Some? && CanSpawn(q.value) then [path + [|q.value.kids|]] else []
  }

  function TakeAt(p: Plan, path: Path): Plan
    decreases path
  {
    if path == [] then p.(phase := Busy, taken := p.taken + 1)
    else if path[0] < |p.kids| then p.(kids := p.kids[path[0] := TakeAt(p.kids[path[0]], path[1..])])
    else p
  }

  // plans held by worker threads, among these and everything below
  function Workers(kids: seq<Plan>): nat {
    if kids == [] then 0
    else
      var last := kids[|kids| - 1];
      Workers(kids[..|kids| - 1]) + Workers(last.kids) +
        if last.phase.Busy? || last.phase.Reported? then 1 else 0
  }

  function Next(w: World, threads: nat, s: System, c: Choice): Option<System> {
    match c
    case Move(path) =>
      var moved := MoveAt(w, s.root, path);
      if moved.None? then None else Some(System(moved.value, s.queue + Pushed(s.root, path)))
    case Take =>
      if s.queue == [] || Workers(s.root.kids) >= threads then None
      else Some(System(TakeAt(s.root, s.queue[0]), s.queue[1..]))
  }

  /** A finite run; a choice that cannot move is skipped (the thread sleeps). */
  function Run(w: World, threads: nat, s: System, schedule: seq<Choice>): System
    decreases |schedule|
  {
    if schedule == [] then s
    else
      var before := Run(w, threads, s, schedule[..|schedule| - 1]);
      var next := Next(w, threads, before, schedule[|schedule| - 1]);
      if next.Some? then next.value else before
  }

  // the calling thread enters the fork of the root plan
  function Start(d: nat, f: Fork): System {
    System(Plan(Waiting(d, f, Empty), Busy, true, false, f.st.counter, 0, 1, f.st.counter, []), [])
  }

  // ---------------------------------------------------------------- invariant

  predicate HasReported(p: Plan) { p.phase.Reported? || p.phase.Counted? }

  predicate NoneFailed(kids: seq<Plan>) {
    forall i :: 0 <= i < |kids| && HasReported(kids[i]) ==> kids[i].success
  }

  predicate PhaseOk(p: Plan) {
    (p.phase.Queued? ==> p.config.Process?) && p.taken == (if p.phase.Queued? then 0 else 1) &&
    (HasReported(p) ==> p.config.Finished? && p.success == p.config.o.ok) &&
    (!p.config.Waiting? ==> p.kids == [])
  }

  // a child still means what its start meant
  ghost predicate KidOk(w: World, d: nat, start: Kid, kid: Plan) {
    PhaseOk(kid) && Meaning(w, kid.config) == Eval(w, d, start.item, start.st)
  }

  /** Conservation at a fork: the counter holds the counted children and the success flag
      the reported failures. */
  ghost predicate ForkOk(w: World, p: Plan)
    requires p.config.Waiting?
  {
    var f := p.config.fork;
    CleanFork(f) && FreshKids(f) && |p.kids| <= |f.kids| &&
    (if p.begun then p.shouldCount == f.should else p.kids == []) &&
    p.isCounter == Number(p.kids, Counted) &&
    p.success == NoneFailed(p.kids) &&
    forall i :: 0 <= i < |p.kids| ==> KidOk(w, p.config.d, f.kids[i], p.kids[i])
  }

  ghost predicate LocalGood(w: World, p: Plan) {
    Meaning(w, p.config).st.clean && PhaseOk(p) &&
    (p.config.Process? ==> p.success && !p.begun && p.isCounter == p.config.st.counter) &&
    (p.config.Waiting? ==> ForkOk(w, p))
  }

  ghost predicate Good(w: World, p: Plan) {
    LocalGood(w, p) && forall i :: 0 <= i < |p.kids| ==> Good(w, p.kids[i])
  }

  // ---------------------------------------------------------------- counting

  lemma {:induction false} NumberBound(kids: seq<Plan>, phase: Phase)
    ensures Number(kids, phase) <= |kids|
    ensures Number(kids, phase) == |kids| <==> forall i :: 0 <= i < |kids| ==> kids[i].phase == phase
  {
    if kids != [] {
      var front := kids[..|kids| - 1];
      NumberBound(front, phase);
      if Number(kids, phase) == |kids| {
        forall i | 0 <= i < |kids| ensures kids[i].phase == phase { if i < |front| { assert front[i] == kids[i]; } }
      }
    }
  }

  lemma {:induction false} NumberUpdate(kids: seq<Plan>, i: nat, kid: Plan, phase: Phase)
    requires i < |kids|
    ensures Number(kids[i := kid], phase) ==
      Number(kids, phase) + (if kid.phase == phase then 1 else 0) - (if kids[i].phase == phase then 1 else 0)
  {
    var front := kids[..|kids| - 1];
    var updated := kids[i := kid];
    if i == |kids| - 1 {
      assert updated[..|kids| - 1] == front;
    } else {
      assert updated[..|kids| - 1] == front[i := kid];
      NumberUpdate(front, i, kid, phase);
    }
  }

  lemma {:induction false} PhasesAddUp(kids: seq<Plan>)
    ensures Number(kids, Queued) + Number(kids, Busy) + Number(kids, Reported) + Number(kids, Counted) == |kids|
  {
    if kids != [] { PhasesAddUp(kids[..|kids| - 1]); }
  }

  // ---------------------------------------------------------------- the invariant is kept

  lemma CleanWaiting(w: World, d: nat, f: Fork, k: Stack)
    requires Meaning(w, Waiting(d, f, k)).st.clean
    ensures CleanFork(f) && AllClean(KidOutcomes(w, d, f))
  {
    var os := KidOutcomes(w, d, f);
    UnwindScoped(w, k, SequentialJoin(w.host, f, os));
    JoinRecords(w.host, f, (f.st.counter + |f.kids|) % U32, AllOk(os), os);
  }

  // a configuration just reached by a successful plan without children
  lemma FreshConfigIsGood(w: World, p: Plan, st: PlanState)
    requires p.phase.Busy? && p.taken == 1 && p.kids == [] && !p.begun && (p.success || p.config.Finished?)
    requires Meaning(w, p.config).st.clean && Continues(st, p.config) && p.isCounter == st.counter
    ensures LocalGood(w, p)
  {
    if p.config.Waiting? { CleanWaiting(w, p.config.d, p.config.fork, p.config.stack); }
  }

  lemma ReportedMeaning(w: World, d: nat, start: Kid, kid: Plan)
    requires KidOk(w, d, start, kid) && HasReported(kid)
    ensures Outcome(kid.success, StateOf(kid.config)) == Eval(w, d, start.item, start.st)
  {
    hide Eval;
  }

  lemma NewPlanMeaning(w: World, d: nat, start: Kid)
    ensures KidOk(w, d, start, NewPlan(start, d))
  {
    hide Eval;
  }

  lemma JoinMeaning(w: World, p: Plan)
    requires LocalGood(w, p) && Releasable(p)
    ensures forall i :: 0 <= i < |p.kids| ==>
      p.kids[i].phase.Counted? && KidOk(w, p.config.d, p.config.fork.kids[i], p.kids[i])
    ensures Results(p.kids) == KidOutcomes(w, p.config.d, p.config.fork)
    ensures p.success == AllOk(Results(p.kids)) && p.isCounter == |p.config.fork.kids|
  {
    hide Meaning, Eval;
    NumberBound(p.kids, Counted);
    var os, d, f := Results(p.kids), p.config.d, p.config.fork;
    forall i | 0 <= i < |p.kids| ensures os[i] == KidOutcomes(w, d, f)[i] {
      assert KidOk(w, d, f.kids[i], p.kids[i]);
      ReportedMeaning(w, d, f.kids[i], p.kids[i]);
    }
    assert forall i :: 0 <= i < |p.kids| ==> os[i].ok == p.kids[i].success;
  }

  lemma ProcessKeepsGood(w: World, p: Plan)
    requires LocalGood(w, p) && p.phase.Busy? && p.config.Process?
    ensures var p' := LocalStep(w, p).value;
      LocalGood(w, p') && Meaning(w, p'.config) == Meaning(w, p.config)
  {
    var c := p.config;
    StartItemMeaning(w, c.d, c.item, c.st, c.stack);
    StartItemContinues(w, c.d, c.item, c.st, c.stack);
    FreshConfigIsGood(w, LocalStep(w, p).value, Record(c.st, Entered));
  }

  lemma SpawnKeepsGood(w: World, p: Plan)
    requires LocalGood(w, p) && CanSpawn(p) && p.phase.Busy?
    ensures var p' := LocalStep(w, p).value;
      LocalGood(w, p') && Good(w, p'.kids[|p.kids|])
  {
    hide Meaning, Eval, StartItem, Resume, JoinFork;
    var p', f, d := LocalStep(w, p).value, p.config.fork, p.config.d;
    var n := |p.kids|;
    var kid := NewPlan(f.kids[n], d);
    CleanWaiting(w, d, f, p.config.stack);
    NewPlanMeaning(w, d, f.kids[n]);
    assert Good(w, kid) by { assert KidOutcomes(w, d, f)[n].st.clean; }
    assert p'.kids[..n] == p.kids;
    forall i | 0 <= i < |p'.kids| ensures KidOk(w, d, f.kids[i], p'.kids[i]) {
      if i < n { assert p'.kids[i] == p.kids[i]; }
    }
  }

  lemma ReleaseKeepsGood(w: World, p: Plan)
    requires LocalGood(w, p) && Releasable(p) && !CanSpawn(p) && p.phase.Busy?
    ensures var p' := LocalStep(w, p).value;
      LocalGood(w, p') && Meaning(w, p'.config) == Meaning(w, p.config)
  {
    hide Eval;
    var d, f, k := p.config.d, p.config.fork, p.config.stack;
    JoinMeaning(w, p);
    var os := KidOutcomes(w, d, f);
    var o := SequentialJoin(w.host, f, os);
    assert o == JoinFork(w.host, f, p.isCounter, p.success, os);
    ResumeMeaning(w, k, o);
    ResumeContinues(w, k, o);
    JoinRecords(w.host, f, p.isCounter, p.success, os);
    if !o.ok { FailureEndsPlan(w, k, o); }
    FreshConfigIsGood(w, LocalStep(w, p).value, o.st);
  }

  lemma LocalKeepsGood(w: World, p: Plan)
    requires Good(w, p) && p.phase.Busy? && LocalStep(w, p).Some?
    ensures var p' := LocalStep(w, p).value;
      Good(w, p') && Meaning(w, p'.config) == Meaning(w, p.config) && p'.phase == p.phase
  {
    hide Meaning, Eval;
    if p.config.Process? {
      ProcessKeepsGood(w, p);
    } else if CanSpawn(p) {
      SpawnKeepsGood(w, p);
    } else if p.begun {
      ReleaseKeepsGood(w, p);
    }
  }

  // one child changes, its meaning does not
  lemma KidKeepsGood(w: World, p: Plan, i: nat, kid: Plan, p': Plan)
    requires LocalGood(w, p) && i < |p.kids| && PhaseOk(kid)
    requires Meaning(w, kid.config) == Meaning(w, p.kids[i].config)
    requires p' == p.(kids := p.kids[i := kid], isCounter := p'.isCounter, counted := p'.counted, success := p'.success)
    requires p'.isCounter == Number(p'.kids, Counted) && p'.success == NoneFailed(p'.kids)
    ensures LocalGood(w, p')
  {
    hide Meaning, Eval;
    var d, f := p.config.d, p.config.fork;
    forall j | 0 <= j < |p'.kids| ensures KidOk(w, d, f.kids[j], p'.kids[j]) {
      assert KidOk(w, d, f.kids[j], p.kids[j]);
    }
  }

  // a worker's last steps on the child at i
  lemma ReportKeepsGood(w: World, p: Plan, i: nat)
    requires LocalGood(w, p) && i < |p.kids| && p.kids[i].phase.Busy? && p.kids[i].config.Finished?
    ensures LocalGood(w, Report(p, i))
  {
    hide Meaning, Eval, CleanFork, FreshKids;
    var p' := Report(p, i);
    assert KidOk(w, p.config.d, p.config.fork.kids[i], p.kids[i]);
    NumberUpdate(p.kids, i, p'.kids[i], Counted);
    assert p'.success == NoneFailed(p'.kids) by {
      assert forall j :: 0 <= j < |p.kids| && j != i ==> p'.kids[j] == p.kids[j];
      assert HasReported(p'.kids[i]);
    }
    KidKeepsGood(w, p, i, p'.kids[i], p');
  }

  lemma SameFailures(kids: seq<Plan>, i: nat, kid: Plan)
    requires i < |kids| && HasReported(kids[i]) && HasReported(kid) && kid.success == kids[i].success
    ensures NoneFailed(kids[i := kid]) == NoneFailed(kids)
  {
    var kids' := kids[i := kid];
    assert forall j :: 0 <= j < |kids| && j != i ==> kids'[j] == kids[j];
  }

  lemma IncreaseKeepsGood(w: World, p: Plan, i: nat)
    requires LocalGood(w, p) && i < |p.kids| && p.kids[i].phase.Reported?
    ensures LocalGood(w, Increase(p, i))
  {
    hide Meaning, Eval, FreshKids, NoneFailed, Number, StartItem, Resume, JoinFork;
    var p' := Increase(p, i);
    assert KidOk(w, p.config.d, p.config.fork.kids[i], p.kids[i]);
    NumberUpdate(p.kids, i, p'.kids[i], Counted);
    NumberBound(p'.kids, Counted);
    SameFailures(p.kids, i, p'.kids[i]);
    KidKeepsGood(w, p, i, p'.kids[i], p');
  }

  // a step within the child at i leaves counter and flag of the parent alone
  lemma InnerKeepsGood(w: World, p: Plan, i: nat, kid: Plan)
    requires LocalGood(w, p) && i < |p.kids| && PhaseOk(kid) && !HasReported(kid) && !HasReported(p.kids[i])
    requires Meaning(w, kid.config) == Meaning(w, p.kids[i].config)
    ensures LocalGood(w, p.(kids := p.kids[i := kid]))
  {
    hide Meaning, Eval;
    var p' := p.(kids := p.kids[i := kid]);
    NumberUpdate(p.kids, i, kid, Counted);
    assert NoneFailed(p'.kids) == NoneFailed(p.kids) by {
      assert forall j :: 0 <= j < |p.kids| && j != i ==> p'.kids[j] == p.kids[j];
    }
    KidKeepsGood(w, p, i, kid, p');
  }

  lemma GoodKids(w: World, p: Plan, i: nat, p': Plan)
    requires Good(w, p) && LocalGood(w, p') && i < |p.kids| == |p'.kids|
    requires p'.kids == p.kids[i := p'.kids[i]] && Good(w, p'.kids[i])
    ensures Good(w, p')
  {
    hide Meaning, Eval;
    forall j | 0 <= j < |p'.kids| ensures Good(w, p'.kids[j]) { if j != i { assert Good(w, p.kids[j]); } }
  }

  /** Every step below a plan keeps the invariant and the meaning of the plan. */
  lemma {:induction false} MoveKeepsGood(w: World, p: Plan, path: Path)
    requires Good(w, p) && p.phase.Busy? && MoveAt(w, p, path).Some?
    ensures var p' := MoveAt(w, p, path).value;
      Good(w, p') && Meaning(w, p'.config) == Meaning(w, p.config) && p'.phase == p.phase
    decreases path
  {
    hide Meaning, Eval;
    var p' := MoveAt(w, p, path).value;
    if path == [] {
      LocalKeepsGood(w, p);
    } else {
      var i, kid := path[0], p.kids[path[0]];
      if Ending(p, path) {
        if kid.phase.Reported? { IncreaseKeepsGood(w, p, i); } else { ReportKeepsGood(w, p, i); }
      } else {
        MoveKeepsGood(w, kid, path[1..]);
        InnerKeepsGood(w, p, i, p'.kids[i]);
      }
      GoodKids(w, p, i, p');
    }
  }

  lemma {:induction false} TakeKeepsGood(w: World, p: Plan, path: Path)
    requires Good(w, p) && At(p, path).Some? && At(p, path).value.phase.Queued?
    ensures Good(w, TakeAt(p, path)) && TakeAt(p, path).config == p.config
    ensures TakeAt(p, path).phase == if path == [] then Busy else p.phase
    decreases path
  {
    hide Meaning, Eval;
    if path != [] {
      var i, kid := path[0], p.kids[path[0]];
      TakeKeepsGood(w, kid, path[1..]);
      ParentsAreBusy(w, p, path);
      InnerKeepsGood(w, p, i, TakeAt(p, path).kids[i]);
      GoodKids(w, p, i, TakeAt(p, path));
    }
  }

  // above a plan that is not finished all plans wait
  lemma ParentsAreBusy(w: World, p: Plan, path: Path)
    requires Good(w, p) && path != [] && At(p, path).Some? && At(p, path).value.phase.Queued?
    ensures !HasReported(p.kids[path[0]])
  {
    hide Meaning, Eval;
    var kid := p.kids[path[0]];
    assert Good(w, kid);
    if |path| > 1 { assert kid.kids != []; }
  }

  // so is every plan below
  lemma {:induction false} PlanIsGood(w: World, p: Plan, path: Path)
    requires Good(w, p) && At(p, path).Some?
    ensures Good(w, At(p, path).value)
    decreases path
  {
    hide Meaning, Eval;
    if path != [] {
      PlanIsGood(w, p.kids[path[0]], path[1..]);
    }
  }
}
